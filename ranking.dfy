/**
 * The ranking of main.py:233 and 247:
 * `matches.sort(key=lambda x: x["score"], reverse=True)` then `matches[:5]`.
 *
 * Python's sort is stable, also with `reverse=True`, so entries with equal
 * scores keep their table order. `SortByScore` is that sort, written as an
 * insertion sort; `StableSortUnique` shows that any other sequence with
 * the properties of a stable descending sort is equal to it.
 */
module Ranking {

  import opened SymptomRules

  /** Scores never increase along `s`. */
  predicate Descending(s: seq<Match>) {
    forall i, j :: 0 <= i < j < |s| ==> s[i].score >= s[j].score
  }

  /** The entries of `s` that score `k`, in order. */
  function WithScore(s: seq<Match>, k: nat): (r: seq<Match>)
    ensures |r| <= |s|
    ensures forall i :: 0 <= i < |r| ==> r[i].score == k
  {
    if s == [] then []
    else (if s[0].score == k then [s[0]] else []) + WithScore(s[1..], k)
  }

  /** Puts `m` in front of the first entry that does not score more than it. */
  function Insert(m: Match, s: seq<Match>): seq<Match> {
    if s == [] || s[0].score <= m.score then [m] + s
    else [s[0]] + Insert(m, s[1..])
  }

  /** The stable sort by score, highest first. */
  function SortByScore(ms: seq<Match>): seq<Match> {
    if ms == [] then [] else Insert(ms[0], SortByScore(ms[1..]))
  }

  /** `s[:n]`. */
  function Take(s: seq<Match>, n: nat): (r: seq<Match>)
    ensures |r| == if |s| <= n then |s| else n
    ensures r == s[..|r|]
  {
    if |s| <= n then s else s[..n]
  }

  // ---------------------------------------------------------------------
  // Insert

  /** No entry of `s` scores more than `b`. */
  predicate AtMost(s: seq<Match>, b: nat) {
    forall i :: 0 <= i < |s| ==> s[i].score <= b
  }

  lemma {:induction false} InsertAtMost(m: Match, s: seq<Match>, b: nat)
    requires AtMost(s, b) && m.score <= b
    ensures AtMost(Insert(m, s), b)
  {
    if s != [] && s[0].score > m.score {
      InsertAtMost(m, s[1..], b);
    }
  }

  lemma DescendingCons(x: Match, t: seq<Match>)
    requires Descending(t) && AtMost(t, x.score)
    ensures Descending([x] + t)
  {
  }

  lemma {:induction false} InsertDescending(m: Match, s: seq<Match>)
    requires Descending(s)
    ensures Descending(Insert(m, s))
  {
    if s == [] || s[0].score <= m.score {
      DescendingCons(m, s);
    } else {
      DescendingTail(s);
      InsertDescending(m, s[1..]);
      InsertAtMost(m, s[1..], s[0].score);
      DescendingCons(s[0], Insert(m, s[1..]));
    }
  }

  lemma {:induction false} InsertPermutes(m: Match, s: seq<Match>)
    ensures multiset(Insert(m, s)) == multiset(s) + multiset{m}
  {
    if s != [] && s[0].score > m.score {
      InsertPermutes(m, s[1..]);
      assert s == [s[0]] + s[1..];
    }
  }

  /** Inserting `m` puts it in front of every entry with its score and changes no other score's entries. */
  lemma {:induction false} InsertWithScore(m: Match, s: seq<Match>, k: nat)
    ensures WithScore(Insert(m, s), k) == (if m.score == k then [m] else []) + WithScore(s, k)
  {
    if s == [] || s[0].score <= m.score {
      assert ([m] + s)[1..] == s;
    } else {
      InsertWithScore(m, s[1..], k);
      assert ([s[0]] + Insert(m, s[1..]))[1..] == Insert(m, s[1..]);
    }
  }

  // ---------------------------------------------------------------------
  // The sort

  /** The result is ordered by score, highest first, and is a permutation of the input. */
  lemma {:induction false} SortByScoreSortsAndPermutes(ms: seq<Match>)
    ensures Descending(SortByScore(ms))
    ensures multiset(SortByScore(ms)) == multiset(ms)
  {
    if ms != [] {
      SortByScoreSortsAndPermutes(ms[1..]);
      InsertDescending(ms[0], SortByScore(ms[1..]));
      InsertPermutes(ms[0], SortByScore(ms[1..]));
      assert ms == [ms[0]] + ms[1..];
    }
  }

  /** Stability: for every score, the entries with that score appear in their original order. */
  lemma {:induction false} SortByScoreIsStable(ms: seq<Match>, k: nat)
    ensures WithScore(SortByScore(ms), k) == WithScore(ms, k)
  {
    if ms != [] {
      SortByScoreIsStable(ms[1..], k);
      InsertWithScore(ms[0], SortByScore(ms[1..]), k);
    }
  }

  /** Every entry picked out by `WithScore` comes from `s`. */
  lemma {:induction false} WithScoreMembers(s: seq<Match>, k: nat)
    ensures forall m :: m in WithScore(s, k) ==> m in s
  {
    if s != [] {
      WithScoreMembers(s[1..], k);
      assert s == [s[0]] + s[1..];
    }
  }

  lemma {:induction false} WithScoreNonEmpty(s: seq<Match>, k: nat, j: int)
    requires 0 <= j < |s| && s[j].score == k
    ensures WithScore(s, k) != []
  {
    if j > 0 {
      WithScoreNonEmpty(s[1..], k, j - 1);
    }
  }

  /**
   * A stable descending sort is unique: two sequences ordered by score
   * with the same entries per score, in the same order, are equal.
   */
  lemma {:induction false} DescendingDeterminedByScores(a: seq<Match>, b: seq<Match>)
    requires Descending(a) && Descending(b)
    requires forall k: nat :: WithScore(a, k) == WithScore(b, k)
    ensures a == b
  {
    if a == [] {
      if b != [] {
        WithScoreNonEmpty(b, b[0].score, 0);
      }
    } else if b == [] {
      WithScoreNonEmpty(a, a[0].score, 0);
    } else {
      HeadScoresAgree(a, b);
      var k := a[0].score;
      assert WithScore(a, k) == [a[0]] + WithScore(a[1..], k);
      assert WithScore(b, k) == [b[0]] + WithScore(b[1..], k);
      assert a[0] == WithScore(a, k)[0] == WithScore(b, k)[0] == b[0];
      forall k': nat
        ensures WithScore(a[1..], k') == WithScore(b[1..], k')
      {
        var head := if a[0].score == k' then [a[0]] else [];
        assert WithScore(a, k') == head + WithScore(a[1..], k');
        assert WithScore(b, k') == head + WithScore(b[1..], k');
        assert WithScore(a[1..], k') == WithScore(a, k')[|head|..];
        assert WithScore(b[1..], k') == WithScore(b, k')[|head|..];
      }
      DescendingTail(a);
      DescendingTail(b);
      DescendingDeterminedByScores(a[1..], b[1..]);
      assert a == [a[0]] + a[1..] && b == [b[0]] + b[1..];
    }
  }

  lemma DescendingTail(s: seq<Match>)
    requires Descending(s) && s != []
    ensures Descending(s[1..])
  {
    forall i, j | 0 <= i < j < |s| - 1
      ensures s[1..][i].score >= s[1..][j].score
    {
      assert s[1..][i] == s[i + 1] && s[1..][j] == s[j + 1];
    }
  }

  lemma HeadScoresAgree(a: seq<Match>, b: seq<Match>)
    requires Descending(a) && Descending(b) && a != [] && b != []
    requires forall k: nat :: WithScore(a, k) == WithScore(b, k)
    ensures a[0].score == b[0].score
  {
    if a[0].score > b[0].score {
      HeadNotBelow(a, b);
    } else if a[0].score < b[0].score {
      HeadNotBelow(b, a);
    }
  }

  /** The head of `b` scores at least as much as any entry of `a` with the same per-score entries. */
  lemma HeadNotBelow(a: seq<Match>, b: seq<Match>)
    requires Descending(b) && a != [] && b != []
    requires forall k: nat :: WithScore(a, k) == WithScore(b, k)
    ensures a[0].score <= b[0].score
  {
    var k := a[0].score;
    WithScoreNonEmpty(a, k, 0);
    assert WithScore(b, k) == WithScore(a, k);
    var m := WithScore(b, k)[0];
    WithScoreMembers(b, k);
    assert m in WithScore(b, k);
    var j :| 0 <= j < |b| && b[j] == m;
  }

  /** `SortByScore` is the stable sort by score, highest first: any sequence with its defining properties equals it. */
  lemma StableSortUnique(ms: seq<Match>, s: seq<Match>)
    requires Descending(s)
    requires forall k: nat :: WithScore(s, k) == WithScore(ms, k)
    ensures s == SortByScore(ms)
  {
    SortByScoreSortsAndPermutes(ms);
    forall k: nat
      ensures WithScore(s, k) == WithScore(SortByScore(ms), k)
    {
      SortByScoreIsStable(ms, k);
    }
    DescendingDeterminedByScores(s, SortByScore(ms));
  }

  // ---------------------------------------------------------------------
  // The cut to the top five

  /** A prefix of a descending sequence is descending. */
  lemma TakeDescending(s: seq<Match>, n: nat)
    requires Descending(s)
    ensures Descending(Take(s, n))
  {
  }

  /** What the cut leaves out never scores more than what it keeps. */
  lemma TakeKeepsBest(s: seq<Match>, n: nat)
    requires Descending(s)
    ensures forall i, j :: 0 <= i < |Take(s, n)| <= j < |s| ==> Take(s, n)[i].score >= s[j].score
  {
  }
}
