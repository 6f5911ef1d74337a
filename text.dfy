/**
 * The per-symptom normalisation `s.strip().lower()` (main.py:176).
 *
 * `strip()` removes, at both ends, every character for which Python's
 * `str.isspace()` holds; that set is finite and listed in `IsSpace`.
 * `lower()` is modelled on ASCII letters only: every other character is
 * left as it is.
 */
module Text {

  /** The characters Python's `str.isspace()` accepts. */
  predicate IsSpace(c: char) {
    var n := c as int;
    || (9 <= n <= 13)          // tab, line feed, vertical tab, form feed, carriage return
    || (0x1C <= n <= 0x20)     // the four separators and the space
    || n == 0x85 || n == 0xA0 || n == 0x1680
    || (0x2000 <= n <= 0x200A)
    || n == 0x2028 || n == 0x2029 || n == 0x202F || n == 0x205F || n == 0x3000
  }

  predicate IsUpper(c: char) {
    'A' <= c <= 'Z'
  }

  function LowerChar(c: char): (d: char)
    ensures !IsUpper(d)
    ensures IsUpper(c) ==> d as int == c as int + 32
    ensures !IsUpper(c) ==> d == c
  {
    if IsUpper(c) then (c as int + 32) as char else c
  }

  /** `str.lower()`, restricted to ASCII letters. */
  function Lower(s: string): (r: string)
    ensures |r| == |s|
    ensures forall i :: 0 <= i < |r| ==> !IsUpper(r[i])
    ensures forall i :: 0 <= i < |s| && IsUpper(s[i]) ==> r[i] as int == s[i] as int + 32
    ensures forall i :: 0 <= i < |s| && !IsUpper(s[i]) ==> r[i] == s[i]
  {
    seq(|s|, i requires 0 <= i < |s| => LowerChar(s[i]))
  }

  /** `str.lstrip()`: the longest suffix of `s` that does not start with white space. */
  function TrimStart(s: string): (r: string)
    ensures |r| <= |s| && r == s[|s| - |r|..]
    ensures forall k :: 0 <= k < |s| - |r| ==> IsSpace(s[k])
    ensures r == [] || !IsSpace(r[0])
  {
    if s != [] && IsSpace(s[0]) then TrimStart(s[1..]) else s
  }

  /** `str.rstrip()`: the longest prefix of `s` that does not end with white space. */
  function TrimEnd(s: string): (r: string)
    ensures |r| <= |s| && r == s[..|r|]
    ensures forall k :: |r| <= k < |s| ==> IsSpace(s[k])
    ensures r == [] || !IsSpace(r[|r| - 1])
  {
    if s != [] && IsSpace(s[|s| - 1]) then TrimEnd(s[..|s| - 1]) else s
  }

  /**
   * `str.strip()`: `TrimStart` then `TrimEnd`, whose contracts say what
   * each removes. The result has no white space at either end, and a
   * string with none is left as it is.
   */
  function Strip(s: string): (r: string)
    ensures |r| <= |s|
    ensures Trimmed(r)
    ensures Trimmed(s) ==> r == s
  {
    var t := TrimStart(s);
    var r := TrimEnd(t);
    assert r != [] ==> r[0] == t[0];
    r
  }

  /** One symptom as the symptom checker compares it: stripped, then lower-cased. */
  function Normalize(s: string): (r: string)
    ensures Trimmed(r)
  {
    LowerOfTrimmed(Strip(s));
    Lower(Strip(s))
  }

  /** The list comprehension of main.py:176. */
  function NormalizeAll(symptoms: seq<string>): (r: seq<string>)
    ensures |r| == |symptoms|
    ensures forall i :: 0 <= i < |symptoms| ==> r[i] == Normalize(symptoms[i])
  {
    seq(|symptoms|, i requires 0 <= i < |symptoms| => Normalize(symptoms[i]))
  }

  /** A string with no white space at either end. */
  predicate Trimmed(s: string) {
    s == [] || (!IsSpace(s[0]) && !IsSpace(s[|s| - 1]))
  }

  /** Lowering never creates or removes white space. */
  lemma LowerKeepsSpace(c: char)
    ensures IsSpace(LowerChar(c)) == IsSpace(c)
  {
  }

  lemma LowerOfTrimmed(s: string)
    requires Trimmed(s)
    ensures Trimmed(Lower(s))
  {
    if s != [] {
      LowerKeepsSpace(s[0]);
      LowerKeepsSpace(s[|s| - 1]);
    }
  }

  lemma LowerIdempotent(s: string)
    ensures Lower(Lower(s)) == Lower(s)
  {
    assert forall i :: 0 <= i < |s| ==> Lower(Lower(s))[i] == Lower(s)[i];
  }

  /** Normalising an already normalised symptom changes nothing. */
  lemma NormalizeIdempotent(s: string)
    ensures Normalize(Normalize(s)) == Normalize(s)
  {
    var t := Strip(s);
    LowerOfTrimmed(t);
    LowerIdempotent(t);
  }

  /** A normalised symptom has no upper-case ASCII letter. */
  lemma NormalizeShape(s: string)
    ensures forall i :: 0 <= i < |Normalize(s)| ==> !IsUpper(Normalize(s)[i])
  {
    assert Normalize(s) == Lower(Strip(s));
  }

  /** A symptom already trimmed and free of upper-case ASCII letters is its own normal form. */
  lemma NormalizeFixed(s: string)
    requires Trimmed(s)
    requires forall i :: 0 <= i < |s| ==> !IsUpper(s[i])
    ensures Normalize(s) == s
  {
    assert forall i :: 0 <= i < |s| ==> Lower(s)[i] == s[i];
  }

  /** A trimmed word whose only capital is its first letter normalises to the word with that letter lowered. */
  lemma NormalizeCapitalised(s: string)
    requires Trimmed(s) && s != []
    requires forall i :: 1 <= i < |s| ==> !IsUpper(s[i])
    ensures Normalize(s) == [LowerChar(s[0])] + s[1..]
  {
    var r := Normalize(s);
    assert r == Lower(s);
    assert forall i :: 1 <= i < |s| ==> r[i] == s[i];
  }

  lemma FeverCapitalised()
    ensures Normalize("Fever") == "fever"
  {
    var s := "Fever";
    NormalizeCapitalised(s);
    assert LowerChar(s[0]) == 'f';
    assert [LowerChar(s[0])] + s[1..] == "fever";
  }

  lemma FeverPlain()
    ensures Normalize("fever") == "fever"
  {
    NormalizeFixed("fever");
  }

  /** One space on each side of a trimmed, non-empty symptom is stripped away. */
  lemma StripPadded(t: string)
    requires t != [] && Trimmed(t)
    ensures Strip([' '] + t + [' ']) == t
  {
    var s := [' '] + t + [' '];
    assert s[1..] == t + [' '];
    assert TrimStart(s) == TrimStart(t + [' ']) == t + [' '];
    assert (t + [' '])[..|t|] == t;
    assert TrimEnd(t + [' ']) == TrimEnd(t) == t;
  }

  lemma ChillsPadded()
    ensures Normalize(" chills ") == "chills"
  {
    assert " chills " == [' '] + "chills" + [' '];
    StripPadded("chills");
    ChillsPlain();
  }

  lemma ChillsPlain()
    ensures Normalize("chills") == "chills"
  {
    NormalizeFixed("chills");
  }

  lemma NormalizeAllPair(x: string, y: string)
    ensures NormalizeAll([x, y]) == [Normalize(x), Normalize(y)]
  {
    var xs := [x, y];
    var r := NormalizeAll(xs);
    var a, b := Normalize(x), Normalize(y);
    assert r[0] == a && r[1] == b by {
      assert xs[0] == x && xs[1] == y;
    }
    assert |r| == 2;
    assert r == [a, b];
  }

  /** `["Fever", " chills "]` and `["fever", "chills"]` normalise alike. */
  lemma MixedCaseAndPadding()
    ensures NormalizeAll(["Fever", " chills "]) == NormalizeAll(["fever", "chills"]) == ["fever", "chills"]
  {
    NormalizeAllPair("Fever", " chills ");
    NormalizeAllPair("fever", "chills");
    FeverCapitalised();
    ChillsPadded();
    FeverPlain();
    ChillsPlain();
  }
}
