/**
 * The symptom checker's rule table and the scoring of one rule
 * (main.py:178-231).
 *
 * Symptoms here are already normalised. A rule's `match_any` list adds
 * the number of request symptoms found in it, duplicates included, capped
 * at 2; its `match_all` list adds 2 when every listed symptom is present.
 */
module SymptomRules {

  import opened Wrappers

  datatype Rule = Rule(condition: string, matchAny: Option<seq<string>>,
                       matchAll: Option<seq<string>>, advice: string)

  /** One entry of `likely_conditions`. */
  datatype Match = Match(condition: string, score: nat, advice: string)

  const COMMON_COLD: Rule :=
    Rule("Common Cold",
         Some(["runny nose", "sneezing", "sore throat", "cough"]), None,
         "Rest, fluids, OTC cold meds. See a clinician if symptoms persist >10 days or high fever.")
  const INFLUENZA: Rule :=
    Rule("Influenza (Flu)",
         Some(["fever", "body aches", "chills", "fatigue", "dry cough"]), None,
         "Consider antiviral within 48h, rest and hydrate. Seek care if breathing difficulty.")
  const COVID_19: Rule :=
    Rule("COVID-19",
         Some(["fever", "loss of taste", "loss of smell", "dry cough", "shortness of breath"]), None,
         "Consider rapid test, isolate if positive. Seek urgent care if severe breathlessness or chest pain.")
  const MIGRAINE: Rule :=
    Rule("Migraine",
         None, Some(["headache", "nausea"]),
         "Rest in dark room, consider NSAIDs or triptans if previously prescribed.")
  const GASTROENTERITIS: Rule :=
    Rule("Gastroenteritis",
         Some(["vomiting", "diarrhea", "stomach pain", "nausea"]), None,
         "Oral rehydration, light diet. Seek care if bloody stool or dehydration.")
  const ALLERGIC_RHINITIS: Rule :=
    Rule("Allergic Rhinitis",
         Some(["sneezing", "itchy eyes", "runny nose"]), None,
         "Try antihistamines, nasal saline. Avoid triggers where possible.")
  const STREP_THROAT: Rule :=
    Rule("Strep Throat",
         None, Some(["sore throat", "fever"]),
         "Consider clinical testing. Avoid antibiotics without confirmation.")
  const ANXIETY_PANIC: Rule :=
    Rule("Anxiety/Panic",
         None, Some(["chest tightness", "shortness of breath"]),
         "Practice slow breathing, seek professional evaluation if recurrent.")

  /** The fixed, ordered table of main.py:178-219. */
  const RULES: seq<Rule> := [COMMON_COLD, INFLUENZA, COVID_19, MIGRAINE,
                             GASTROENTERITIS, ALLERGIC_RHINITIS, STREP_THROAT, ANXIETY_PANIC]

  /** `len([s for s in symptoms if s in names])`. */
  function Overlap(symptoms: seq<string>, names: seq<string>): (n: nat)
    ensures n <= |symptoms|
  {
    if symptoms == [] then 0
    else Overlap(symptoms[..|symptoms| - 1], names) + (if symptoms[|symptoms| - 1] in names then 1 else 0)
  }

  function Min(a: int, b: int): int {
    if a <= b then a else b
  }

  /** The `match_any` contribution, `min(2, overlap)`. */
  function AnyContribution(symptoms: seq<string>, names: seq<string>): (n: nat)
    ensures n <= 2 && n <= Overlap(symptoms, names)
    ensures n == 2 || n == Overlap(symptoms, names)
  {
    Min(2, Overlap(symptoms, names))
  }

  /** `all(s in symptoms for s in names)`. */
  predicate HasAll(symptoms: seq<string>, names: seq<string>) {
    forall n :: n in names ==> n in symptoms
  }

  /** The `match_all` contribution. */
  function AllContribution(symptoms: seq<string>, names: seq<string>): (n: nat)
    ensures n == 0 || n == 2
    ensures n == 2 <==> forall i :: 0 <= i < |names| ==> names[i] in symptoms
  {
    if HasAll(symptoms, names) then 2 else 0
  }

  /** The score of one rule: both contributions, each only where the rule has that list. */
  function RuleScore(rule: Rule, symptoms: seq<string>): (n: nat)
    ensures n <= 4
    ensures n == 0 <==>
              && (rule.matchAny.None? || Overlap(symptoms, rule.matchAny.value) == 0)
              && (rule.matchAll.None? || exists i :: 0 <= i < |rule.matchAll.value| && rule.matchAll.value[i] !in symptoms)
  {
    (if rule.matchAny.Some? then AnyContribution(symptoms, rule.matchAny.value) else 0)
    + (if rule.matchAll.Some? then AllContribution(symptoms, rule.matchAll.value) else 0)
  }

  function MatchOf(rule: Rule, symptoms: seq<string>): Match {
    Match(rule.condition, RuleScore(rule, symptoms), rule.advice)
  }

  /** The `matches` list built by the loop of main.py:221-231, in table order. */
  function Scored(rules: seq<Rule>, symptoms: seq<string>): (ms: seq<Match>)
    ensures |ms| <= |rules|
  {
    if rules == [] then []
    else
      Scored(rules[..|rules| - 1], symptoms) + Kept(rules[|rules| - 1], symptoms)
  }

  /** What one rule adds to the matches list: its match if it scores, nothing otherwise. */
  function Kept(rule: Rule, symptoms: seq<string>): (k: seq<Match>)
    ensures |k| <= 1
    ensures k != [] <==> RuleScore(rule, symptoms) > 0
    ensures k != [] ==> k[0].condition == rule.condition && k[0].advice == rule.advice
                        && k[0].score == RuleScore(rule, symptoms)
  {
    if RuleScore(rule, symptoms) > 0 then [MatchOf(rule, symptoms)] else []
  }

  /** Scoring one more rule appends its match when it scores. */
  lemma ScoredSnoc(rules: seq<Rule>, rule: Rule, symptoms: seq<string>)
    ensures Scored(rules + [rule], symptoms) == Scored(rules, symptoms) + Kept(rule, symptoms)
  {
    assert (rules + [rule])[..|rules|] == rules;
  }

  /** The matches list of the table, rule by rule. */
  lemma ScoredTable(s: seq<string>)
    ensures Scored(RULES, s) ==
              Kept(COMMON_COLD, s) + Kept(INFLUENZA, s) + Kept(COVID_19, s) + Kept(MIGRAINE, s)
              + Kept(GASTROENTERITIS, s) + Kept(ALLERGIC_RHINITIS, s) + Kept(STREP_THROAT, s)
              + Kept(ANXIETY_PANIC, s)
  {
    var t1 := [] + [COMMON_COLD];
    var t2 := t1 + [INFLUENZA];
    var t3 := t2 + [COVID_19];
    var t4 := t3 + [MIGRAINE];
    var t5 := t4 + [GASTROENTERITIS];
    var t6 := t5 + [ALLERGIC_RHINITIS];
    var t7 := t6 + [STREP_THROAT];
    var t8 := t7 + [ANXIETY_PANIC];
    assert t8 == RULES;
    assert Scored(t1, s) == Kept(COMMON_COLD, s) by {
      ScoredSnoc([], COMMON_COLD, s);
    }
    assert Scored(t2, s) == Scored(t1, s) + Kept(INFLUENZA, s) by {
      ScoredSnoc(t1, INFLUENZA, s);
    }
    assert Scored(t3, s) == Scored(t2, s) + Kept(COVID_19, s) by {
      ScoredSnoc(t2, COVID_19, s);
    }
    assert Scored(t4, s) == Scored(t3, s) + Kept(MIGRAINE, s) by {
      ScoredSnoc(t3, MIGRAINE, s);
    }
    assert Scored(t5, s) == Scored(t4, s) + Kept(GASTROENTERITIS, s) by {
      ScoredSnoc(t4, GASTROENTERITIS, s);
    }
    assert Scored(t6, s) == Scored(t5, s) + Kept(ALLERGIC_RHINITIS, s) by {
      ScoredSnoc(t5, ALLERGIC_RHINITIS, s);
    }
    assert Scored(t7, s) == Scored(t6, s) + Kept(STREP_THROAT, s) by {
      ScoredSnoc(t6, STREP_THROAT, s);
    }
    assert Scored(t8, s) == Scored(t7, s) + Kept(ANXIETY_PANIC, s) by {
      ScoredSnoc(t7, ANXIETY_PANIC, s);
    }
  }

  // ---------------------------------------------------------------------
  // The match_any overlap

  lemma {:induction false} OverlapZero(symptoms: seq<string>, names: seq<string>)
    ensures Overlap(symptoms, names) == 0 <==> forall i :: 0 <= i < |symptoms| ==> symptoms[i] !in names
  {
    if symptoms != [] {
      var init := symptoms[..|symptoms| - 1];
      OverlapZero(init, names);
      assert forall i :: 0 <= i < |init| ==> init[i] == symptoms[i];
    }
  }

  lemma {:induction false} OverlapAppend(a: seq<string>, b: seq<string>, names: seq<string>)
    ensures Overlap(a + b, names) == Overlap(a, names) + Overlap(b, names)
  {
    if b != [] {
      assert (a + b)[..|a + b| - 1] == a + b[..|b| - 1];
      OverlapAppend(a, b[..|b| - 1], names);
    } else {
      assert a + b == a;
    }
  }

  /** The overlap counts request symptoms, not distinct names: a repeated symptom counts twice. */
  lemma OverlapCountsDuplicates(symptoms: seq<string>, names: seq<string>)
    ensures Overlap(symptoms + symptoms, names) == 2 * Overlap(symptoms, names)
  {
    OverlapAppend(symptoms, symptoms, names);
  }

  /** The overlap does not depend on the order of the request symptoms. */
  lemma {:induction false} OverlapOrderFree(a: seq<string>, b: seq<string>, names: seq<string>)
    requires multiset(a) == multiset(b)
    ensures Overlap(a, names) == Overlap(b, names)
  {
    if a != [] {
      var x := a[|a| - 1];
      assert x in multiset(b);
      var j :| 0 <= j < |b| && b[j] == x;
      var rest := b[..j] + b[j + 1..];
      assert b == b[..j] + [x] + b[j + 1..];
      assert a == a[..|a| - 1] + [x];
      assert multiset(a) == multiset(a[..|a| - 1]) + multiset{x};
      assert multiset(b) == multiset(b[..j]) + multiset{x} + multiset(b[j + 1..]);
      assert multiset(rest) == multiset(b[..j]) + multiset(b[j + 1..]);
      assert multiset(a[..|a| - 1]) == multiset(a) - multiset{x};
      assert multiset(rest) == multiset(b) - multiset{x};
      OverlapOrderFree(a[..|a| - 1], rest, names);
      OverlapAppend(b[..j] + [x], b[j + 1..], names);
      OverlapAppend(b[..j], [x], names);
      OverlapAppend(b[..j], b[j + 1..], names);
      assert Overlap([x], names) == (if x in names then 1 else 0) by {
        assert [x][..0] == [];
      }
    } else {
      assert b == [];
    }
  }

  /** A `match_any` list contributes 0, 1 or 2: 0 exactly when no symptom is in it, 2 exactly when two or more are. */
  lemma AnyContributionCases(symptoms: seq<string>, names: seq<string>)
    ensures AnyContribution(symptoms, names) <= 2
    ensures AnyContribution(symptoms, names) == 0 <==> forall i :: 0 <= i < |symptoms| ==> symptoms[i] !in names
    ensures AnyContribution(symptoms, names) == 2 <==> Overlap(symptoms, names) >= 2
  {
    OverlapZero(symptoms, names);
  }

  /** A `match_all` list contributes 0 exactly when a listed symptom is missing. */
  lemma AllContributionCases(symptoms: seq<string>, names: seq<string>)
    ensures AllContribution(symptoms, names) == 0 <==> exists i :: 0 <= i < |names| && names[i] !in symptoms
  {
  }

  // ---------------------------------------------------------------------
  // The matches list

  /** The matches are exactly the rules that score above zero, each with its score. */
  lemma {:induction false} ScoredMembers(rules: seq<Rule>, symptoms: seq<string>, m: Match)
    ensures m in Scored(rules, symptoms) <==>
              exists i :: 0 <= i < |rules| && RuleScore(rules[i], symptoms) > 0 && m == MatchOf(rules[i], symptoms)
  {
    if rules != [] {
      var init := rules[..|rules| - 1];
      ScoredMembers(init, symptoms, m);
      assert forall i :: 0 <= i < |init| ==> init[i] == rules[i];
    }
  }

  /** Every entry scores above zero: a rule scoring 0 never appears. */
  lemma {:induction false} ScoredPositive(rules: seq<Rule>, symptoms: seq<string>)
    ensures forall i :: 0 <= i < |Scored(rules, symptoms)| ==> Scored(rules, symptoms)[i].score > 0
  {
    if rules != [] {
      ScoredPositive(rules[..|rules| - 1], symptoms);
    }
  }

  /** No rule of the table has both kinds of list. */
  lemma TableShape()
    ensures forall i :: 0 <= i < |RULES| ==> RULES[i].matchAny.Some? != RULES[i].matchAll.Some?
  {
  }

  /** With this table every rule scores 0, 1 or 2. */
  lemma TableScoresAtMostTwo(symptoms: seq<string>)
    ensures forall i :: 0 <= i < |RULES| ==> RuleScore(RULES[i], symptoms) <= 2
  {
    TableShape();
  }

  /** With this table every entry of the matches list scores 1 or 2. */
  lemma TableMatchesScoreOneOrTwo(symptoms: seq<string>)
    ensures forall i :: 0 <= i < |Scored(RULES, symptoms)| ==> 1 <= Scored(RULES, symptoms)[i].score <= 2
  {
    ScoredPositive(RULES, symptoms);
    TableScoresAtMostTwo(symptoms);
    forall i | 0 <= i < |Scored(RULES, symptoms)|
      ensures Scored(RULES, symptoms)[i].score <= 2
    {
      var m := Scored(RULES, symptoms)[i];
      ScoredMembers(RULES, symptoms, m);
    }
  }

  /** Without symptoms no rule of the table scores. */
  lemma NoSymptomsNoMatches()
    ensures Scored(RULES, []) == []
  {
    forall i | 0 <= i < |RULES|
      ensures RuleScore(RULES[i], []) == 0
    {
      var names := RULES[i].matchAll;
      if names.Some? {
        assert names.value != [];
        assert names.value[0] !in [];
      }
    }
    ScoredEmptyWhenNothingScores(RULES, []);
  }

  lemma {:induction false} ScoredEmptyWhenNothingScores(rules: seq<Rule>, symptoms: seq<string>)
    requires forall i :: 0 <= i < |rules| ==> RuleScore(rules[i], symptoms) == 0
    ensures Scored(rules, symptoms) == []
  {
    if rules != [] {
      ScoredEmptyWhenNothingScores(rules[..|rules| - 1], symptoms);
    }
  }

  lemma OverlapPair(s: seq<string>, names: seq<string>)
    requires |s| == 2
    ensures Overlap(s, names) == (if s[0] in names then 1 else 0) + (if s[1] in names then 1 else 0)
  {
    assert s[..1][..0] == [];
  }
}
