/**
 * The `/api/symptom-check` handler, `symptom_check` (main.py:174-249).
 *
 * `SymptomCheck` follows the handler step by step: it normalises the
 * symptoms, walks the rule table accumulating each rule's score and
 * appending the rules that scored, sorts the matches, picks the risk tier
 * and builds the response. `Evaluate` states the same result as one
 * function of the request; the lemmas below are about `Evaluate`.
 */
module SymptomCheck {

  import opened Wrappers
  import opened Values
  import opened Text
  import opened Schemas
  import opened SymptomRules
  import opened Ranking

  datatype Risk = Low | Moderate | High

  /** The red flags of main.py:237 and main.py:239. */
  const HIGH_RISK: seq<string> := ["chest pain", "severe shortness of breath"]
  const MODERATE_RISK: seq<string> := ["shortness of breath", "high fever", "bloody stool"]

  const GUIDANCE: string :=
    "For emergencies (e.g., severe chest pain, severe breathing difficulty), call local emergency services immediately."

  /** The cut of main.py:247. */
  const TOP: nat := 5

  /** The response body: `input`, `risk`, `likely_conditions` and `guidance`. */
  datatype TriageResult = TriageResult(input: Raw, risk: Risk, likelyConditions: seq<Match>, guidance: string)

  /** `any(s in symptoms for s in flags)`. */
  predicate AnyPresent(flags: seq<string>, symptoms: seq<string>) {
    exists f :: f in flags && f in symptoms
  }

  /** The first-match risk tier of main.py:236-240. */
  function Triage(symptoms: seq<string>): Risk {
    if AnyPresent(HIGH_RISK, symptoms) then High
    else if AnyPresent(MODERATE_RISK, symptoms) then Moderate
    else Low
  }

  /**
   * The handler's response as a function of the request: the request as
   * given, the constant guidance, and at most five conditions, highest
   * score first, each scoring 1 or 2.
   */
  function Evaluate(req: SymptomCheckRequest): (r: TriageResult)
    ensures r.input == DumpRequest(req) && r.guidance == GUIDANCE
    ensures |r.likelyConditions| <= TOP
    ensures Descending(r.likelyConditions)
    ensures forall i :: 0 <= i < |r.likelyConditions| ==> 1 <= r.likelyConditions[i].score <= 2
  {
    var symptoms := NormalizeAll(req.symptoms);
    ConditionsShape(symptoms);
    TriageResult(DumpRequest(req), Triage(symptoms),
                 Take(SortByScore(Scored(RULES, symptoms)), TOP), GUIDANCE)
  }

  method SymptomCheck(req: SymptomCheckRequest) returns (result: TriageResult)
    ensures result == Evaluate(req)
    ensures result.input == DumpRequest(req) && result.guidance == GUIDANCE
    ensures |result.likelyConditions| <= TOP
    ensures Descending(result.likelyConditions)
    ensures forall i :: 0 <= i < |result.likelyConditions| ==> 1 <= result.likelyConditions[i].score <= 2
    ensures result.risk == Triage(NormalizeAll(req.symptoms))
  {
    var symptoms := NormalizeAll(req.symptoms);
    var matches := ScoreRules(RULES, symptoms);
    matches := SortByScore(matches);

    var risk := Low;
    if AnyPresent(HIGH_RISK, symptoms) {
      risk := High;
    } else if AnyPresent(MODERATE_RISK, symptoms) {
      risk := Moderate;
    }

    result := TriageResult(DumpRequest(req), risk, Take(matches, TOP), GUIDANCE);
  }

  /** The loop of main.py:221-231: score each rule in table order and keep those above zero. */
  method ScoreRules(rules: seq<Rule>, symptoms: seq<string>) returns (matches: seq<Match>)
    ensures matches == Scored(rules, symptoms)
  {
    matches := [];
    var i := 0;
    while i < |rules|
      invariant 0 <= i <= |rules|
      invariant matches == Scored(rules[..i], symptoms)
    {
      var rule := rules[i];
      var score: nat := 0;
      if rule.matchAny.Some? {
        var overlap := Overlap(symptoms, rule.matchAny.value);
        score := score + Min(2, overlap);
      }
      if rule.matchAll.Some? {
        var hasAll := HasAll(symptoms, rule.matchAll.value);
        score := score + if hasAll then 2 else 0;
      }
      if score > 0 {
        matches := matches + [Match(rule.condition, score, rule.advice)];
      }
      assert rules[..i + 1][..i] == rules[..i];
      i := i + 1;
    }
    assert rules[..i] == rules;
  }

  // ---------------------------------------------------------------------
  // Properties of the response

  /** The top five of the sorted matches: at most five, highest score first, each scoring 1 or 2. */
  lemma ConditionsShape(symptoms: seq<string>)
    ensures |Take(SortByScore(Scored(RULES, symptoms)), TOP)| <= TOP
    ensures Descending(Take(SortByScore(Scored(RULES, symptoms)), TOP))
    ensures forall i :: 0 <= i < |Take(SortByScore(Scored(RULES, symptoms)), TOP)| ==>
              1 <= Take(SortByScore(Scored(RULES, symptoms)), TOP)[i].score <= 2
  {
    var ms := Scored(RULES, symptoms);
    var sorted := SortByScore(ms);
    SortByScoreSortsAndPermutes(ms);
    TakeDescending(sorted, TOP);
    TableMatchesScoreOneOrTwo(symptoms);
    forall i | 0 <= i < |Take(sorted, TOP)|
      ensures 1 <= Take(sorted, TOP)[i].score <= 2
    {
      assert Take(sorted, TOP)[i] == sorted[i];
      assert sorted[i] in multiset(ms);
    }
  }

  /**
   * The listed conditions are the best-scoring rules: each is a table rule
   * that scored, and a rule that scored but is not listed scores no more
   * than any listed one; when fewer than five are listed, every rule that
   * scored is.
   */
  lemma EvaluateListsBestRules(req: SymptomCheckRequest, r: nat)
    requires r < |RULES| && RuleScore(RULES[r], NormalizeAll(req.symptoms)) > 0
    ensures MatchOf(RULES[r], NormalizeAll(req.symptoms)) !in Evaluate(req).likelyConditions ==>
              |Evaluate(req).likelyConditions| == TOP
              && forall i :: 0 <= i < TOP ==>
                   Evaluate(req).likelyConditions[i].score >= RuleScore(RULES[r], NormalizeAll(req.symptoms))
  {
    var symptoms := NormalizeAll(req.symptoms);
    var ms := Scored(RULES, symptoms);
    var sorted := SortByScore(ms);
    var m := MatchOf(RULES[r], symptoms);
    ScoredMembers(RULES, symptoms, m);
    SortByScoreSortsAndPermutes(ms);
    assert m in multiset(sorted);
    var j :| 0 <= j < |sorted| && sorted[j] == m;
    TakeKeepsBest(sorted, TOP);
  }

  lemma ListedAreScoredRules(req: SymptomCheckRequest, m: Match)
    requires m in Evaluate(req).likelyConditions
    ensures exists r :: 0 <= r < |RULES| && RuleScore(RULES[r], NormalizeAll(req.symptoms)) > 0
                        && m == MatchOf(RULES[r], NormalizeAll(req.symptoms))
  {
    var ms := Scored(RULES, NormalizeAll(req.symptoms));
    SortByScoreSortsAndPermutes(ms);
    assert m in multiset(SortByScore(ms));
    ScoredMembers(RULES, NormalizeAll(req.symptoms), m);
  }

  /** The response echoes the request as given, before normalisation: validating it gives the request back. */
  lemma EvaluateEchoesInput(req: SymptomCheckRequest)
    requires ValidRequest(req)
    ensures Evaluate(req).input == DumpRequest(req)
    ensures ValidateSymptomCheckRequest(Evaluate(req).input) == Ok(req)
  {
    RequestRoundTrip(req);
  }

  /**
   * The listed conditions are the first five of ANY stable descending sort
   * of the table's matches: any list ordered by score whose entries of each
   * score are the matches with that score, in table order.
   */
  lemma TopFiveOfAnyStableSort(req: SymptomCheckRequest, s: seq<Match>)
    requires Descending(s)
    requires forall k: nat :: WithScore(s, k) == WithScore(Scored(RULES, NormalizeAll(req.symptoms)), k)
    ensures Evaluate(req).likelyConditions == Take(s, TOP)
  {
    StableSortUnique(Scored(RULES, NormalizeAll(req.symptoms)), s);
  }

  lemma EvaluateParts(req: SymptomCheckRequest)
    ensures Evaluate(req).likelyConditions == Take(SortByScore(Scored(RULES, NormalizeAll(req.symptoms))), TOP)
    ensures Evaluate(req).risk == Triage(NormalizeAll(req.symptoms))
  {
  }

  // ---------------------------------------------------------------------
  // The risk tier

  /** A high-risk symptom makes the risk high, whatever else is present. */
  lemma HighRiskWins(symptoms: seq<string>)
    ensures Triage(symptoms) == High <==> "chest pain" in symptoms || "severe shortness of breath" in symptoms
  {
    if "chest pain" in symptoms {
      assert "chest pain" in HIGH_RISK;
    } else if "severe shortness of breath" in symptoms {
      assert "severe shortness of breath" in HIGH_RISK;
    }
  }

  /** Moderate exactly when no high-risk symptom and some moderate-risk symptom is present. */
  lemma ModerateRisk(symptoms: seq<string>)
    ensures Triage(symptoms) == Moderate <==>
              && "chest pain" !in symptoms && "severe shortness of breath" !in symptoms
              && ("shortness of breath" in symptoms || "high fever" in symptoms || "bloody stool" in symptoms)
  {
    HighRiskWins(symptoms);
    if "shortness of breath" in symptoms {
      assert "shortness of breath" in MODERATE_RISK;
    } else if "high fever" in symptoms {
      assert "high fever" in MODERATE_RISK;
    } else if "bloody stool" in symptoms {
      assert "bloody stool" in MODERATE_RISK;
    }
  }

  /** Low exactly when none of the five red flags is present. */
  lemma LowRisk(symptoms: seq<string>)
    ensures Triage(symptoms) == Low <==>
              forall f :: f in HIGH_RISK + MODERATE_RISK ==> f !in symptoms
  {
  }

  // ---------------------------------------------------------------------
  // Scenarios

  /** No symptoms: no condition and low risk. */
  lemma EmptySymptoms(req: SymptomCheckRequest)
    requires req.symptoms == []
    ensures Evaluate(req).likelyConditions == []
    ensures Evaluate(req).risk == Low
  {
    NoSymptomsNoMatches();
  }

  /** `["sore throat", "fever"]`: Strep Throat (2) first, then Common Cold, Influenza and COVID-19 (1 each) in table order. */
  lemma SoreThroatAndFever(req: SymptomCheckRequest)
    requires req.symptoms == ["sore throat", "fever"]
    ensures Evaluate(req).likelyConditions == [
              Match("Strep Throat", 2, STREP_THROAT.advice),
              Match("Common Cold", 1, COMMON_COLD.advice),
              Match("Influenza (Flu)", 1, INFLUENZA.advice),
              Match("COVID-19", 1, COVID_19.advice)]
    ensures Evaluate(req).risk == Low
  {
    var s := req.symptoms;
    SoreThroatAndFeverNormal(s);
    var cold, flu, covid, strep :=
      Match("Common Cold", 1, COMMON_COLD.advice), Match("Influenza (Flu)", 1, INFLUENZA.advice),
      Match("COVID-19", 1, COVID_19.advice), Match("Strep Throat", 2, STREP_THROAT.advice);
    SoreThroatAndFeverMatches(s);
    SortOnesBeforeTwo(cold, flu, covid, strep);
    NoRedFlags(s);
    EvaluateParts(req);
  }

  lemma SoreThroatAndFeverNormal(s: seq<string>)
    requires s == ["sore throat", "fever"]
    ensures NormalizeAll(s) == s
  {
    NormalizeFixed("sore throat");
    NormalizeFixed("fever");
  }

  lemma SoreThroatAndFeverMatches(s: seq<string>)
    requires s == ["sore throat", "fever"]
    ensures Scored(RULES, s) == [
              Match("Common Cold", 1, COMMON_COLD.advice), Match("Influenza (Flu)", 1, INFLUENZA.advice),
              Match("COVID-19", 1, COVID_19.advice), Match("Strep Throat", 2, STREP_THROAT.advice)]
  {
    SoreThroatAndFeverScores(s);
    KeptConcat(s, [Match("Common Cold", 1, COMMON_COLD.advice)], [Match("Influenza (Flu)", 1, INFLUENZA.advice)],
               [Match("COVID-19", 1, COVID_19.advice)], [], [], [], [Match("Strep Throat", 2, STREP_THROAT.advice)], []);
  }

  lemma SoreThroatAndFeverScores(s: seq<string>)
    requires s == ["sore throat", "fever"]
    ensures RuleScore(COMMON_COLD, s) == 1 && RuleScore(INFLUENZA, s) == 1 && RuleScore(COVID_19, s) == 1
    ensures RuleScore(MIGRAINE, s) == 0 && RuleScore(GASTROENTERITIS, s) == 0
    ensures RuleScore(ALLERGIC_RHINITIS, s) == 0
    ensures RuleScore(STREP_THROAT, s) == 2 && RuleScore(ANXIETY_PANIC, s) == 0
    ensures Kept(COMMON_COLD, s) == [Match("Common Cold", 1, COMMON_COLD.advice)]
    ensures Kept(INFLUENZA, s) == [Match("Influenza (Flu)", 1, INFLUENZA.advice)]
    ensures Kept(COVID_19, s) == [Match("COVID-19", 1, COVID_19.advice)]
    ensures Kept(STREP_THROAT, s) == [Match("Strep Throat", 2, STREP_THROAT.advice)]
    ensures Kept(MIGRAINE, s) == [] && Kept(GASTROENTERITIS, s) == [] && Kept(ALLERGIC_RHINITIS, s) == []
    ensures Kept(ANXIETY_PANIC, s) == []
  {
    OverlapPair(s, COMMON_COLD.matchAny.value);
    OverlapPair(s, INFLUENZA.matchAny.value);
    OverlapPair(s, COVID_19.matchAny.value);
    OverlapPair(s, GASTROENTERITIS.matchAny.value);
    OverlapPair(s, ALLERGIC_RHINITIS.matchAny.value);
    assert "headache" in MIGRAINE.matchAll.value;
    assert "chest tightness" in ANXIETY_PANIC.matchAll.value;
  }

  lemma KeptConcat(s: seq<string>, k0: seq<Match>, k1: seq<Match>, k2: seq<Match>, k3: seq<Match>,
                   k4: seq<Match>, k5: seq<Match>, k6: seq<Match>, k7: seq<Match>)
    requires Kept(COMMON_COLD, s) == k0 && Kept(INFLUENZA, s) == k1 && Kept(COVID_19, s) == k2
    requires Kept(MIGRAINE, s) == k3 && Kept(GASTROENTERITIS, s) == k4 && Kept(ALLERGIC_RHINITIS, s) == k5
    requires Kept(STREP_THROAT, s) == k6 && Kept(ANXIETY_PANIC, s) == k7
    ensures Scored(RULES, s) == k0 + k1 + k2 + k3 + k4 + k5 + k6 + k7
  {
    ScoredTable(s);
  }

  lemma SortOnesBeforeTwo(a: Match, b: Match, c: Match, d: Match)
    requires a.score == 1 && b.score == 1 && c.score == 1 && d.score == 2
    ensures SortByScore([a, b, c, d]) == [d, a, b, c]
  {
    var t1 := [d];
    var t2 := [c] + t1;
    var t3 := [b] + t2;
    var t4 := [a] + t3;
    assert SortByScore(t1) == [d] by {
      assert t1[1..] == [];
    }
    SortStep(c, t1, [d]);
    SortStep(b, t2, [d, c]);
    SortStep(a, t3, [d, b, c]);
    assert t4 == [a, b, c, d];
  }

  /** Sorting `[x] + t` when `x` goes right behind the head of `t`'s sorted form. */
  lemma SortStep(x: Match, t: seq<Match>, sorted: seq<Match>)
    requires SortByScore(t) == sorted && sorted != []
    requires sorted[0].score > x.score && (|sorted| == 1 || sorted[1].score <= x.score)
    ensures SortByScore([x] + t) == [sorted[0], x] + sorted[1..]
  {
    assert ([x] + t)[1..] == t;
    assert Insert(x, sorted[1..]) == [x] + sorted[1..];
  }

  lemma NoRedFlags(s: seq<string>)
    requires s == ["sore throat", "fever"]
    ensures Triage(s) == Low
  {
  }

  /**
   * `["fever", "fever"]`: the overlap counts the repeated symptom twice, so
   * Influenza and COVID-19 both reach the cap of 2 and keep table order.
   */
  lemma FeverTwice(req: SymptomCheckRequest)
    requires req.symptoms == ["fever", "fever"]
    ensures Evaluate(req).likelyConditions == [
              Match("Influenza (Flu)", 2, INFLUENZA.advice),
              Match("COVID-19", 2, COVID_19.advice)]
    ensures Evaluate(req).risk == Low
  {
    var s := req.symptoms;
    FeverTwiceNormal(s);
    FeverTwiceMatches(s);
    var flu, covid := Match("Influenza (Flu)", 2, INFLUENZA.advice), Match("COVID-19", 2, COVID_19.advice);
    assert SortByScore([flu, covid]) == [flu, covid] by {
      assert [flu, covid][1..] == [covid] && [covid][1..] == [];
      assert SortByScore([covid]) == [covid];
    }
    FeverTwiceNoRedFlags(s);
    EvaluateParts(req);
  }

  lemma FeverTwiceNormal(s: seq<string>)
    requires s == ["fever", "fever"]
    ensures NormalizeAll(s) == s
  {
    NormalizeFixed("fever");
  }

  lemma FeverTwiceMatches(s: seq<string>)
    requires s == ["fever", "fever"]
    ensures Scored(RULES, s) == [Match("Influenza (Flu)", 2, INFLUENZA.advice), Match("COVID-19", 2, COVID_19.advice)]
  {
    FeverTwiceScores(s);
    KeptConcat(s, [], [Match("Influenza (Flu)", 2, INFLUENZA.advice)], [Match("COVID-19", 2, COVID_19.advice)],
               [], [], [], [], []);
  }

  lemma FeverTwiceScores(s: seq<string>)
    requires s == ["fever", "fever"]
    ensures Kept(COMMON_COLD, s) == [] && Kept(MIGRAINE, s) == [] && Kept(GASTROENTERITIS, s) == []
    ensures Kept(ALLERGIC_RHINITIS, s) == [] && Kept(STREP_THROAT, s) == [] && Kept(ANXIETY_PANIC, s) == []
    ensures Kept(INFLUENZA, s) == [Match("Influenza (Flu)", 2, INFLUENZA.advice)]
    ensures Kept(COVID_19, s) == [Match("COVID-19", 2, COVID_19.advice)]
  {
    OverlapPair(s, COMMON_COLD.matchAny.value);
    OverlapPair(s, INFLUENZA.matchAny.value);
    OverlapPair(s, COVID_19.matchAny.value);
    OverlapPair(s, GASTROENTERITIS.matchAny.value);
    OverlapPair(s, ALLERGIC_RHINITIS.matchAny.value);
    assert "headache" in MIGRAINE.matchAll.value;
    assert "sore throat" in STREP_THROAT.matchAll.value;
    assert "chest tightness" in ANXIETY_PANIC.matchAll.value;
  }

  lemma FeverTwiceNoRedFlags(s: seq<string>)
    requires s == ["fever", "fever"]
    ensures Triage(s) == Low
  {
  }

  /** Case and surrounding white space do not matter: `["Fever", " chills "]` is checked as `["fever", "chills"]`. */
  lemma CaseAndSpaceInsensitive(req: SymptomCheckRequest, req': SymptomCheckRequest)
    requires req.symptoms == ["Fever", " chills "] && req'.symptoms == ["fever", "chills"]
    ensures Evaluate(req).likelyConditions == Evaluate(req').likelyConditions
    ensures Evaluate(req).risk == Evaluate(req').risk
  {
    MixedCaseAndPadding();
    assert NormalizeAll(req.symptoms) == NormalizeAll(req'.symptoms);
    EvaluateParts(req);
    EvaluateParts(req');
  }
}
