/**
 The per-signal scoring fold: rules in order, each resolved and evaluated, with early rejection. Scores are exact reals.
 What the resolver and the condition do on a rule is an arbitrary observation; the references to feature values are
 opaque.
 */
module Evaluator {
  import opened Common

  datatype Rule = Rule(name: string, weight: real, required: bool, rejectOnError: bool)

  /** What a condition returned. Only `True` earns the weight. */
  datatype Outcome = IsTrue | IsFalse | Other(text: string)

  /** What the resolver and then the condition did on one rule. `ref` is the feature a value was resolved for. */
  datatype Observation =
    | Missing
    | Stale
    | NoValue
    | Returned(ref: string, value: string, outcome: Outcome)
    | Raised(ref: string, value: string)

  datatype RuleResult = RuleResult(name: string, weight: real, applied: real, result: string)

  datatype Decision = Execute | Reject(reason: string) | Passthrough

  datatype Scoring = Scoring(
    decision: Decision,
    total: real,
    threshold: real,
    results: seq<RuleResult>,
    snapshot: map<string, string>)

  predicate Rejects(rule: Rule, o: Observation) {
    match o
    case Missing => rule.required
    case Stale => rule.required
    case Raised(_, _) => rule.rejectOnError
    case _ => false
  }

  function RejectReason(o: Observation): string {
    match o
    case Missing => "required_feature_missing"
    case Stale => "required_feature_stale"
    case _ => "rule_error"
  }

  function ResultText(o: Observation): string {
    match o
    case Missing => "data_missing"
    case Stale => "data_stale"
    case NoValue => ""
    case Raised(_, _) => "error_skipped"
    case Returned(_, _, IsTrue) => "True"
    case Returned(_, _, IsFalse) => "False"
    case Returned(_, _, Other(text)) => text
  }

  function Applied(rule: Rule, o: Observation): real {
    if o.Returned? && o.outcome.IsTrue? then rule.weight else 0.0
  }

  function ResultOf(rule: Rule, o: Observation): RuleResult {
    RuleResult(rule.name, rule.weight, Applied(rule, o), ResultText(o))
  }

  /** A feature value that was resolved is recorded, whatever its condition did. */
  function Recorded(snapshot: map<string, string>, o: Observation): map<string, string> {
    match o
    case Returned(ref, value, _) => snapshot[ref := value]
    case Raised(ref, value) => snapshot[ref := value]
    case _ => snapshot
  }

  /**
   What each observation does to its rule: only a required feature that is missing or stale, or a condition that raised
   under `on_error: reject`, rejects; only True earns the weight; a resolved value is recorded.
   */
  lemma OutcomeTable(rule: Rule, o: Observation, snapshot: map<string, string>)
    ensures Rejects(rule, o) <==>
              ((o.Missing? || o.Stale?) && rule.required) || (o.Raised? && rule.rejectOnError)
    ensures o.Missing? ==> RejectReason(o) == "required_feature_missing" && ResultText(o) == "data_missing"
    ensures o.Stale? ==> RejectReason(o) == "required_feature_stale" && ResultText(o) == "data_stale"
    ensures o.Raised? ==> RejectReason(o) == "rule_error" && ResultText(o) == "error_skipped"
    ensures o.Returned? && o.outcome == IsTrue ==> ResultText(o) == "True"
    ensures o.Returned? && o.outcome == IsFalse ==> ResultText(o) == "False"
    ensures o.Returned? && o.outcome.Other? ==> ResultText(o) == o.outcome.text
    ensures ResultOf(rule, o) == RuleResult(
              rule.name, rule.weight, if o.Returned? && o.outcome == IsTrue then rule.weight else 0.0, ResultText(o))
    ensures Recorded(snapshot, o) == if o.Returned? || o.Raised? then snapshot[o.ref := o.value] else snapshot
  {
  }

  function Sum(results: seq<RuleResult>): real {
    if results == [] then 0.0 else Sum(results[..|results| - 1]) + results[|results| - 1].applied
  }

  function Results(rules: seq<Rule>, world: seq<Observation>, n: nat): (rs: seq<RuleResult>)
    requires n <= |rules| && n <= |world|
    ensures |rs| == n
    ensures forall i | 0 <= i < n :: rs[i] == ResultOf(rules[i], world[i])
  {
    seq(n, i requires 0 <= i < n => ResultOf(rules[i], world[i]))
  }

  function Snapshot(world: seq<Observation>, n: nat): map<string, string>
    requires n <= |world|
  {
    if n == 0 then map[] else Recorded(Snapshot(world, n - 1), world[n - 1])
  }

  /** The first rule that stops the evaluation, or the number of rules. */
  function StopAt(rules: seq<Rule>, world: seq<Observation>, i: nat): (k: nat)
    requires |rules| == |world| && i <= |rules|
    ensures i <= k <= |rules|
    ensures forall j | i <= j < k :: !Rejects(rules[j], world[j]) && !world[j].NoValue?
    ensures k < |rules| ==> Rejects(rules[k], world[k]) || world[k].NoValue?
    decreases |rules| - i
  {
    if i == |rules| || Rejects(rules[i], world[i]) || world[i].NoValue? then i else StopAt(rules, world, i + 1)
  }

  /**
   The evaluation. A rule that rejects ends it with its own result appended; a resolver that claims success without a
   value is a RuntimeError; otherwise every rule counts and the total meets the threshold or not.
   */
  method Evaluate(rules: seq<Rule>, world: seq<Observation>, threshold: real, passthrough: bool)
    returns (r: Result<Scoring, string>)
    requires |rules| == |world|
    ensures r == Evaluation(rules, world, threshold, passthrough)
  {
    var results: seq<RuleResult> := [];
    var snapshot: map<string, string> := map[];
    var total := 0.0;
    var i := 0;
    while i < |rules|
      invariant Scored(rules, world, i, results, snapshot, total)
    {
      var rule, o := rules[i], world[i];
      ScoredNext(rules, world, i, results, snapshot, total);
      match o {
        case Missing =>
        case Stale =>
        case NoValue =>
          return Err("resolver returned ok with None value");
        case Returned(ref, value, _) =>
          snapshot := snapshot[ref := value];
        case Raised(ref, value) =>
          snapshot := snapshot[ref := value];
      }
      results := results + [ResultOf(rule, o)];
      if Rejects(rule, o) {
        return Ok(Scoring(Reject(RejectReason(o)), total, threshold, results, snapshot));
      }
      total := total + Applied(rule, o);
      i := i + 1;
    }
    var decision :=
      if passthrough then Passthrough
      else if total >= threshold then Execute
      else Reject("score_below_threshold");
    return Ok(Scoring(decision, total, threshold, results, snapshot));
  }

  /** The loop state before rule `i`: nothing stopped the evaluation so far. */
  ghost predicate Scored(
    rules: seq<Rule>, world: seq<Observation>, i: nat,
    results: seq<RuleResult>, snapshot: map<string, string>, total: real)
    requires |rules| == |world|
  {
    && i <= |rules| && StopAt(rules, world, 0) == StopAt(rules, world, i)
    && results == Results(rules, world, i)
    && snapshot == Snapshot(world, i)
    && total == Sum(results)
  }

  lemma ScoredNext(
      rules: seq<Rule>, world: seq<Observation>, i: nat,
      results: seq<RuleResult>, snapshot: map<string, string>, total: real)
    requires |rules| == |world| && i < |rules| && Scored(rules, world, i, results, snapshot, total)
    ensures results + [ResultOf(rules[i], world[i])] == Results(rules, world, i + 1)
    ensures Recorded(snapshot, world[i]) == Snapshot(world, i + 1)
    ensures if Rejects(rules[i], world[i]) || world[i].NoValue? then StopAt(rules, world, 0) == i
            else Scored(rules, world, i + 1, results + [ResultOf(rules[i], world[i])],
                        Recorded(snapshot, world[i]), total + Applied(rules[i], world[i]))
  {
    ResultsNext(rules, world, i);
  }

  lemma ResultsNext(rules: seq<Rule>, world: seq<Observation>, i: nat)
    requires i < |rules| == |world|
    ensures Results(rules, world, i) + [ResultOf(rules[i], world[i])] == Results(rules, world, i + 1)
    ensures Sum(Results(rules, world, i + 1)) == Sum(Results(rules, world, i)) + Applied(rules[i], world[i])
  {
    assert Results(rules, world, i + 1)[..i] == Results(rules, world, i);
  }

  /** What the evaluation amounts to, by the first rule that stops it. */
  function Evaluation(rules: seq<Rule>, world: seq<Observation>, threshold: real, passthrough: bool)
    : Result<Scoring, string>
    requires |rules| == |world|
  {
    var k := StopAt(rules, world, 0);
    if k < |rules| && world[k].NoValue? then Err("resolver returned ok with None value")
    else if k < |rules| then
      Ok(Scoring(Reject(RejectReason(world[k])), Sum(Results(rules, world, k)), threshold,
                 Results(rules, world, k + 1), Snapshot(world, k + 1)))
    else
      var total := Sum(Results(rules, world, k));
      var decision :=
        if passthrough then Passthrough
        else if total >= threshold then Execute
        else Reject("score_below_threshold");
      Ok(Scoring(decision, total, threshold, Results(rules, world, k), Snapshot(world, k)))
  }

  lemma StoppedEarly(rules: seq<Rule>, world: seq<Observation>)
    requires |rules| == |world|
    ensures StopAt(rules, world, 0) < |rules|
       <==> exists i :: 0 <= i < |rules| && (Rejects(rules[i], world[i]) || world[i].NoValue?)
  {
  }

  /**
   For every rule list and every behaviour of resolver and conditions: the total is the sum of the applied weights in
   the results, the results cover a prefix of the rules and all of them unless one rejected, and the signal executes
   iff the mode is active, no rule rejected and the sum reaches the threshold.
   */
  lemma EvaluationAddsUp(rules: seq<Rule>, world: seq<Observation>, threshold: real, passthrough: bool)
    requires |rules| == |world| && Evaluation(rules, world, threshold, passthrough).Ok?
    ensures
      var s := Evaluation(rules, world, threshold, passthrough).value;
      var rejected := exists i :: 0 <= i < |rules| && Rejects(rules[i], world[i]);
      && s.total == Sum(s.results)
      && |s.results| <= |rules|
      && (forall i | 0 <= i < |s.results| :: s.results[i] == ResultOf(rules[i], world[i]))
      && (!rejected ==> |s.results| == |rules|)
      && (rejected ==> |s.results| > 0 && Rejects(rules[|s.results| - 1], world[|s.results| - 1]) && s.decision.Reject?)
      && (s.decision == Execute <==> !passthrough && !rejected && s.total >= threshold)
      && (s.decision == Passthrough <==> passthrough && !rejected)
      && (rejected ==> s.decision == Reject(RejectReason(world[|s.results| - 1])))
      && (!rejected && !passthrough && s.total < threshold ==> s.decision == Reject("score_below_threshold"))
      && s.threshold == threshold && s.snapshot == Snapshot(world, |s.results|)
  {
    var k := StopAt(rules, world, 0);
    if k < |rules| {
      ResultsNext(rules, world, k);
    }
  }

  /** The evaluation fails exactly when, before any rule rejects, a resolver claims success without a value. */
  lemma FailsIff(rules: seq<Rule>, world: seq<Observation>, threshold: real, passthrough: bool)
    requires |rules| == |world|
    ensures Evaluation(rules, world, threshold, passthrough).Err? <==>
              exists i :: 0 <= i < |rules| && world[i].NoValue? && forall j | 0 <= j < i :: !Rejects(rules[j], world[j])
  {
    var k := StopAt(rules, world, 0);
    if i :| 0 <= i < |rules| && world[i].NoValue? && forall j | 0 <= j < i :: !Rejects(rules[j], world[j]) {
      assert k <= i;
    }
  }

  predicate Carries(o: Observation, ref: string) {
    (o.Returned? || o.Raised?) && o.ref == ref
  }

  /** The snapshot holds the features that were resolved, each with the last value resolved for it. */
  lemma {:induction false} SnapshotIsLatest(world: seq<Observation>, n: nat, ref: string)
    requires n <= |world|
    ensures ref in Snapshot(world, n) <==> exists i :: 0 <= i < n && Carries(world[i], ref)
    ensures ref in Snapshot(world, n) ==>
              exists i :: 0 <= i < n && Carries(world[i], ref) && Snapshot(world, n)[ref] == world[i].value
                          && forall j | i < j < n :: !Carries(world[j], ref)
  {
    if n > 0 {
      SnapshotIsLatest(world, n - 1, ref);
      if Carries(world[n - 1], ref) {
        assert ref in Snapshot(world, n) && Snapshot(world, n)[ref] == world[n - 1].value;
      } else if ref in Snapshot(world, n) {
        assert Snapshot(world, n)[ref] == Snapshot(world, n - 1)[ref];
        var i :| 0 <= i < n - 1 && Carries(world[i], ref) && Snapshot(world, n - 1)[ref] == world[i].value
                 && forall j | i < j < n - 1 :: !Carries(world[j], ref);
        assert forall j | i < j < n :: !Carries(world[j], ref);
      }
    }
  }

  lemma {:induction false} SumMono(a: seq<RuleResult>, b: seq<RuleResult>)
    requires |a| == |b| && forall i | 0 <= i < |a| :: a[i].applied <= b[i].applied
    ensures Sum(a) <= Sum(b)
  {
    if a != [] {
      SumMono(a[..|a| - 1], b[..|b| - 1]);
    }
  }

  predicate Executes(rules: seq<Rule>, world: seq<Observation>, threshold: real, passthrough: bool)
    requires |rules| == |world|
  {
    var r := Evaluation(rules, world, threshold, passthrough);
    r.Ok? && r.value.decision == Execute
  }

  /** Turning an outcome of a rule of non-negative weight into True never turns execution into rejection. */
  lemma MoreTrueStillExecutes(
      rules: seq<Rule>, world: seq<Observation>, threshold: real, passthrough: bool, i: nat, ref: string, value: string)
    requires |rules| == |world| && i < |rules| && rules[i].weight >= 0.0
    requires Executes(rules, world, threshold, passthrough)
    ensures
      var better := world[i := Returned(ref, value, IsTrue)];
      && Executes(rules, better, threshold, passthrough)
      && Evaluation(rules, better, threshold, passthrough).value.total
         >= Evaluation(rules, world, threshold, passthrough).value.total
  {
    var better := world[i := Returned(ref, value, IsTrue)];
    StoppedEarly(rules, world);
    StoppedEarly(rules, better);
    var n := |rules|;
    assert StopAt(rules, world, 0) == n;
    assert StopAt(rules, better, 0) == n;
    SumMono(Results(rules, world, n), Results(rules, better, n));
  }

  /** Every condition returned False. */
  function AllFalse(n: nat): (world: seq<Observation>)
    ensures |world| == n && forall i | 0 <= i < n :: world[i] == Returned("f", "v", IsFalse)
  {
    seq(n, _ => Returned("f", "v", IsFalse))
  }

  lemma {:induction false} SumOfOne(rs: seq<RuleResult>, k: int)
    requires forall i | 0 <= i < |rs| && i != k :: rs[i].applied == 0.0
    ensures Sum(rs) == if 0 <= k < |rs| then rs[k].applied else 0.0
  {
    if rs != [] {
      SumOfOne(rs[..|rs| - 1], k);
    }
  }

  /** When every condition returned, and only rule `k` may have returned True, its weight alone decides. */
  lemma OneRuleDecides(rules: seq<Rule>, world: seq<Observation>, k: nat)
    requires k < |rules| == |world|
    requires forall i | 0 <= i < |world| :: world[i].Returned? && (i != k ==> world[i].outcome == IsFalse)
    ensures Executes(rules, world, 0.0, false) <==> Applied(rules[k], world[k]) >= 0.0
  {
    var n := |rules|;
    assert StopAt(rules, world, 0) == n;
    SumOfOne(Results(rules, world, n), k);
  }

  /** In any rule list, a rule of negative weight can turn execution into rejection by becoming true. */
  lemma NegativeWeightFlips(rules: seq<Rule>, k: nat)
    requires k < |rules| && rules[k].weight < 0.0
    ensures Executes(rules, AllFalse(|rules|), 0.0, false)
    ensures !Executes(rules, AllFalse(|rules|)[k := Returned("f", "v", IsTrue)], 0.0, false)
  {
    OneRuleDecides(rules, AllFalse(|rules|), k);
    OneRuleDecides(rules, AllFalse(|rules|)[k := Returned("f", "v", IsTrue)], k);
  }

  /** Whatever was observed, executing survives rule `k` becoming true. */
  ghost predicate KeepsExecuting(rules: seq<Rule>, k: nat)
    requires k < |rules|
  {
    forall world: seq<Observation>, threshold: real, passthrough: bool, ref: string, value: string
      | |world| == |rules| && Executes(rules, world, threshold, passthrough) ::
      Executes(rules, world[k := Returned(ref, value, IsTrue)], threshold, passthrough)
  }

  /** For every rule list and every position, that holds exactly when the weight of the rule is not negative. */
  lemma WeightDecides(rules: seq<Rule>, k: nat)
    requires k < |rules|
    ensures KeepsExecuting(rules, k) <==> rules[k].weight >= 0.0
  {
    if rules[k].weight >= 0.0 {
      forall world: seq<Observation>, threshold: real, passthrough: bool, ref: string, value: string
        | |world| == |rules| && Executes(rules, world, threshold, passthrough)
        ensures Executes(rules, world[k := Returned(ref, value, IsTrue)], threshold, passthrough)
      {
        MoreTrueStillExecutes(rules, world, threshold, passthrough, k, ref, value);
      }
    } else {
      NegativeWeightFlips(rules, k);
    }
  }
}
