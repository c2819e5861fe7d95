/** Running the stages and steps of a verification workflow. What each step would answer, and
    in what time, is fixed beforehand; the scheduler decides which steps run. */
module Scheduler {
  import opened Common

  datatype StepStatus = Pass | Fail | Skip | Timeout

  datatype Step = Step(name: string, run: string, timeout: nat, required: bool, changesetAware: bool, workDir: Option<string>)

  datatype Stage = Stage(name: string, parallel: bool, steps: seq<Step>)

  datatype Workflow = Workflow(timeout: nat, stages: seq<Stage>)

  /** What one step answers, and after how long. */
  datatype Outcome = Outcome(status: StepStatus, time: nat)

  /** The outcome of every step, by its place in its stage; steps beyond the list pass at once. */
  type StageOutcomes = seq<Outcome>

  /** The same for every stage, by its place in the workflow. */
  type Outcomes = seq<StageOutcomes>

  function OutcomeAt(outcomes: StageOutcomes, i: nat): Outcome {
    if i < |outcomes| then outcomes[i] else Outcome(Pass, 0)
  }

  function StageAt(outcomes: Outcomes, i: nat): StageOutcomes {
    if i < |outcomes| then outcomes[i] else []
  }

  datatype StepResult = StepResult(stageName: string, stepName: string, status: StepStatus, required: bool, time: nat)

  function ResultAt(stage: Stage, outcomes: StageOutcomes, i: nat): StepResult
    requires i < |stage.steps|
  {
    var step, o := stage.steps[i], OutcomeAt(outcomes, i);
    StepResult(stage.name, step.name, o.status, step.required, o.time)
  }

  /** The results of the first `n` steps, whether they would be reached or not. */
  function ResultsUpto(stage: Stage, outcomes: StageOutcomes, n: nat): (results: seq<StepResult>)
    requires n <= |stage.steps|
    ensures |results| == n && forall i: nat | i < n :: results[i] == ResultAt(stage, outcomes, i)
  {
    if n == 0 then [] else ResultsUpto(stage, outcomes, n - 1) + [ResultAt(stage, outcomes, n - 1)]
  }

  function AllResults(stage: Stage, outcomes: StageOutcomes): (results: seq<StepResult>)
    ensures |results| == |stage.steps|
    ensures forall i: nat | i < |results| :: results[i] == ResultAt(stage, outcomes, i)
  {
    ResultsUpto(stage, outcomes, |stage.steps|)
  }

  predicate FailedRequired(r: StepResult) { r.required && r.status != Pass }

  predicate NothingFailed(results: seq<StepResult>) {
    forall k | 0 <= k < |results| :: !FailedRequired(results[k])
  }

  /** The results up to and with the first required failure. */
  function UntilFailure(results: seq<StepResult>): (front: seq<StepResult>)
    ensures front <= results
    ensures forall i | 0 <= i < |front| - 1 :: !FailedRequired(front[i])
    ensures front == results || (front != [] && FailedRequired(front[|front| - 1]))
  {
    if results == [] then []
    else if FailedRequired(results[0]) then [results[0]]
    else [results[0]] + UntilFailure(results[1..])
  }

  function Results(stage: Stage, outcomes: StageOutcomes): seq<StepResult> {
    if stage.parallel then AllResults(stage, outcomes) else UntilFailure(AllResults(stage, outcomes))
  }

  method RunSingleStep(stage: Stage, i: nat, outcomes: StageOutcomes) returns (result: StepResult)
    requires i < |stage.steps|
    ensures result == AllResults(stage, outcomes)[i]
  {
    var o := OutcomeAt(outcomes, i);
    result := StepResult(stage.name, stage.steps[i].name, o.status, stage.steps[i].required, o.time);
  }

  method RunStageParallel(stage: Stage, outcomes: StageOutcomes) returns (results: seq<StepResult>)
    ensures results == AllResults(stage, outcomes)
    ensures |results| == |stage.steps| && forall i: nat | i < |results| ::
              results[i] == StepResult(stage.name, stage.steps[i].name,
                                       if i < |outcomes| then outcomes[i].status else Pass, stage.steps[i].required,
                                       if i < |outcomes| then outcomes[i].time else 0)
  {
    results := [];
    for i := 0 to |stage.steps|
      invariant results == AllResults(stage, outcomes)[..i]
    {
      var result := RunSingleStep(stage, i, outcomes);
      results := results + [result];
    }
  }

  /** The steps run in order until a required one does not pass; none after it runs. */
  method RunStageSequential(stage: Stage, outcomes: StageOutcomes) returns (results: seq<StepResult>)
    ensures results == UntilFailure(AllResults(stage, outcomes))
    ensures forall i | 0 <= i < |results| - 1 :: !results[i].required || results[i].status == Pass
    ensures |results| == |stage.steps| ||
              (0 < |results| < |stage.steps| && results[|results| - 1].required && results[|results| - 1].status != Pass)
  {
    results := [];
    ghost var all := AllResults(stage, outcomes);
    for i := 0 to |stage.steps|
      invariant results == all[..i] && NothingFailed(results)
    {
      var result := RunSingleStep(stage, i, outcomes);
      results := results + [result];
      if stage.steps[i].required && result.status != Pass {
        UntilFirst(all, i);
        return;
      }
    }
    NoFailure(all);
  }

  lemma {:induction false} UntilFirst(all: seq<StepResult>, n: nat)
    requires n < |all| && FailedRequired(all[n]) && NothingFailed(all[..n])
    ensures UntilFailure(all) == all[..n + 1]
  {
    if n > 0 {
      assert all[..n][0] == all[0];
      assert all[1..][..n - 1] == all[..n][1..];
      UntilFirst(all[1..], n - 1);
      assert [all[0]] + all[1..][..n] == all[..n + 1];
    }
  }

  lemma {:induction false} NoFailure(all: seq<StepResult>)
    requires NothingFailed(all)
    ensures UntilFailure(all) == all
  {
    if all != [] { NoFailure(all[1..]); }
  }

  // ---- The verdict ----

  predicate StagePasses(stage: Stage, outcomes: StageOutcomes) {
    NothingFailed(Results(stage, outcomes))
  }

  ghost predicate RequiredStepsPass(stage: Stage, outcomes: StageOutcomes) {
    forall j: nat | j < |stage.steps| :: stage.steps[j].required ==> OutcomeAt(outcomes, j).status == Pass
  }

  lemma AllPassOrNot(stage: Stage, outcomes: StageOutcomes)
    ensures NothingFailed(AllResults(stage, outcomes)) <==> RequiredStepsPass(stage, outcomes)
  {
    var all := AllResults(stage, outcomes);
    forall j: nat | j < |all| ensures FailedRequired(all[j]) <==> stage.steps[j].required && OutcomeAt(outcomes, j).status != Pass { }
  }

  /** An early abort hides steps, but only behind a failure that decides the stage anyway. */
  lemma StageVerdict(stage: Stage, outcomes: StageOutcomes)
    ensures StagePasses(stage, outcomes) <==> RequiredStepsPass(stage, outcomes)
  {
    var all := AllResults(stage, outcomes);
    AllPassOrNot(stage, outcomes);
    var some := UntilFailure(all);
    if NothingFailed(some) {
      assert some == all;
    } else {
      var j :| 0 <= j < |some| && FailedRequired(some[j]);
      assert all[j] == some[j];
    }
  }

  lemma UntilFailureIsAllIff(all: seq<StepResult>, front: seq<StepResult>)
    requires front == UntilFailure(all)
    ensures front == all <==> forall j | 0 <= j < |all| - 1 :: !FailedRequired(all[j])
  {
    if front != all {
      assert |front| < |all|;
      assert all[|front| - 1] == front[|front| - 1];
    }
  }

  /** A sequential stage answers with a prefix of what it would answer in parallel, and with
      all of it exactly when no required step but the last can fail. */
  lemma SequentialIsPrefixOfParallel(stage: Stage, outcomes: StageOutcomes)
    ensures var all := Results(stage.(parallel := true), outcomes);
            var some := Results(stage.(parallel := false), outcomes);
            some <= all && (some == all <==> forall j | 0 <= j < |all| - 1 :: !FailedRequired(all[j]))
  {
    var all := AllResults(stage, outcomes);
    assert AllResults(stage.(parallel := false), outcomes) == all == AllResults(stage.(parallel := true), outcomes);
    UntilFailureIsAllIff(all, UntilFailure(all));
  }

  ghost predicate EveryRequiredStepPasses(stages: seq<Stage>, outcomes: Outcomes) {
    forall i: nat | i < |stages| :: RequiredStepsPass(stages[i], StageAt(outcomes, i))
  }

  lemma EveryRequiredStepIff(stages: seq<Stage>, outcomes: Outcomes)
    ensures EveryRequiredStepPasses(stages, outcomes) <==>
              forall i: nat, j: nat | i < |stages| && j < |stages[i].steps| && stages[i].steps[j].required
                && i < |outcomes| && j < |outcomes[i]| :: outcomes[i][j].status == Pass
  {
    forall i: nat | i < |stages|
      ensures RequiredStepsPass(stages[i], StageAt(outcomes, i)) <==>
                forall j: nat | j < |stages[i].steps| && stages[i].steps[j].required && i < |outcomes| && j < |outcomes[i]| ::
                  outcomes[i][j].status == Pass
    {
      forall j: nat | j < |stages[i].steps|
        ensures OutcomeAt(StageAt(outcomes, i), j) == if i < |outcomes| && j < |outcomes[i]| then outcomes[i][j] else Outcome(Pass, 0)
      {
      }
    }
  }

  /** The results of each of the first `n` stages. */
  function ByStage(stages: seq<Stage>, outcomes: Outcomes, n: nat): (chunks: seq<seq<StepResult>>)
    requires n <= |stages|
    ensures |chunks| == n && forall i: nat | i < n :: chunks[i] == Results(stages[i], StageAt(outcomes, i))
  {
    seq(n, i requires 0 <= i < n => Results(stages[i], StageAt(outcomes, i)))
  }

  lemma ByStageOneMore(stages: seq<Stage>, outcomes: Outcomes, n: nat)
    requires n < |stages|
    ensures ByStage(stages, outcomes, n + 1) == ByStage(stages, outcomes, n) + [Results(stages[n], StageAt(outcomes, n))]
  {
  }

  function Flat(chunks: seq<seq<StepResult>>): seq<StepResult> {
    if chunks == [] then [] else Flat(chunks[..|chunks| - 1]) + chunks[|chunks| - 1]
  }

  lemma FlatOneMore(chunks: seq<seq<StepResult>>, chunk: seq<StepResult>)
    ensures Flat(chunks + [chunk]) == Flat(chunks) + chunk
  {
    assert (chunks + [chunk])[..|chunks|] == chunks;
  }

  /** The results of the first `n` stages, in order. */
  function Sent(stages: seq<Stage>, outcomes: Outcomes, n: nat): seq<StepResult>
    requires n <= |stages|
  {
    Flat(ByStage(stages, outcomes, n))
  }

  /** Stage by stage: nothing before the first, then each stage's results behind the others'. */
  lemma SentInOrder(stages: seq<Stage>, outcomes: Outcomes, n: nat)
    requires n < |stages|
    ensures Sent(stages, outcomes, 0) == []
    ensures stages[n].parallel ==> Sent(stages, outcomes, n + 1) == Sent(stages, outcomes, n) + AllResults(stages[n], StageAt(outcomes, n))
    ensures !stages[n].parallel ==>
              Sent(stages, outcomes, n + 1) == Sent(stages, outcomes, n) + UntilFailure(AllResults(stages[n], StageAt(outcomes, n)))
  {
    ByStageOneMore(stages, outcomes, n);
    FlatOneMore(ByStage(stages, outcomes, n), Results(stages[n], StageAt(outcomes, n)));
  }

  lemma NothingFailedAppends(a: seq<StepResult>, b: seq<StepResult>)
    ensures NothingFailed(a + b) <==> NothingFailed(a) && NothingFailed(b)
  {
    var s := a + b;
    assert forall k | 0 <= k < |a| :: s[k] == a[k];
    assert forall k | 0 <= k < |b| :: s[|a| + k] == b[k];
  }

  lemma {:induction false} FlatPasses(chunks: seq<seq<StepResult>>)
    ensures NothingFailed(Flat(chunks)) <==> forall i: nat | i < |chunks| :: NothingFailed(chunks[i])
  {
    if chunks != [] {
      var n := |chunks| - 1;
      FlatPasses(chunks[..n]);
      NothingFailedAppends(Flat(chunks[..n]), chunks[n]);
      assert forall i: nat | i < n :: chunks[..n][i] == chunks[i];
    }
  }

  /** No required failure among the results that are sent: what the loop computes. */
  lemma {:induction false} VerdictIsEveryRequiredStep(stages: seq<Stage>, outcomes: Outcomes)
    ensures NothingFailed(Sent(stages, outcomes, |stages|)) <==> EveryRequiredStepPasses(stages, outcomes)
  {
    var chunks := ByStage(stages, outcomes, |stages|);
    FlatPasses(chunks);
    forall i: nat | i < |stages|
      ensures NothingFailed(chunks[i]) <==> RequiredStepsPass(stages[i], StageAt(outcomes, i))
    {
      StageVerdict(stages[i], StageAt(outcomes, i));
    }
  }

  /** Turning stages parallel or sequential changes which steps run and which results are
      sent, never the verdict. */
  lemma VerdictIgnoresParallel(stages: seq<Stage>, stages': seq<Stage>, outcomes: Outcomes)
    requires |stages| == |stages'|
    requires forall i | 0 <= i < |stages| :: stages[i].steps == stages'[i].steps
    ensures NothingFailed(Sent(stages, outcomes, |stages|)) <==> NothingFailed(Sent(stages', outcomes, |stages|))
  {
    VerdictIsEveryRequiredStep(stages, outcomes);
    VerdictIsEveryRequiredStep(stages', outcomes);
    assert forall i: nat | i < |stages| ::
        RequiredStepsPass(stages[i], StageAt(outcomes, i)) <==> RequiredStepsPass(stages'[i], StageAt(outcomes, i));
  }

  method NoneFailed(results: seq<StepResult>) returns (ok: bool)
    ensures ok <==> NothingFailed(results)
  {
    ok := true;
    for j := 0 to |results|
      invariant ok <==> forall k | 0 <= k < j :: !FailedRequired(results[k])
    {
      if results[j].status != Pass && results[j].required {
        ok := false;
      }
    }
  }

  method RunStages(stages: seq<Stage>, outcomes: Outcomes) returns (allPassed: bool, sent: seq<StepResult>)
    ensures sent == Sent(stages, outcomes, |stages|) && (allPassed <==> NothingFailed(sent))
  {
    allPassed, sent := true, [];
    for i := 0 to |stages|
      invariant sent == Sent(stages, outcomes, i) && (allPassed <==> NothingFailed(sent))
    {
      var results;
      if stages[i].parallel {
        results := RunStageParallel(stages[i], StageAt(outcomes, i));
      } else {
        results := RunStageSequential(stages[i], StageAt(outcomes, i));
      }
      var ok := NoneFailed(results);
      NothingFailedAppends(sent, results);
      ByStageOneMore(stages, outcomes, i);
      FlatOneMore(ByStage(stages, outcomes, i), results);
      allPassed := allPassed && ok;
      sent := sent + results;
    }
  }

  /** The answer is yes exactly when every required step of every stage passes, including
      those that an early abort skips. */
  method RunWorkflow(workflow: Workflow, outcomes: Outcomes) returns (allPassed: bool, sent: seq<StepResult>)
    ensures allPassed <==> EveryRequiredStepPasses(workflow.stages, outcomes)
    ensures allPassed <==>
              forall i: nat, j: nat | i < |workflow.stages| && j < |workflow.stages[i].steps| && workflow.stages[i].steps[j].required
                && i < |outcomes| && j < |outcomes[i]| :: outcomes[i][j].status == Pass
    ensures sent == Sent(workflow.stages, outcomes, |workflow.stages|)
  {
    VerdictIsEveryRequiredStep(workflow.stages, outcomes);
    EveryRequiredStepIff(workflow.stages, outcomes);
    allPassed, sent := RunStages(workflow.stages, outcomes);
  }

  // ---- Time ----

  function TotalTime(results: seq<StepResult>): nat {
    if results == [] then 0 else results[0].time + TotalTime(results[1..])
  }

  function LongestTime(results: seq<StepResult>): nat {
    if results == [] then 0
    else if results[0].time > LongestTime(results[1..]) then results[0].time else LongestTime(results[1..])
  }

  /** Steps of a sequential stage one after the other, those of a parallel stage at once. */
  function StageTime(stage: Stage, outcomes: StageOutcomes): nat {
    if stage.parallel then LongestTime(Results(stage, outcomes)) else TotalTime(Results(stage, outcomes))
  }

  function RunTime(stages: seq<Stage>, outcomes: Outcomes): nat {
    if stages == [] then 0
    else RunTime(stages[..|stages| - 1], outcomes) + StageTime(stages[|stages| - 1], StageAt(outcomes, |stages| - 1))
  }

  lemma {:induction false} TotalOfParts(a: seq<StepResult>, b: seq<StepResult>)
    ensures TotalTime(a + b) == TotalTime(a) + TotalTime(b)
  {
    if a == [] {
      assert a + b == b;
    } else {
      assert (a + b)[1..] == a[1..] + b;
      TotalOfParts(a[1..], b);
    }
  }

  lemma {:induction false} LongestIsReached(results: seq<StepResult>)
    ensures forall r | r in results :: r.time <= LongestTime(results)
    ensures results != [] ==> exists r :: r in results && r.time == LongestTime(results)
  {
    if results != [] {
      LongestIsReached(results[1..]);
      assert results == [results[0]] + results[1..];
      assert results[0] in results;
      if |results| > 1 && LongestTime(results[1..]) >= results[0].time {
        var r :| r in results[1..] && r.time == LongestTime(results[1..]);
        assert r in results;
      }
    }
  }

  /** A parallel stage takes as long as its slowest step, a sequential one as the steps that run
      together, and the stages run one after the other. */
  lemma TimesAre(stages: seq<Stage>, outcomes: Outcomes, stage: Stage, own: StageOutcomes)
    ensures stage.parallel && stage.steps != [] ==>
              && (forall r | r in AllResults(stage, own) :: r.time <= StageTime(stage, own))
              && (exists r :: r in AllResults(stage, own) && r.time == StageTime(stage, own))
    ensures !stage.parallel ==> StageTime(stage, own) == TotalTime(UntilFailure(AllResults(stage, own)))
    ensures forall r: StepResult :: TotalTime([r]) == r.time
    ensures RunTime([], outcomes) == 0
    ensures RunTime(stages + [stage], outcomes) == RunTime(stages, outcomes) + StageTime(stage, StageAt(outcomes, |stages|))
    ensures AllTimeouts(stages + [stage]) == AllTimeouts(stages) + TotalTimeout(stage.steps)
  {
    LongestIsReached(AllResults(stage, own));
    assert (stages + [stage])[..|stages|] == stages;
    forall r: StepResult ensures TotalTime([r]) == r.time { assert [r][1..] == []; }
  }

  function TotalTimeout(steps: seq<Step>): nat {
    if steps == [] then 0 else steps[0].timeout + TotalTimeout(steps[1..])
  }

  function AllTimeouts(stages: seq<Stage>): nat {
    if stages == [] then 0 else AllTimeouts(stages[..|stages| - 1]) + TotalTimeout(stages[|stages| - 1].steps)
  }

  ghost predicate StageInTime(stage: Stage, outcomes: StageOutcomes) {
    forall j: nat | j < |stage.steps| :: OutcomeAt(outcomes, j).time <= stage.steps[j].timeout
  }

  ghost predicate InTime(stages: seq<Stage>, outcomes: Outcomes) {
    forall i: nat | i < |stages| :: StageInTime(stages[i], StageAt(outcomes, i))
  }

  lemma {:induction false} PrefixTakesLess(a: seq<StepResult>, b: seq<StepResult>)
    requires a <= b
    ensures TotalTime(a) <= TotalTime(b) && LongestTime(a) <= TotalTime(a)
  {
    if b != [] {
      if a == [] {
        PrefixTakesLess([], b[1..]);
      } else {
        PrefixTakesLess(a[1..], b[1..]);
      }
    }
  }

  lemma {:induction false} ResultsInTime(results: seq<StepResult>, steps: seq<Step>)
    requires |results| == |steps| && forall j | 0 <= j < |steps| :: results[j].time <= steps[j].timeout
    ensures TotalTime(results) <= TotalTimeout(steps)
  {
    if steps != [] { ResultsInTime(results[1..], steps[1..]); }
  }

  lemma StageWithinTimeouts(stage: Stage, outcomes: StageOutcomes)
    requires StageInTime(stage, outcomes)
    ensures StageTime(stage, outcomes) <= TotalTimeout(stage.steps)
  {
    var all := AllResults(stage, outcomes);
    forall j: nat | j < |all| ensures all[j].time <= stage.steps[j].timeout { assert all[j].time == OutcomeAt(outcomes, j).time; }
    ResultsInTime(all, stage.steps);
    PrefixTakesLess(Results(stage, outcomes), all);
  }

  /** When every step keeps its own timeout, the run takes no longer than all timeouts
      together, however the stages are run and wherever they stop. */
  lemma {:induction false} RunsWithinTimeouts(stages: seq<Stage>, outcomes: Outcomes)
    requires InTime(stages, outcomes)
    ensures RunTime(stages, outcomes) <= AllTimeouts(stages)
  {
    if stages != [] {
      var n := |stages| - 1;
      assert forall i: nat | i < n :: stages[..n][i] == stages[i];
      RunsWithinTimeouts(stages[..n], outcomes);
      StageWithinTimeouts(stages[n], StageAt(outcomes, n));
    }
  }

  /** The run under the workflow's own timeout: a workflow without stages is approved, one
      that fails validation (`valid` is false) is an error, and one that takes too long does
      not pass. When the timeout covers those of the steps, and they keep theirs, it makes no
      difference. */
  method Verify(workflow: Workflow, valid: bool, outcomes: Outcomes) returns (passed: Option<bool>)
    ensures passed.None? <==> workflow.stages != [] && !valid
    ensures passed == Some(true) <==>
              workflow.stages == [] ||
              (valid && RunTime(workflow.stages, outcomes) <= workflow.timeout
               && EveryRequiredStepPasses(workflow.stages, outcomes))
    ensures passed.Some? && AllTimeouts(workflow.stages) <= workflow.timeout && InTime(workflow.stages, outcomes) ==>
              (passed.value <==> EveryRequiredStepPasses(workflow.stages, outcomes))
  {
    ghost var inTime := InTime(workflow.stages, outcomes);
    if inTime {
      RunsWithinTimeouts(workflow.stages, outcomes);
    }
    if |workflow.stages| == 0 {
      return Some(true);
    }
    if !valid {
      return None;
    }
    var verdict, _ := RunWorkflow(workflow, outcomes);
    passed := Some(if RunTime(workflow.stages, outcomes) <= workflow.timeout then verdict else false);
  }
}
