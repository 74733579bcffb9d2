/**
 * The status timeline of src/components/StatusTimeline.tsx: four fixed
 * steps, the index of the current one, and a complete / in-progress /
 * pending status per step and per connector between steps.
 */
module Timeline {
  import Viewer

  /** One entry of the fixed step table: an id and the label drawn under it. */
  datatype Step = Step(id: string, caption: string)

  /** The steps the timeline draws, in order. */
  const Steps: seq<Step> := [
    Step("plan_report", "Planning"),
    Step("search_web", "Researching"),
    Step("write_section", "Writing"),
    Step("compile_report", "Compiling")
  ]

  /** What a step or a connector is drawn as. */
  datatype Status = Complete | InProgress | Pending

  /** `steps.findIndex(s => s.id === id)`: the first position with that id, or -1. */
  function FindIndex(steps: seq<Step>, id: string): (i: int)
    ensures -1 <= i < |steps|
    ensures i >= 0 ==> steps[i].id == id && forall j :: 0 <= j < i ==> steps[j].id != id
    ensures i == -1 <==> forall j :: 0 <= j < |steps| ==> steps[j].id != id
  {
    if |steps| == 0 then -1
    else if steps[0].id == id then 0
    else
      var k := FindIndex(steps[1..], id);
      if k == -1 then -1 else k + 1
  }

  /** Whether an id names one of the steps. */
  predicate IsStepId(id: string)
  {
    exists j :: 0 <= j < |Steps| && Steps[j].id == id
  }

  /**
   * `currIdx`: past the last step for `'complete'`, otherwise the position
   * of the step with that id, or -1 for an id that names no step.
   */
  function CurrIdx(timelineStep: string): (c: int)
    ensures -1 <= c <= |Steps|
    ensures c == |Steps| <==> timelineStep == "complete"
    ensures 0 <= c < |Steps| ==> Steps[c].id == timelineStep
    ensures c == -1 <==> timelineStep != "complete" && !IsStepId(timelineStep)
  {
    if timelineStep == "complete" then |Steps| else FindIndex(Steps, timelineStep)
  }

  /** `status(idx)` against the current index. */
  function StatusAt(currIdx: int, idx: int): Status
  {
    if idx < currIdx then Complete else if idx == currIdx then InProgress else Pending
  }

  /** The status of each drawn step, in step order. */
  function StepStatuses(timelineStep: string): (ss: seq<Status>)
    ensures |ss| == |Steps|
  {
    seq(|Steps|, idx => StatusAt(CurrIdx(timelineStep), idx))
  }

  /** The connectors drawn after every step but the last, each with the status it is coloured by. */
  function Connectors(timelineStep: string): (cs: seq<Status>)
    ensures |cs| == |Steps| - 1
  {
    seq(|Steps| - 1, idx => StatusAt(CurrIdx(timelineStep), idx))
  }

  /** How many entries of `ss` equal `x`. */
  function Count(ss: seq<Status>, x: Status): (n: nat)
    ensures n <= |ss|
  {
    if |ss| == 0 then 0 else Count(ss[..|ss| - 1], x) + (if ss[|ss| - 1] == x then 1 else 0)
  }

  /** The status of a step is decided by its position relative to the current index alone. */
  lemma StepStatusMeaning(timelineStep: string, idx: nat)
    requires idx < |Steps|
    ensures StepStatuses(timelineStep)[idx] == Complete <==> idx < CurrIdx(timelineStep)
    ensures StepStatuses(timelineStep)[idx] == InProgress <==> idx == CurrIdx(timelineStep)
    ensures StepStatuses(timelineStep)[idx] == Pending <==> idx > CurrIdx(timelineStep)
  {
  }

  /** No two steps are in progress at once; the one that is, if any, is the current step. */
  lemma AtMostOneInProgress(timelineStep: string, i: nat, j: nat)
    requires i < |Steps| && j < |Steps|
    requires StepStatuses(timelineStep)[i] == InProgress
    requires StepStatuses(timelineStep)[j] == InProgress
    ensures i == j && Steps[i].id == timelineStep
  {
  }

  /** In a sequence that is `k` times `Complete` and then never `Complete`, exactly `k` are complete. */
  lemma {:induction false} CountPrefix(ss: seq<Status>, k: nat)
    requires k <= |ss|
    requires forall i :: 0 <= i < |ss| ==> (ss[i] == Complete <==> i < k)
    ensures Count(ss, Complete) == k
  {
    if |ss| == 0 {
    } else if k == |ss| {
      CountPrefix(ss[..|ss| - 1], k - 1);
    } else {
      CountPrefix(ss[..|ss| - 1], k);
    }
  }

  /** In a sequence where exactly position `k` holds `x`, `x` is counted once. */
  lemma {:induction false} CountSingle(ss: seq<Status>, x: Status, k: nat)
    requires k < |ss|
    requires forall i :: 0 <= i < |ss| ==> (ss[i] == x <==> i == k)
    ensures Count(ss, x) == 1
  {
    var init := ss[..|ss| - 1];
    if k == |ss| - 1 {
      CountNone(init, x);
    } else {
      CountSingle(init, x, k);
    }
  }

  /** A sequence without `x` counts it zero times. */
  lemma {:induction false} CountNone(ss: seq<Status>, x: Status)
    requires forall i :: 0 <= i < |ss| ==> ss[i] != x
    ensures Count(ss, x) == 0
  {
    if |ss| > 0 {
      CountNone(ss[..|ss| - 1], x);
    }
  }

  /** No two steps share an id. */
  lemma StepIdsDistinct()
    ensures forall i, j :: 0 <= i < |Steps| && 0 <= j < |Steps| && Steps[i].id == Steps[j].id ==> i == j
  {
    forall i, j | 0 <= i < |Steps| && 0 <= j < |Steps| && Steps[i].id == Steps[j].id
      ensures i == j
    {
      assert Steps[i].id[0] == Steps[j].id[0];
    }
  }

  /** With the current step at position `k`, exactly `k` steps are complete and one is in progress. */
  lemma CompletedBeforeCurrent(timelineStep: string, k: nat)
    requires k < |Steps| && Steps[k].id == timelineStep
    ensures CurrIdx(timelineStep) == k
    ensures Count(StepStatuses(timelineStep), Complete) == k
    ensures Count(StepStatuses(timelineStep), InProgress) == 1
  {
    assert CurrIdx(timelineStep) == k by {
      StepIdsDistinct();
    }
    var ss := StepStatuses(timelineStep);
    assert forall i :: 0 <= i < |ss| ==> ss[i] == StatusAt(k, i);
    CountPrefix(ss, k);
    CountSingle(ss, InProgress, k);
  }

  /** `'complete'` draws every step complete. */
  lemma CompleteMeansAllComplete()
    ensures StepStatuses("complete") == [Complete, Complete, Complete, Complete]
    ensures Connectors("complete") == [Complete, Complete, Complete]
  {
  }

  /** An id that names no step, such as the app's initial `'idle'`, draws every step pending. */
  lemma UnknownMeansAllPending(timelineStep: string)
    requires timelineStep != "complete" && !IsStepId(timelineStep)
    ensures StepStatuses(timelineStep) == [Pending, Pending, Pending, Pending]
    ensures Connectors(timelineStep) == [Pending, Pending, Pending]
  {
  }

  /** The app's initial step is one of those unknown ids. */
  lemma IdleIsUnknown()
    ensures CurrIdx("idle") == -1
  {
    assert !IsStepId("idle") by {
      forall j | 0 <= j < |Steps| ensures Steps[j].id != "idle" {
        assert Steps[j].id[0] != 'i';
      }
    }
  }

  /** Each connector takes the colour of the step drawn before it. */
  lemma ConnectorsFollowSteps(timelineStep: string)
    ensures Connectors(timelineStep) == StepStatuses(timelineStep)[..|Steps| - 1]
  {
  }

  /** The viewer's step order is this table's id order. */
  lemma SameStepOrder()
    ensures |Viewer.Steps| == |Steps|
    ensures forall j :: 0 <= j < |Steps| ==> Viewer.Steps[j] == Steps[j].id
  {
  }

  /** The index the viewer compares by and the timeline's index agree on every id but `'complete'`. */
  lemma {:induction false} IndexAgrees(steps: seq<Step>, ids: seq<string>, id: string)
    requires |ids| == |steps| && forall j :: 0 <= j < |steps| ==> ids[j] == steps[j].id
    ensures Viewer.IndexOf(ids, id) == FindIndex(steps, id)
  {
    if |steps| > 0 && steps[0].id != id {
      IndexAgrees(steps[1..], ids[1..], id);
    }
  }

  /**
   * Because the viewer's update never moves back along the steps, an event
   * never takes away a step drawn complete.
   */
  lemma ViewerUpdateKeepsCompleted(prev: string, next: string, idx: nat)
    requires prev != "complete" && idx < |Steps|
    requires StepStatuses(prev)[idx] == Complete
    ensures StepStatuses(Viewer.NextStep(prev, next))[idx] == Complete
  {
    var r := Viewer.NextStep(prev, next);
    Viewer.NextStepNeverCompletes(prev, next);
    Viewer.NextStepMonotone(prev, next);
    SameStepOrder();
    IndexAgrees(Steps, Viewer.Steps, prev);
    IndexAgrees(Steps, Viewer.Steps, r);
  }
}
