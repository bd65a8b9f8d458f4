/** The closed walk both of the gate's questions are asked through.

    The gate's own library is not part of this model; what it promises is: it refuses
    when a required step is not registered or when nothing is registered, it stops at
    the first refusal, and otherwise it answers with the first hold. */
module ClosedWalk {

  import opened Wrappers

  datatype Judged<+R> = Pass | Hold(reason: R) | Fault(reason: R)

  datatype Walked<+R> = Passed | Held(reason: R) | Refused(reason: R)

  /** One rule: its stable id and its judgement, which depends on the subject alone. */
  datatype Step<!I(==), !S, !R> = Step(id: I, judge: S -> Judged<R>)

  datatype Outcome = Allow | Degrade | Deny

  /** The walk's own refusals. */
  datatype WalkCode = RequiredUnregistered | NoCheckDecided | Inconsistent

  datatype Decision<I(==)> = Decision(outcome: Outcome, checks: seq<I>, code: Option<WalkCode>)

  predicate Registered<I(==), S, R>(steps: seq<Step<I, S, R>>, id: I) {
    exists i :: 0 <= i < |steps| && steps[i].id == id
  }

  /** The first step that refuses, or the number of steps. */
  function FirstFault<I(==), S, R>(subject: S, steps: seq<Step<I, S, R>>): (k: nat)
    ensures k <= |steps|
    ensures forall i :: 0 <= i < k ==> !steps[i].judge(subject).Fault?
    ensures k < |steps| ==> steps[k].judge(subject).Fault?
    decreases |steps|
  {
    if steps == [] || steps[0].judge(subject).Fault? then 0 else 1 + FirstFault(subject, steps[1..])
  }

  /** The first step that does not pass, or the number of steps. */
  function FirstHold<I(==), S, R>(subject: S, steps: seq<Step<I, S, R>>): (k: nat)
    ensures k <= |steps|
    ensures forall i :: 0 <= i < k ==> !steps[i].judge(subject).Hold?
    ensures k < |steps| ==> steps[k].judge(subject).Hold?
    decreases |steps|
  {
    if steps == [] || steps[0].judge(subject).Hold? then 0 else 1 + FirstHold(subject, steps[1..])
  }

  /** What the gate answers: the deciding step by name, without its reason. */
  function Evaluate<I(==), S, R>(subject: S, steps: seq<Step<I, S, R>>, required: seq<I>): Decision<I> {
    if exists id :: id in required && !Registered(steps, id) then Decision(Deny, [], Some(RequiredUnregistered))
    else if steps == [] then Decision(Deny, [], Some(NoCheckDecided))
    else if FirstFault(subject, steps) < |steps| then Decision(Deny, [steps[FirstFault(subject, steps)].id], None)
    else if FirstHold(subject, steps) < |steps| then Decision(Degrade, [steps[FirstHold(subject, steps)].id], None)
    else Decision(Allow, [], None)
  }

  /** The first step of that id. */
  function FindStep<I(==), S, R>(steps: seq<Step<I, S, R>>, id: I): (k: nat)
    ensures k <= |steps|
    ensures forall i :: 0 <= i < k ==> steps[i].id != id
    ensures k < |steps| ==> steps[k].id == id
    decreases |steps|
  {
    if steps == [] || steps[0].id == id then 0 else 1 + FindStep(steps[1..], id)
  }

  /** A decision carries no reason, so the deciding step is found again by its id and
      judged a second time; an answer that does not match refuses. */
  function Walk<I(==), S, R>(subject: S, steps: seq<Step<I, S, R>>, required: seq<I>, walkFault: WalkCode -> R): Walked<R> {
    var decision := Evaluate(subject, steps, required);
    if decision.outcome == Allow then Passed
    else
      var code := if decision.code.Some? then decision.code.value else Inconsistent;
      if decision.checks == [] || FindStep(steps, decision.checks[0]) == |steps| then Refused(walkFault(code))
      else
        match (decision.outcome, steps[FindStep(steps, decision.checks[0])].judge(subject))
        case (Degrade, Hold(reason)) => Held(reason)
        case (Deny, Fault(reason)) => Refused(reason)
        case _ => Refused(walkFault(code))
  }

  ghost predicate Distinct<I, S, R>(steps: seq<Step<I, S, R>>) {
    forall i, j :: 0 <= i < j < |steps| ==> steps[i].id != steps[j].id
  }

  ghost predicate Complete<I, S, R>(steps: seq<Step<I, S, R>>, required: seq<I>) {
    steps != [] && forall id :: id in required ==> Registered(steps, id)
  }

  lemma {:induction false} FoundAgain<I, S, R>(steps: seq<Step<I, S, R>>, k: nat)
    requires Distinct(steps) && k < |steps|
    ensures FindStep(steps, steps[k].id) == k
  {
    var f := FindStep(steps, steps[k].id);
    assert f <= k;
  }

  /** With distinct ids and every requirement registered, the second judgement is always
      the first one: a refusal is the first refusing step's, a hold is the first holding
      step's and only when nothing refuses, and a pass is everyone's. */
  lemma {:induction false} RefusalOutranksHold<I, S, R>(subject: S, steps: seq<Step<I, S, R>>, required: seq<I>, walkFault: WalkCode -> R)
    requires Distinct(steps) && Complete(steps, required)
    ensures
      var w, f, h := Walk(subject, steps, required, walkFault), FirstFault(subject, steps), FirstHold(subject, steps);
      && (f < |steps| ==> w == Refused(steps[f].judge(subject).reason))
      && (f == |steps| && h < |steps| ==> w == Held(steps[h].judge(subject).reason))
      && (f == |steps| && h == |steps| ==> w == Passed)
  {
    var f, h := FirstFault(subject, steps), FirstHold(subject, steps);
    if f < |steps| {
      FoundAgain(steps, f);
    } else if h < |steps| {
      FoundAgain(steps, h);
    }
  }

  /** The first refusal among judgements. */
  function FaultIn<R>(js: seq<Judged<R>>): Option<R>
    decreases |js|
  {
    if js == [] then None else if js[0].Fault? then Some(js[0].reason) else FaultIn(js[1..])
  }

  function HoldIn<R>(js: seq<Judged<R>>): Option<R>
    decreases |js|
  {
    if js == [] then None else if js[0].Hold? then Some(js[0].reason) else HoldIn(js[1..])
  }

  lemma {:induction false} FirstIsFirst<I, S, R>(subject: S, steps: seq<Step<I, S, R>>, js: seq<Judged<R>>)
    requires |js| == |steps| && forall i :: 0 <= i < |steps| ==> steps[i].judge(subject) == js[i]
    ensures var f := FirstFault(subject, steps); FaultIn(js) == if f < |steps| then Some(js[f].reason) else None
    ensures var h := FirstHold(subject, steps); HoldIn(js) == if h < |steps| then Some(js[h].reason) else None
    decreases |js|
  {
    if js != [] {
      FirstIsFirst(subject, steps[1..], js[1..]);
    }
  }

  /** The walk, told by what each step says. */
  lemma {:induction false} WalkByJudgements<I, S, R>(
      subject: S, steps: seq<Step<I, S, R>>, required: seq<I>, walkFault: WalkCode -> R, js: seq<Judged<R>>)
    requires Distinct(steps) && Complete(steps, required)
    requires |js| == |steps| && forall i :: 0 <= i < |steps| ==> steps[i].judge(subject) == js[i]
    ensures Walk(subject, steps, required, walkFault) ==
      if FaultIn(js).Some? then Refused(FaultIn(js).value)
      else if HoldIn(js).Some? then Held(HoldIn(js).value)
      else Passed
  {
    RefusalOutranksHold(subject, steps, required, walkFault);
    FirstIsFirst(subject, steps, js);
  }

  /** Leaving a required step out refuses, whatever the other steps say. */
  lemma {:induction false} IncompleteRefuses<I, S, R>(subject: S, steps: seq<Step<I, S, R>>, required: seq<I>, walkFault: WalkCode -> R)
    requires !Complete(steps, required)
    ensures Walk(subject, steps, required, walkFault).Refused?
  {
  }

  /** The order the steps are registered in decides at most the reason: a walk of the same
      distinct steps passes, holds or refuses just the same. */
  lemma {:induction false} OrderDecidesOnlyTheReason<I, S, R>(
      subject: S, steps: seq<Step<I, S, R>>, others: seq<Step<I, S, R>>, required: seq<I>, walkFault: WalkCode -> R)
    requires Distinct(steps) && Distinct(others) && Complete(steps, required)
    requires SameSteps(steps, others) && SameSteps(others, steps)
    ensures
      var v, w := Walk(subject, steps, required, walkFault), Walk(subject, others, required, walkFault);
      v.Passed? == w.Passed? && v.Held? == w.Held? && v.Refused? == w.Refused?
  {
    assert others != [] by {
      assert Within(steps[0], others);
    }
    forall id | id in required ensures Registered(others, id) {
      var i :| 0 <= i < |steps| && steps[i].id == id;
      assert Within(steps[i], others);
    }
    RefusalOutranksHold(subject, steps, required, walkFault);
    RefusalOutranksHold(subject, others, required, walkFault);
    SameLabel(subject, steps, others);
    SameLabel(subject, others, steps);
  }

  ghost predicate Within<I, S, R>(step: Step<I, S, R>, steps: seq<Step<I, S, R>>) {
    exists j :: 0 <= j < |steps| && steps[j] == step
  }

  ghost predicate SameSteps<I, S, R>(steps: seq<Step<I, S, R>>, others: seq<Step<I, S, R>>) {
    forall i :: 0 <= i < |steps| ==> Within(steps[i], others)
  }

  lemma {:induction false} SameLabel<I, S, R>(subject: S, steps: seq<Step<I, S, R>>, others: seq<Step<I, S, R>>)
    requires SameSteps(steps, others)
    ensures FirstFault(subject, steps) < |steps| ==> FirstFault(subject, others) < |others|
    ensures FirstHold(subject, steps) < |steps| ==> FirstHold(subject, others) < |others|
  {
    var f, h := FirstFault(subject, steps), FirstHold(subject, steps);
    if f < |steps| {
      assert Within(steps[f], others);
    }
    if h < |steps| {
      assert Within(steps[h], others);
    }
  }

  /** Distinctness is needed: two steps of one id turn a hold into a refusal. */
  lemma {:induction false} SharedIdMisleads<S, R>(subject: S, reason: R, walkFault: WalkCode -> R)
    ensures
      var steps := [Step(0, (s: S) => Pass), Step(0, (s: S) => Hold(reason))];
      Walk(subject, steps, [0], walkFault) == Refused(walkFault(Inconsistent))
  {
    var steps: seq<Step<int, S, R>> := [Step(0, (s: S) => Pass), Step(0, (s: S) => Hold(reason))];
    assert steps[0].judge(subject) == Pass && steps[1].judge(subject) == Hold(reason);
    assert Registered(steps, 0);
    assert FindStep(steps, 0) == 0;
    assert FirstFault(subject, steps) == 2;
    assert FirstHold(subject, steps) == 1;
  }
}
