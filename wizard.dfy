/** The step sequencing shared by the multi-step forms: an index into a fixed
    list of steps, moved forward by "Next" when the current step's fields
    validate and back by "Previous". */
module Wizard {
  import opened Zod

  /** `form.trigger(fields)` with the zod resolver: the whole schema is parsed
      and the answer is whether none of its issues sits on one of `fields`. */
  predicate TriggerOk<F(==)>(issues: seq<Issue<F>>, fields: seq<F>) {
    forall i :: i in issues ==> i.path !in fields
  }

  /** `setStep((s) => Math.min(s + 1, steps.length - 1))`. */
  function NextStep(s: int, count: int): (t: int)
    requires 0 <= s < count
    ensures 0 <= t < count
    ensures s < count - 1 ==> t == s + 1
    ensures s == count - 1 ==> t == s
  {
    if s + 1 < count - 1 then s + 1 else count - 1
  }

  /** `setStep((s) => Math.max(0, s - 1))`. */
  function BackStep(s: int): (t: int)
    ensures t >= 0
    ensures s > 0 ==> t == s - 1
    ensures s <= 0 ==> t == 0
  {
    if 0 > s - 1 then 0 else s - 1
  }

  /** The button next to "Previous": "Next" while `step < steps.length - 1`,
      the submit button otherwise. */
  function SubmitShown(step: int, count: int): (shown: bool)
    requires 0 <= step < count
    ensures shown <==> step == count - 1
  {
    !(step < count - 1)
  }

  /** A user's click on "Next" (with the outcome of its `trigger`) or "Previous". */
  datatype Move = Next(ok: bool) | Back

  function Apply(s: int, count: int, m: Move): int
    requires 0 <= s < count
  {
    match m
    case Next(ok) => if ok then NextStep(s, count) else s
    case Back => BackStep(s)
  }

  /** The step after a sequence of clicks. */
  function Run(s: int, count: int, moves: seq<Move>): int
    requires 0 <= s < count
    decreases |moves|
  {
    if moves == [] then s
    else
      var t := Apply(s, count, moves[0]);
      assert 0 <= t < count;
      Run(t, count, moves[1..])
  }

  /** Whatever the clicks, the step stays within the list, and it moves by at
      most one place per click. */
  lemma {:induction false} RunStaysInRange(s: int, count: int, moves: seq<Move>)
    requires 0 <= s < count
    ensures 0 <= Run(s, count, moves) < count
    ensures s - |moves| <= Run(s, count, moves) <= s + |moves|
    decreases |moves|
  {
    if moves != [] {
      RunStaysInRange(Apply(s, count, moves[0]), count, moves[1..]);
    }
  }

  /** Clicks that all fail validation leave the step where it was. */
  lemma {:induction false} FailedNextsKeepStep(s: int, count: int, moves: seq<Move>)
    requires 0 <= s < count
    requires forall k :: 0 <= k < |moves| ==> moves[k] == Next(false)
    ensures Run(s, count, moves) == s
    decreases |moves|
  {
    if moves != [] {
      FailedNextsKeepStep(s, count, moves[1..]);
    }
  }

  /** From the first step, `count - 1` successful "Next" clicks reach the last
      step, and further successful clicks stay there. */
  lemma {:induction false} SuccessfulNextsReachLast(s: int, count: int, n: nat)
    requires 0 <= s < count
    ensures Run(s, count, seq(n, _ => Next(true))) == if s + n < count - 1 then s + n else count - 1
    decreases n
  {
    if n > 0 {
      var moves := seq(n, _ => Next(true));
      assert moves[1..] == seq(n - 1, _ => Next(true));
      SuccessfulNextsReachLast(NextStep(s, count), count, n - 1);
    }
  }

  /** When every field belongs to one of the steps (`stepOf` names it), the whole
      form is free of issues exactly when every step's `trigger` succeeds. */
  lemma CleanIffEveryStepClean<F(!new), S>(
    issues: seq<Issue<F>>, steps: seq<S>, fieldsOf: S -> seq<F>, stepOf: F -> S)
    requires forall f :: stepOf(f) in steps && f in fieldsOf(stepOf(f))
    ensures issues == [] <==> forall s :: s in steps ==> TriggerOk(issues, fieldsOf(s))
  {
    if issues != [] {
      var i := issues[0];
      assert i in issues;
      assert !TriggerOk(issues, fieldsOf(stepOf(i.path)));
    }
  }
}
