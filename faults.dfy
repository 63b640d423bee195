/** Awaited steps that may throw. A run of steps is modelled by the steps it
    would perform if nothing threw, and a fault: the position of the first
    step that throws. The steps performed are those before the fault. */
module Faults {
  import opened Js

  /** The fault position falls inside the steps. */
  predicate Interrupts<A>(fault: Option<nat>, steps: seq<A>) {
    fault.Some? && fault.value < |steps|
  }

  /** The steps performed: those before the fault, or all of them. */
  function Truncated<A>(steps: seq<A>, fault: Option<nat>): (r: seq<A>)
    ensures r <= steps
    ensures |r| == if Interrupts(fault, steps) then fault.value else |steps|
  {
    if Interrupts(fault, steps) then steps[..fault.value] else steps
  }

  /** The fault position as seen from `n` steps further on; a position before
      that point is no longer ahead. */
  function Shift(fault: Option<nat>, n: nat): Option<nat> {
    if fault.Some? && fault.value >= n then Some(fault.value - n) else None
  }

  /** Moving the point of view on by `a` and then by `b` is moving it on by
      `a + b`. */
  lemma ShiftTwice(fault: Option<nat>, a: nat, b: nat)
    ensures Shift(Shift(fault, a), b) == Shift(fault, a + b)
  {
  }

  /** After `trace`, running `block` behind the uninterrupted `done` performs
      the truncation of `done + block`. */
  lemma Advance<A>(trace: seq<A>, done: seq<A>, block: seq<A>, fault: Option<nat>, next: seq<A>)
    requires !Interrupts(Shift(fault, |trace|), done)
    requires next == trace + done + Truncated(block, Shift(fault, |trace| + |done|))
    ensures next == trace + Truncated(done + block, Shift(fault, |trace|))
    ensures Interrupts(Shift(fault, |trace|), done + block) <==> Interrupts(Shift(fault, |trace| + |done|), block)
  {
    var f := Shift(fault, |trace|);
    ShiftTwice(fault, |trace|, |done|);
    if Interrupts(f, done + block) {
      assert (done + block)[..f.value] == done + block[..f.value - |done|];
    }
  }

  /** Once the fault falls inside a prefix, running on performs nothing more. */
  lemma InterruptedPrefix<A>(done: seq<A>, steps: seq<A>, fault: Option<nat>)
    requires done <= steps && Interrupts(fault, done)
    ensures Interrupts(fault, steps) && Truncated(steps, fault) == Truncated(done, fault)
  {
  }

  /** Where a run of steps stops: at the fault when it falls inside, at the
      end otherwise. */
  lemma StopsAt<A>(steps: seq<A>, fault: Option<nat>, n: nat)
    requires n <= |steps|
    requires if n < |steps| then fault == Some(n) else !Interrupts(fault, steps)
    ensures Truncated(steps, fault) == steps[..n]
    ensures Interrupts(fault, steps) <==> n < |steps|
  {
  }

  /** One awaited step after `trace`: it throws exactly when it stands at the
      fault position, and is then not performed. */
  method Await<A>(trace: seq<A>, a: A, fault: Option<nat>) returns (next: seq<A>, ok: bool)
    ensures ok <==> fault != Some(|trace|)
    ensures next == if ok then trace + [a] else trace
  {
    ok := fault != Some(|trace|);
    next := if ok then trace + [a] else trace;
  }
}
