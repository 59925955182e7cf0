/**
 * Facts about running a step trace against an abort signal, independent of
 * the tree the trace came from.
 */
module ReplayFacts {
  import opened Wrappers
  import opened FileTree
  import opened Traversal

  /** Check point `i` of `steps` finds the signal set. */
  ghost predicate ObservesAbort(steps: seq<Step>, signal: Option<Signal>, dispatched: nat, i: int)
  {
    && 0 <= i < |steps|
    && steps[i] == Check
    && IsAborted(signal, dispatched + |Emits(steps[..i])|)
  }

  /** Every event of the trace is dispatched right after a check point. */
  ghost predicate Guarded(steps: seq<Step>)
  {
    forall i | 0 <= i < |steps| && steps[i].Emit? :: 0 < i && steps[i - 1] == Check
  }

  lemma {:induction false} EmitsAppend(a: seq<Step>, b: seq<Step>)
    ensures Emits(a + b) == Emits(a) + Emits(b)
  {
    if a == [] {
      assert a + b == b;
    } else {
      assert (a + b)[0] == a[0];
      assert (a + b)[1..] == a[1..] + b;
      EmitsAppend(a[1..], b);
      var first := if a[0].Emit? then [a[0].event] else [];
      assert Emits(a + b) == first + Emits(a[1..] + b);
    }
  }

  /** Running two traces one after the other is running their concatenation. */
  lemma {:induction false} ReplayAppend(a: seq<Step>, b: seq<Step>, signal: Option<Signal>, dispatched: nat)
    ensures var ra := Replay(a, signal, dispatched);
            Replay(a + b, signal, dispatched) ==
              if ra.error.Some? then ra
              else
                var rb := Replay(b, signal, dispatched + |ra.log|);
                Run(ra.log + rb.log, rb.error)
  {
    if a == [] {
      assert a + b == b;
    } else {
      assert (a + b)[0] == a[0];
      assert (a + b)[1..] == a[1..] + b;
      match a[0]
      case Check =>
        ReplayAppend(a[1..], b, signal, dispatched);
      case Fault =>
      case Emit(event) =>
        ReplayAppend(a[1..], b, signal, dispatched + 1);
        var ra' := Replay(a[1..], signal, dispatched + 1);
        if ra'.error.None? {
          var rb := Replay(b, signal, dispatched + 1 + |ra'.log|);
          assert [event] + (ra'.log + rb.log) == ([event] + ra'.log) + rb.log;
        }
    }
  }

  /** Dropping the first step shifts the check points by one. */
  lemma ObservesAbortShift(steps: seq<Step>, signal: Option<Signal>, dispatched: nat, i: nat)
    requires steps != []
    ensures ObservesAbort(steps, signal, dispatched, i + 1)
            <==> ObservesAbort(steps[1..], signal, dispatched + (if steps[0].Emit? then 1 else 0), i)
  {
    if i + 1 < |steps| {
      assert steps[..i + 1][1..] == steps[1..][..i];
      assert steps[..i + 1][0] == steps[0];
    }
  }

  /**
   * What a run of a trace yields: the events it dispatches are a prefix of
   * the trace's events; it completes exactly when the trace holds no fault
   * and no check point finds the signal set, and then dispatches every
   * event; an I/O error comes from a fault and a cancellation from a check
   * point that found the signal set.
   */
  lemma {:induction false} ReplayOutcome(steps: seq<Step>, signal: Option<Signal>, dispatched: nat)
    ensures Replay(steps, signal, dispatched).log <= Emits(steps)
    ensures Replay(steps, signal, dispatched).error.None?
            <==> Fault !in steps && forall i :: !ObservesAbort(steps, signal, dispatched, i)
    ensures Replay(steps, signal, dispatched).error.None? ==> Replay(steps, signal, dispatched).log == Emits(steps)
    ensures Replay(steps, signal, dispatched).error == Some(IoError) ==> Fault in steps
    ensures Replay(steps, signal, dispatched).error == Some(OperationAborted)
            ==> exists i :: ObservesAbort(steps, signal, dispatched, i)
  {
    if steps != [] {
      var next := dispatched + (if steps[0].Emit? then 1 else 0);
      assert steps == [steps[0]] + steps[1..];
      forall i: nat
        ensures ObservesAbort(steps, signal, dispatched, i + 1) <==> ObservesAbort(steps[1..], signal, next, i)
      {
        ObservesAbortShift(steps, signal, dispatched, i);
      }
      assert forall i :: ObservesAbort(steps, signal, dispatched, i) ==> i == 0 || ObservesAbort(steps[1..], signal, next, i - 1);
      assert ObservesAbort(steps, signal, dispatched, 0) <==> steps[0] == Check && IsAborted(signal, dispatched);
      match steps[0]
      case Check =>
        if !IsAborted(signal, dispatched) {
          ReplayOutcome(steps[1..], signal, dispatched);
        }
      case Fault =>
      case Emit(event) =>
        ReplayOutcome(steps[1..], signal, dispatched + 1);
    }
  }

  /**
   * In a guarded trace without faults, a signal set after `k` dispatched
   * events stops the run right after the `k`-th event, when there are more.
   */
  lemma {:induction false} ReplayStopsAfter(steps: seq<Step>, k: nat, dispatched: nat)
    requires Guarded(steps) && Fault !in steps
    requires dispatched <= k < dispatched + |Emits(steps)|
    ensures Replay(steps, Some(AbortAfter(k)), dispatched)
            == Run(Emits(steps)[..k - dispatched], Some(OperationAborted))
  {
    assert steps != [];
    assert steps[0] == Check;
    if dispatched < k {
      var rest := steps[1..];
      if rest != [] && rest[0].Emit? {
        var tail := steps[2..];
        assert rest[1..] == tail;
        assert Guarded(tail) by {
          forall i | 0 <= i < |tail| && tail[i].Emit? ensures 0 < i && tail[i - 1] == Check {
            assert steps[i + 2] == tail[i];
          }
        }
        assert Emits(steps) == [rest[0].event] + Emits(tail);
        assert Fault !in tail by { assert forall i | 0 <= i < |tail| :: tail[i] == steps[i + 2]; }
        ReplayStopsAfter(tail, k, dispatched + 1);
        assert Emits(steps)[..k - dispatched] == [rest[0].event] + Emits(tail)[..k - dispatched - 1];
      } else {
        assert Guarded(rest) by {
          forall i | 0 <= i < |rest| && rest[i].Emit? ensures 0 < i && rest[i - 1] == Check {
            assert steps[i + 1] == rest[i];
          }
        }
        assert Fault !in rest by { assert forall i | 0 <= i < |rest| :: rest[i] == steps[i + 1]; }
        ReplayStopsAfter(rest, k, dispatched);
      }
    }
  }

  /** A signal set only after more events than the trace holds is never observed. */
  lemma {:induction false} ReplayUnreached(steps: seq<Step>, k: nat, dispatched: nat)
    requires Fault !in steps
    requires dispatched + |Emits(steps)| < k
    ensures Replay(steps, Some(AbortAfter(k)), dispatched) == Run(Emits(steps), None)
  {
    if steps != [] {
      assert steps == [steps[0]] + steps[1..];
      match steps[0]
      case Check =>
        ReplayUnreached(steps[1..], k, dispatched);
      case Emit(event) =>
        ReplayUnreached(steps[1..], k, dispatched + 1);
    }
  }

  /** The trace ends with an event: no check point follows its last event. */
  predicate EndsOnEmit(steps: seq<Step>)
  {
    steps != [] && steps[|steps| - 1].Emit?
  }

  /**
   * In a trace without faults, a signal set once every event of the trace
   * has been dispatched lets all of them through, and stops the run exactly
   * when a check point follows the last event.
   */
  lemma {:induction false} ReplayAtLast(steps: seq<Step>, dispatched: nat)
    requires Fault !in steps
    ensures Replay(steps, Some(AbortAfter(dispatched + |Emits(steps)|)), dispatched)
            == Run(Emits(steps), if steps == [] || EndsOnEmit(steps) then None else Some(OperationAborted))
  {
    if steps != [] {
      var rest := steps[1..];
      assert steps == [steps[0]] + rest;
      assert Fault !in rest;
      if rest != [] {
        assert steps[|steps| - 1] == rest[|rest| - 1];
      }
      match steps[0]
      case Check =>
        if Emits(rest) == [] {
          var last := |steps| - 1;
          assert steps == steps[..last] + [steps[last]];
          EmitsAppend(steps[..last], [steps[last]]);
          assert !steps[last].Emit?;
        } else {
          ReplayAtLast(rest, dispatched);
        }
      case Emit(event) =>
        ReplayAtLast(rest, dispatched + 1);
    }
  }

  lemma GuardedAppend(a: seq<Step>, b: seq<Step>)
    requires Guarded(a) && Guarded(b)
    ensures Guarded(a + b)
  {
  }
}
