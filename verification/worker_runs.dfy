/** Every run of the notification thread: when it turns notifications off, how long it waits,
    and which dismiss it tries again (crates/thinwire-notify/src/lib.rs, pipe.rs). */
module WorkerRuns {
  import opened Wrappers
  import opened Commands
  import opened Inboxes
  import opened Workers

  datatype Step =
    | Sends(commands: Commands)
    | Takes
    | CallEnds(ok: bool)

  /** One OS call with its result, and whether its command went back to the inbox. */
  datatype Call = Call(command: NotifyCommand, ok: bool, again: bool)

  /** The worker, and as history its OS calls in order. */
  datatype Run = Run(worker: Worker, calls: seq<Call>)

  function Apply(r: Run, step: Step): Run {
    match step
    case Sends(commands) => r.(worker := Send(r.worker, commands))
    case Takes => r.(worker := Take(r.worker))
    case CallEnds(ok) =>
      if r.worker.running.None? then r
      else
        var after := Finish(r.worker, ok);
        Run(after, r.calls + [Call(r.worker.running.value, ok, |after.inbox| > |r.worker.inbox|)])
  }

  function Exec(steps: seq<Step>): Run {
    if steps == [] then Run(IDLE, []) else Apply(Exec(steps[..|steps| - 1]), steps[|steps| - 1])
  }

  // ----- what the calls say

  /** How many calls of the chat's dismiss failed and went back, in a row up to now. */
  function TriesBefore(calls: seq<Call>, key: NotifyKey): nat {
    if calls == [] then 0
    else
      var last, before := calls[|calls| - 1], calls[..|calls| - 1];
      if last.command != Dismiss(key) then TriesBefore(before, key)
      else if last.again then TriesBefore(before, key) + 1
      else 0
  }

  /** A failure of content, or of the first try of a dismiss. */
  predicate CountedFailure(calls: seq<Call>, i: nat)
    requires i < |calls|
  {
    !calls[i].ok && (calls[i].command.Dismiss? ==> TriesBefore(calls[..i], calls[i].command.Key()) == 0)
  }

  /** The counted failures since the last success. */
  ghost function Row(calls: seq<Call>): set<nat> {
    set i: nat | i < |calls| && CountedFailure(calls, i) && forall j :: i < j < |calls| ==> !calls[j].ok
  }

  lemma RowNext(calls: seq<Call>, c: Call)
    ensures c.ok ==> Row(calls + [c]) == {}
    ensures !c.ok ==>
              Row(calls + [c]) == if CountedFailure(calls + [c], |calls|) then Row(calls) + {|calls|} else Row(calls)
    ensures |calls| !in Row(calls)
  {
    var all := calls + [c];
    assert all[|calls|] == c;
    forall i: nat | i < |calls| ensures CountedFailure(all, i) <==> CountedFailure(calls, i) {
      assert all[..i] == calls[..i] && all[i] == calls[i];
    }
    if !c.ok {
      forall i: nat ensures i in Row(all) <==> i in Row(calls) || (i == |calls| && CountedFailure(all, i)) {
        assert forall j :: 0 <= j < |calls| ==> all[j] == calls[j];
      }
    }
  }

  lemma TriesNext(calls: seq<Call>, c: Call, key: NotifyKey)
    ensures TriesBefore(calls + [c], key)
            == if c.command != Dismiss(key) then TriesBefore(calls, key)
               else if c.again then TriesBefore(calls, key) + 1 else 0
  {
    assert (calls + [c])[..|calls|] == calls;
  }

  // ----- the policy follows the calls

  /** The policy has what the calls say: the failures in a row, and while notifications are
      on the tries of each dismiss. */
  ghost predicate RunOk(r: Run) {
    && WorkerOk(r.worker)
    && r.worker.policy.failures == |Row(r.calls)|
    && (r.worker.off <==> |Row(r.calls)| >= MAX_FAILURES_IN_A_ROW)
    && (!r.worker.off ==> forall k :: TriesOf(r.worker.policy.tries, k) == TriesBefore(r.calls, k))
  }

  /** The call of a dismiss that fails goes back exactly when notifications stay on, it was
      not the third try, and no command of the chat waits. */
  predicate GoesBack(r: Run, key: NotifyKey, ok: bool, off: bool) {
    !ok && !off && TriesBefore(r.calls, key) + 1 < MAX_DISMISS_TRIES && !HasCommandOf(r.worker.inbox, key)
  }

  lemma AgainExactly(r: Run, ok: bool)
    requires RunOk(r) && r.worker.running.Some?
    ensures var c, after := r.worker.running.value, Apply(r, CallEnds(ok));
            && |after.calls| == |r.calls| + 1 && after.calls[..|r.calls|] == r.calls
            && after.calls[|r.calls|].again == (c.Dismiss? && GoesBack(r, c.Key(), ok, after.worker.off))
  {
  }

  lemma CallTries(r: Run, ok: bool, k: NotifyKey)
    requires RunOk(r) && r.worker.running.Some? && !Finish(r.worker, ok).off
    ensures TriesOf(Finish(r.worker, ok).policy.tries, k) == TriesBefore(Apply(r, CallEnds(ok)).calls, k)
  {
    var after := Apply(r, CallEnds(ok));
    AgainExactly(r, ok);
    TriesNext(r.calls, after.calls[|r.calls|], k);
    assert !r.worker.off;
  }

  lemma CallRow(r: Run, ok: bool)
    requires RunOk(r) && r.worker.running.Some?
    ensures Finish(r.worker, ok).policy.failures == |Row(Apply(r, CallEnds(ok)).calls)|
  {
    var after := Apply(r, CallEnds(ok));
    var c := after.calls[|r.calls|];
    assert after.calls == r.calls + [c] && after.calls[..|r.calls|] == r.calls;
    RowNext(r.calls, c);
    assert !r.worker.off;
    if c.command.Dismiss? {
      assert TriesOf(r.worker.policy.tries, c.command.Key()) == TriesBefore(r.calls, c.command.Key());
    }
  }

  lemma ApplyOk(r: Run, step: Step)
    requires RunOk(r)
    ensures RunOk(Apply(r, step))
  {
    match step
    case Sends(commands) => SendOk(r.worker, commands);
    case Takes => TakeOk(r.worker);
    case CallEnds(ok) =>
      if r.worker.running.Some? {
        FinishOk(r.worker, ok);
        CallRow(r, ok);
        if !Finish(r.worker, ok).off {
          forall k
            ensures TriesOf(Finish(r.worker, ok).policy.tries, k) == TriesBefore(Apply(r, CallEnds(ok)).calls, k)
          {
            CallTries(r, ok, k);
          }
        }
      }
  }

  lemma {:induction false} ExecOk(steps: seq<Step>)
    ensures RunOk(Exec(steps))
  {
    if steps != [] {
      ExecOk(steps[..|steps| - 1]);
      ApplyOk(Exec(steps[..|steps| - 1]), steps[|steps| - 1]);
    } else {
      assert Row([]) == {};
    }
  }

  // ----- the theorems, for every run

  /** Notifications are off exactly when five counted failures came with no success between
      them. A failure that is not counted never turns them off. */
  lemma OffExactly(steps: seq<Step>)
    ensures Exec(steps).worker.off <==> |Row(Exec(steps).calls)| >= 5
    ensures Exec(steps).worker.off ==>
              var calls := Exec(steps).calls;
              calls != [] && !calls[|calls| - 1].ok && CountedFailure(calls, |calls| - 1) && |Row(calls)| == 5
  {
    ExecOk(steps);
    if Exec(steps).worker.off { OffAtCounted(steps); }
  }

  lemma {:induction false} OffAtCounted(steps: seq<Step>)
    requires Exec(steps).worker.off
    ensures var calls := Exec(steps).calls;
            calls != [] && !calls[|calls| - 1].ok && CountedFailure(calls, |calls| - 1) && |Row(calls)| == 5
  {
    if steps != [] {
      var before, step := Exec(steps[..|steps| - 1]), steps[|steps| - 1];
      ExecOk(steps[..|steps| - 1]);
      if before.worker.off {
        OffAtCounted(steps[..|steps| - 1]);
      } else {
        var calls := Exec(steps).calls;
        assert step.CallEnds? && calls == before.calls + [calls[|before.calls|]];
        ExecOk(steps);
        RowNext(before.calls, calls[|before.calls|]);
      }
    }
  }

  /** What the thread does after a call: it goes on after a success, stops at the fifth counted
      failure in a row, and else waits for the failures in a row. */
  lemma NextExactly(steps: seq<Step>, ok: bool)
    requires Exec(steps).worker.running.Some?
    ensures var w, row := Exec(steps).worker, |Row(Exec(steps + [CallEnds(ok)]).calls)|;
            Record(w.policy, w.running.value, ok).next == if ok then Go else if row >= 5 then Off else Wait(row)
    ensures ok ==> Exec(steps + [CallEnds(ok)]).worker.policy.failures == 0
  {
    assert (steps + [CallEnds(ok)])[..|steps|] == steps;
    ExecOk(steps);
    ExecOk(steps + [CallEnds(ok)]);
    var r := Exec(steps);
    if ok { RowNext(r.calls, Exec(steps + [CallEnds(ok)]).calls[|r.calls|]); }
    CallRow(r, ok);
  }

  /** A dismiss that fails goes back to the inbox, as its newest command, exactly when
      notifications stay on, fewer than two tries before it went back in a row, and no command
      of its chat waits. So it runs at most three times in a row. */
  lemma RetriedExactly(steps: seq<Step>, key: NotifyKey, ok: bool)
    requires Exec(steps).worker.running == Some(Dismiss(key))
    ensures var w, after := Exec(steps).worker, Exec(steps + [CallEnds(ok)]).worker;
            && (Dismiss(key) in after.inbox && Dismiss(key) !in w.inbox <==>
                  !ok && !after.off && TriesBefore(Exec(steps).calls, key) < 2 && !HasCommandOf(w.inbox, key))
            && (!after.off ==> after.inbox == w.inbox || after.inbox == w.inbox + [Dismiss(key)])
            && (after.off ==> after.inbox == [])
    ensures TriesBefore(Exec(steps).calls, key) <= 2
  {
    assert (steps + [CallEnds(ok)])[..|steps|] == steps;
    ExecOk(steps);
    var w := Exec(steps).worker;
    assert Dismiss(key).Key() == key;
    assert Dismiss(key) in w.inbox ==> HasCommandOf(w.inbox, key);
    assert TriesOf(w.policy.tries, key) == TriesBefore(Exec(steps).calls, key);
  }
}
