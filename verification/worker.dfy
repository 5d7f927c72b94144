/** The notification thread and what it shares with the frontend
    (crates/thinwire-notify/src/lib.rs), with its failure policy (pipe.rs). Each
    function below is one locked section, or the bookkeeping after one OS call. */
module Workers {
  import opened Wrappers
  import opened Commands
  import opened Inboxes

  const MAX_FAILURES_IN_A_ROW := 5
  const MAX_DISMISS_TRIES := 3
  const RETRY_AFTER := 1
  const RETRY_MAX := 30

  /** `Wait` is for as long as that many failures in a row ask for, `RetryWait`. */
  datatype Next = Go | Wait(failures: nat) | Off

  /** Failures in a row, and the failed tries of each chat's dismiss. */
  datatype Policy = Policy(failures: nat, tries: map<NotifyKey, nat>)

  datatype Recorded = Recorded(policy: Policy, next: Next, retry: Option<NotifyKey>)

  function Pow2(n: nat): (r: nat)
    ensures r >= 1
  {
    if n == 0 then 1 else 2 * Pow2(n - 1)
  }

  /** Seconds to wait after `failures` failures in a row. */
  function RetryWait(failures: nat): (seconds: nat)
    ensures RETRY_AFTER <= seconds <= RETRY_MAX
  {
    var doublings := if failures == 0 then 0 else if failures - 1 < 16 then failures - 1 else 16;
    var wait := RETRY_AFTER * Pow2(doublings);
    if wait < RETRY_MAX then wait else RETRY_MAX
  }

  /** The wait doubles with each failure in a row, up to its longest. */
  lemma RetryWaitDoubles(failures: nat)
    ensures RetryWait(1) == 1
    ensures failures >= 1 ==>
              RetryWait(failures + 1)
              == if 2 * RetryWait(failures) < RETRY_MAX then 2 * RetryWait(failures) else RETRY_MAX
  {
    if failures >= 6 {
      PowGrows(5, if failures - 1 < 16 then failures - 1 else 16);
      PowGrows(5, if failures < 16 then failures else 16);
    }
  }

  lemma {:induction false} PowGrows(a: nat, b: nat)
    requires a <= b
    ensures Pow2(a) <= Pow2(b) && Pow2(5) == 32
  {
    if a < b { PowGrows(a, b - 1); }
  }

  function FailuresAfter(failures: nat, ok: bool, counts: bool): nat {
    if ok then 0 else if counts then failures + 1 else failures
  }

  function NextAfter(failures: nat, ok: bool): Next {
    if ok then Go else if failures >= MAX_FAILURES_IN_A_ROW then Off else Wait(failures)
  }

  function TriesOf(tries: map<NotifyKey, nat>, key: NotifyKey): nat {
    if key in tries then tries[key] else 0
  }

  /** `Policy::record`: only the first try of a command counts in the failures. */
  function Record(policy: Policy, command: NotifyCommand, ok: bool): Recorded {
    match command
    case Dismiss(key) =>
      var before := TriesOf(policy.tries, key);
      var tries := policy.tries - {key};
      var failures := FailuresAfter(policy.failures, ok, before == 0);
      var next := NextAfter(failures, ok);
      if ok || next == Off || before + 1 >= MAX_DISMISS_TRIES
      then Recorded(Policy(failures, tries), next, None)
      else Recorded(Policy(failures, tries[key := before + 1]), next, Some(key))
    case _ =>
      var failures := FailuresAfter(policy.failures, ok, true);
      Recorded(policy.(failures := failures), NextAfter(failures, ok), None)
  }

  /** `running` is the command whose OS call runs now (`busy` in the source). */
  datatype Worker = Worker(inbox: Commands, running: Option<NotifyCommand>, policy: Policy, off: bool)

  const IDLE := Worker([], None, Policy(0, map[]), false)

  predicate Idle(w: Worker) { w.inbox == [] && w.running == None }

  function Send(w: Worker, commands: Commands): Worker {
    if w.off then w else w.(inbox := PushAll(w.inbox, commands))
  }

  /** The first locked section of the loop: take a command. */
  function Take(w: Worker): Worker {
    if w.running.Some? || w.inbox == [] then w
    else w.(inbox := w.inbox[1..], running := Some(w.inbox[0]))
  }

  /** The second one, after the OS call of the running command. */
  function Finish(w: Worker, ok: bool): Worker {
    if w.running == None then w
    else
      var after := Record(w.policy, w.running.value, ok);
      var queued := after.retry.Some? && Retries(w.inbox, after.retry.value);
      var tries := if after.retry.Some? && !queued then after.policy.tries - {after.retry.value}
                   else after.policy.tries;
      var inbox := if after.retry.Some? then RetryDismiss(w.inbox, after.retry.value) else w.inbox;
      Worker(if after.next == Off then [] else inbox, None, after.policy.(tries := tries), after.next == Off)
  }

  /** What a `flush` waits for. */
  predicate FlushDone(w: Worker) {
    w.off || (w.inbox == [] && w.running == None)
  }

  ghost predicate TryWaits(w: Worker, key: NotifyKey) {
    Dismiss(key) in w.inbox || w.running == Some(Dismiss(key))
  }

  /** A chat with recorded tries has its dismiss queued or running, with tries left. */
  ghost predicate WorkerOk(w: Worker) {
    && InboxOk(w.inbox)
    && (w.off ==> Idle(w))
    && (!w.off ==> w.policy.failures < MAX_FAILURES_IN_A_ROW)
    && (!w.off ==> forall k :: k in w.policy.tries ==> TryWaits(w, k) && 0 < w.policy.tries[k] < MAX_DISMISS_TRIES)
  }

  lemma {:induction false} PushAllKeepsDismisses(inbox: Commands, commands: Commands, key: NotifyKey)
    requires Dismiss(key) in inbox
    ensures Dismiss(key) in PushAll(inbox, commands)
  {
    if commands != [] {
      var n := |commands| - 1;
      PushAllKeepsDismisses(inbox, commands[..n], key);
      PushKeepsDismiss(PushAll(inbox, commands[..n]), commands[n]);
    }
  }

  lemma SendOk(w: Worker, commands: Commands)
    requires WorkerOk(w)
    ensures WorkerOk(Send(w, commands))
  {
    if !w.off {
      PushAllOk(w.inbox, commands);
      forall k | k in w.policy.tries ensures TryWaits(Send(w, commands), k) {
        if Dismiss(k) in w.inbox { PushAllKeepsDismisses(w.inbox, commands, k); }
      }
    }
  }

  lemma TakeOk(w: Worker)
    requires WorkerOk(w)
    ensures WorkerOk(Take(w))
  {
    if w.running.None? && w.inbox != [] {
      PopOk(w.inbox);
      assert w.inbox == [w.inbox[0]] + w.inbox[1..];
    }
  }

  lemma FinishInboxOk(w: Worker, ok: bool)
    requires WorkerOk(w)
    ensures InboxOk(Finish(w, ok).inbox)
  {
    if w.running.Some? && Record(w.policy, w.running.value, ok).retry.Some? {
      RetryOk(w.inbox, Record(w.policy, w.running.value, ok).retry.value);
    }
  }

  /** A chat that keeps its tries is the retried one, or has its dismiss queued. */
  lemma FinishTries(w: Worker, ok: bool, k: NotifyKey)
    requires WorkerOk(w) && w.running.Some? && !Finish(w, ok).off && k in Finish(w, ok).policy.tries
    ensures Dismiss(k) in Finish(w, ok).inbox && 0 < Finish(w, ok).policy.tries[k] < MAX_DISMISS_TRIES
  {
    var after := Record(w.policy, w.running.value, ok);
    if after.retry != Some(k) {
      assert k in w.policy.tries && w.running != Some(Dismiss(k));
      assert TryWaits(w, k);
    }
  }

  lemma FinishOk(w: Worker, ok: bool)
    requires WorkerOk(w)
    ensures WorkerOk(Finish(w, ok))
  {
    FinishInboxOk(w, ok);
    var done := Finish(w, ok);
    if w.running.Some? && !done.off {
      forall k | k in done.policy.tries
        ensures TryWaits(done, k) && 0 < done.policy.tries[k] < MAX_DISMISS_TRIES
      {
        FinishTries(w, ok, k);
      }
    }
  }

  /** A `flush` that returns true with the backend on leaves no command, no running
      call, and no retry owed. */
  lemma FlushMeansDone(w: Worker)
    requires WorkerOk(w) && !w.off
    ensures FlushDone(w) <==> Idle(w)
    ensures FlushDone(w) ==> w.policy.tries == map[]
  {
    if FlushDone(w) {
      assert forall k :: k in w.policy.tries ==> TryWaits(w, k);
      assert w.policy.tries == map[];
    }
  }

  // ----- the drain ends

  /** OS calls that a queued command can still cost. */
  function Cost(c: NotifyCommand, tries: map<NotifyKey, nat>): nat {
    match c
    case Dismiss(key) =>
      if TriesOf(tries, key) < MAX_DISMISS_TRIES then MAX_DISMISS_TRIES - TriesOf(tries, key) else 0
    case _ => 1
  }

  function SumCost(commands: Commands, tries: map<NotifyKey, nat>): nat {
    if commands == [] then 0
    else SumCost(commands[..|commands| - 1], tries) + Cost(commands[|commands| - 1], tries)
  }

  /** The tries of a running dismiss end with it: a second dismiss of its chat that
      waits in the inbox starts with all its tries. */
  function TriesOfQueue(w: Worker): map<NotifyKey, nat> {
    match w.running
    case Some(Dismiss(key)) => w.policy.tries - {key}
    case _ => w.policy.tries
  }

  /** Queued content, and the remaining tries of the queued and running dismisses. */
  function Owed(w: Worker): nat {
    (if w.running.Some? then Cost(w.running.value, w.policy.tries) else 0) + SumCost(w.inbox, TriesOfQueue(w))
  }

  lemma {:induction false} SumCostConcat(a: Commands, b: Commands, tries: map<NotifyKey, nat>)
    ensures SumCost(a + b, tries) == SumCost(a, tries) + SumCost(b, tries)
  {
    if b == [] {
      assert a + b == a;
    } else {
      assert (a + b)[..|a + b| - 1] == a + b[..|b| - 1];
      SumCostConcat(a, b[..|b| - 1], tries);
    }
  }

  lemma {:induction false} SumCostSame(commands: Commands, a: map<NotifyKey, nat>, b: map<NotifyKey, nat>)
    requires forall k :: Dismiss(k) in commands ==> TriesOf(a, k) == TriesOf(b, k)
    ensures SumCost(commands, a) == SumCost(commands, b)
  {
    if commands != [] {
      var n := |commands| - 1;
      assert commands == commands[..n] + [commands[n]];
      SumCostSame(commands[..n], a, b);
    }
  }

  lemma TakeOwes(w: Worker)
    requires WorkerOk(w) && w.running.None? && w.inbox != []
    ensures Owed(Take(w)) == Owed(w)
  {
    var c, rest := w.inbox[0], w.inbox[1..];
    assert w.inbox == [c] + rest;
    SumCostConcat([c], rest, w.policy.tries);
    assert [c][..0] == [];
    assert c.Dismiss? ==> c !in rest by {
      assert forall i :: 0 <= i < |rest| ==> rest[i] == w.inbox[i + 1];
    }
    SumCostSame(rest, w.policy.tries, TriesOfQueue(Take(w)));
  }

  lemma FinishOwes(w: Worker, ok: bool)
    requires WorkerOk(w) && w.running.Some?
    ensures Owed(Finish(w, ok)) < Owed(w)
  {
    var c := w.running.value;
    var after := Record(w.policy, c, ok);
    var done := Finish(w, ok);
    assert !w.off;
    assert Cost(c, w.policy.tries) > 0;
    if after.retry.Some? && Retries(w.inbox, after.retry.value) {
      var key := after.retry.value;
      assert Dismiss(key).Key() == key;
      SumCostConcat(w.inbox, [Dismiss(key)], done.policy.tries);
      assert [Dismiss(key)][..0] == [];
      SumCostSame(w.inbox, TriesOfQueue(w), done.policy.tries);
    } else {
      assert !done.off ==> done.policy.tries == TriesOfQueue(w);
    }
  }

  /** The worker alone, with no new command: `results` are the results of the OS calls. */
  function Drain(w: Worker, results: seq<bool>): Worker
    decreases |results|, w.running.None?
  {
    if w.running.Some? then
      if results == [] then w else Drain(Finish(w, results[0]), results[1..])
    else if w.inbox == [] then w
    else Drain(Take(w), results)
  }

  /** With no new command the worker is idle after at most `Owed` OS calls, whatever
      fails. */
  lemma {:induction false} DrainEnds(w: Worker, results: seq<bool>)
    requires WorkerOk(w) && |results| >= Owed(w)
    ensures WorkerOk(Drain(w, results)) && Idle(Drain(w, results))
    decreases |results|, w.running.None?
  {
    if w.running.Some? {
      FinishOwes(w, results[0]);
      FinishOk(w, results[0]);
      DrainEnds(Finish(w, results[0]), results[1..]);
    } else if w.inbox != [] {
      TakeOwes(w);
      TakeOk(w);
      DrainEnds(Take(w), results);
    }
  }

  lemma DrainOne(w: Worker, results: seq<bool>, calls: nat)
    requires w.running.None? && w.inbox != [] && calls < |results|
    ensures Drain(w, results[calls..]) == Drain(Finish(Take(w), results[calls]), results[calls + 1..])
  {
    assert results[calls..][0] == results[calls] && results[calls..][1..] == results[calls + 1..];
  }

  /** One command of a drain: it costs one call, and the rest of the drain comes after it. */
  lemma RunOneCall(w: Worker, results: seq<bool>, calls: nat, owed: nat)
    requires WorkerOk(w) && w.running.None? && w.inbox != [] && calls + Owed(w) <= owed <= |results|
    ensures calls < |results|
    ensures var next := Finish(Take(w), results[calls]);
            && WorkerOk(next) && calls + 1 + Owed(next) <= owed && Owed(next) < Owed(w)
            && Drain(w, results[calls..]) == Drain(next, results[calls + 1..])
  {
    TakeOk(w);
    TakeOwes(w);
    FinishOwes(Take(w), true);
    FinishOwes(Take(w), results[calls]);
    FinishOk(Take(w), results[calls]);
    DrainOne(w, results, calls);
  }

  lemma DrainStops(w: Worker, results: seq<bool>)
    requires WorkerOk(w) && w.running.None? && (w.inbox == [] || w.off)
    ensures Drain(w, results) == w && Idle(w)
  {
  }

  /** A dismiss that keeps failing never turns notifications off by itself: only its
      first try counts. */
  lemma RetriesNeverTurnOff(w: Worker, key: NotifyKey)
    requires WorkerOk(w) && w.running == Some(Dismiss(key)) && key in w.policy.tries
    ensures !Finish(w, false).off && Finish(w, false).policy.failures == w.policy.failures
  {
    assert !w.off;
  }

  class FailurePolicy {
    var failures: nat
    var dismissTries: map<NotifyKey, nat>

    constructor ()
      ensures View() == IDLE.policy
    {
      failures, dismissTries := 0, map[];
    }

    function View(): Policy
      reads this
    {
      Policy(failures, dismissTries)
    }

    method RecordTry(ok: bool, counts: bool) returns (next: Next)
      modifies this`failures
      ensures failures == FailuresAfter(old(failures), ok, counts) && next == NextAfter(failures, ok)
      ensures ok ==> failures == 0 && next == Go
    {
      if ok {
        failures := 0;
        return Go;
      }
      if counts { failures := failures + 1; }
      if failures >= MAX_FAILURES_IN_A_ROW { return Off; }
      next := Wait(failures);
    }

    method RecordResult(command: NotifyCommand, ok: bool) returns (next: Next, retry: Option<NotifyKey>)
      modifies this
      ensures Recorded(View(), next, retry) == Record(old(View()), command, ok)
    {
      if command.IsContent() {
        next := RecordTry(ok, true);
        return next, None;
      }
      var key := command.Key();
      var failedBefore := TriesOf(dismissTries, key);
      dismissTries := dismissTries - {key};
      next := RecordTry(ok, failedBefore == 0);
      if ok || next == Off { return next, None; }
      var tries := failedBefore + 1;
      if tries >= MAX_DISMISS_TRIES { return next, None; }
      dismissTries := dismissTries[key := tries];
      retry := Some(key);
    }

    method Forget(key: NotifyKey)
      modifies this
      ensures View() == Policy(old(failures), old(dismissTries) - {key})
    {
      dismissTries := dismissTries - {key};
    }
  }

  /** What the frontend and the thread share, and the thread's policy. */
  class Notifier {
    const inbox: Inbox
    const policy: FailurePolicy
    var running: Option<NotifyCommand>
    var off: bool

    ghost function View(): Worker
      reads this, inbox, policy
    {
      Worker(inbox.commands, running, policy.View(), off)
    }

    constructor ()
      ensures fresh(inbox) && fresh(policy) && View() == IDLE && WorkerOk(View())
    {
      inbox := new Inbox();
      policy := new FailurePolicy();
      running, off := None, false;
    }

    method SendAll(commands: Commands)
      requires WorkerOk(View())
      modifies inbox
      ensures View() == Send(old(View()), commands) && WorkerOk(View())
    {
      SendOk(View(), commands);
      if off { return; }
      for i := 0 to |commands|
        invariant InboxOk(inbox.commands)
        invariant inbox.commands == PushAll(old(inbox.commands), commands[..i])
      {
        assert commands[..i + 1][..i] == commands[..i];
        inbox.PushCommand(commands[i]);
      }
      assert commands[..|commands|] == commands;
    }

    method TakeNext() returns (command: Option<NotifyCommand>)
      requires WorkerOk(View()) && running.None?
      modifies this, inbox
      ensures View() == Take(old(View())) && WorkerOk(View()) && command == running
    {
      TakeOk(View());
      command := inbox.Pop();
      running := command;
    }

    method FinishCall(ok: bool) returns (next: Next)
      requires WorkerOk(View()) && running.Some?
      modifies this, inbox, policy
      ensures View() == Finish(old(View()), ok) && WorkerOk(View())
      ensures next == Record(old(policy.View()), old(running.value), ok).next
    {
      FinishOk(View(), ok);
      var retry;
      next, retry := policy.RecordResult(running.value, ok);
      running := None;
      if retry.Some? {
        var queued := inbox.RetryDismissOf(retry.value);
        if !queued { policy.Forget(retry.value); }
      }
      if next == Off {
        off := true;
        inbox.commands := [];
      }
    }

    method IsFlushed() returns (done: bool)
      ensures done == FlushDone(View())
    {
      done := off || (inbox.commands == [] && running.None?);
    }

    /** The thread from the point where no new command comes, until it ends. `results`
        are the results of the OS calls; the method says how many it used. */
    method Run(results: seq<bool>) returns (calls: nat)
      requires WorkerOk(View()) && running.None? && |results| >= Owed(View())
      modifies this, inbox, policy
      ensures calls <= old(Owed(View()))
      ensures View() == Drain(old(View()), results) && Idle(View())
    {
      calls := 0;
      ghost var start, owed := View(), Owed(View());
      while true
        invariant WorkerOk(View()) && running.None?
        invariant calls + Owed(View()) <= owed
        invariant Drain(View(), results[calls..]) == Drain(start, results)
        decreases Owed(View())
      {
        ghost var before := View();
        var command := TakeNext();
        if command.None? {
          DrainStops(before, results[calls..]);
          return;
        }
        RunOneCall(before, results, calls, owed);
        var next := FinishCall(results[calls]);
        calls := calls + 1;
        if next == Off {
          DrainStops(View(), results[calls..]);
          return;
        }
      }
    }
  }
}
