/** The notification pipeline with the freedesktop backend as one machine: the core queue, the
    inbox, the running call, the ids of the backend, and the notifications on the server. */
module Desktops {
  import opened Wrappers
  import opened Commands
  import opened Notify
  import opened Workers
  import P = Pipelines
  import opened PipelinePromises
  import HideLimits
  import I = IdBooks
  import X = XdgBackends
  import opened XdgScreens

  /** `pipe.screen` is what a backend would show that has one notification of each chat. */
  datatype Desktop = Desktop(pipe: P.Pipeline, xdg: X.Xdg)

  ghost const START := Desktop(P.START, X.START)

  /** A step of the pipeline other than the end of an OS call, the OS call of the running
      command with what the bus answers, a close by the server or the user, or the end of a
      click waiter. */
  datatype Step =
    | Local(step: P.Step)
    | Call(reply: Option<X.Reply>, fails: set<nat>)
    | Closed(id: nat)
    | WaiterEnds(id: nat)

  /** The server showed the content, whatever the call returns. */
  predicate Landed(c: NotifyCommand, reply: Option<X.Reply>) {
    c.IsContent() && reply.Some?
  }

  ghost function Calls(d: Desktop, c: NotifyCommand, reply: Option<X.Reply>, fails: set<nat>): Desktop {
    Desktop(P.CallEnds(d.pipe, Works(d.xdg, c, reply, fails), Landed(c, reply)),
            X.Apply(d.xdg, StepOf(c, reply, fails)))
  }

  ghost predicate CanCall(d: Desktop, reply: Option<X.Reply>, fails: set<nat>) {
    d.pipe.worker.running.Some? && Enabled(d.xdg, StepOf(d.pipe.worker.running.value, reply, fails))
  }

  ghost function Apply(d: Desktop, step: Step): Desktop {
    match step
    case Local(s) => if s.CallEnd? || s.Expire? then d else d.(pipe := P.Apply(d.pipe, s))
    case Call(reply, fails) =>
      if CanCall(d, reply, fails) then Calls(d, d.pipe.worker.running.value, reply, fails) else d
    case Closed(id) => d.(xdg := X.ServerClosed(d.xdg, id))
    case WaiterEnds(id) => d.(xdg := X.Apply(d.xdg, X.WaiterEnds(id)))
  }

  ghost function Exec(d: Desktop, steps: seq<Step>): Desktop {
    if steps == [] then d else Apply(Exec(d, steps[..|steps| - 1]), steps[|steps| - 1])
  }

  // ----- the invariant

  /** A chat with an id in the book is on the screen with one notification of each chat. */
  ghost predicate BookIsShown(d: Desktop) {
    forall k, i :: X.Holds(d.xdg.book, k, i) ==> k in d.pipe.screen
  }

  ghost predicate DesktopOk(d: Desktop) {
    P.PipeOk(d.pipe) && X.XdgOk(d.xdg) && BookIsShown(d)
  }

  lemma {:induction false} DismissesScreen(p: P.Pipeline, keys: seq<NotifyKey>)
    ensures P.DismissesAll(p, keys).screen == p.screen
  {
    if keys != [] { DismissesScreen(p, keys[..|keys| - 1]); }
  }

  /** Only an OS call and an expiry touch the screen. */
  lemma CoreKeepsScreen(p: P.Pipeline, s: P.Step)
    requires P.PipeOk(p) && !s.CallEnd? && !s.Expire?
    ensures P.Apply(p, s).screen == p.screen
  {
    match s {
      case DismissChats(keys) => DismissesScreen(p, keys);
      case HidePreviews(keys) => P.HidesAllOk(p, keys);
      case SyncState(now, keys) => DismissesScreen(p.(core := Marked(p.core, now)), SyncGone(p.core, now, keys));
      case CloseApp(keys) => DismissesScreen(p, keys);
      case Deliver => HideLimits.DeliversScreen(p);
      case _ =>
    }
  }

  /** The screen with one notification of each chat after the call. */
  ghost function ScreenAfterCall(screen: Screen, x: X.Xdg, c: NotifyCommand,
                                 reply: Option<X.Reply>, fails: set<nat>): Screen {
    if Works(x, c, reply, fails) || Landed(c, reply) then RunOne(screen, c) else screen
  }

  lemma ShowHolds(x: X.Xdg, n: Notification, reply: Option<X.Reply>, fails: set<nat>, k: NotifyKey, i: nat)
    requires X.XdgOk(x) && X.ReplyOk(x, n.key, reply)
    requires X.Holds(X.Apply(x, X.ShowCommand(n, reply, fails)).book, k, i)
    ensures (k == n.key && reply.Some?) || exists j :: X.Holds(x.book, k, j)
  {
    assert X.Holds(X.ShowNow(x, n, reply).book, k, i);
    if reply.Some? {
      X.ShowNowHolds(x, n, reply.value);
      if k != n.key { assert X.Holds(x.book, k, i); }
    } else {
      assert X.Holds(x.book, k, i);
    }
  }

  lemma UpdateHolds(x: X.Xdg, n: Notification, reply: Option<X.Reply>, fails: set<nat>, k: NotifyKey, i: nat)
    requires X.XdgOk(x) && Enabled(x, X.UpdateCommand(n, reply, fails))
    requires X.Holds(X.Apply(x, X.UpdateCommand(n, reply, fails)).book, k, i)
    ensures exists j :: X.Holds(x.book, k, j)
  {
    var closed := X.CloseUnwatched(x, n.key, fails);
    X.CloseUnwatchedBook(x, n.key, fails);
    X.CloseUnwatchedOk(x, n.key, fails);
    if I.ReplaceId(closed.book, n.key) == I.NEW_NOTIFICATION {
      assert X.Holds(closed.book, k, i) && X.Holds(x.book, k, i);
    } else {
      ShowHolds(closed, n, reply, fails, k, i);
      if k == n.key {
        assert X.Holds(x.book, k, x.book.byKey[k]);
      } else {
        var j :| X.Holds(closed.book, k, j);
        assert X.Holds(x.book, k, j);
      }
    }
  }

  lemma DismissHolds(x: X.Xdg, key: NotifyKey, fails: set<nat>, k: NotifyKey, i: nat)
    requires X.XdgOk(x) && X.Holds(X.Apply(x, X.DismissCommand(key, fails)).book, k, i)
    ensures X.Holds(x.book, k, i) && (k == key ==> i in fails)
  {
    X.DismissBook(x, key, fails);
  }

  lemma CallKeepsBookShown(x: X.Xdg, screen: Screen, c: NotifyCommand, reply: Option<X.Reply>, fails: set<nat>)
    requires X.XdgOk(x) && Enabled(x, StepOf(c, reply, fails))
    requires forall k, i :: X.Holds(x.book, k, i) ==> k in screen
    ensures forall k, i :: X.Holds(X.Apply(x, StepOf(c, reply, fails)).book, k, i)
                           ==> k in ScreenAfterCall(screen, x, c, reply, fails)
  {
    forall k, i | X.Holds(X.Apply(x, StepOf(c, reply, fails)).book, k, i)
      ensures k in ScreenAfterCall(screen, x, c, reply, fails)
    {
      match c {
        case Show(n) => ShowHolds(x, n, reply, fails, k, i);
        case Update(n) => UpdateHolds(x, n, reply, fails, k, i);
        case Dismiss(key) => DismissHolds(x, key, fails, k, i);
      }
    }
  }

  lemma CallScreen(d: Desktop, c: NotifyCommand, reply: Option<X.Reply>, fails: set<nat>)
    requires d.pipe.worker.running == Some(c)
    ensures Calls(d, c, reply, fails).pipe.screen == ScreenAfterCall(d.pipe.screen, d.xdg, c, reply, fails)
  {
  }

  lemma CallOk(d: Desktop, reply: Option<X.Reply>, fails: set<nat>)
    requires DesktopOk(d) && CanCall(d, reply, fails)
    ensures DesktopOk(Calls(d, d.pipe.worker.running.value, reply, fails))
  {
    var c := d.pipe.worker.running.value;
    P.CallEndsOk(d.pipe, Works(d.xdg, c, reply, fails), Landed(c, reply));
    X.ApplyOk(d.xdg, StepOf(c, reply, fails));
    CallKeepsBookShown(d.xdg, d.pipe.screen, c, reply, fails);
    CallScreen(d, c, reply, fails);
  }

  lemma WaiterKeepsBookShown(d: Desktop, id: nat)
    requires DesktopOk(d)
    ensures DesktopOk(Apply(d, WaiterEnds(id)))
  {
    X.ApplyOk(d.xdg, X.WaiterEnds(id));
    I.ClosedOk(d.xdg.book, id);
    assert forall k, i :: X.Holds(Apply(d, WaiterEnds(id)).xdg.book, k, i) ==> X.Holds(d.xdg.book, k, i);
  }

  lemma ApplyOk(d: Desktop, step: Step)
    requires DesktopOk(d)
    ensures DesktopOk(Apply(d, step))
  {
    match step {
      case Local(s) =>
        if !s.CallEnd? && !s.Expire? {
          P.ApplyOk(d.pipe, s);
          CoreKeepsScreen(d.pipe, s);
        }
      case Call(reply, fails) => if CanCall(d, reply, fails) { CallOk(d, reply, fails); }
      case Closed(id) => X.ServerClosesOk(d.xdg, id);
      case WaiterEnds(id) => WaiterKeepsBookShown(d, id);
    }
  }

  lemma {:induction false} ExecOk(steps: seq<Step>)
    ensures DesktopOk(Exec(START, steps))
  {
    if steps == [] {
      P.StartOk();
    } else {
      ExecOk(steps[..|steps| - 1]);
      ApplyOk(Exec(START, steps[..|steps| - 1]), steps[|steps| - 1]);
    }
  }

  // ----- which chats are on the server

  /** Every run on the freedesktop backend: a chat with an open notification that is not lost
      is pending, or its newest command is a dismiss, or its dismiss was given up. */
  lemma OnlyPendingChatsAreOpen(steps: seq<Step>, k: NotifyKey, id: nat)
    ensures var d := Exec(START, steps);
            !d.pipe.worker.off && id in OpenOf(d.xdg, k) && !X.Lost(d.xdg, id) ==>
              || k in d.pipe.core.pending || k in d.pipe.gaveUp
              || LastOf(P.Backlog(d.pipe), k) == Some(Dismiss(k))
  {
    ExecOk(steps);
    var d := Exec(START, steps);
    if !d.pipe.worker.off && id in OpenOf(d.xdg, k) && !X.Lost(d.xdg, id) {
      assert X.Holds(d.xdg.book, k, id);
      assert P.ChatOk(d.pipe, k);
      P.NewestIsLast(d.pipe, k);
      LastOfIsThere(P.Backlog(d.pipe), k);
    }
  }

  // ----- which text a chat shows

  /** The call, if it is one for the chat that shows or takes something, leaves no older
      notification of it with other content. */
  ghost predicate LeavesOneAt(d: Desktop, step: Step, k: NotifyKey) {
    step.Call? && CanCall(d, step.reply, step.fails) ==>
      var c := d.pipe.worker.running.value;
      c.Key() == k && (Works(d.xdg, c, step.reply, step.fails) || Landed(c, step.reply))
      ==> LeavesOne(d.xdg, d.pipe.screen, c, step.reply, step.fails)
  }

  ghost predicate AlwaysOne(steps: seq<Step>, k: NotifyKey) {
    forall j :: 0 <= j < |steps| ==> LeavesOneAt(Exec(START, steps[..j]), steps[j], k)
  }

  lemma FailedCallWithin(x: X.Xdg, screen: Screen, c: NotifyCommand,
                         reply: Option<X.Reply>, fails: set<nat>, k: NotifyKey)
    requires X.XdgOk(x) && Enabled(x, StepOf(c, reply, fails)) && Within(x, screen, k)
    requires !Works(x, c, reply, fails) && !Landed(c, reply)
    ensures Within(X.Apply(x, StepOf(c, reply, fails)), screen, k)
  {
    StepShows(x, StepOf(c, reply, fails), k);
    assert Answered(x, StepOf(c, reply, fails), k) == {};
  }

  lemma CallWithin(d: Desktop, reply: Option<X.Reply>, fails: set<nat>, k: NotifyKey)
    requires DesktopOk(d) && CanCall(d, reply, fails) && Within(d.xdg, d.pipe.screen, k)
    requires LeavesOneAt(d, Call(reply, fails), k)
    ensures var after := Apply(d, Call(reply, fails)); Within(after.xdg, after.pipe.screen, k)
  {
    var c := d.pipe.worker.running.value;
    CallScreen(d, c, reply, fails);
    if Works(d.xdg, c, reply, fails) || Landed(c, reply) {
      RunsAsOneExactly(d.xdg, d.pipe.screen, c, reply, fails, k);
    } else {
      FailedCallWithin(d.xdg, d.pipe.screen, c, reply, fails, k);
    }
  }

  lemma StepWithin(d: Desktop, step: Step, k: NotifyKey)
    requires DesktopOk(d) && Within(d.xdg, d.pipe.screen, k) && LeavesOneAt(d, step, k)
    ensures Within(Apply(d, step).xdg, Apply(d, step).pipe.screen, k)
  {
    match step {
      case Local(s) => if !s.CallEnd? && !s.Expire? { CoreKeepsScreen(d.pipe, s); }
      case Call(reply, fails) => if CanCall(d, reply, fails) { CallWithin(d, reply, fails, k); }
      case Closed(id) => StepShows(d.xdg, X.ServerCloses(id), k);
      case WaiterEnds(id) => StepShows(d.xdg, X.WaiterEnds(id), k);
    }
  }

  lemma {:induction false} ExecWithin(steps: seq<Step>, k: NotifyKey)
    requires AlwaysOne(steps, k)
    ensures Within(Exec(START, steps).xdg, Exec(START, steps).pipe.screen, k)
  {
    if steps != [] {
      var n := |steps| - 1;
      assert forall j :: 0 <= j < n ==> steps[..n][..j] == steps[..j] && steps[..n][j] == steps[j];
      assert LeavesOneAt(Exec(START, steps[..n]), steps[n], k);
      ExecWithin(steps[..n], k);
      ExecOk(steps[..n]);
      StepWithin(Exec(START, steps[..n]), steps[n], k);
    }
  }

  /** A chat of which no call left an older notification shows its pending text, once none of
      its commands waits; the exceptions are those of the pipeline. */
  lemma ShowsPendingText(steps: seq<Step>, k: NotifyKey, id: nat)
    requires AlwaysOne(steps, k)
    ensures var d := Exec(START, steps);
            !d.pipe.worker.off && LastOf(P.Backlog(d.pipe), k).None? && k !in d.pipe.gaveUp && id in OpenOf(d.xdg, k)
            ==>
              && k in d.pipe.core.pending
              && (k !in d.pipe.stale ==> d.xdg.notes[id] == d.pipe.core.pending[k].shown)
  {
    ExecOk(steps);
    ExecWithin(steps, k);
    var d := Exec(START, steps);
    if !d.pipe.worker.off {
      assert P.ChatOk(d.pipe, k);
      P.NewestIsLast(d.pipe, k);
    }
  }

  // ----- "Hide message text"

  ghost predicate NoNewText(steps: seq<Step>) {
    forall s :: s in steps && s.Local? && s.step.Message? ==> !s.step.ctx.preview
  }

  lemma StepKeepsHidden(d: Desktop, step: Step)
    requires DesktopOk(d) && AllHidden(d.pipe.core)
    requires step.Local? && step.step.Message? ==> !step.step.ctx.preview
    ensures AllHidden(Apply(d, step).pipe.core)
  {
    match step {
      case Local(s) => if !s.CallEnd? && !s.Expire? { ApplyKeepsHidden(d.pipe, s); }
      case _ =>
    }
  }

  lemma {:induction false} RunKeepsHidden(d: Desktop, steps: seq<Step>)
    requires DesktopOk(d) && AllHidden(d.pipe.core) && NoNewText(steps)
    ensures DesktopOk(Exec(d, steps)) && AllHidden(Exec(d, steps).pipe.core)
  {
    if steps != [] {
      var n := |steps| - 1;
      assert steps[n] in steps && forall s :: s in steps[..n] ==> s in steps;
      RunKeepsHidden(d, steps[..n]);
      StepKeepsHidden(Exec(d, steps[..n]), steps[n]);
      ApplyOk(Exec(d, steps[..n]), steps[n]);
    }
  }

  lemma {:induction false} ExecConcat(d: Desktop, a: seq<Step>, b: seq<Step>)
    ensures Exec(d, a + b) == Exec(Exec(d, a), b)
  {
    if b == [] {
      assert a + b == a;
    } else {
      assert (a + b)[..|a + b| - 1] == a + b[..|b| - 1];
      ExecConcat(d, a, b[..|b| - 1]);
    }
  }

  /** On the freedesktop backend: after "Hide message text", and while messages come with the
      preview off, a chat of which no call left an older notification shows no text once none
      of its commands waits; the exceptions are those of the pipeline. */
  lemma HiddenTextLeavesServer(before: seq<Step>, keys: seq<NotifyKey>, later: seq<Step>, k: NotifyKey)
    requires Lists(keys, Exec(START, before).pipe.core) && NoNewText(later)
    requires AlwaysOne(before + [Local(P.HidePreviews(keys))] + later, k)
    ensures var d := Exec(START, before + [Local(P.HidePreviews(keys))] + later);
            !d.pipe.worker.off && LastOf(P.Backlog(d.pipe), k).None? && k !in d.pipe.stale && k !in d.pipe.gaveUp
            ==> TextIds(d.xdg, k) == {}
  {
    var start, upTo := Exec(START, before), before + [Local(P.HidePreviews(keys))];
    var d := Exec(START, upTo + later);
    assert upTo[..|before|] == before;
    ExecOk(before);
    ExecOk(upTo);
    P.HidesAllOk(start.pipe, keys);
    HidePreviewsHides(start.pipe.core, keys);
    RunKeepsHidden(Exec(START, upTo), later);
    ExecConcat(START, upTo, later);
    forall id | id in TextIds(d.xdg, k)
      ensures !(!d.pipe.worker.off && LastOf(P.Backlog(d.pipe), k).None? && k !in d.pipe.stale && k !in d.pipe.gaveUp)
    {
      ShowsPendingText(upTo + later, k, id);
    }
  }
}
