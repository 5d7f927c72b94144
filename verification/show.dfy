/** The handshake between the show listener and the window: a show that arrives is never
    without a wake (crates/thinwire-core/src/show.rs). A step is one atomic access or one
    section under the lock of the wake slot. */
module ShowWakes {
  /** One call of `signal`: before its store, after it, and returned. */
  datatype Signal = Called | Stored(at: nat) | Returned(at: nat)

  /** One call of `set_wake`: waiting for the lock, holding it with the slot filled and the
      flag not yet read, and returned. */
  datatype Setter = Waiting | Filled | Done

  /** The flag, whether the slot is filled, the calls, and as history the time, the time
      of the last wake and of the last take that got a show, and how many stores and
      takes there were. */
  datatype System = System(
    pending: bool, registered: bool, signals: seq<Signal>, setters: seq<Setter>,
    clock: nat, lastWake: nat, lastTake: nat, stores: nat, takes: nat)

  const START := System(false, false, [], [], 1, 0, 0, 0, 0)

  datatype Step =
    | CallSignal
    | SignalGoesOn(i: nat)
    | CallSetWake
    | SetterGoesOn(i: nat)
    | TakeShow

  ghost predicate LockFree(s: System) {
    forall i :: 0 <= i < |s.setters| ==> !s.setters[i].Filled?
  }

  ghost function SignalOn(s: System, i: nat): System
    requires i < |s.signals|
  {
    match s.signals[i]
    case Called => s.(pending := true, signals := s.signals[i := Stored(s.clock)], stores := s.stores + 1)
    case Stored(at) =>
      if LockFree(s)
      then s.(signals := s.signals[i := Returned(at)], lastWake := if s.registered then s.clock else s.lastWake)
      else s
    case Returned(_) => s
  }

  ghost function SetterOn(s: System, i: nat): System
    requires i < |s.setters|
  {
    match s.setters[i]
    case Waiting => if LockFree(s) then s.(setters := s.setters[i := Filled], registered := true) else s
    case Filled => s.(setters := s.setters[i := Done], lastWake := if s.pending then s.clock else s.lastWake)
    case Done => s
  }

  ghost function Act(s: System, step: Step): System {
    match step
    case CallSignal => s.(signals := s.signals + [Called])
    case SignalGoesOn(i) => if i < |s.signals| then SignalOn(s, i) else s
    case CallSetWake => s.(setters := s.setters + [Waiting])
    case SetterGoesOn(i) => if i < |s.setters| then SetterOn(s, i) else s
    case TakeShow =>
      s.(pending := false, lastTake := if s.pending then s.clock else s.lastTake,
         takes := if s.pending then s.takes + 1 else s.takes)
  }

  ghost function Apply(s: System, step: Step): System {
    Act(s, step).(clock := s.clock + 1)
  }

  ghost function Exec(steps: seq<Step>): System {
    if steps == [] then START else Apply(Exec(steps[..|steps| - 1]), steps[|steps| - 1])
  }

  // ----- what every interleaving keeps

  ghost predicate SomeSetterDone(s: System) {
    exists j :: 0 <= j < |s.setters| && s.setters[j].Done?
  }

  /** A stored show is still there, or was taken after it was stored. */
  ghost predicate NotLost(s: System, signal: Signal) {
    !signal.Called? ==> signal.at < s.clock && (s.pending || s.lastTake > signal.at)
  }

  /** A signal that returned has been followed by a wake or a take, or no window has
      registered yet. */
  ghost predicate Woken(s: System, signal: Signal) {
    signal.Returned? ==> s.lastWake >= signal.at || s.lastTake > signal.at || !SomeSetterDone(s)
  }

  ghost predicate SystemOk(s: System) {
    && (forall i :: 0 <= i < |s.signals| ==> NotLost(s, s.signals[i]) && Woken(s, s.signals[i]))
    && (!s.registered ==> forall j :: 0 <= j < |s.setters| ==> s.setters[j].Waiting?)
    && s.takes + (if s.pending then 1 else 0) <= s.stores
  }

  lemma SignalOk(s: System, i: nat)
    requires SystemOk(s) && i < |s.signals|
    ensures SystemOk(Apply(s, SignalGoesOn(i)))
  {
    var after := Apply(s, SignalGoesOn(i));
    assert SomeSetterDone(after) <==> SomeSetterDone(s);
    forall k | 0 <= k < |after.signals| ensures NotLost(after, after.signals[k]) && Woken(after, after.signals[k]) {
      assert NotLost(s, s.signals[k]) && Woken(s, s.signals[k]);
    }
  }

  lemma SetterOk(s: System, i: nat)
    requires SystemOk(s) && i < |s.setters|
    ensures SystemOk(Apply(s, SetterGoesOn(i)))
  {
    var after := Apply(s, SetterGoesOn(i));
    if !s.setters[i].Filled? {
      assert forall j :: 0 <= j < |s.setters| ==> (after.setters[j].Done? <==> s.setters[j].Done?);
    }
    forall k | 0 <= k < |after.signals| ensures NotLost(after, after.signals[k]) && Woken(after, after.signals[k]) {
      assert NotLost(s, s.signals[k]) && Woken(s, s.signals[k]);
    }
  }

  lemma OtherOk(s: System, step: Step)
    requires SystemOk(s) && !step.SignalGoesOn? && !step.SetterGoesOn?
    ensures SystemOk(Apply(s, step))
  {
    var after := Apply(s, step);
    assert SomeSetterDone(after) ==> SomeSetterDone(s);
    forall k | 0 <= k < |after.signals| ensures NotLost(after, after.signals[k]) && Woken(after, after.signals[k]) {
      if k < |s.signals| { assert NotLost(s, s.signals[k]) && Woken(s, s.signals[k]); }
    }
  }

  lemma {:induction false} ExecOk(steps: seq<Step>)
    ensures SystemOk(Exec(steps))
  {
    if steps != [] {
      var before, step := Exec(steps[..|steps| - 1]), steps[|steps| - 1];
      ExecOk(steps[..|steps| - 1]);
      if step.SignalGoesOn? && step.i < |before.signals| {
        SignalOk(before, step.i);
      } else if step.SetterGoesOn? && step.i < |before.setters| {
        SetterOk(before, step.i);
      } else if !step.SignalGoesOn? && !step.SetterGoesOn? {
        OtherOk(before, step);
      } else {
        SameButLater(before);
      }
    }
  }

  lemma SameButLater(s: System)
    requires SystemOk(s)
    ensures SystemOk(s.(clock := s.clock + 1))
  {
    var after := s.(clock := s.clock + 1);
    assert SomeSetterDone(after) <==> SomeSetterDone(s);
    forall k | 0 <= k < |s.signals| ensures NotLost(after, s.signals[k]) && Woken(after, s.signals[k]) {
      assert NotLost(s, s.signals[k]) && Woken(s, s.signals[k]);
    }
  }

  /** Once a signal and a registration have both returned, the wake ran at or after the
      store of the signal, or a take got the show first. */
  lemma NoWakeIsLost(steps: seq<Step>, i: nat, j: nat)
    requires i < |Exec(steps).signals| && Exec(steps).signals[i].Returned?
    requires j < |Exec(steps).setters| && Exec(steps).setters[j].Done?
    ensures Exec(steps).lastWake >= Exec(steps).signals[i].at || Exec(steps).lastTake > Exec(steps).signals[i].at
  {
    ExecOk(steps);
    assert Woken(Exec(steps), Exec(steps).signals[i]);
  }

  /** A show that was stored and not taken since is still pending, and no show is taken
      more often than one was stored. */
  lemma NoShowIsLost(steps: seq<Step>, i: nat)
    requires i < |Exec(steps).signals| && !Exec(steps).signals[i].Called?
    ensures Exec(steps).pending || Exec(steps).lastTake > Exec(steps).signals[i].at
    ensures Exec(steps).takes <= Exec(steps).stores
  {
    ExecOk(steps);
    assert NotLost(Exec(steps), Exec(steps).signals[i]);
  }

  // ----- the class

  class ShowState {
    var pending: bool
    var registered: bool
    /** How often the wake ran. */
    var wakes: nat

    constructor ()
      ensures !pending && !registered && wakes == 0
    {
      pending, registered, wakes := false, false, 0;
    }

    method RaiseSignal()
      modifies this
      ensures pending && registered == old(registered)
      ensures wakes == old(wakes) + if registered then 1 else 0
    {
      pending := true;
      if registered { wakes := wakes + 1; }
    }

    method SetWake()
      modifies this
      ensures registered && pending == old(pending)
      ensures wakes == old(wakes) + if pending then 1 else 0
    {
      registered := true;
      if pending { wakes := wakes + 1; }
    }

    method TakeShow() returns (shown: bool)
      modifies this`pending
      ensures shown == old(pending) && !pending
    {
      shown := pending;
      pending := false;
    }
  }
}
