/** Queued writes of one file, run on workers that overlap
    (crates/thinwire-core/src/settings.rs, mutes.rs). */
module Persist {
  import opened Wrappers

  /** One queued write. */
  datatype Job = Job(contents: string, epoch: nat)

  /** Where the worker of a job is. `Checked` holds the lock and is about to write. */
  datatype Place = Queued | PastFirstCheck | HoldsLock | Checked | Wrote | Failed | Skipped

  predicate IsDone(place: Place) { place.Wrote? || place.Failed? || place.Skipped? }

  predicate InLock(place: Place) { place.HoldsLock? || place.Checked? }

  datatype Worker = Worker(job: Job, place: Place)

  /** The workers in the order in which their jobs were taken, the newest epoch, the file,
      and as history the epochs of the writes that completed. */
  datatype System = System(workers: seq<Worker>, latest: nat, file: Option<string>, writes: seq<nat>)

  ghost function Start(file: Option<string>): System { System([], 0, file, []) }

  datatype Step =
    | Takes(contents: string)
    | Runs(i: nat, ok: bool, leaves: Option<string>)

  ghost predicate LockFree(s: System) {
    forall i :: 0 <= i < |s.workers| ==> !InLock(s.workers[i].place)
  }

  ghost function Moved(s: System, i: nat, place: Place): System
    requires i < |s.workers|
  {
    s.(workers := s.workers[i := s.workers[i].(place := place)])
  }

  /** The next step of one worker. A write that fails may leave anything. */
  ghost function Run(s: System, i: nat, ok: bool, leaves: Option<string>): System
    requires i < |s.workers|
  {
    var job := s.workers[i].job;
    match s.workers[i].place
    case Queued => Moved(s, i, if s.latest == job.epoch then PastFirstCheck else Skipped)
    case PastFirstCheck => if LockFree(s) then Moved(s, i, HoldsLock) else s
    case HoldsLock => Moved(s, i, if s.latest == job.epoch then Checked else Skipped)
    case Checked =>
      if ok then Moved(s, i, Wrote).(file := Some(job.contents), writes := s.writes + [job.epoch])
      else Moved(s, i, Failed).(file := leaves)
    case _ => s
  }

  ghost function Apply(s: System, step: Step): System {
    match step
    case Takes(contents) =>
      s.(workers := s.workers + [Worker(Job(contents, s.latest + 1), Queued)], latest := s.latest + 1)
    case Runs(i, ok, leaves) => if i < |s.workers| then Run(s, i, ok, leaves) else s
  }

  ghost function Exec(file: Option<string>, steps: seq<Step>): System {
    if steps == [] then Start(file) else Apply(Exec(file, steps[..|steps| - 1]), steps[|steps| - 1])
  }

  // ----- what every interleaving keeps

  ghost function LastWrite(writes: seq<nat>): nat {
    if writes == [] then 0 else writes[|writes| - 1]
  }

  ghost predicate Increasing(writes: seq<nat>) {
    forall i, j :: 0 <= i < j < |writes| ==> writes[i] < writes[j]
  }

  /** Epochs count the jobs, the lock has one holder, and the newest job is never skipped. */
  ghost predicate WorkersOk(s: System) {
    && s.latest == |s.workers|
    && (forall i :: 0 <= i < |s.workers| ==> s.workers[i].job.epoch == i + 1)
    && (forall i, j :: 0 <= i < j < |s.workers| ==> !(InLock(s.workers[i].place) && InLock(s.workers[j].place)))
    && (s.workers != [] ==> !s.workers[|s.workers| - 1].place.Skipped?)
  }

  /** Completed writes go up; a worker about to write is newer than all of them; and the
      newest job, once it wrote, is the last write and what the file holds. */
  ghost predicate WritesOk(s: System) {
    && Increasing(s.writes) && LastWrite(s.writes) <= s.latest
    && (forall i :: 0 <= i < |s.workers| && s.workers[i].place.Checked?
                    ==> LastWrite(s.writes) < s.workers[i].job.epoch)
    && (forall i :: 0 <= i < |s.workers| && !IsDone(s.workers[i].place)
                    ==> s.workers[i].job.epoch != LastWrite(s.writes))
    && (s.workers != [] && s.workers[|s.workers| - 1].place.Wrote? ==>
          LastWrite(s.writes) == s.latest && s.file == Some(s.workers[|s.workers| - 1].job.contents))
  }

  ghost predicate SystemOk(s: System) {
    WorkersOk(s) && WritesOk(s)
  }

  lemma RunWorkersOk(s: System, i: nat, ok: bool, leaves: Option<string>)
    requires SystemOk(s) && i < |s.workers|
    ensures WorkersOk(Run(s, i, ok, leaves))
  {
  }

  /** While the newest job has written, no other worker is about to write: it would hold
      an older epoch than the last write. */
  lemma RunWritesOk(s: System, i: nat, ok: bool, leaves: Option<string>)
    requires SystemOk(s) && i < |s.workers|
    ensures WritesOk(Run(s, i, ok, leaves))
  {
    var after := Run(s, i, ok, leaves);
    var n := |s.workers| - 1;
    assert after.workers[n].job == s.workers[n].job;
    if s.workers[i].place.Checked? {
      assert LastWrite(s.writes) < s.workers[i].job.epoch <= s.latest;
    }
  }

  lemma {:induction false} ExecOk(file: Option<string>, steps: seq<Step>)
    ensures SystemOk(Exec(file, steps))
  {
    if steps != [] {
      var before := Exec(file, steps[..|steps| - 1]);
      ExecOk(file, steps[..|steps| - 1]);
      match steps[|steps| - 1] {
        case Takes(contents) =>
        case Runs(i, ok, leaves) =>
          if i < |before.workers| {
            RunWorkersOk(before, i, ok, leaves);
            RunWritesOk(before, i, ok, leaves);
          }
      }
    }
  }

  /** In every interleaving the completed writes have strictly increasing epochs. */
  lemma WritesGoForward(file: Option<string>, steps: seq<Step>, i: nat, j: nat)
    requires i < j < |Exec(file, steps).writes|
    ensures Exec(file, steps).writes[i] < Exec(file, steps).writes[j]
  {
    ExecOk(file, steps);
  }

  /** Once every job has run, the last one taken was not skipped, and if its write did not
      fail, the file holds its contents. */
  lemma LatestWriteWins(file: Option<string>, steps: seq<Step>)
    requires Exec(file, steps).workers != []
    requires forall i :: 0 <= i < |Exec(file, steps).workers| ==> IsDone(Exec(file, steps).workers[i].place)
    ensures var s := Exec(file, steps);
            var last := s.workers[|s.workers| - 1];
            !last.place.Skipped? && (!last.place.Failed? ==> s.file == Some(last.job.contents))
  {
    ExecOk(file, steps);
  }

  // ----- the classes

  /** What the jobs of one file share. */
  class SharedFile {
    var latest: nat
    var file: Option<string>

    constructor (file: Option<string>)
      ensures latest == 0 && this.file == file
    {
      latest := 0;
      this.file := file;
    }

    /** One job with nothing else running, in the steps of the interleaving above. */
    method Commit(job: Job, ok: bool, leaves: Option<string>)
      modifies this`file
      ensures job.epoch != latest ==> file == old(file)
      ensures job.epoch == latest ==> file == if ok then Some(job.contents) else leaves
      ensures Alone(Worker(job, Queued), latest, old(file), ok, leaves).file == file
    {
      var current := latest == job.epoch;
      if !current { return; }
      // The lock is taken here; the second check sees the same epoch when no job was taken.
      if latest != job.epoch { return; }
      file := if ok then Some(job.contents) else leaves;
    }
  }

  /** Four steps of a worker that runs alone. */
  ghost function Alone(worker: Worker, latest: nat, file: Option<string>, ok: bool, leaves: Option<string>): System {
    var s := System([worker], latest, file, []);
    Run(Run(Run(Run(s, 0, ok, leaves), 0, ok, leaves), 0, ok, leaves), 0, ok, leaves)
  }

  /** The settings' or the mutes' side: a pending change becomes a job, once. */
  class Saver {
    var pending: bool
    var epoch: nat
    /** The demo and a file that could not be read are never written. */
    const writes: bool
    const shared: SharedFile

    constructor (shared: SharedFile, writes: bool)
      requires shared.latest == 0
      ensures !pending && epoch == 0 && this.shared == shared && this.writes == writes
    {
      pending, epoch := false, 0;
      this.shared := shared;
      this.writes := writes;
    }

    method TakeJob(contents: string) returns (job: Option<Job>)
      requires epoch == shared.latest
      modifies this`pending, this`epoch, shared`latest
      ensures !pending && epoch == shared.latest
      ensures job.Some? <==> old(pending) && writes
      ensures job.Some? ==> epoch == old(epoch) + 1 && job.value == Job(contents, epoch)
      ensures job.None? ==> epoch == old(epoch)
    {
      var was := pending;
      pending := false;
      if !was || !writes { return None; }
      epoch := epoch + 1;
      shared.latest := epoch;
      job := Some(Job(contents, epoch));
    }
  }
}
