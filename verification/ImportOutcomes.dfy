/** What becomes of the requests to the import service: their temporary files, their workers, and
    what a reply does and does not say. */
module ImportOutcomes {
  import opened Wrappers
  import opened CatalogStore
  import opened ImportService

  // ---- Who is let in ---------------------------------------------------------------------------------

  /** Another request's worker is at work. */
  ghost predicate Occupied(s: State, id: nat) {
    exists j :: 0 <= j < |s.requests| && j != id && Holds(s.requests[j].worker)
  }

  lemma {:induction false} SomebodyHolds(requests: seq<Request>)
    ensures Busy(requests) > 0 <==> exists j :: 0 <= j < |requests| && Holds(requests[j].worker)
  {
    if requests != [] {
      var n := |requests| - 1;
      SomebodyHolds(requests[..n]);
      if Busy(requests[..n]) > 0 {
        var j :| 0 <= j < n && Holds(requests[..n][j].worker);
        assert Holds(requests[j].worker);
      }
      if Holds(requests[n].worker) { assert Busy(requests) > 0; }
      forall j | 0 <= j < n && Holds(requests[j].worker) ensures Busy(requests) > 0 { assert requests[..n][j] == requests[j]; }
    }
  }

  /** A request whose context has not ended gets the slot exactly if no other import is being worked
      on, and is turned away exactly if one is. */
  lemma AdmissionExact(uploads: seq<Upload>, committed: Schema, schedule: seq<Action>, id: nat)
    requires LIVE in committed.tables && id < |uploads|
    requires var r := Run(Start(uploads, committed), uploads, schedule).requests[id]; r.caller.Saved? && !r.cancelled
    ensures var s := Run(Start(uploads, committed), uploads, schedule);
      && (Next(s, uploads, Acquire(id)).Some? <==> !Occupied(s, id))
      && (Next(s, uploads, Refuse(id)).Some? <==> Occupied(s, id))
      && Next(s, uploads, CancelEarly(id)).None?
  {
    RunKeepsInv(uploads, committed, schedule);
    var s := Run(Start(uploads, committed), uploads, schedule);
    InvAt(s, uploads, committed.tables[LIVE], id);
    SomebodyHolds(s.requests);
  }

  /** A caller who waits can stop doing so exactly if its context has ended, and can take its result
      exactly if its worker has reported it — whichever comes first, it is never stuck for good. */
  lemma CallerNeverStuck(uploads: seq<Upload>, committed: Schema, schedule: seq<Action>, id: nat)
    requires LIVE in committed.tables && id < |uploads|
    requires Run(Start(uploads, committed), uploads, schedule).requests[id].caller.Waiting?
    ensures var s := Run(Start(uploads, committed), uploads, schedule);
      var r := s.requests[id];
      && (Next(s, uploads, StopWaiting(id)).Some? <==> r.cancelled)
      && (Next(s, uploads, TakeResult(id)).Some? <==> r.worker.Releasing? || r.worker.Gone?)
      && (Holds(r.worker) || r.worker.Gone?)
  {
    RunKeepsInv(uploads, committed, schedule);
    InvAt(Run(Start(uploads, committed), uploads, schedule), uploads, committed.tables[LIVE], id);
  }

  // ---- Files ---------------------------------------------------------------------------------------

  /** No temporary file is made twice or removed twice; and when a request is over, with its
      caller answered and no worker on it, all its files have been removed — except the upload
      of a request whose context was found done when the slot was asked for. */
  lemma FilesAreRemovedOnce(uploads: seq<Upload>, committed: Schema, schedule: seq<Action>, id: nat)
    requires LIVE in committed.tables && id < |uploads|
    ensures var r := Run(Start(uploads, committed), uploads, schedule).requests[id];
      && r.gone.gz <= r.made.gz <= 1 && r.gone.mdb <= r.made.mdb <= 1 && r.gone.csvFile <= r.made.csvFile <= 1
      && (r.caller.Answered? && !Holds(r.worker) && r.caller.reply != CancelledEarly ==> r.gone == r.made)
      && (r.caller == Answered(CancelledEarly) ==> r.cancelled && r.made == Files(1, 0, 0) && r.gone == Files(0, 0, 0))
  {
    RunKeepsInv(uploads, committed, schedule);
    var s := Run(Start(uploads, committed), uploads, schedule);
    assert LocalKept(s.requests[id], uploads[id]);
  }

  lemma LeftStays(s: State, uploads: seq<Upload>, a: Action, id: nat)
    requires |s.requests| == |uploads| && id < |uploads| && Next(s, uploads, a).Some?
    requires var r := s.requests[id]; r.caller == Answered(CancelledEarly) && r.worker.NotStarted? && r.gone.gz == 0
    ensures var r := Next(s, uploads, a).value.requests[id];
      r.caller == Answered(CancelledEarly) && r.worker.NotStarted? && r.gone.gz == 0
  {
    TouchesOne(s, uploads, a);
  }

  /** The upload stays where it is, whatever happens later. */
  lemma {:induction false} LeftForGood(s0: State, uploads: seq<Upload>, schedule: seq<Action>, later: seq<Action>, id: nat)
    requires |s0.requests| == |uploads| && id < |uploads|
    requires var r := Run(s0, uploads, schedule).requests[id]; r.caller == Answered(CancelledEarly) && r.worker.NotStarted? && r.gone.gz == 0
    ensures var r := Run(s0, uploads, schedule + later).requests[id];
      r.caller == Answered(CancelledEarly) && r.worker.NotStarted? && r.gone.gz == 0
  {
    if later == [] {
      assert schedule + later == schedule;
    } else {
      var n := |later| - 1;
      LeftForGood(s0, uploads, schedule, later[..n], id);
      assert schedule + later == (schedule + later[..n]) + [later[n]];
      RunOn(s0, uploads, schedule + later[..n], later[n]);
      var s := Run(s0, uploads, schedule + later[..n]);
      if Next(s, uploads, later[n]).Some? { LeftStays(s, uploads, later[n], id); }
    }
  }

  /** In any run, at any moment: a request that has not asked for the slot yet, and whose context
      is done, may go on to leave its upload behind for good. */
  lemma UploadLeftBehind(uploads: seq<Upload>, committed: Schema, schedule: seq<Action>, later: seq<Action>, id: nat)
    requires LIVE in committed.tables && id < |uploads|
    requires var r := Run(Start(uploads, committed), uploads, schedule).requests[id]; r.caller.Saved? && r.cancelled
    ensures var r := Run(Start(uploads, committed), uploads, schedule + [CancelEarly(id)] + later).requests[id];
      r.caller == Answered(CancelledEarly) && !Holds(r.worker) && r.made.gz == 1 && r.gone.gz == 0
  {
    var s0 := Start(uploads, committed);
    RunKeepsInv(uploads, committed, schedule);
    assert LocalKept(Run(s0, uploads, schedule).requests[id], uploads[id]);
    RunOn(s0, uploads, schedule, CancelEarly(id));
    LeftForGood(s0, uploads, schedule + [CancelEarly(id)], later, id);
    FilesAreRemovedOnce(uploads, committed, schedule + [CancelEarly(id)] + later, id);
  }

  /** And that can happen to any request, at once. */
  lemma AnyUploadCanBeLeftBehind(uploads: seq<Upload>, committed: Schema, later: seq<Action>, id: nat)
    requires LIVE in committed.tables && id < |uploads|
    ensures Run(Start(uploads, committed), uploads, [Cancel(id)] + [CancelEarly(id)] + later).requests[id].gone.gz == 0
  {
    var s0 := Start(uploads, committed);
    RunOn(s0, uploads, [], Cancel(id));
    assert [] + [Cancel(id)] == [Cancel(id)];
    UploadLeftBehind(uploads, committed, [Cancel(id)], later, id);
  }

  // ---- A worker always gets to its end -------------------------------------------------------------------------

  /** How many steps a worker has at most before it has released the slot. */
  function WorkLeft(w: Worker, u: Upload): int {
    var steps := 4 * |u.csv.records| + 30;
    match w
    case NotStarted => 0
    case Decompressing => 12 + steps
    case Converting => 11 + steps
    case Opening => 10 + steps
    case Importing(_, run) => 7 + Pipeline.Left(run, u.csv)
    case Cleaning(defers, _) => 3 + defers
    case Reporting(_) => 2
    case Releasing(_) => 1
    case Gone(_) => 0
  }

  /** An action of request id's worker, or of the pipeline it runs. */
  predicate Drives(a: Action, id: nat) {
    (a.Work? || a.Pipe?) && a.id == id
  }

  lemma WorkStepUsesUp(s: State, id: nat, u: Upload)
    requires id < |s.requests| && LocalKept(s.requests[id], u) && WorkStep(s, id, u).Some?
    ensures 0 <= WorkLeft(WorkStep(s, id, u).value.requests[id].worker, u) < WorkLeft(s.requests[id].worker, u)
  {
    var w := s.requests[id].worker;
    if w.Importing? { Pipeline.LeftIsNatural(w.run, u.csv); }
  }

  lemma PipeStepUsesUp(s: State, id: nat, u: Upload, who: Pipeline.Actor)
    requires id < |s.requests| && LocalKept(s.requests[id], u) && PipeStep(s, id, u, who).Some?
    requires s.requests[id].worker.run.committed == s.committed
    ensures 0 <= WorkLeft(PipeStep(s, id, u, who).value.requests[id].worker, u) < WorkLeft(s.requests[id].worker, u)
  {
    var run := s.requests[id].worker.run;
    assert run.(committed := s.committed) == run;
    Pipeline.StepsRunOut(run, u.csv, who);
    Pipeline.StepKeepsChannels(run, u.csv, who);
    Pipeline.LeftIsNatural(Pipeline.Step(run, u.csv, who).value, u.csv);
  }

  lemma WorkReady(s: State, id: nat, u: Upload)
    requires id < |s.requests| && LocalKept(s.requests[id], u) && Holds(s.requests[id].worker) && s.slots == 1
    requires s.requests[id].worker.Importing? ==> s.requests[id].worker.run.importer.Returned?
    ensures WorkStep(s, id, u).Some?
  {
  }

  lemma PipeReady(run: Pipeline.State, base: Schema, u: Upload, cancelled: bool) returns (who: Pipeline.Actor)
    requires OnBase(run, base, u, cancelled) && !run.importer.Returned?
    ensures Pipeline.Step(run, u.csv, who).Some?
  {
    Pipeline.SomebodyCanMove(run, u.csv);
    who := if Pipeline.Step(run, u.csv, Pipeline.Parse).Some? then Pipeline.Parse
           else if Pipeline.Step(run, u.csv, Pipeline.Store).Some? then Pipeline.Store
           else Pipeline.Handover;
  }

  lemma PipeCan(s: State, uploads: seq<Upload>, id: nat, who: Pipeline.Actor)
    requires |s.requests| == |uploads| && id < |uploads|
    requires var w := s.requests[id].worker;
      w.Importing? && w.run.committed == s.committed && Pipeline.Step(w.run, uploads[id].csv, who).Some?
    ensures Next(s, uploads, Pipe(id, who)).Some?
  {
    var run := s.requests[id].worker.run;
    assert run.(committed := s.committed) == run;
  }

  lemma PipeEnabled(s: State, uploads: seq<Upload>, id: nat) returns (a: Action)
    requires |s.requests| == |uploads| && id < |uploads| && LocalKept(s.requests[id], uploads[id])
    requires var w := s.requests[id].worker; w.Importing? && w.run.committed == s.committed && !w.run.importer.Returned?
    ensures Drives(a, id) && Next(s, uploads, a).Some?
  {
    var w := s.requests[id].worker;
    var who := PipeReady(w.run, w.base, uploads[id], s.requests[id].cancelled);
    PipeCan(s, uploads, id, who);
    a := Pipe(id, who);
  }

  lemma WorkEnabled(s: State, uploads: seq<Upload>, id: nat)
    requires |s.requests| == |uploads| && id < |uploads| && LocalKept(s.requests[id], uploads[id])
    requires Holds(s.requests[id].worker) && s.slots == 1
    requires s.requests[id].worker.Importing? ==> s.requests[id].worker.run.importer.Returned?
    ensures Next(s, uploads, Work(id)).Some?
  {
    WorkReady(s, id, uploads[id]);
  }

  /** The worker, or its import, or its parser can move. */
  lemma SomethingDrives(s: State, uploads: seq<Upload>, initial: Table, id: nat) returns (a: Action)
    requires Inv(s, uploads, initial) && id < |uploads| && Holds(s.requests[id].worker)
    ensures Drives(a, id) && Next(s, uploads, a).Some?
  {
    InvAt(s, uploads, initial, id);
    var w := s.requests[id].worker;
    if w.Importing? && !w.run.importer.Returned? {
      a := PipeEnabled(s, uploads, id);
    } else {
      a := Work(id);
      WorkEnabled(s, uploads, id);
    }
  }

  /** A worker that holds the slot is never stuck, whether or not anyone still waits for it: it, its
      import or its parser can move; every such step uses up one of finitely many; and the last
      one frees the slot. */
  lemma WorkerNeverStuck(uploads: seq<Upload>, committed: Schema, schedule: seq<Action>, id: nat)
    requires LIVE in committed.tables && id < |uploads|
    ensures var s := Run(Start(uploads, committed), uploads, schedule);
      && (Holds(s.requests[id].worker) ==> exists a :: Drives(a, id) && Next(s, uploads, a).Some?)
      && forall a :: Drives(a, id) && Next(s, uploads, a).Some? ==>
        var w, w' := s.requests[id].worker, Next(s, uploads, a).value.requests[id].worker;
        && 0 <= WorkLeft(w', uploads[id]) < WorkLeft(w, uploads[id])
        && (!Holds(w') ==> Next(s, uploads, a).value.slots == 0)
  {
    RunKeepsInv(uploads, committed, schedule);
    var s := Run(Start(uploads, committed), uploads, schedule);
    if Holds(s.requests[id].worker) { var a := SomethingDrives(s, uploads, committed.tables[LIVE], id); }
    forall a | Drives(a, id) && Next(s, uploads, a).Some?
      ensures var w, w' := s.requests[id].worker, Next(s, uploads, a).value.requests[id].worker;
        && 0 <= WorkLeft(w', uploads[id]) < WorkLeft(w, uploads[id])
        && (!Holds(w') ==> Next(s, uploads, a).value.slots == 0)
    {
      DriveUsesUp(s, uploads, committed.tables[LIVE], a);
    }
  }

  lemma DriveUsesUp(s: State, uploads: seq<Upload>, initial: Table, a: Action)
    requires Inv(s, uploads, initial) && a.id < |uploads| && Drives(a, a.id) && Next(s, uploads, a).Some?
    ensures var w, w' := s.requests[a.id].worker, Next(s, uploads, a).value.requests[a.id].worker;
      && 0 <= WorkLeft(w', uploads[a.id]) < WorkLeft(w, uploads[a.id])
      && (!Holds(w') ==> w.Releasing? && Next(s, uploads, a).value.slots == 0)
    ensures var r, r' := s.requests[a.id], Next(s, uploads, a).value.requests[a.id];
      r'.caller == r.caller && r'.cancelled == r.cancelled
  {
    var u := uploads[a.id];
    assert LocalKept(s.requests[a.id], u);
    if a.Work? {
      WorkStepKeeps(s, a.id, u);
      WorkStepUsesUp(s, a.id, u);
    } else {
      PipeStepKeeps(s, a.id, u, a.who);
      PipeStepUsesUp(s, a.id, u, a.who);
    }
  }

  /** From any moment of any run, a worker can be driven up to its report, its caller none the wiser. */
  lemma {:induction false} DriveToReport(uploads: seq<Upload>, committed: Schema, schedule: seq<Action>, id: nat)
    returns (longer: seq<Action>)
    requires LIVE in committed.tables && id < |uploads|
    requires Holds(Run(Start(uploads, committed), uploads, schedule).requests[id].worker)
    ensures var r, r' := Run(Start(uploads, committed), uploads, schedule).requests[id], Run(Start(uploads, committed), uploads, longer).requests[id];
      r'.worker.Releasing? && r'.caller == r.caller && r'.cancelled == r.cancelled
    decreases WorkLeft(Run(Start(uploads, committed), uploads, schedule).requests[id].worker, uploads[id])
  {
    var s0 := Start(uploads, committed);
    var s := Run(s0, uploads, schedule);
    if s.requests[id].worker.Releasing? {
      longer := schedule;
    } else {
      RunKeepsInv(uploads, committed, schedule);
      var a := SomethingDrives(s, uploads, committed.tables[LIVE], id);
      DriveUsesUp(s, uploads, committed.tables[LIVE], a);
      RunOn(s0, uploads, schedule, a);
      longer := DriveToReport(uploads, committed, schedule + [a], id);
    }
  }

  // ---- What the replies do not mean -----------------------------------------------------------------------------

  /** A run in which request id has been worked off, its result is in the channel, and its caller
      still waits. */
  lemma Reported(uploads: seq<Upload>, committed: Schema, id: nat) returns (schedule: seq<Action>)
    requires LIVE in committed.tables && id < |uploads|
    ensures var s := Run(Start(uploads, committed), uploads, schedule);
      var r := s.requests[id];
      && r.worker.Releasing? && r.caller.Waiting? && r.box == Some(Outcome(uploads[id]))
      && (id in s.commits <==> Importable(uploads[id]))
  {
    var s0 := Start(uploads, committed);
    RunOn(s0, uploads, [], Acquire(id));
    schedule := DriveToReport(uploads, committed, [] + [Acquire(id)], id);
    RunKeepsInv(uploads, committed, schedule);
    assert LocalKept(Run(s0, uploads, schedule).requests[id], uploads[id]);
  }

  lemma CancelThenStop(s: State, uploads: seq<Upload>, id: nat)
    requires |s.requests| == |uploads| && id < |uploads| && s.requests[id].caller.Waiting?
    ensures Next(s, uploads, Cancel(id)).Some?
    ensures var s1 := Next(s, uploads, Cancel(id)).value;
      && Next(s1, uploads, StopWaiting(id)).Some?
      && var s2 := Next(s1, uploads, StopWaiting(id)).value;
      s2.requests[id].caller == Answered(TimedOut) && s2.commits == s.commits
  {
  }

  lemma TimeoutAfterCommit(uploads: seq<Upload>, committed: Schema, id: nat) returns (schedule: seq<Action>)
    requires LIVE in committed.tables && id < |uploads| && Importable(uploads[id])
    ensures var s := Run(Start(uploads, committed), uploads, schedule);
      s.requests[id].caller == Answered(TimedOut) && id in s.commits
  {
    var s0 := Start(uploads, committed);
    var reported := Reported(uploads, committed, id);
    CancelThenStop(Run(s0, uploads, reported), uploads, id);
    RunOn(s0, uploads, reported, Cancel(id));
    RunOn(s0, uploads, reported + [Cancel(id)], StopWaiting(id));
    schedule := reported + [Cancel(id)] + [StopWaiting(id)];
  }

  /** A timeout reply does not mean that nothing was imported: a request can time out and be
      committed exactly if its upload is importable at all. */
  lemma TimedOutYetCommitted(uploads: seq<Upload>, committed: Schema, id: nat)
    requires LIVE in committed.tables && id < |uploads|
    ensures (exists schedule :: var s := Run(Start(uploads, committed), uploads, schedule);
              s.requests[id].caller == Answered(TimedOut) && id in s.commits)
       <==> Importable(uploads[id])
  {
    forall schedule | id in Run(Start(uploads, committed), uploads, schedule).commits ensures Importable(uploads[id]) {
      OnlyImportable(uploads, committed, schedule, id);
    }
    if Importable(uploads[id]) { var schedule := TimeoutAfterCommit(uploads, committed, id); }
  }

  /** A `completed` reply does not mean that the slot is free: it is still held exactly while the
      worker has not released it. */
  lemma CompletedHoldsUntilReleased(uploads: seq<Upload>, committed: Schema, schedule: seq<Action>, id: nat)
    requires LIVE in committed.tables && id < |uploads|
    ensures var s := Run(Start(uploads, committed), uploads, schedule);
      var r := s.requests[id];
      r.caller.Answered? && r.caller.reply.Completed? ==>
        && Importable(uploads[id])
        && (Holds(r.worker) <==> r.worker.Releasing?)
        && (Holds(r.worker) ==> s.slots == 1)
  {
    RunKeepsInv(uploads, committed, schedule);
    InvAt(Run(Start(uploads, committed), uploads, schedule), uploads, committed.tables[LIVE], id);
  }

  lemma CompletedWhileHeld(uploads: seq<Upload>, committed: Schema, id: nat) returns (schedule: seq<Action>)
    requires LIVE in committed.tables && id < |uploads| && Importable(uploads[id])
    ensures var r := Run(Start(uploads, committed), uploads, schedule).requests[id];
      r.caller == Answered(Completed(Rows(uploads[id]))) && Holds(r.worker)
  {
    var reported := Reported(uploads, committed, id);
    RunOn(Start(uploads, committed), uploads, reported, TakeResult(id));
    schedule := reported + [TakeResult(id)];
  }

  /** That can be so for exactly the uploads that can be completed. */
  lemma CompletedYetBusy(uploads: seq<Upload>, committed: Schema, id: nat)
    requires LIVE in committed.tables && id < |uploads|
    ensures (exists schedule :: var r := Run(Start(uploads, committed), uploads, schedule).requests[id];
              r.caller == Answered(Completed(Rows(uploads[id]))) && Holds(r.worker))
       <==> Importable(uploads[id])
  {
    forall schedule | Run(Start(uploads, committed), uploads, schedule).requests[id].caller == Answered(Completed(Rows(uploads[id])))
      ensures Importable(uploads[id])
    {
      CompletedHoldsUntilReleased(uploads, committed, schedule, id);
    }
    if Importable(uploads[id]) { var schedule := CompletedWhileHeld(uploads, committed, id); }
  }

  // ---- What an ended context means ------------------------------------------------------------------------------

  /** The request's context has ended, and its catalogue has not been committed. */
  predicate Uncommitted(s: State, id: nat) {
    id < |s.requests| && s.requests[id].cancelled && !s.requests[id].stored
  }

  lemma StaysUncommitted(s: State, uploads: seq<Upload>, initial: Table, a: Action, id: nat)
    requires Inv(s, uploads, initial) && id < |uploads| && Next(s, uploads, a).Some?
    requires Uncommitted(s, id)
    ensures Uncommitted(Next(s, uploads, a).value, id)
  {
    TouchesOne(s, uploads, a);
    if a.id == id {
      InvAt(s, uploads, initial, id);
      hide LocalKept, StoreKept, SlotKept;
      if a.Work? { WorkStepKeeps(s, id, uploads[id]); }
      else if a.Pipe? { PipeStepKeeps(s, id, uploads[id], a.who); }
      else { CallerStep(s, uploads, a); }
    }
  }

  /** A request whose context ends has been committed by then, or never will be. */
  lemma {:induction false} CommittedBeforeTheEnd(uploads: seq<Upload>, committed: Schema, schedule: seq<Action>, later: seq<Action>, id: nat)
    requires LIVE in committed.tables && id < |uploads|
    requires Run(Start(uploads, committed), uploads, schedule).requests[id].cancelled
    requires id !in Run(Start(uploads, committed), uploads, schedule).commits
    ensures id !in Run(Start(uploads, committed), uploads, schedule + later).commits
    ensures Run(Start(uploads, committed), uploads, schedule + later).requests[id].cancelled
  {
    var s0 := Start(uploads, committed);
    if later == [] {
      assert schedule + later == schedule;
    } else {
      var n := |later| - 1;
      CommittedBeforeTheEnd(uploads, committed, schedule, later[..n], id);
      assert schedule + later == (schedule + later[..n]) + [later[n]];
      RunOn(s0, uploads, schedule + later[..n], later[n]);
      RunKeepsInv(uploads, committed, schedule + later[..n]);
      RunKeepsInv(uploads, committed, schedule + later);
      var s := Run(s0, uploads, schedule + later[..n]);
      if Next(s, uploads, later[n]).Some? { StaysUncommitted(s, uploads, committed.tables[LIVE], later[n], id); }
    }
  }
}
