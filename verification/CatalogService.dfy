/** The catalogue service as a whole: imports replacing the catalogue while lookup workers answer
    from it, all on one database, in any interleaving of their steps. */
module CatalogService {
  import opened Wrappers
  import opened CatalogStore
  import Pipeline = CatalogPipeline
  import Service = ImportService
  import Queue = LookupQueue

  datatype State = State(imports: Service.State, lookups: Queue.State)

  function Start(uploads: seq<Service.Upload>, committed: Schema, workers: nat): State {
    State(Service.Start(uploads, committed), Queue.Start(workers))
  }

  datatype Action = Import(step: Service.Action) | Lookup(act: Queue.Action)

  /** A lookup worker sees the database and the number of commits as they are at its step. */
  predicate Sees(a: Queue.Action, s: Service.State) {
    match a
    case Take(_, commits) => commits == |s.commits|
    case Read(_, committed, commits, _) => committed == s.committed && commits == |s.commits|
    case _ => true
  }

  /** The state after an action; None where it is not possible. */
  function Next(s: State, uploads: seq<Service.Upload>, a: Action, plain: string -> string): Option<State>
    requires |s.imports.requests| == |uploads|
  {
    match a
    case Import(step) =>
      var after := Service.Next(s.imports, uploads, step);
      if after.Some? then Some(s.(imports := after.value)) else None
    case Lookup(act) =>
      var after := Queue.Next(s.lookups, act, plain);
      if Sees(act, s.imports) && after.Some? then Some(s.(lookups := after.value)) else None
  }

  function Run(s: State, uploads: seq<Service.Upload>, schedule: seq<Action>, plain: string -> string): (s': State)
    requires |s.imports.requests| == |uploads|
    ensures |s'.imports.requests| == |uploads|
  {
    if schedule == [] then s
    else
      var before := Run(s, uploads, schedule[..|schedule| - 1], plain);
      var after := Next(before, uploads, schedule[|schedule| - 1], plain);
      if after.Some? then after.value else before
  }

  /** The importing side of a run is a run of the imports alone. */
  function ImportSteps(schedule: seq<Action>): seq<Service.Action> {
    if schedule == [] then []
    else
      var a := schedule[|schedule| - 1];
      ImportSteps(schedule[..|schedule| - 1]) + (if a.Import? then [a.step] else [])
  }

  lemma {:induction false} ImportsRunAlone(s: State, uploads: seq<Service.Upload>, schedule: seq<Action>, plain: string -> string)
    requires |s.imports.requests| == |uploads|
    ensures Run(s, uploads, schedule, plain).imports == Service.Run(s.imports, uploads, ImportSteps(schedule))
  {
    if schedule != [] {
      var n := |schedule| - 1;
      ImportsRunAlone(s, uploads, schedule[..n], plain);
      var steps := ImportSteps(schedule[..n]);
      assert steps + [] == steps;
      if schedule[n].Import? { Service.RunOn(s.imports, uploads, steps, schedule[n].step); }
    }
  }

  // ---- What lookups see --------------------------------------------------------------------------

  /** The catalogue after the first k commits of a run. */
  function After(k: nat, uploads: seq<Service.Upload>, initial: Table, commits: seq<nat>): Table
    requires k <= |commits| && Service.Known(commits, uploads)
  {
    Service.Live(uploads, initial, commits[..k])
  }

  /** What a lookup answers from a catalogue. */
  function FoundIn(table: Table, barcode: string, fails: bool): Product {
    Queue.Found(Schema(map[LIVE := table], map[]), barcode, fails)
  }

  /** The product was looked up in the catalogue as it was after `read` commits, at a moment between
      the worker's taking the request and now. */
  predicate Fits(request: Queue.Request, taken: nat, read: nat, product: Product, failed: bool,
                 uploads: seq<Service.Upload>, initial: Table, commits: seq<nat>)
    requires Service.Known(commits, uploads)
  {
    taken <= read <= |commits| && product == FoundIn(After(read, uploads, initial, commits), request.barcode, failed)
  }

  ghost predicate WorkerFits(w: Queue.Worker, uploads: seq<Service.Upload>, initial: Table, commits: seq<nat>)
    requires Service.Known(commits, uploads)
  {
    && (w.Looking? ==> w.taken <= |commits|)
    && (w.Answering? ==> Fits(w.request, w.taken, w.read, w.product, w.failed, uploads, initial, commits))
  }

  ghost predicate DoneFits(d: Queue.Done, uploads: seq<Service.Upload>, initial: Table, commits: seq<nat>, plain: string -> string)
    requires Service.Known(commits, uploads)
  {
    && d.taken <= d.read <= |commits|
    && (d.ending.Published? ==>
        d.ending == Queue.Published(Queue.ResponseTopic(d.request),
          Queue.Normalize(FoundIn(After(d.read, uploads, initial, commits), d.request.barcode, d.failed), plain)))
  }

  ghost predicate Inv(s: State, uploads: seq<Service.Upload>, initial: Table, plain: string -> string) {
    && Service.Inv(s.imports, uploads, initial)
    && (forall w :: 0 <= w < |s.lookups.workers| ==> WorkerFits(s.lookups.workers[w], uploads, initial, s.imports.commits))
    && (forall i :: 0 <= i < |s.lookups.done| ==> DoneFits(s.lookups.done[i], uploads, initial, s.imports.commits, plain))
  }

  lemma AfterStays(k: nat, uploads: seq<Service.Upload>, initial: Table, commits: seq<nat>, commits': seq<nat>)
    requires k <= |commits| && commits <= commits' && Service.Known(commits', uploads)
    ensures Service.Known(commits, uploads)
    ensures After(k, uploads, initial, commits') == After(k, uploads, initial, commits)
  {
    assert commits'[..k] == commits[..k];
    assert forall i :: 0 <= i < |commits| ==> commits[i] == commits'[i];
  }

  lemma ImportKeepsFit(s: State, uploads: seq<Service.Upload>, initial: Table, plain: string -> string, step: Service.Action)
    requires Inv(s, uploads, initial, plain) && Service.Next(s.imports, uploads, step).Some?
    ensures Inv(s.(imports := Service.Next(s.imports, uploads, step).value), uploads, initial, plain)
  {
    var imports := Service.Next(s.imports, uploads, step).value;
    Service.StepKeepsInv(s.imports, uploads, initial, step);
    Service.CommitsGrow(s.imports, uploads, step);
    var before, after := s.imports.commits, imports.commits;
    forall w | 0 <= w < |s.lookups.workers| ensures WorkerFits(s.lookups.workers[w], uploads, initial, after) {
      var worker := s.lookups.workers[w];
      assert WorkerFits(worker, uploads, initial, before);
      if worker.Answering? { AfterStays(worker.read, uploads, initial, before, after); }
    }
    forall i | 0 <= i < |s.lookups.done| ensures DoneFits(s.lookups.done[i], uploads, initial, after, plain) {
      var d := s.lookups.done[i];
      assert DoneFits(d, uploads, initial, before, plain);
      AfterStays(d.read, uploads, initial, before, after);
    }
  }

  /** What a read of the database finds is what the last commit has left. */
  lemma ReadFits(s: Service.State, uploads: seq<Service.Upload>, initial: Table, barcode: string, fails: bool)
    requires Service.Inv(s, uploads, initial)
    ensures Queue.Found(s.committed, barcode, fails) == FoundIn(After(|s.commits|, uploads, initial, s.commits), barcode, fails)
  {
    hide Service.LocalsKept, Service.SlotKept, Service.Live;
    assert s.commits[..|s.commits|] == s.commits;
  }

  lemma WorkerStepFits(s: State, uploads: seq<Service.Upload>, initial: Table, plain: string -> string, a: Queue.Action)
    requires Inv(s, uploads, initial, plain) && Sees(a, s.imports) && Queue.Next(s.lookups, a, plain).Some?
    requires a.Take? || a.Read? || a.Finish? || a.Stop?
    ensures var q := Queue.Next(s.lookups, a, plain).value;
      && a.worker < |q.workers| && q.workers == s.lookups.workers[a.worker := q.workers[a.worker]]
      && WorkerFits(q.workers[a.worker], uploads, initial, s.imports.commits)
      && (if a.Finish? then |q.done| == |s.lookups.done| + 1 && q.done[..|s.lookups.done|] == s.lookups.done
            && DoneFits(q.done[|s.lookups.done|], uploads, initial, s.imports.commits, plain)
          else q.done == s.lookups.done)
  {
    assert WorkerFits(s.lookups.workers[a.worker], uploads, initial, s.imports.commits);
    if a.Read? { ReadFits(s.imports, uploads, initial, s.lookups.workers[a.worker].request.barcode, a.fails); }
  }

  lemma LookupKeepsFit(s: State, uploads: seq<Service.Upload>, initial: Table, plain: string -> string, a: Queue.Action)
    requires Inv(s, uploads, initial, plain) && Sees(a, s.imports) && Queue.Next(s.lookups, a, plain).Some?
    ensures Inv(s.(lookups := Queue.Next(s.lookups, a, plain).value), uploads, initial, plain)
  {
    if !a.Deliver? {
      WorkerStepFits(s, uploads, initial, plain, a);
      var q := Queue.Next(s.lookups, a, plain).value;
      forall i | 0 <= i < |q.done| ensures DoneFits(q.done[i], uploads, initial, s.imports.commits, plain) {
        assert i < |s.lookups.done| ==> q.done[i] == s.lookups.done[i];
      }
    }
  }

  lemma {:induction false} RunKeepsInv(uploads: seq<Service.Upload>, committed: Schema, workers: nat, schedule: seq<Action>,
                                       plain: string -> string)
    requires LIVE in committed.tables
    ensures Inv(Run(Start(uploads, committed, workers), uploads, schedule, plain), uploads, committed.tables[LIVE], plain)
  {
    if schedule == [] {
      Service.StartIsInv(uploads, committed);
    } else {
      var n := |schedule| - 1;
      RunKeepsInv(uploads, committed, workers, schedule[..n], plain);
      var s := Run(Start(uploads, committed, workers), uploads, schedule[..n], plain);
      if Next(s, uploads, schedule[n], plain).Some? {
        match schedule[n]
        case Import(step) => ImportKeepsFit(s, uploads, committed.tables[LIVE], plain, step);
        case Lookup(act) => LookupKeepsFit(s, uploads, committed.tables[LIVE], plain, act);
      }
    }
  }

  /** The catalogue after the first k commits: that of the last of them, or the one there was at first. */
  lemma AfterIs(k: nat, uploads: seq<Service.Upload>, initial: Table, commits: seq<nat>)
    requires k <= |commits| && Service.Known(commits, uploads)
    ensures After(k, uploads, initial, commits)
      == if k == 0 then initial else Catalogue(Pipeline.Parsed(uploads[commits[k - 1]].csv))
  {
    hide Catalogue, Pipeline.Parsed;
    if k > 0 { assert commits[..k][k - 1] == commits[k - 1]; }
  }

  /** Every published answer, whatever imports were running, timing out or committing around it: it
      goes to the requesting station and shows the row of the barcode, with name and price made
      plain, in the catalogue of the last import committed before the worker's read — never a
      mix of two catalogues and never one in the making — and that read came after the request
      was taken. If there is no such row, or the read failed, the answer is the barcode alone,
      not valid. */
  lemma RepliesShowLastCommit(uploads: seq<Service.Upload>, committed: Schema, workers: nat, schedule: seq<Action>,
                              plain: string -> string, i: nat)
    requires LIVE in committed.tables
    requires i < |Run(Start(uploads, committed, workers), uploads, schedule, plain).lookups.done|
    ensures var s := Run(Start(uploads, committed, workers), uploads, schedule, plain);
      var d := s.lookups.done[i];
      && Service.Known(s.imports.commits, uploads)
      && d.taken <= d.read <= |s.imports.commits|
      && (d.ending.Published? ==>
          var p, b := d.ending.product, d.request.barcode;
          var table := if d.read == 0 then committed.tables["products"]
                       else Catalogue(Pipeline.Parsed(uploads[s.imports.commits[d.read - 1]].csv));
          && d.ending.topic == "product/" + d.request.station
          && (if !d.failed && b in table then
                p == Product(name := plain(table[b].name), barcode := b, price := plain(table[b].price),
                             stock := table[b].stock, unit := table[b].unit, coef := table[b].coef, valid := true)
              else p == Product("", b, "", "", "", "", false)))
  {
    hide Catalogue, Pipeline.Parsed, FoundIn, After, Service.LocalsKept, Service.SlotKept, Service.Live;
    RunKeepsInv(uploads, committed, workers, schedule, plain);
    var s := Run(Start(uploads, committed, workers), uploads, schedule, plain);
    var d := s.lookups.done[i];
    assert DoneFits(d, uploads, committed.tables[LIVE], s.imports.commits, plain);
    if d.ending.Published? { DoneShows(d, uploads, committed.tables[LIVE], s.imports.commits, plain); }
  }

  lemma DoneShows(d: Queue.Done, uploads: seq<Service.Upload>, initial: Table, commits: seq<nat>, plain: string -> string)
    requires Service.Known(commits, uploads) && DoneFits(d, uploads, initial, commits, plain) && d.ending.Published?
    ensures var p, b := d.ending.product, d.request.barcode;
      var table := if d.read == 0 then initial else Catalogue(Pipeline.Parsed(uploads[commits[d.read - 1]].csv));
      && d.ending.topic == "product/" + d.request.station
      && (if !d.failed && b in table then
            p == Product(plain(table[b].name), b, plain(table[b].price), table[b].stock, table[b].unit, table[b].coef, true)
          else p == Product("", b, "", "", "", "", false))
  {
    hide Catalogue, Pipeline.Parsed;
    AfterIs(d.read, uploads, initial, commits);
    Queue.AnswerShows(Schema(map[LIVE := After(d.read, uploads, initial, commits)], map[]), d.request.barcode, d.failed, plain);
  }

  /** Nothing goes wrong with the lookups of this schedule: no read fails, and all answers encode. */
  predicate Healthy(schedule: seq<Action>) {
    forall i :: 0 <= i < |schedule| && schedule[i].Lookup? ==> Calm(schedule[i].act)
  }

  predicate Calm(a: Queue.Action) {
    (a.Read? ==> !a.fails) && (a.Finish? ==> a.encodes)
  }

  predicate AllWell(s: Queue.State) {
    && (forall w :: 0 <= w < |s.workers| && s.workers[w].Answering? ==> !s.workers[w].failed)
    && (forall i :: 0 <= i < |s.done| ==> !s.done[i].failed && s.done[i].ending.Published?)
  }

  /** Then no read counts as failed, and every request that is finished has been answered. */
  lemma {:induction false} HealthyLookupsAnswer(s: State, uploads: seq<Service.Upload>, schedule: seq<Action>, plain: string -> string)
    requires |s.imports.requests| == |uploads| && AllWell(s.lookups) && Healthy(schedule)
    ensures AllWell(Run(s, uploads, schedule, plain).lookups)
  {
    if schedule != [] {
      var n := |schedule| - 1;
      HealthyLookupsAnswer(s, uploads, schedule[..n], plain);
      var before := Run(s, uploads, schedule[..n], plain);
      if schedule[n].Lookup? && Next(before, uploads, schedule[n], plain).Some? { CalmStaysWell(before.lookups, schedule[n].act, plain); }
    }
  }

  lemma CalmStaysWell(q: Queue.State, a: Queue.Action, plain: string -> string)
    requires AllWell(q) && Calm(a) && Queue.Next(q, a, plain).Some?
    ensures AllWell(Queue.Next(q, a, plain).value)
  {
  }

  /** And the commits that a lookup saw are complete imports of good uploads, each at most once. */
  lemma CommitsAreImports(uploads: seq<Service.Upload>, committed: Schema, workers: nat, schedule: seq<Action>,
                          plain: string -> string, k: nat)
    requires LIVE in committed.tables
    requires k < |Run(Start(uploads, committed, workers), uploads, schedule, plain).imports.commits|
    ensures var commits := Run(Start(uploads, committed, workers), uploads, schedule, plain).imports.commits;
      && Service.Known(commits, uploads) && Service.Once(commits)
      && Service.Importable(uploads[commits[k]])
      && After(k + 1, uploads, committed.tables[LIVE], commits) == Catalogue(Pipeline.Parsed(uploads[commits[k]].csv))
  {
    ImportsRunAlone(Start(uploads, committed, workers), uploads, schedule, plain);
    CommitsFacts(uploads, committed, ImportSteps(schedule), k);
  }

  lemma CommitsFacts(uploads: seq<Service.Upload>, committed: Schema, steps: seq<Service.Action>, k: nat)
    requires LIVE in committed.tables
    requires k < |Service.Run(Service.Start(uploads, committed), uploads, steps).commits|
    ensures var commits := Service.Run(Service.Start(uploads, committed), uploads, steps).commits;
      && Service.Known(commits, uploads) && Service.Once(commits)
      && Service.Importable(uploads[commits[k]])
      && After(k + 1, uploads, committed.tables[LIVE], commits) == Catalogue(Pipeline.Parsed(uploads[commits[k]].csv))
  {
    Service.RunKeepsInv(uploads, committed, steps);
    var commits := Service.Run(Service.Start(uploads, committed), uploads, steps).commits;
    Service.OnlyImportable(uploads, committed, steps, commits[k]);
    AfterIs(k + 1, uploads, committed.tables[LIVE], commits);
  }
}
