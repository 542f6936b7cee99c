/** The catalogue service importing: any number of import requests, of which the runner lets one
    work at a time (`importRunner.run`, `processImport`, `handleImport`), each with a caller who
    may stop waiting.

    Everything happens in steps, in any order the scheduler likes. A worker that has come to its
    import carries a run of CatalogPipeline, whose two goroutines make their own steps against the
    one database of the service. A parser left behind when its import has returned shares nothing
    with the service any more. */
module ImportService {
  import opened Wrappers
  import opened CatalogStore
  import Pipeline = CatalogPipeline

  // ---- One request ---------------------------------------------------------------------------------

  /** The temporary files of a request: the upload, the database in it, the table taken from that. */
  datatype Kind = Gz | Mdb | CsvFile

  datatype Decompression = NoMdb | CopyFailed | Decompressed
  datatype Conversion = NoCsv | ConverterFailed | Converted

  /** What an upload has in store: which stage fails, and what the table in it reads as. */
  datatype Upload = Upload(gz: Decompression, mdb: Conversion, opens: bool, csv: Pipeline.Csv, engine: Engine)

  /** How many files of each kind. */
  datatype Files = Files(gz: nat, mdb: nat, csvFile: nat) {
    function Plus(k: Kind): Files {
      match k
      case Gz => this.(gz := gz + 1)
      case Mdb => this.(mdb := mdb + 1)
      case CsvFile => this.(csvFile := csvFile + 1)
    }

    predicate Is(a: nat, b: nat, c: nat) {
      gz == a && mdb == b && csvFile == c
    }
  }

  /** The deferred removals of processImport, in the order in which they are set up. */
  const DEFERRED: seq<Kind> := [Gz, Mdb, CsvFile]

  /** processImport's result: how many rows, or the HTTP status of the error. */
  datatype Result = Done(imported: nat) | Error(status: nat)

  /** `defers` is the number of deferred removals still to run. */
  datatype Worker =
    | NotStarted
    | Decompressing
    | Converting
    | Opening
    | Importing(base: Schema, run: Pipeline.State)
    | Cleaning(defers: nat, result: Result)
    | Reporting(result: Result)
    | Releasing(result: Result)
    | Gone(result: Result)

  datatype Reply = Completed(imported: nat) | Failed(status: nat) | TimedOut | CancelledEarly | Refused

  function HttpStatus(r: Reply): nat {
    match r
    case Completed(_) => 200
    case Failed(status) => status
    case TimedOut => 500
    case CancelledEarly => 500
    case Refused => 409
  }

  datatype Caller = Saved | Waiting | Answered(reply: Reply)

  /** `box` is the one-slot result channel; `stored` says that this request's catalogue was committed. */
  datatype Request = Request(
    caller: Caller, cancelled: bool, worker: Worker, box: Option<Result>,
    made: Files, gone: Files, stored: bool)

  const NEW := Request(Saved, false, NotStarted, None, Files(1, 0, 0), Files(0, 0, 0), false)

  function ReplyOf(r: Result): Reply {
    match r
    case Done(n) => Completed(n)
    case Error(status) => Failed(status)
  }

  /** The parser is content with all of the upload's records, and the engine stays up. */
  predicate Imports(u: Upload) {
    Pipeline.Verdict(u.csv).None? && Up(u.engine, Rows(u) + 10)
  }

  /** The number of records with a barcode in an upload. */
  function Rows(u: Upload): nat {
    |WithBarcode(Pipeline.Parsed(u.csv))|
  }

  /** Nothing is wrong with the upload at any stage. */
  predicate Importable(u: Upload) {
    u.gz.Decompressed? && u.mdb.Converted? && u.opens && Imports(u)
  }

  /** What processImport makes of an upload while its context lasts, by the first stage that fails. */
  function Outcome(u: Upload): Result {
    if !u.gz.Decompressed? then Error(400)
    else if !u.mdb.Converted? then Error(422)
    else if u.opens && Imports(u) then Done(Rows(u))
    else Error(500)
  }

  /** The function returns, with this many deferred removals to run, the last one first. */
  function CleanUp(r: Request, defers: nat, result: Result): Request {
    r.(worker := Cleaning(defers, result))
  }

  function MakeFile(r: Request, k: Kind): Request {
    r.(made := r.made.Plus(k))
  }

  function RemoveFile(r: Request, k: Kind): Request {
    r.(gone := r.gone.Plus(k))
  }

  /** A file that its own maker removes again. */
  function Transient(r: Request, k: Kind): Request {
    r.(made := r.made.Plus(k), gone := r.gone.Plus(k))
  }

  /** decompressGzip */
  function Decompress(r: Request, u: Upload): Request {
    match u.gz
    case NoMdb => CleanUp(r, 1, Error(400))
    case CopyFailed => CleanUp(Transient(r, Mdb), 1, Error(400))
    case Decompressed => MakeFile(r, Mdb).(worker := Converting)
  }

  /** convertMDBToCSV */
  function Convert(r: Request, u: Upload): Request {
    match u.mdb
    case NoCsv => CleanUp(r, 2, Error(422))
    case ConverterFailed => CleanUp(Transient(r, CsvFile), 2, Error(422))
    case Converted => MakeFile(r, CsvFile).(worker := Opening)
  }

  /** One deferred removal, or the return after the last one. */
  function RunDeferred(r: Request): Request
    requires r.worker.Cleaning? && r.worker.defers <= 3
  {
    var Cleaning(defers, result) := r.worker;
    if defers == 0 then r.(worker := Reporting(result))
    else RemoveFile(r, DEFERRED[defers - 1]).(worker := Cleaning(defers - 1, result))
  }

  /** The worker's next step within its request; None if it must wait, or if the step concerns
      the database or the slot. */
  function WorkAlone(r: Request, u: Upload): Option<Request> {
    match r.worker
    case Decompressing => Some(Decompress(r, u))
    case Converting => Some(Convert(r, u))
    case Opening => if u.opens then None else Some(CleanUp(r, 3, Error(500)))
    case Cleaning(defers, _) => if defers <= 3 then Some(RunDeferred(r)) else None
    case Reporting(result) => if r.box.None? then Some(r.(box := Some(result), worker := Releasing(result))) else None
    case _ => None
  }

  // ---- The service -----------------------------------------------------------------------------------

  /** `slots` counts the tokens in the runner's semaphore channel, which holds one; `commits` lists
      the requests whose catalogue was committed, in order. */
  datatype State = State(requests: seq<Request>, slots: nat, committed: Schema, commits: seq<nat>)

  function Start(uploads: seq<Upload>, committed: Schema): State {
    State(seq(|uploads|, _ => NEW), 0, committed, [])
  }

  datatype Action =
    | Acquire(id: nat)      // first select of run: the slot was free
    | CancelEarly(id: nat)  // first select of run: the context was already done
    | Refuse(id: nat)       // first select of run: neither
    | Cancel(id: nat)       // the request's context is cancelled or times out
    | TakeResult(id: nat)   // second select of run: the result is there
    | StopWaiting(id: nat)  // second select of run: the context is done
    | Work(id: nat)         // the worker's goroutine makes a step of its own
    | Pipe(id: nat, who: Pipeline.Actor)  // the import makes a step, or the parser that feeds it

  function Put(s: State, id: nat, r: Request): State
    requires id < |s.requests|
  {
    s.(requests := s.requests[id := r])
  }

  function ResultOf(r: ImportResult): Result {
    if r.error.None? then Done(r.imported) else Error(500)
  }

  /** The import begins. Every call it makes is made on the request's context: they all fail if that
      has ended. */
  function Begun(base: Schema, u: Upload, cancelled: bool): Worker {
    var run := Pipeline.Start(base, u.engine);
    Importing(base, if cancelled then Pipeline.CutOff(run) else run)
  }

  /** The context ends: a running import can make no further call. */
  function ContextEnds(r: Request): Request {
    r.(cancelled := true, worker := if r.worker.Importing? then r.worker.(run := Pipeline.CutOff(r.worker.run)) else r.worker)
  }

  /** The worker's next step in its request, at which the database and the slot are at hand. */
  function WorkStep(s: State, id: nat, u: Upload): Option<State>
    requires id < |s.requests|
  {
    var r := s.requests[id];
    match r.worker
    case Opening =>
      if u.opens then Some(Put(s, id, r.(worker := Begun(s.committed, u, r.cancelled))))
      else Some(Put(s, id, WorkAlone(r, u).value))
    case Importing(_, run) =>
      if run.importer.Returned? then Some(Put(s, id, CleanUp(r, 3, ResultOf(run.importer.result)))) else None
    case Releasing(result) =>
      if s.slots > 0 then Some(Put(s, id, r.(worker := Gone(result))).(slots := s.slots - 1)) else None
    case _ =>
      var r1 := WorkAlone(r, u);
      if r1.Some? then Some(Put(s, id, r1.value)) else None
  }

  /** The import has committed and returned. */
  predicate Stored(run: Pipeline.State) {
    run.importer.Returned? && run.importer.result.error.None?
  }

  /** A step of the import or its parser, on the database of the service. */
  function PipeStep(s: State, id: nat, u: Upload, who: Pipeline.Actor): Option<State>
    requires id < |s.requests|
  {
    var r := s.requests[id];
    if !r.worker.Importing? then None
    else
      var next := Pipeline.Step(r.worker.run.(committed := s.committed), u.csv, who);
      if next.None? then None
      else
        var run := next.value;
        var s1 := Put(s, id, r.(worker := Importing(r.worker.base, run), stored := Stored(run)));
        Some(s1.(committed := run.committed, commits := if Stored(run) && !r.stored then s.commits + [id] else s.commits))
  }

  /** The state after an action; None where it is not possible. */
  function Next(s: State, uploads: seq<Upload>, a: Action): Option<State>
    requires |s.requests| == |uploads|
  {
    if a.id >= |s.requests| then None
    else
      var r := s.requests[a.id];
      match a
      case Acquire(id) =>
        if r.caller.Saved? && s.slots < 1
        then Some(Put(s, id, r.(caller := Waiting, worker := Decompressing)).(slots := s.slots + 1)) else None
      case CancelEarly(id) =>
        if r.caller.Saved? && r.cancelled then Some(Put(s, id, r.(caller := Answered(CancelledEarly)))) else None
      case Refuse(id) =>
        if r.caller.Saved? && !r.cancelled && s.slots >= 1
        then Some(Put(s, id, RemoveFile(r, Gz).(caller := Answered(Refused)))) else None
      case Cancel(id) => Some(Put(s, id, ContextEnds(r)))
      case TakeResult(id) =>
        if r.caller.Waiting? && r.box.Some?
        then Some(Put(s, id, r.(caller := Answered(ReplyOf(r.box.value)), box := None))) else None
      case StopWaiting(id) =>
        if r.caller.Waiting? && r.cancelled then Some(Put(s, id, r.(caller := Answered(TimedOut)))) else None
      case Work(id) => WorkStep(s, id, uploads[id])
      case Pipe(id, who) => PipeStep(s, id, uploads[id], who)
  }

  function Run(s: State, uploads: seq<Upload>, schedule: seq<Action>): (s': State)
    requires |s.requests| == |uploads|
    ensures |s'.requests| == |uploads|
  {
    if schedule == [] then s
    else
      var before := Run(s, uploads, schedule[..|schedule| - 1]);
      var after := Next(before, uploads, schedule[|schedule| - 1]);
      if after.Some? then after.value else before
  }

  // ---- What holds of one request ------------------------------------------------------------------------

  /** A worker holds the slot from its start until it has released it. */
  predicate Holds(w: Worker) {
    !w.NotStarted? && !w.Gone?
  }

  /** The files the worker still has to remove. */
  function Owned(w: Worker): Files {
    match w
    case Decompressing => Files(1, 0, 0)
    case Converting => Files(1, 1, 0)
    case Opening => Files(1, 1, 1)
    case Importing(_, _) => Files(1, 1, 1)
    case Cleaning(defers, _) => Files(if defers >= 1 then 1 else 0, if defers >= 2 then 1 else 0, if defers >= 3 then 1 else 0)
    case _ => Files(0, 0, 0)
  }

  predicate FilesKept(r: Request) {
    && r.made.gz == 1 && r.made.mdb <= 1 && r.made.csvFile <= 1
    && (if r.worker.NotStarted? then
          r.made.Is(1, 0, 0) && r.gone.Is(if r.caller == Answered(Refused) then 1 else 0, 0, 0)
        else
          var owned := Owned(r.worker);
          r.made.Is(r.gone.gz + owned.gz, r.gone.mdb + owned.mdb, r.gone.csvFile + owned.csvFile))
    && (r.worker.Decompressing? ==> r.made.mdb == 0)
    && (r.worker.Decompressing? || r.worker.Converting? ==> r.made.csvFile == 0)
    && (r.worker.Cleaning? ==> r.worker.defers <= 3)
  }

  /** The caller is waiting for a result it has not been given, or has stopped waiting. */
  predicate Unserved(c: Caller) {
    c.Waiting? || c == Answered(TimedOut)
  }

  /** What a worker reports of an upload: its outcome, or a failure of the import if the context has
      ended. */
  predicate Reports(result: Result, u: Upload, cancelled: bool) {
    result == Outcome(u) || (cancelled && Outcome(u).Done? && result == Error(500))
  }

  /** How the worker stands to the upload: which stages are behind it, and what it will report. */
  ghost predicate StageKept(r: Request, u: Upload) {
    match r.worker
    case Converting => u.gz.Decompressed? && !r.stored
    case Opening => u.gz.Decompressed? && u.mdb.Converted? && !r.stored
    case Importing(base, run) =>
      && u.gz.Decompressed? && u.mdb.Converted? && u.opens
      && OnBase(run, base, u, r.cancelled) && r.stored == Stored(run)
    case Cleaning(_, result) => Reports(result, u, r.cancelled) && r.stored == result.Done?
    case Reporting(result) => Reports(result, u, r.cancelled) && r.stored == result.Done?
    case Releasing(result) => Reports(result, u, r.cancelled) && r.stored == result.Done?
    case Gone(result) => Reports(result, u, r.cancelled) && r.stored == result.Done?
    case _ => !r.stored
  }

  /** The run is bound to fail, and to leave the database as it is. */
  ghost predicate Doomed(run: Pipeline.State, base: Schema, u: Upload) {
    exists fate :: Pipeline.Inv(run, u.csv, fate, base) && fate.0.error.Some? && fate.1 == base
  }

  /** The run is one of the upload's pipeline, begun on this database; once the context has ended
      without a commit, it is doomed. */
  ghost predicate OnBase(run: Pipeline.State, base: Schema, u: Upload, cancelled: bool) {
    && LIVE in base.tables
    && (if cancelled && !Stored(run) then Doomed(run, base, u) else Pipeline.Inv(run, u.csv, ImportOn(base, u), base))
  }

  /** How caller and worker stand to each other. Once reported, the result lies in the channel
      until the caller, if it still waits, takes it. */
  predicate CallerKept(r: Request, u: Upload) {
    && (r.worker.NotStarted? <==> r.caller.Saved? || r.caller == Answered(Refused) || r.caller == Answered(CancelledEarly))
    && (if r.worker.Releasing? || r.worker.Gone? then
          if r.box.Some? then r.box.value == r.worker.result && Unserved(r.caller) else r.caller == Answered(ReplyOf(r.worker.result))
        else r.box.None? && (r.worker.NotStarted? || Unserved(r.caller)))
    && (r.caller == Answered(TimedOut) || r.caller == Answered(CancelledEarly) ==> r.cancelled)
  }

  lemma DecompressKeepsFiles(r: Request, u: Upload)
    requires FilesKept(r) && r.worker.Decompressing?
    ensures FilesKept(Decompress(r, u))
  {
  }

  lemma ConvertKeepsFiles(r: Request, u: Upload)
    requires FilesKept(r) && r.worker.Converting?
    ensures FilesKept(Convert(r, u))
  {
  }

  lemma DeferredKeepsFiles(r: Request)
    requires FilesKept(r) && r.worker.Cleaning?
    ensures FilesKept(RunDeferred(r))
  {
  }

  lemma WorkAloneKeepsFiles(r: Request, u: Upload)
    requires FilesKept(r) && WorkAlone(r, u).Some?
    ensures FilesKept(WorkAlone(r, u).value)
  {
    match r.worker
    case Decompressing => DecompressKeepsFiles(r, u);
    case Converting => ConvertKeepsFiles(r, u);
    case Cleaning(_, _) => DeferredKeepsFiles(r);
    case _ =>
  }

  lemma WorkAloneKeepsStage(r: Request, u: Upload)
    requires FilesKept(r) && StageKept(r, u) && CallerKept(r, u) && WorkAlone(r, u).Some?
    ensures StageKept(WorkAlone(r, u).value, u) && CallerKept(WorkAlone(r, u).value, u)
    ensures var r' := WorkAlone(r, u).value;
      && r'.stored == r.stored && r'.caller == r.caller && r'.cancelled == r.cancelled
      && Holds(r.worker) && Holds(r'.worker) && !r'.worker.Importing?
  {
  }

  /** The catalogue of the database is the upload's. */
  predicate Shows(s: Schema, u: Upload) {
    LIVE in s.tables && s.tables[LIVE] == Catalogue(Pipeline.Parsed(u.csv))
  }

  function ImportOn(base: Schema, u: Upload): (ImportResult, Schema) {
    Import(base, u.engine, Pipeline.Parsed(u.csv), Pipeline.Verdict(u.csv))
  }

  lemma ImportFacts(base: Schema, u: Upload)
    requires LIVE in base.tables
    ensures var (r, after) := ImportOn(base, u);
      && (r.error.None? <==> Imports(u))
      && (if r.error.None? then r.imported == Rows(u) && Shows(after, u) else after == base)
  {
    hide Pipeline.Parsed;
    ImportReplacesOrKeeps(base, u.engine, Pipeline.Parsed(u.csv), Pipeline.Verdict(u.csv));
  }

  /** The database of a run is the one it began on until it has committed, and then shows the
      upload's catalogue. */
  lemma CommittedIs(run: Pipeline.State, base: Schema, u: Upload, cancelled: bool)
    requires OnBase(run, base, u, cancelled)
    ensures if Stored(run) then Imports(u) && Shows(run.committed, u) else run.committed == base
    ensures run.importer.Returned? ==> ResultOf(run.importer.result) == if Stored(run) then Done(Rows(u)) else Error(500)
    ensures run.importer.Returned? && !cancelled ==> (Stored(run) <==> Imports(u))
  {
    ImportFacts(base, u);
    if cancelled && !Stored(run) {
      var fate :| Pipeline.Inv(run, u.csv, fate, base) && fate.0.error.Some? && fate.1 == base;
      ReturnedIsGoal(run, u.csv, fate, base);
    } else {
      ReturnedIsGoal(run, u.csv, ImportOn(base, u), base);
    }
  }

  lemma ReturnedIsGoal(run: Pipeline.State, csv: Pipeline.Csv, goal: (ImportResult, Schema), base: Schema)
    requires Pipeline.Inv(run, csv, goal, base)
    ensures if run.importer.Returned? then (run.importer.result, run.committed) == goal else run.committed == base
  {
  }

  /** The end of the context dooms an import that has not committed. */
  lemma ContextEndKeepsRun(run: Pipeline.State, base: Schema, u: Upload, cancelled: bool)
    requires OnBase(run, base, u, cancelled)
    ensures OnBase(Pipeline.CutOff(run), base, u, true)
  {
    ImportFacts(base, u);
    if cancelled && !Stored(run) {
      var fate :| Pipeline.Inv(run, u.csv, fate, base) && fate.0.error.Some? && fate.1 == base;
      CutOffIsDoomed(run, base, u, fate);
    } else if Stored(run) {
      Pipeline.CutOffAfterReturn(run, u.csv, ImportOn(base, u), base);
    } else {
      ReturnedIsGoal(run, u.csv, ImportOn(base, u), base);
      CutOffIsDoomed(run, base, u, ImportOn(base, u));
    }
  }

  lemma CutOffIsDoomed(run: Pipeline.State, base: Schema, u: Upload, goal: (ImportResult, Schema))
    requires Pipeline.Inv(run, u.csv, goal, base)
    requires run.importer.Returned? ==> goal.0.error.Some? && goal.1 == base
    ensures Doomed(Pipeline.CutOff(run), base, u)
  {
    if run.importer.Returned? {
      Pipeline.CutOffAfterReturn(run, u.csv, goal, base);
    } else {
      var result := Pipeline.CutOffFails(run, u.csv, goal, base);
    }
  }

  /** An import that has returned stays as it is, whatever its parser does. */
  lemma ReturnedStays(run: Pipeline.State, csv: Pipeline.Csv, who: Pipeline.Actor)
    requires run.importer.Returned? && Pipeline.Step(run, csv, who).Some?
    ensures var run' := Pipeline.Step(run, csv, who).value; run'.importer == run.importer && run'.committed == run.committed
  {
  }

  /** A doomed run stays so. */
  lemma DoomedStays(run: Pipeline.State, base: Schema, u: Upload, who: Pipeline.Actor)
    requires Doomed(run, base, u) && Pipeline.Step(run, u.csv, who).Some?
    ensures var run' := Pipeline.Step(run, u.csv, who).value; Doomed(run', base, u) && !Stored(run')
  {
    var fate :| Pipeline.Inv(run, u.csv, fate, base) && fate.0.error.Some? && fate.1 == base;
    var run' := Pipeline.Step(run, u.csv, who).value;
    Pipeline.StepKeepsInv(run, u.csv, who, fate, base);
    ReturnedIsGoal(run', u.csv, fate, base);
  }

  /** A step of the pipeline, seen from the request. */
  lemma PipeMoves(run: Pipeline.State, base: Schema, u: Upload, who: Pipeline.Actor, cancelled: bool)
    requires OnBase(run, base, u, cancelled) && Pipeline.Step(run, u.csv, who).Some?
    ensures var run' := Pipeline.Step(run, u.csv, who).value;
      && OnBase(run', base, u, cancelled)
      && (Stored(run) ==> Stored(run'))
      && (cancelled ==> Stored(run') == Stored(run))
      && (Stored(run) == Stored(run') ==> run'.committed == run.committed)
  {
    var run' := Pipeline.Step(run, u.csv, who).value;
    CommittedIs(run, base, u, cancelled);
    if run.importer.Returned? { ReturnedStays(run, u.csv, who); }
    if cancelled && !Stored(run) {
      DoomedStays(run, base, u, who);
    } else {
      Pipeline.StepKeepsInv(run, u.csv, who, ImportOn(base, u), base);
    }
    CommittedIs(run', base, u, cancelled);
  }

  ghost predicate LocalKept(r: Request, u: Upload) {
    FilesKept(r) && StageKept(r, u) && CallerKept(r, u)
  }

  // ---- What holds of the service ---------------------------------------------------------------------------

  /** How many workers hold the slot. */
  function Busy(requests: seq<Request>): nat {
    if requests == [] then 0
    else Busy(requests[..|requests| - 1]) + (if Holds(requests[|requests| - 1].worker) then 1 else 0)
  }

  lemma {:induction false} BusyUpdate(requests: seq<Request>, id: nat, r: Request)
    requires id < |requests|
    ensures Busy(requests[id := r]) ==
      Busy(requests) - (if Holds(requests[id].worker) then 1 else 0) + (if Holds(r.worker) then 1 else 0)
  {
    var n := |requests| - 1;
    if id < n {
      BusyUpdate(requests[..n], id, r);
      assert requests[id := r][..n] == requests[..n][id := r];
    } else {
      assert requests[id := r][..n] == requests[..n];
    }
  }

  lemma {:induction false} BusyCounts(requests: seq<Request>, id: nat)
    requires id < |requests| && Holds(requests[id].worker)
    ensures Busy(requests) >= 1
    ensures forall j :: 0 <= j < |requests| && j != id && Holds(requests[j].worker) ==> Busy(requests) >= 2
  {
    var n := |requests| - 1;
    if id < n {
      BusyCounts(requests[..n], id);
    } else {
      forall j | 0 <= j < n && Holds(requests[j].worker) ensures Busy(requests[..n]) >= 1 {
        BusyCounts(requests[..n], j);
      }
    }
  }

  predicate Known(commits: seq<nat>, uploads: seq<Upload>) {
    forall i :: 0 <= i < |commits| ==> commits[i] < |uploads|
  }

  /** No request commits twice. */
  predicate Once(commits: seq<nat>) {
    forall i, j :: 0 <= i < j < |commits| ==> commits[i] != commits[j]
  }

  /** The live table after the given commits. */
  function Live(uploads: seq<Upload>, initial: Table, commits: seq<nat>): Table
    requires Known(commits, uploads)
  {
    if commits == [] then initial else Catalogue(Pipeline.Parsed(uploads[commits[|commits| - 1]].csv))
  }

  ghost predicate LocalsKept(s: State, uploads: seq<Upload>) {
    && |s.requests| == |uploads|
    && forall id :: 0 <= id < |uploads| ==> LocalKept(s.requests[id], uploads[id])
  }

  ghost predicate SlotKept(s: State) {
    s.slots == Busy(s.requests) <= 1
  }

  /** The database shows the last import committed, and a running import works on that database. */
  ghost predicate StoreKept(s: State, uploads: seq<Upload>, initial: Table) {
    && |s.requests| == |uploads|
    && Known(s.commits, uploads)
    && Once(s.commits)
    && LIVE in s.committed.tables && s.committed.tables[LIVE] == Live(uploads, initial, s.commits)
    && (forall id :: 0 <= id < |uploads| ==> (id in s.commits <==> s.requests[id].stored))
    && (forall id :: 0 <= id < |uploads| && s.requests[id].worker.Importing? ==> s.requests[id].worker.run.committed == s.committed)
  }

  ghost predicate Inv(s: State, uploads: seq<Upload>, initial: Table) {
    LocalsKept(s, uploads) && SlotKept(s) && StoreKept(s, uploads, initial)
  }

  // ---- Every step keeps it -------------------------------------------------------------------------------

  /** Every action touches one request only. */
  lemma TouchesOne(s: State, uploads: seq<Upload>, a: Action)
    requires |s.requests| == |uploads| && Next(s, uploads, a).Some?
    ensures var s' := Next(s, uploads, a).value;
      a.id < |s.requests| && s'.requests == s.requests[a.id := s'.requests[a.id]]
  {
  }

  lemma CommitsGrow(s: State, uploads: seq<Upload>, a: Action)
    requires |s.requests| == |uploads| && Next(s, uploads, a).Some?
    ensures s.commits <= Next(s, uploads, a).value.commits
  {
  }

  /** What the end of a context does. */
  lemma ContextEndKeeps(r: Request, u: Upload)
    requires LocalKept(r, u)
    ensures LocalKept(ContextEnds(r), u)
    ensures var r' := ContextEnds(r);
      && r'.cancelled && r'.stored == r.stored && r'.caller == r.caller && Holds(r'.worker) == Holds(r.worker)
      && (r'.worker.Importing? ==> r.worker.Importing? && r'.worker.run.committed == r.worker.run.committed)
  {
    if r.worker.Importing? { ContextEndKeepsRun(r.worker.run, r.worker.base, u, r.cancelled); }
  }

  /** What the callers' actions and the ends of contexts do. */
  lemma CallerStep(s: State, uploads: seq<Upload>, a: Action)
    requires LocalsKept(s, uploads) && !a.Work? && !a.Pipe? && Next(s, uploads, a).Some?
    ensures a.id < |uploads|
    ensures var s' := Next(s, uploads, a).value;
      && LocalKept(s'.requests[a.id], uploads[a.id])
      && s'.committed == s.committed && s'.commits == s.commits
      && s'.requests[a.id].stored == s.requests[a.id].stored
      && (s.requests[a.id].cancelled ==> s'.requests[a.id].cancelled)
      && (s'.requests[a.id].worker.Importing? ==>
          (s.requests[a.id].worker.Importing? && s'.requests[a.id].worker.run.committed == s.requests[a.id].worker.run.committed))
      && (if a.Acquire? then !Holds(s.requests[a.id].worker) && s'.requests[a.id].worker.Decompressing? && s.slots == 0 && s'.slots == 1
          else Holds(s'.requests[a.id].worker) == Holds(s.requests[a.id].worker) && s'.slots == s.slots)
  {
    assert LocalKept(s.requests[a.id], uploads[a.id]);
    if a.Cancel? { ContextEndKeeps(s.requests[a.id], uploads[a.id]); }
  }

  /** What the worker's own steps do. */
  lemma WorkStepKeeps(s: State, id: nat, u: Upload)
    requires id < |s.requests| && LocalKept(s.requests[id], u) && LIVE in s.committed.tables
    requires WorkStep(s, id, u).Some?
    ensures var s' := WorkStep(s, id, u).value;
      var r, r' := s.requests[id], s'.requests[id];
      && s'.requests == s.requests[id := r'] && LocalKept(r', u)
      && s'.committed == s.committed && s'.commits == s.commits && r'.stored == r.stored
      && r'.caller == r.caller && r'.cancelled == r.cancelled
      && Holds(r.worker) && Holds(r'.worker) == !r.worker.Releasing?
      && (r'.worker.Importing? ==> r'.worker.run.committed == s.committed)
      && (if r.worker.Releasing? then s.slots > 0 && s'.slots == s.slots - 1 else s'.slots == s.slots)
  {
    var r := s.requests[id];
    if WorkAlone(r, u).Some? {
      WorkAloneKeepsFiles(r, u);
      WorkAloneKeepsStage(r, u);
    } else if r.worker.Importing? {
      CommittedIs(r.worker.run, r.worker.base, u, r.cancelled);
    } else if r.worker.Opening? {
      PipelineBegins(s.committed, u, r.cancelled);
    }
  }

  lemma PipelineBegins(base: Schema, u: Upload, cancelled: bool)
    requires LIVE in base.tables
    ensures var run := Begun(base, u, cancelled).run;
      OnBase(run, base, u, cancelled) && !Stored(run) && run.committed == base
  {
    var run := Pipeline.Start(base, u.engine);
    Pipeline.RunKeepsInv(base, u.engine, u.csv, []);
    if cancelled { ContextEndKeepsRun(run, base, u, false); }
  }

  /** What a step of the import or its parser does. */
  lemma PipeStepKeeps(s: State, id: nat, u: Upload, who: Pipeline.Actor)
    requires id < |s.requests| && LocalKept(s.requests[id], u) && PipeStep(s, id, u, who).Some?
    requires s.requests[id].worker.run.committed == s.committed
    ensures var s' := PipeStep(s, id, u, who).value;
      var r, r' := s.requests[id], s'.requests[id];
      && s'.requests == s.requests[id := r'] && LocalKept(r', u) && s'.slots == s.slots
      && r.worker.Importing? && r'.worker.Importing? && r'.worker.run.committed == s'.committed
      && r'.caller == r.caller && r'.cancelled == r.cancelled
      && (r.stored ==> r'.stored) && (r.cancelled ==> r'.stored == r.stored)
      && (if r'.stored == r.stored then s'.committed == s.committed && s'.commits == s.commits
          else s'.commits == s.commits + [id] && Shows(s'.committed, u))
  {
    var r := s.requests[id];
    var run := r.worker.run;
    assert run.(committed := s.committed) == run;
    PipeMoves(run, r.worker.base, u, who, r.cancelled);
    CommittedIs(Pipeline.Step(run, u.csv, who).value, r.worker.base, u, r.cancelled);
  }

  lemma StepKeepsLocals(s: State, uploads: seq<Upload>, initial: Table, a: Action)
    requires LocalsKept(s, uploads) && StoreKept(s, uploads, initial) && Next(s, uploads, a).Some?
    ensures LocalsKept(Next(s, uploads, a).value, uploads)
  {
    TouchesOne(s, uploads, a);
    assert LocalKept(s.requests[a.id], uploads[a.id]);
    if a.Work? {
      WorkStepKeeps(s, a.id, uploads[a.id]);
    } else if a.Pipe? {
      PipeStepKeeps(s, a.id, uploads[a.id], a.who);
    } else {
      CallerStep(s, uploads, a);
    }
  }

  lemma StepKeepsSlot(s: State, uploads: seq<Upload>, initial: Table, a: Action)
    requires LocalsKept(s, uploads) && SlotKept(s) && StoreKept(s, uploads, initial) && Next(s, uploads, a).Some?
    ensures SlotKept(Next(s, uploads, a).value)
  {
    TouchesOne(s, uploads, a);
    var s' := Next(s, uploads, a).value;
    assert LocalKept(s.requests[a.id], uploads[a.id]);
    BusyUpdate(s.requests, a.id, s'.requests[a.id]);
    if a.Work? {
      WorkStepKeeps(s, a.id, uploads[a.id]);
    } else if a.Pipe? {
      PipeStepKeeps(s, a.id, uploads[a.id], a.who);
    } else {
      CallerStep(s, uploads, a);
    }
  }

  /** A step that leaves the database alone and only changes how one request stands. */
  lemma QuietStepKeepsStore(s: State, s': State, uploads: seq<Upload>, initial: Table, id: nat, r: Request)
    requires StoreKept(s, uploads, initial) && id < |uploads|
    requires s'.requests == s.requests[id := r] && s'.committed == s.committed && s'.commits == s.commits
    requires r.stored == s.requests[id].stored && (r.worker.Importing? ==> r.worker.run.committed == s.committed)
    ensures StoreKept(s', uploads, initial)
  {
  }

  /** The one step that changes the database: nobody else is importing then. */
  lemma CommitKeepsStore(s: State, s': State, uploads: seq<Upload>, initial: Table, id: nat, r: Request)
    requires StoreKept(s, uploads, initial) && id < |uploads|
    requires s'.requests == s.requests[id := r] && s'.commits == s.commits + [id] && r.stored && !s.requests[id].stored
    requires Shows(s'.committed, uploads[id])
    requires r.worker.Importing? ==> r.worker.run.committed == s'.committed
    requires forall j :: 0 <= j < |uploads| && j != id ==> !s.requests[j].worker.Importing?
    ensures StoreKept(s', uploads, initial)
  {
  }

  lemma PipeStepKeepsStore(s: State, uploads: seq<Upload>, initial: Table, id: nat, who: Pipeline.Actor)
    requires LocalsKept(s, uploads) && SlotKept(s) && StoreKept(s, uploads, initial)
    requires id < |uploads| && PipeStep(s, id, uploads[id], who).Some?
    ensures StoreKept(PipeStep(s, id, uploads[id], who).value, uploads, initial)
  {
    var u := uploads[id];
    assert LocalKept(s.requests[id], u);
    PipeStepKeeps(s, id, u, who);
    var s' := PipeStep(s, id, u, who).value;
    if s'.requests[id].stored == s.requests[id].stored {
      QuietStepKeepsStore(s, s', uploads, initial, id, s'.requests[id]);
    } else {
      BusyCounts(s.requests, id);
      CommitKeepsStore(s, s', uploads, initial, id, s'.requests[id]);
    }
  }

  lemma StepKeepsStore(s: State, uploads: seq<Upload>, initial: Table, a: Action)
    requires Inv(s, uploads, initial) && Next(s, uploads, a).Some?
    ensures StoreKept(Next(s, uploads, a).value, uploads, initial)
  {
    var s' := Next(s, uploads, a).value;
    TouchesOne(s, uploads, a);
    assert LocalKept(s.requests[a.id], uploads[a.id]);
    if a.Pipe? {
      PipeStepKeepsStore(s, uploads, initial, a.id, a.who);
    } else {
      if a.Work? { WorkStepKeeps(s, a.id, uploads[a.id]); } else { CallerStep(s, uploads, a); }
      QuietStepKeepsStore(s, s', uploads, initial, a.id, s'.requests[a.id]);
    }
  }

  lemma StepKeepsInv(s: State, uploads: seq<Upload>, initial: Table, a: Action)
    requires Inv(s, uploads, initial) && Next(s, uploads, a).Some?
    ensures Inv(Next(s, uploads, a).value, uploads, initial)
  {
    StepKeepsLocals(s, uploads, initial, a);
    StepKeepsSlot(s, uploads, initial, a);
    StepKeepsStore(s, uploads, initial, a);
  }

  lemma {:induction false} NobodyIsBusyAtFirst(n: nat)
    ensures Busy(seq(n, _ => NEW)) == 0
  {
    if n > 0 {
      assert seq(n, _ => NEW)[..n - 1] == seq(n - 1, _ => NEW);
      NobodyIsBusyAtFirst(n - 1);
    }
  }

  lemma StartIsInv(uploads: seq<Upload>, committed: Schema)
    requires LIVE in committed.tables
    ensures Inv(Start(uploads, committed), uploads, committed.tables[LIVE])
  {
    NobodyIsBusyAtFirst(|uploads|);
  }

  lemma {:induction false} RunKeepsInv(uploads: seq<Upload>, committed: Schema, schedule: seq<Action>)
    requires LIVE in committed.tables
    ensures Inv(Run(Start(uploads, committed), uploads, schedule), uploads, committed.tables[LIVE])
  {
    if schedule == [] {
      StartIsInv(uploads, committed);
    } else {
      var n := |schedule| - 1;
      RunKeepsInv(uploads, committed, schedule[..n]);
      var before := Run(Start(uploads, committed), uploads, schedule[..n]);
      if Next(before, uploads, schedule[n]).Some? {
        StepKeepsInv(before, uploads, committed.tables[LIVE], schedule[n]);
      }
    }
  }

  // ---- What that means for callers -----------------------------------------------------------------------------

  /** In every interleaving of requests, timeouts, workers and their pipelines: the workers inside
      processImport are as many as there are tokens in the semaphore, and that is at most one —
      also while the callers of some of them have long stopped waiting. */
  lemma OneImportAtATime(uploads: seq<Upload>, committed: Schema, schedule: seq<Action>)
    requires LIVE in committed.tables
    ensures var s := Run(Start(uploads, committed), uploads, schedule);
      && Busy(s.requests) == s.slots <= 1
      && forall i, j :: 0 <= i < j < |uploads| ==> !(Holds(s.requests[i].worker) && Holds(s.requests[j].worker))
  {
    RunKeepsInv(uploads, committed, schedule);
    var s := Run(Start(uploads, committed), uploads, schedule);
    forall i, j | 0 <= i < j < |uploads| ensures !(Holds(s.requests[i].worker) && Holds(s.requests[j].worker)) {
      if Holds(s.requests[i].worker) { BusyCounts(s.requests, i); }
    }
  }

  /** A `completed` reply means that this request's catalogue was committed, and gives the number
      of its records with a barcode; any other reply but a timeout means that it was not. And the
      HTTP status tells which stage failed: 400 the decompression, 422 the conversion, 500
      anything after that — which, with nothing wrong with the upload, only an ended context can
      be — 409 a refusal. A caller who stopped waiting, or never started, is told 500. */
  lemma RepliesAreTrue(uploads: seq<Upload>, committed: Schema, schedule: seq<Action>, id: nat)
    requires LIVE in committed.tables && id < |uploads|
    ensures var s, u := Run(Start(uploads, committed), uploads, schedule), uploads[id];
      var r := s.requests[id];
      && (r.caller == Answered(TimedOut) || r.caller == Answered(CancelledEarly) ==> r.cancelled && HttpStatus(r.caller.reply) == 500)
      && (r.caller.Answered? && !r.caller.reply.TimedOut? ==>
        && (id in s.commits <==> r.caller.reply.Completed?)
        && (HttpStatus(r.caller.reply) == 200 <==> r.caller.reply.Completed?)
        && (HttpStatus(r.caller.reply) == 409 <==> r.caller.reply.Refused?)
        && (r.caller.reply.Completed? || r.caller.reply.Failed? ==>
            && (r.caller.reply.Completed? ==>
                && Importable(u)
                && r.caller.reply.imported == |set i | 0 <= i < |u.csv.records| && Pipeline.Clean(u.csv.records[i][1]) != ""|)
            && (HttpStatus(r.caller.reply) == 400 <==> !u.gz.Decompressed?)
            && (HttpStatus(r.caller.reply) == 422 <==> u.gz.Decompressed? && !u.mdb.Converted?)
            && (HttpStatus(r.caller.reply) == 500 && Importable(u) ==> r.cancelled)))
  {
    hide Pipeline.Clean, Pipeline.Parsed, WithBarcode;
    RunKeepsInv(uploads, committed, schedule);
    var s := Run(Start(uploads, committed), uploads, schedule);
    assert LocalKept(s.requests[id], uploads[id]);
    if Importable(uploads[id]) { RowsAreRecords(uploads[id]); }
  }

  lemma RowsAreRecords(u: Upload)
    requires Pipeline.Verdict(u.csv).None?
    ensures Rows(u) == |set i | 0 <= i < |u.csv.records| && Pipeline.Clean(u.csv.records[i][1]) != ""|
  {
    hide Pipeline.Clean, WithBarcode;
    var p := Pipeline.Parsed(u.csv);
    Pipeline.ParsedRecords(u.csv, "");
    WithBarcodeCounts(p);
    assert (set i | 0 <= i < |p| && p[i].barcode != "")
        == (set i | 0 <= i < |u.csv.records| && Pipeline.Clean(u.csv.records[i][1]) != "");
  }

  /** One step more at the end of a run. */
  lemma RunOn(s0: State, uploads: seq<Upload>, schedule: seq<Action>, a: Action)
    requires |s0.requests| == |uploads|
    ensures var s := Run(s0, uploads, schedule);
      Run(s0, uploads, schedule + [a]) == if Next(s, uploads, a).Some? then Next(s, uploads, a).value else s
  {
    assert (schedule + [a])[..|schedule|] == schedule;
  }

  lemma InvAt(s: State, uploads: seq<Upload>, initial: Table, id: nat)
    requires Inv(s, uploads, initial) && id < |uploads|
    ensures |s.requests| == |uploads| && LocalKept(s.requests[id], uploads[id])
    ensures s.requests[id].worker.Importing? ==> s.requests[id].worker.run.committed == s.committed
    ensures Holds(s.requests[id].worker) ==> s.slots == 1
  {
    if Holds(s.requests[id].worker) { BusyCounts(s.requests, id); }
  }

  lemma StoredIsImportable(r: Request, u: Upload)
    requires LocalKept(r, u) && r.stored
    ensures Importable(u)
  {
    if r.worker.Importing? { CommittedIs(r.worker.run, r.worker.base, u, r.cancelled); }
  }

  /** Only importable uploads are ever committed. */
  lemma OnlyImportable(uploads: seq<Upload>, committed: Schema, schedule: seq<Action>, id: nat)
    requires LIVE in committed.tables && id < |uploads|
    requires id in Run(Start(uploads, committed), uploads, schedule).commits
    ensures Importable(uploads[id])
  {
    RunKeepsInv(uploads, committed, schedule);
    var s := Run(Start(uploads, committed), uploads, schedule);
    InvAt(s, uploads, committed.tables[LIVE], id);
    StoredIsImportable(s.requests[id], uploads[id]);
  }
}
