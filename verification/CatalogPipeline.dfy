/** `ParseCSV` and `Import` running side by side: a goroutine parses records and hands
    products over an unbuffered channel to the transaction that inserts them, then leaves its
    verdict in a channel of its own.

    The CSV reader is not part of this model. A `Csv` is what its reads return in one run: a
    header that can or cannot be read, a list of six-field records, and an end that is the end of
    the file or an error. The file is closed when its import has returned, and a read that comes
    too late fails; that error, too, is such an end. */
module CatalogPipeline {
  import opened GoStrings
  import opened Wrappers
  import opened CatalogStore

  // ---- Parsing ---------------------------------------------------------------------------------

  datatype Csv = Csv(headerError: Option<string>, records: seq<Record>, endError: Option<string>)

  type Record = r: seq<string> | |r| == 6 witness ["", "", "", "", "", ""]

  /** strings.Trim(s, "\"") */
  function TrimQuotes(s: string): string
    decreases |s|
  {
    if s == "" then s
    else if s[0] == '"' then TrimQuotes(s[1..])
    else if s[|s| - 1] == '"' then TrimQuotes(s[..|s| - 1])
    else s
  }

  /** cleanCSVField */
  function Clean(value: string): string {
    TrimQuotes(TrimSpace(value))
  }

  function ParseRecord(r: Record): Product {
    Product(Clean(r[0]), Clean(r[1]), Clean(r[2]), Clean(r[5]), Clean(r[3]), Clean(r[4]), true)
  }

  /** TrimQuotes takes off quotes only, and leaves none at either end. */
  lemma {:induction false} TrimQuotesCuts(s: string) returns (a: string, b: string)
    ensures s == a + TrimQuotes(s) + b
    ensures (forall c :: c in a ==> c == '"') && (forall c :: c in b ==> c == '"')
    ensures var t := TrimQuotes(s); t != "" ==> t[0] != '"' && t[|t| - 1] != '"'
    decreases |s|
  {
    a, b := "", "";
    if s != "" && s[0] == '"' {
      var rest;
      rest, b := TrimQuotesCuts(s[1..]);
      a := "\"" + rest;
      assert s == "\"" + s[1..];
    } else if s != "" && s[|s| - 1] == '"' {
      var rest;
      a, rest := TrimQuotesCuts(s[..|s| - 1]);
      b := rest + "\"";
      assert s == s[..|s| - 1] + "\"";
    }
  }

  /** A field loses the white space around it, and then the quotes around that. */
  lemma CleanCuts(value: string) returns (a: string, p: string, q: string, b: string)
    ensures value == a + (p + Clean(value) + q) + b
    ensures IsGap(a) && IsGap(b) && Trimmed(p + Clean(value) + q)
    ensures (forall c :: c in p ==> c == '"') && (forall c :: c in q ==> c == '"')
    ensures var t := Clean(value); t != "" ==> t[0] != '"' && t[|t| - 1] != '"'
  {
    a, b := TrimSpaceCuts(value);
    p, q := TrimQuotesCuts(TrimSpace(value));
  }

  /** All products the parser will ever hand over, in order. */
  function Parsed(csv: Csv): seq<Product> {
    if csv.headerError.Some? then [] else seq(|csv.records|, i requires 0 <= i < |csv.records| => ParseRecord(csv.records[i]))
  }

  /** What the parser says in the end: nothing, or the error it met. */
  function Verdict(csv: Csv): Option<string> {
    if csv.headerError.Some? then csv.headerError else csv.endError
  }

  // ---- The two goroutines ----------------------------------------------------------------------

  datatype Parser =
    | ReadingHeader
    | Reading(next: nat)
    | Sending(product: Product, next: nat)
    | PuttingVerdict(verdict: Option<string>)
    | ClosingErrs
    | ClosingOut
    | Exited

  datatype Importer =
    | Beginning
    | SettingUp(todo: seq<Statement>)
    | Preparing
    | Ranging
    | Inserting(product: Product)
    | AwaitingVerdict
    | Swapping(todo: seq<Statement>)
    | Committing
    | Returned(result: ImportResult)

  /** `errs` is the one-slot buffer of the verdict channel; `out` has no buffer. `received` is
      everything the range loop has taken so far. */
  datatype State = State(
    parser: Parser, errs: seq<Option<string>>, errsClosed: bool, outClosed: bool,
    importer: Importer, tx: Tx, imported: nat, received: seq<Product>, committed: Schema)

  function Start(committed: Schema, engine: Engine): State {
    State(ReadingHeader, [], false, false, Beginning, Tx(committed, engine), 0, [], committed)
  }

  /** Who moves: the parser, the importer, or both at once, handing over a product. */
  datatype Actor = Parse | Store | Handover

  /** The parser's next step; None if it has to wait or has nothing left to do. Its deferred
      calls run last in, first out: errs is closed before out. */
  function ParserStep(s: State, csv: Csv): Option<State> {
    match s.parser
    case ReadingHeader =>
      Some(s.(parser := if csv.headerError.Some? then PuttingVerdict(csv.headerError) else Reading(0)))
    case Reading(k) =>
      Some(s.(parser := if k < |csv.records| then Sending(ParseRecord(csv.records[k]), k + 1) else PuttingVerdict(csv.endError)))
    case Sending(_, _) => None
    case PuttingVerdict(v) =>
      if |s.errs| < 1 then Some(s.(parser := ClosingErrs, errs := s.errs + [v])) else None
    case ClosingErrs => Some(s.(parser := ClosingOut, errsClosed := true))
    case ClosingOut => Some(s.(parser := Exited, outClosed := true))
    case Exited => None
  }

  function Fail(s: State, e: ImportError): State {
    s.(importer := Returned(ImportResult(s.imported, Some(e))))
  }

  /** The importer executes one statement: on to `next`, or out with the error. */
  function Try(s: State, st: Statement, e: ImportError, next: Importer): State {
    var (ok, tx) := Exec(s.tx, st);
    if ok then s.(tx := tx, importer := next) else Fail(s.(tx := tx), e)
  }

  /** The importer's next step; None if it has to wait. A receive from a closed and empty errs
      would yield nil. */
  function ImporterStep(s: State): Option<State> {
    match s.importer
    case Beginning =>
      var (ok, engine) := NextCall(s.tx.engine);
      Some(if ok then s.(tx := Tx(s.committed, engine), importer := SettingUp(SETUP)) else Fail(s, BeginFailed))
    case SettingUp(todo) =>
      Some(if todo == [] then s.(importer := Preparing) else Try(s, todo[0], SetupFailed, SettingUp(todo[1..])))
    case Preparing =>
      Some(Try(s, PrepareInsert(NEXT), PrepareFailed, Ranging))
    case Ranging =>
      if s.outClosed then Some(s.(importer := AwaitingVerdict)) else None
    case Inserting(p) =>
      if p.barcode == "" then Some(s.(importer := Ranging))
      else
        var s1 := Try(s, InsertOrReplace(NEXT, p), InsertFailed(p.barcode), Ranging);
        Some(if s1.importer == Ranging then s1.(imported := s.imported + 1) else s1)
    case AwaitingVerdict =>
      if s.errs != [] then
        var s1 := s.(errs := s.errs[1..]);
        Some(if s.errs[0].Some? then Fail(s1, ParseFailed(s.errs[0].value)) else s1.(importer := Swapping(SWAP)))
      else if s.errsClosed then Some(s.(importer := Swapping(SWAP)))
      else None
    case Swapping(todo) =>
      Some(if todo == [] then s.(importer := Committing) else Try(s, todo[0], SwapFailed, Swapping(todo[1..])))
    case Committing =>
      Some(if NextCall(s.tx.engine).0
           then s.(committed := s.tx.working, importer := Returned(ImportResult(s.imported, None)))
           else Fail(s, CommitFailed))
    case Returned(_) => None
  }

  function HandoverStep(s: State): Option<State> {
    if s.parser.Sending? && s.importer.Ranging? then
      Some(s.(parser := Reading(s.parser.next), importer := Inserting(s.parser.product), received := s.received + [s.parser.product]))
    else None
  }

  function Step(s: State, csv: Csv, who: Actor): Option<State> {
    match who
    case Parse => ParserStep(s, csv)
    case Store => ImporterStep(s)
    case Handover => HandoverStep(s)
  }

  /** The state after a schedule, in which an actor that cannot move is passed over. */
  function Run(s: State, csv: Csv, schedule: seq<Actor>): State {
    if schedule == [] then s
    else
      var before := Run(s, csv, schedule[..|schedule| - 1]);
      var after := Step(before, csv, schedule[|schedule| - 1]);
      if after.Some? then after.value else before
  }

  // ---- The parser's side of the bargain ---------------------------------------------------------

  /** Where the channels stand, by how far the parser has come. */
  predicate ChannelsMatch(s: State, csv: Csv) {
    && s.outClosed == s.parser.Exited?
    && s.errsClosed == (s.parser.ClosingOut? || s.parser.Exited?)
    && (match s.parser
        case ReadingHeader => s.received == [] && s.errs == []
        case Reading(k) =>
          csv.headerError.None? && k <= |csv.records| && s.received == Parsed(csv)[..k] && s.errs == []
        case Sending(p, k) =>
          csv.headerError.None? && 0 < k <= |csv.records| && p == Parsed(csv)[k - 1] && s.received == Parsed(csv)[..k - 1] && s.errs == []
        case PuttingVerdict(v) => s.received == Parsed(csv) && v == Verdict(csv) && s.errs == []
        case _ =>
          && s.received == Parsed(csv)
          && (Past(s.importer) || s.errs == [Verdict(csv)]))
    && (Late(s.importer) ==> s.parser.Exited?)
    && (s.importer.Returned? && !GaveUp(s.importer) ==> s.parser.Exited?)
  }

  /** The failures that come before the range loop has ended. */
  predicate Early(e: ImportError) {
    e.BeginFailed? || e.SetupFailed? || e.PrepareFailed? || e.InsertFailed?
  }

  /** The import has returned without having ended its range loop. */
  predicate GaveUp(i: Importer) {
    i.Returned? && i.result.error.Some? && Early(i.result.error.value)
  }

  lemma ParserKeepsChannels(s: State, csv: Csv)
    requires ChannelsMatch(s, csv) && ParserStep(s, csv).Some?
    ensures ChannelsMatch(ParserStep(s, csv).value, csv)
  {
    if s.parser.Reading? && s.parser.next == |csv.records| {
      assert Parsed(csv)[..s.parser.next] == Parsed(csv);
    }
  }

  /** The importer is past reading the verdict, or gone. */
  predicate Past(i: Importer) {
    i.Swapping? || i.Committing? || i.Returned?
  }

  /** What the importer's move may do to the shared state: while it has not read the verdict it
      leaves the channels alone, unless that is the move. */
  predicate Moves(s: State, s': State) {
    && s' == s.(importer := s'.importer, tx := s'.tx, imported := s'.imported, committed := s'.committed, errs := s'.errs)
    && (s'.errs == s.errs || (s.importer.AwaitingVerdict? && Past(s'.importer)))
    && (s'.importer.AwaitingVerdict? ==> s.outClosed)
    && (s'.importer.Swapping? || s'.importer.Committing? ==> Late(s.importer))
    && (Past(s.importer) ==> Past(s'.importer))
    && (s'.importer.Returned? && !GaveUp(s'.importer) ==> Late(s.importer))
  }

  /** The importer has ended its range loop and has not returned. */
  predicate Late(i: Importer) {
    i.AwaitingVerdict? || i.Swapping? || i.Committing?
  }

  lemma EarlyMoves(s: State)
    requires ImporterStep(s).Some? && !Late(s.importer)
    ensures Moves(s, ImporterStep(s).value)
  {
  }

  lemma LateMoves(s: State)
    requires ImporterStep(s).Some? && Late(s.importer)
    ensures Moves(s, ImporterStep(s).value)
  {
  }

  lemma ImporterMoves(s: State)
    requires ImporterStep(s).Some?
    ensures Moves(s, ImporterStep(s).value)
  {
    if Late(s.importer) { LateMoves(s); } else { EarlyMoves(s); }
  }

  lemma ImporterKeepsChannels(s: State, csv: Csv)
    requires ChannelsMatch(s, csv) && ImporterStep(s).Some?
    ensures ChannelsMatch(ImporterStep(s).value, csv)
  {
    ImporterMoves(s);
  }

  lemma OneMore(all: seq<Product>, k: nat)
    requires 0 < k <= |all|
    ensures all[..k] == all[..k - 1] + [all[k - 1]]
    ensures all[k - 1..] == [all[k - 1]] + all[k..]
  {
  }

  lemma HandoverKeepsChannels(s: State, csv: Csv)
    requires ChannelsMatch(s, csv) && HandoverStep(s).Some?
    ensures ChannelsMatch(HandoverStep(s).value, csv)
  {
    OneMore(Parsed(csv), s.parser.next);
  }

  // ---- The importer's side -----------------------------------------------------------------------

  /** The import from its commit on. */
  function FromCommit(tx: Tx, n: nat, committed: Schema): (ImportResult, Schema) {
    if NextCall(tx.engine).0 then (ImportResult(n, None), tx.working)
    else (ImportResult(n, Some(CommitFailed)), committed)
  }

  function FromSwap(tx: Tx, todo: seq<Statement>, n: nat, committed: Schema): (ImportResult, Schema) {
    var (ok, tx1) := ExecAll(tx, todo);
    if ok then FromCommit(tx1, n, committed) else (ImportResult(n, Some(SwapFailed)), committed)
  }

  /** The import from the verdict on. */
  function FromVerdict(tx: Tx, n: nat, committed: Schema, verdict: Option<string>): (ImportResult, Schema) {
    if verdict.Some? then (ImportResult(n, Some(ParseFailed(verdict.value))), committed)
    else FromSwap(tx, SWAP, n, committed)
  }

  /** The import from the range loop on, with these products still to come. */
  function FromRange(tx: Tx, n: nat, committed: Schema, rest: seq<Product>, verdict: Option<string>): (ImportResult, Schema) {
    var (r, tx1) := InsertAll(tx, rest, n);
    if r.error.Some? then (r, committed) else FromVerdict(tx1, r.imported, committed, verdict)
  }

  function FromPrepare(tx: Tx, committed: Schema, rest: seq<Product>, verdict: Option<string>): (ImportResult, Schema) {
    var (ok, tx1) := Exec(tx, PrepareInsert(NEXT));
    if ok then FromRange(tx1, 0, committed, rest, verdict) else (ImportResult(0, Some(PrepareFailed)), committed)
  }

  function FromSetup(tx: Tx, todo: seq<Statement>, committed: Schema, rest: seq<Product>, verdict: Option<string>)
    : (ImportResult, Schema)
  {
    var (ok, tx1) := ExecAll(tx, todo);
    if ok then FromPrepare(tx1, committed, rest, verdict) else (ImportResult(0, Some(SetupFailed)), committed)
  }

  /** What the import will come to from here, once the rest of the products and the verdict
      have arrived. */
  function Outcome(at: Importer, tx: Tx, n: nat, committed: Schema, rest: seq<Product>, verdict: Option<string>)
    : (ImportResult, Schema)
  {
    match at
    case Beginning => Import(committed, tx.engine, rest, verdict)
    case SettingUp(todo) => FromSetup(tx, todo, committed, rest, verdict)
    case Preparing => FromPrepare(tx, committed, rest, verdict)
    case Ranging => FromRange(tx, n, committed, rest, verdict)
    case Inserting(p) => FromRange(tx, n, committed, [p] + rest, verdict)
    case AwaitingVerdict => FromVerdict(tx, n, committed, verdict)
    case Swapping(todo) => FromSwap(tx, todo, n, committed)
    case Committing => FromCommit(tx, n, committed)
    case Returned(r) => (r, committed)
  }

  /** The import is on its way to `goal`, and has shown nothing of it yet. */
  ghost predicate OnCourse(s: State, csv: Csv, goal: (ImportResult, Schema), original: Schema) {
    && |s.received| <= |Parsed(csv)|
    && Outcome(s.importer, s.tx, s.imported, s.committed, Parsed(csv)[|s.received|..], Verdict(csv)) == goal
    && (s.importer.Beginning? || s.importer.SettingUp? || s.importer.Preparing? ==> s.imported == 0)
    && (!s.importer.Returned? ==> s.committed == original)
  }

  /** A statement that goes through takes a list of statements one further. */
  lemma ExecAllUnfolds(tx: Tx, todo: seq<Statement>)
    requires todo != []
    ensures var (ok, tx1) := Exec(tx, todo[0]);
      && (ok ==> ExecAll(tx, todo) == ExecAll(tx1, todo[1..]))
      && (!ok ==> !ExecAll(tx, todo).0)
  {
  }

  lemma InsertUnfolds(tx: Tx, p: Product, rest: seq<Product>, n: nat)
    ensures p.barcode == "" ==> InsertAll(tx, [p] + rest, n) == InsertAll(tx, rest, n)
    ensures p.barcode != "" ==>
      var (ok, tx1) := Exec(tx, InsertOrReplace(NEXT, p));
      && (ok ==> InsertAll(tx, [p] + rest, n) == InsertAll(tx1, rest, n + 1))
      && (!ok ==> InsertAll(tx, [p] + rest, n).0 == ImportResult(n, Some(InsertFailed(p.barcode))))
  {
    assert ([p] + rest)[1..] == rest;
  }

  lemma BeginUnfolds(committed: Schema, engine: Engine, rest: seq<Product>, verdict: Option<string>)
    ensures NextCall(engine).0 ==>
      Import(committed, engine, rest, verdict) == FromSetup(Tx(committed, NextCall(engine).1), SETUP, committed, rest, verdict)
    ensures !NextCall(engine).0 ==> Import(committed, engine, rest, verdict) == (ImportResult(0, Some(BeginFailed)), committed)
  {
  }

  /** The importer's steps before the range loop, in it, and after it. */
  lemma BeginStaysOnCourse(s: State, csv: Csv, goal: (ImportResult, Schema), original: Schema)
    requires OnCourse(s, csv, goal, original) && s.importer.Beginning?
    ensures OnCourse(ImporterStep(s).value, csv, goal, original)
  {
    BeginUnfolds(s.committed, s.tx.engine, Parsed(csv)[|s.received|..], Verdict(csv));
  }

  lemma SetupStaysOnCourse(s: State, csv: Csv, goal: (ImportResult, Schema), original: Schema)
    requires OnCourse(s, csv, goal, original) && s.importer.SettingUp?
    ensures OnCourse(ImporterStep(s).value, csv, goal, original)
  {
    if s.importer.todo != [] { ExecAllUnfolds(s.tx, s.importer.todo); }
  }

  lemma PrepareStaysOnCourse(s: State, csv: Csv, goal: (ImportResult, Schema), original: Schema)
    requires OnCourse(s, csv, goal, original) && s.importer.Preparing?
    ensures OnCourse(ImporterStep(s).value, csv, goal, original)
  {
  }

  lemma RangeEndsOnCourse(s: State, csv: Csv, goal: (ImportResult, Schema), original: Schema)
    requires OnCourse(s, csv, goal, original) && ChannelsMatch(s, csv)
    requires s.importer.Ranging? && s.outClosed
    ensures OnCourse(ImporterStep(s).value, csv, goal, original)
  {
    assert Parsed(csv)[|s.received|..] == [];
  }

  lemma InsertOutcome(tx: Tx, n: nat, committed: Schema, p: Product, rest: seq<Product>, verdict: Option<string>)
    ensures var (ok, tx1) := Exec(tx, InsertOrReplace(NEXT, p));
      FromRange(tx, n, committed, [p] + rest, verdict) ==
      if p.barcode == "" then FromRange(tx, n, committed, rest, verdict)
      else if ok then FromRange(tx1, n + 1, committed, rest, verdict)
      else (ImportResult(n, Some(InsertFailed(p.barcode))), committed)
  {
    InsertUnfolds(tx, p, rest, n);
  }

  lemma InsertSameOutcome(s: State, rest: seq<Product>, verdict: Option<string>)
    requires s.importer.Inserting?
    ensures var s' := ImporterStep(s).value;
      && Outcome(s'.importer, s'.tx, s'.imported, s'.committed, rest, verdict)
      == Outcome(s.importer, s.tx, s.imported, s.committed, rest, verdict)
      && s'.received == s.received && s'.committed == s.committed
      && (s'.importer.Ranging? || s'.importer.Returned?)
  {
    var p := s.importer.product;
    InsertOutcome(s.tx, s.imported, s.committed, p, rest, verdict);
    if p.barcode != "" && !Exec(s.tx, InsertOrReplace(NEXT, p)).0 {
      assert ImporterStep(s).value.importer == Returned(ImportResult(s.imported, Some(InsertFailed(p.barcode))));
    }
  }

  lemma InsertStaysOnCourse(s: State, csv: Csv, goal: (ImportResult, Schema), original: Schema)
    requires OnCourse(s, csv, goal, original) && s.importer.Inserting?
    ensures OnCourse(ImporterStep(s).value, csv, goal, original)
  {
    InsertSameOutcome(s, Parsed(csv)[|s.received|..], Verdict(csv));
  }

  lemma VerdictStaysOnCourse(s: State, csv: Csv, goal: (ImportResult, Schema), original: Schema)
    requires OnCourse(s, csv, goal, original) && ChannelsMatch(s, csv)
    requires s.importer.AwaitingVerdict? && ImporterStep(s).Some?
    ensures OnCourse(ImporterStep(s).value, csv, goal, original)
  {
    assert s.errs == [Verdict(csv)];
  }

  lemma SwapStaysOnCourse(s: State, csv: Csv, goal: (ImportResult, Schema), original: Schema)
    requires OnCourse(s, csv, goal, original) && s.importer.Swapping?
    ensures OnCourse(ImporterStep(s).value, csv, goal, original)
  {
    if s.importer.todo != [] { ExecAllUnfolds(s.tx, s.importer.todo); }
  }

  lemma CommitStaysOnCourse(s: State, csv: Csv, goal: (ImportResult, Schema), original: Schema)
    requires OnCourse(s, csv, goal, original) && s.importer.Committing?
    ensures OnCourse(ImporterStep(s).value, csv, goal, original)
  {
  }

  lemma ImporterStaysOnCourse(s: State, csv: Csv, goal: (ImportResult, Schema), original: Schema)
    requires OnCourse(s, csv, goal, original) && ChannelsMatch(s, csv) && ImporterStep(s).Some?
    ensures OnCourse(ImporterStep(s).value, csv, goal, original)
  {
    match s.importer
    case Beginning => BeginStaysOnCourse(s, csv, goal, original);
    case SettingUp(_) => SetupStaysOnCourse(s, csv, goal, original);
    case Preparing => PrepareStaysOnCourse(s, csv, goal, original);
    case Ranging => RangeEndsOnCourse(s, csv, goal, original);
    case Inserting(_) => InsertStaysOnCourse(s, csv, goal, original);
    case AwaitingVerdict => VerdictStaysOnCourse(s, csv, goal, original);
    case Swapping(_) => SwapStaysOnCourse(s, csv, goal, original);
    case Committing => CommitStaysOnCourse(s, csv, goal, original);
    case Returned(_) =>
  }

  lemma HandoverStaysOnCourse(s: State, csv: Csv, goal: (ImportResult, Schema), original: Schema)
    requires OnCourse(s, csv, goal, original) && ChannelsMatch(s, csv) && HandoverStep(s).Some?
    ensures OnCourse(HandoverStep(s).value, csv, goal, original)
  {
    OneMore(Parsed(csv), s.parser.next);
  }

  ghost predicate Inv(s: State, csv: Csv, goal: (ImportResult, Schema), original: Schema) {
    ChannelsMatch(s, csv) && OnCourse(s, csv, goal, original)
  }

  lemma ParserKeepsInv(s: State, csv: Csv, goal: (ImportResult, Schema), original: Schema)
    requires Inv(s, csv, goal, original) && ParserStep(s, csv).Some?
    ensures Inv(ParserStep(s, csv).value, csv, goal, original)
  {
    ParserKeepsChannels(s, csv);
    ParserMoves(s, csv);
  }

  lemma ParserMoves(s: State, csv: Csv)
    requires ParserStep(s, csv).Some?
    ensures var s' := ParserStep(s, csv).value;
      s'.importer == s.importer && s'.tx == s.tx && s'.received == s.received && s'.imported == s.imported && s'.committed == s.committed
  {
  }

  lemma ImporterKeepsInv(s: State, csv: Csv, goal: (ImportResult, Schema), original: Schema)
    requires Inv(s, csv, goal, original) && ImporterStep(s).Some?
    ensures Inv(ImporterStep(s).value, csv, goal, original)
  {
    ImporterKeepsChannels(s, csv);
    ImporterStaysOnCourse(s, csv, goal, original);
  }

  lemma HandoverKeepsInv(s: State, csv: Csv, goal: (ImportResult, Schema), original: Schema)
    requires Inv(s, csv, goal, original) && HandoverStep(s).Some?
    ensures Inv(HandoverStep(s).value, csv, goal, original)
  {
    HandoverKeepsChannels(s, csv);
    HandoverStaysOnCourse(s, csv, goal, original);
  }

  lemma StepKeepsInv(s: State, csv: Csv, who: Actor, goal: (ImportResult, Schema), original: Schema)
    requires Inv(s, csv, goal, original) && Step(s, csv, who).Some?
    ensures Inv(Step(s, csv, who).value, csv, goal, original)
  {
    match who
    case Parse => ParserKeepsInv(s, csv, goal, original);
    case Store => ImporterKeepsInv(s, csv, goal, original);
    case Handover => HandoverKeepsInv(s, csv, goal, original);
  }

  lemma {:induction false} RunKeepsInv(committed: Schema, engine: Engine, csv: Csv, schedule: seq<Actor>)
    ensures Inv(Run(Start(committed, engine), csv, schedule), csv,
                Import(committed, engine, Parsed(csv), Verdict(csv)), committed)
  {
    var goal := Import(committed, engine, Parsed(csv), Verdict(csv));
    if schedule == [] {
      assert Parsed(csv)[0..] == Parsed(csv);
    } else {
      var n := |schedule| - 1;
      RunKeepsInv(committed, engine, csv, schedule[..n]);
      var before := Run(Start(committed, engine), csv, schedule[..n]);
      if Step(before, csv, schedule[n]).Some? { StepKeepsInv(before, csv, schedule[n], goal, committed); }
    }
  }

  // ---- When the context ends -----------------------------------------------------------------------

  /** The transaction when every further call fails, as all of them do on a context that has ended. */
  function Dead(tx: Tx): Tx {
    tx.(engine := Some(0))
  }

  function CutOff(s: State): State {
    s.(tx := Dead(s.tx))
  }

  lemma {:induction false} DeadInserts(tx: Tx, products: seq<Product>, n: nat)
    ensures var (r, tx1) := InsertAll(Dead(tx), products, n); r.error.Some? || tx1 == Dead(tx)
    decreases |products|
  {
    if products != [] && products[0].barcode == "" { DeadInserts(tx, products[1..], n); }
  }

  /** From the range loop on. */
  lemma DeadRange(tx: Tx, n: nat, committed: Schema, rest: seq<Product>, verdict: Option<string>)
    ensures var (r, after) := FromRange(Dead(tx), n, committed, rest, verdict); r.error.Some? && after == committed
  {
    DeadInserts(tx, rest, n);
    var (r, tx1) := InsertAll(Dead(tx), rest, n);
    if r.error.None? { DeadSwap(tx, SWAP, r.imported, committed); }
  }

  lemma DeadSwap(tx: Tx, todo: seq<Statement>, n: nat, committed: Schema)
    ensures var (r, after) := FromSwap(Dead(tx), todo, n, committed); r.error.Some? && after == committed
  {
  }

  lemma DeadSetup(tx: Tx, todo: seq<Statement>, committed: Schema, rest: seq<Product>, verdict: Option<string>)
    ensures var (r, after) := FromSetup(Dead(tx), todo, committed, rest, verdict); r.error.Some? && after == committed
  {
  }

  /** No import commits on a context that has ended: there is always one more call to make. */
  lemma DeadFails(at: Importer, tx: Tx, n: nat, committed: Schema, rest: seq<Product>, verdict: Option<string>)
    requires !at.Returned?
    ensures var (r, after) := Outcome(at, Dead(tx), n, committed, rest, verdict); r.error.Some? && after == committed
  {
    match at
    case SettingUp(todo) => DeadSetup(tx, todo, committed, rest, verdict);
    case Ranging => DeadRange(tx, n, committed, rest, verdict);
    case Inserting(p) => DeadRange(tx, n, committed, [p] + rest, verdict);
    case AwaitingVerdict => DeadSwap(tx, SWAP, n, committed);
    case Swapping(todo) => DeadSwap(tx, todo, n, committed);
    case _ =>
  }

  /** An import that has not returned when its context ends is bound to fail, and to change nothing. */
  lemma CutOffFails(s: State, csv: Csv, goal: (ImportResult, Schema), original: Schema) returns (result: ImportResult)
    requires Inv(s, csv, goal, original) && !s.importer.Returned?
    ensures Inv(CutOff(s), csv, (result, original), original) && result.error.Some?
  {
    var rest := Parsed(csv)[|s.received|..];
    DeadFails(s.importer, s.tx, s.imported, s.committed, rest, Verdict(csv));
    result := Outcome(s.importer, Dead(s.tx), s.imported, s.committed, rest, Verdict(csv)).0;
  }

  lemma CutOffAfterReturn(s: State, csv: Csv, goal: (ImportResult, Schema), original: Schema)
    requires Inv(s, csv, goal, original) && s.importer.Returned?
    ensures Inv(CutOff(s), csv, goal, original)
  {
  }

  // ---- What the two achieve together --------------------------------------------------------------

  /** However the two goroutines interleave: once Import returns, its result and the database are
      those of an import of exactly the parsed products with the parser's verdict, one after the
      other; and until then nobody sees anything but the old database. */
  lemma PipelineIsImport(committed: Schema, engine: Engine, csv: Csv, schedule: seq<Actor>)
    ensures var s := Run(Start(committed, engine), csv, schedule);
      if s.importer.Returned? then (s.importer.result, s.committed) == Import(committed, engine, Parsed(csv), Verdict(csv))
      else s.committed == committed
  {
    RunKeepsInv(committed, engine, csv, schedule);
  }

  /** Products arrive in order, none twice and none left out; when the range loop has ended all
      of them have arrived and the real verdict lies ready, so the import neither blocks on it
      nor takes a closed channel for success; and an import that succeeds had every record. */
  lemma ProductsArriveInOrder(committed: Schema, engine: Engine, csv: Csv, schedule: seq<Actor>)
    ensures var s := Run(Start(committed, engine), csv, schedule);
      && s.received <= Parsed(csv)
      && (s.importer.AwaitingVerdict? ==> s.received == Parsed(csv) && s.errs == [Verdict(csv)])
      && (s.importer.Returned? && s.importer.result.error.None? ==>
          s.received == Parsed(csv) && csv.headerError.None? && csv.endError.None?)
  {
    var s := Run(Start(committed, engine), csv, schedule);
    RunKeepsInv(committed, engine, csv, schedule);
    ReceivedInOrder(s, csv);
    if s.importer.Returned? && s.importer.result.error.None? {
      PipelineIsImport(committed, engine, csv, schedule);
      SuccessNeedsVerdict(committed, engine, Parsed(csv), Verdict(csv));
    }
  }

  /** Record i is the last one whose second field is the barcode b. */
  predicate LastRecord(records: seq<Record>, b: string, i: nat) {
    i < |records| && Clean(records[i][1]) == b && forall j :: i < j < |records| ==> Clean(records[j][1]) != b
  }

  lemma ParsedRecords(csv: Csv, b: string)
    requires csv.headerError.None?
    ensures |Parsed(csv)| == |csv.records|
    ensures forall i: nat :: LastWith(Parsed(csv), b, i) <==> LastRecord(csv.records, b, i)
    ensures forall i {:trigger Parsed(csv)[i]} :: 0 <= i < |csv.records| ==> (
      var r, p := csv.records[i], Parsed(csv)[i];
      && p.name == Clean(r[0]) && p.barcode == Clean(r[1]) && p.price == Clean(r[2])
      && p.unit == Clean(r[3]) && p.coef == Clean(r[4]) && p.stock == Clean(r[5]) && p.valid)
  {
    hide Clean;
    var p := Parsed(csv);
    assert forall i :: 0 <= i < |p| ==> p[i].barcode == Clean(csv.records[i][1]);
  }

  /** From the file to the table: when an import has succeeded, in whatever interleaving, all of the
      file was read without an error; the catalogue has exactly the barcodes that occur in it, each
      with the cleaned fields of its last record; and the count is that of the records with one. */
  lemma RecordsReachCatalogue(committed: Schema, engine: Engine, csv: Csv, schedule: seq<Actor>, b: string)
    requires LIVE in committed.tables
    requires var s := Run(Start(committed, engine), csv, schedule);
      s.importer.Returned? && s.importer.result.error.None?
    ensures csv.headerError.None? && csv.endError.None?
    ensures var s := Run(Start(committed, engine), csv, schedule);
      && s.importer.result.imported == |set i | 0 <= i < |csv.records| && Clean(csv.records[i][1]) != ""|
      && "products" in s.committed.tables
      && var table := s.committed.tables["products"];
      && (b in table <==> b != "" && exists i: nat :: LastRecord(csv.records, b, i))
      && (forall i: nat :: b != "" && LastRecord(csv.records, b, i) ==> (
          var r := csv.records[i];
          table[b] == Row(name := Clean(r[0]), price := Clean(r[2]), stock := Clean(r[5]), unit := Clean(r[3]), coef := Clean(r[4]))))
  {
    hide Clean, ParseRecord, Import, Catalogue;
    PipelineIsImport(committed, engine, csv, schedule);
    ProductsArriveInOrder(committed, engine, csv, schedule);
    ImportReplacesOrKeeps(committed, engine, Parsed(csv), Verdict(csv));
    CatalogueIsLastWins(Parsed(csv), b);
    ParsedRecords(csv, b);
    WithBarcodeCounts(Parsed(csv));
    assert (set i | 0 <= i < |Parsed(csv)| && Parsed(csv)[i].barcode != "")
        == (set i | 0 <= i < |csv.records| && Clean(csv.records[i][1]) != "");
  }

  /** On a database that does not fail, an import fails exactly for a file that cannot be read to its
      end, and hands on the first error met. */
  lemma BadFilesAreReported(committed: Schema, csv: Csv, schedule: seq<Actor>)
    requires LIVE in committed.tables
    ensures var s := Run(Start(committed, None), csv, schedule);
      s.importer.Returned? ==> (
        var error := s.importer.result.error;
        if csv.headerError.Some? then error == Some(ParseFailed(csv.headerError.value))
        else if csv.endError.Some? then error == Some(ParseFailed(csv.endError.value))
        else error == None)
  {
    hide Parsed, Import;
    PipelineIsImport(committed, None, csv, schedule);
    ImportReplacesOrKeeps(committed, None, Parsed(csv), Verdict(csv));
    if Verdict(csv).Some? { ImportFailsWhere(committed, None, Parsed(csv), Verdict(csv)); }
  }

  lemma ReceivedInOrder(s: State, csv: Csv)
    requires ChannelsMatch(s, csv)
    ensures s.received <= Parsed(csv)
    ensures s.importer.AwaitingVerdict? ==> s.received == Parsed(csv) && s.errs == [Verdict(csv)]
    ensures s.importer.Returned? && s.importer.result.error.None? ==> s.received == Parsed(csv)
  {
  }

  lemma SuccessNeedsVerdict(committed: Schema, engine: Engine, products: seq<Product>, verdict: Option<string>)
    requires Import(committed, engine, products, verdict).0.error.None?
    ensures verdict.None?
  {
  }

  predicate CanMove(s: State, csv: Csv) {
    Step(s, csv, Parse).Some? || Step(s, csv, Store).Some? || Step(s, csv, Handover).Some?
  }

  lemma SomebodyCanMove(s: State, csv: Csv)
    requires ChannelsMatch(s, csv)
    ensures s.importer.Returned? || CanMove(s, csv)
  {
  }

  /** The import never deadlocks: until it has returned, somebody can move. */
  lemma NoDeadlock(committed: Schema, engine: Engine, csv: Csv, schedule: seq<Actor>)
    ensures var s := Run(Start(committed, engine), csv, schedule);
      s.importer.Returned? || CanMove(s, csv)
  {
    RunKeepsInv(committed, engine, csv, schedule);
    SomebodyCanMove(Run(Start(committed, engine), csv, schedule), csv);
  }

  // ---- It ends ---------------------------------------------------------------------------------------

  function ParserSteps(p: Parser, n: nat): int {
    match p
    case ReadingHeader => 2 * n + 5
    case Reading(k) => 2 * (n - k) + 4
    case Sending(_, k) => 2 * (n - k) + 5
    case PuttingVerdict(_) => 3
    case ClosingErrs => 2
    case ClosingOut => 1
    case Exited => 0
  }

  function ImporterSteps(i: Importer): int {
    match i
    case Beginning => 20
    case SettingUp(todo) => 14 + |todo|
    case Preparing => 13
    case Inserting(_) => 11
    case Ranging => 10
    case AwaitingVerdict => 9
    case Swapping(todo) => 2 + |todo|
    case Committing => 1
    case Returned(_) => 0
  }

  /** How many steps are left at most. */
  function Left(s: State, csv: Csv): int {
    2 * ParserSteps(s.parser, |csv.records|) + ImporterSteps(s.importer)
  }

  lemma ParserRunsOut(s: State, csv: Csv)
    requires ChannelsMatch(s, csv) && ParserStep(s, csv).Some?
    ensures var s' := ParserStep(s, csv).value;
      ParserSteps(s'.parser, |csv.records|) < ParserSteps(s.parser, |csv.records|) && s'.importer == s.importer
  {
  }

  lemma EarlyStepsRunOut(s: State)
    requires s.importer.Beginning? || s.importer.SettingUp? || s.importer.Preparing? || s.importer.Inserting?
    ensures ImporterStep(s).Some?
    ensures var s' := ImporterStep(s).value;
      ImporterSteps(s'.importer) < ImporterSteps(s.importer) && s'.parser == s.parser
  {
  }

  lemma LateStepsRunOut(s: State)
    requires ImporterStep(s).Some?
    requires s.importer.Ranging? || s.importer.AwaitingVerdict? || s.importer.Swapping? || s.importer.Committing?
    ensures var s' := ImporterStep(s).value;
      ImporterSteps(s'.importer) < ImporterSteps(s.importer) && s'.parser == s.parser
  {
  }

  lemma ImporterRunsOut(s: State)
    requires ImporterStep(s).Some?
    ensures var s' := ImporterStep(s).value;
      ImporterSteps(s'.importer) < ImporterSteps(s.importer) && s'.parser == s.parser
  {
    if s.importer.Ranging? || s.importer.AwaitingVerdict? || s.importer.Swapping? || s.importer.Committing? {
      LateStepsRunOut(s);
    } else {
      EarlyStepsRunOut(s);
    }
  }

  lemma HandoverRunsOut(s: State, csv: Csv)
    requires HandoverStep(s).Some?
    ensures var s' := HandoverStep(s).value;
      && ParserSteps(s'.parser, |csv.records|) == ParserSteps(s.parser, |csv.records|) - 1
      && ImporterSteps(s'.importer) == ImporterSteps(s.importer) + 1
  {
  }

  lemma LeftIsNatural(s: State, csv: Csv)
    requires ChannelsMatch(s, csv)
    ensures Left(s, csv) >= 0
  {
  }

  /** Every step uses one up. */
  lemma StepsRunOut(s: State, csv: Csv, who: Actor)
    requires ChannelsMatch(s, csv) && Step(s, csv, who).Some?
    ensures Left(Step(s, csv, who).value, csv) < Left(s, csv)
  {
    match who
    case Parse => ParserRunsOut(s, csv);
    case Store => ImporterRunsOut(s);
    case Handover => HandoverRunsOut(s, csv);
  }

  lemma StepKeepsChannels(s: State, csv: Csv, who: Actor)
    requires ChannelsMatch(s, csv) && Step(s, csv, who).Some?
    ensures ChannelsMatch(Step(s, csv, who).value, csv)
  {
    match who
    case Parse => ParserKeepsChannels(s, csv);
    case Store => ImporterKeepsChannels(s, csv);
    case Handover => HandoverKeepsChannels(s, csv);
  }

  function Move(s: State, csv: Csv, who: Actor): State {
    var after := Step(s, csv, who);
    if after.Some? then after.value else s
  }

  lemma MoveUsesStep(s: State, csv: Csv, who: Actor)
    requires ChannelsMatch(s, csv)
    ensures ChannelsMatch(Move(s, csv, who), csv)
    ensures if Step(s, csv, who).Some? then Left(Move(s, csv, who), csv) < Left(s, csv) else Move(s, csv, who) == s
  {
    if Step(s, csv, who).Some? {
      StepsRunOut(s, csv, who);
      StepKeepsChannels(s, csv, who);
    }
  }
}
