/** How a run of the pipeline ends: every fair schedule brings the import to its end, and decides
    whether the parser is left behind. */
module PipelineFairness {
  import opened Wrappers
  import opened CatalogStore
  import opened CatalogPipeline

  // ---- Every fair schedule ends it -----------------------------------------------------------------

  /** How often everyone has had a turn, and who has had one more since. */
  datatype Count = Count(turns: nat, parse: bool, store: bool, handover: bool) {
    predicate Has(who: Actor) {
      match who
      case Parse => parse
      case Store => store
      case Handover => handover
    }
  }

  function NextTurn(c: Count, who: Actor): Count {
    var more := Count(c.turns, c.parse || who.Parse?, c.store || who.Store?, c.handover || who.Handover?);
    if more.parse && more.store && more.handover then Count(c.turns + 1, false, false, false) else more
  }

  function Turns(schedule: seq<Actor>): Count {
    if schedule == [] then Count(0, false, false, false) else NextTurn(Turns(schedule[..|schedule| - 1]), schedule[|schedule| - 1])
  }

  /** Since n turns of everyone ago, n steps have been used up, and if not more, then whoever has
      been seen since could not move. */
  ghost predicate UsedUp(s0: State, s: State, csv: Csv, c: Count) {
    && ChannelsMatch(s, csv)
    && (CanMove(s, csv) ==>
        && Left(s, csv) <= Left(s0, csv) - c.turns
        && (Left(s, csv) == Left(s0, csv) - c.turns ==> forall who :: c.Has(who) ==> Step(s, csv, who).None?))
  }

  lemma MoveUsesUp(s0: State, s: State, csv: Csv, c: Count, who: Actor)
    requires UsedUp(s0, s, csv, c)
    ensures UsedUp(s0, Move(s, csv, who), csv, NextTurn(c, who))
  {
    hide ChannelsMatch, Step, Left;
    MoveUsesStep(s, csv, who);
    if CanMove(s, csv) && Step(s, csv, who).None? {
      assert Step(s, csv, Parse).Some? || Step(s, csv, Store).Some? || Step(s, csv, Handover).Some?;
    }
  }

  lemma NothingUsedYet(s0: State, csv: Csv)
    requires ChannelsMatch(s0, csv)
    ensures UsedUp(s0, s0, csv, Count(0, false, false, false))
  {
  }

  lemma {:induction false} RunUsesUp(s0: State, csv: Csv, schedule: seq<Actor>)
    requires ChannelsMatch(s0, csv)
    ensures UsedUp(s0, Run(s0, csv, schedule), csv, Turns(schedule))
  {
    if schedule == [] {
      NothingUsedYet(s0, csv);
    } else {
      var n := |schedule| - 1;
      RunUsesUp(s0, csv, schedule[..n]);
      MoveUsesUp(s0, Run(s0, csv, schedule[..n]), csv, Turns(schedule[..n]), schedule[n]);
    }
  }

  /** More turns than there can be steps. */
  predicate Fair(schedule: seq<Actor>, csv: Csv) {
    Turns(schedule).turns > 4 * |csv.records| + 30
  }

  /** Under every schedule that gives everyone enough turns, the import has returned in the end,
      and nothing moves any more. */
  lemma ImportReturns(committed: Schema, engine: Engine, csv: Csv, schedule: seq<Actor>)
    requires Fair(schedule, csv)
    ensures var s := Run(Start(committed, engine), csv, schedule);
      s.importer.Returned? && !CanMove(s, csv)
  {
    var s0 := Start(committed, engine);
    RunKeepsInv(committed, engine, csv, []);
    RunUsesUp(s0, csv, schedule);
    var s := Run(s0, csv, schedule);
    LeftIsNatural(s, csv);
    assert Left(s0, csv) == 4 * |csv.records| + 30;
    SomebodyCanMove(s, csv);
  }

  // ---- Who is left behind --------------------------------------------------------------------------

  /** The calls that have gone through when the importer has inserted these products. */
  function Calls(products: seq<Product>): nat {
    4 + |WithBarcode(products)|
  }

  predicate At(tx: Tx, engine: Engine, calls: nat) {
    Up(engine, calls) && tx.engine == Later(engine, calls)
  }

  /** Up to the end of the range loop no statement is refused: only the engine can stop it, and
      this is how far it has come. */
  ghost predicate Counted(s: State, engine: Engine) {
    CountedAt(s.importer, s.tx, s.received, engine)
  }

  ghost predicate CountedAt(i: Importer, tx: Tx, got: seq<Product>, engine: Engine) {
    match i
    case Beginning => got == [] && tx.engine == engine
    case SettingUp(todo) =>
      && got == []
      && (|| (todo == SETUP && At(tx, engine, 1))
          || (todo == SETUP[1..] && At(tx, engine, 2) && NEXT !in tx.working.tables)
          || (todo == [] && At(tx, engine, 3) && NEXT in tx.working.tables))
    case Preparing => got == [] && At(tx, engine, 3) && NEXT in tx.working.tables
    case Ranging => At(tx, engine, Calls(got)) && NEXT in tx.working.tables
    case Inserting(p) =>
      && got != [] && p == got[|got| - 1]
      && At(tx, engine, Calls(got[..|got| - 1])) && NEXT in tx.working.tables
    case Returned(r) =>
      if GaveUp(i) then
        !Up(engine, Calls(got)) && (got != [] ==> Up(engine, Calls(got[..|got| - 1])))
      else Up(engine, Calls(got))
    case _ => Up(engine, Calls(got))
  }

  lemma BeginIsCounted(s: State, engine: Engine)
    requires Counted(s, engine) && s.importer.Beginning?
    ensures Counted(ImporterStep(s).value, engine)
  {
    assert WithBarcode([]) == [];
  }

  /** A statement that SQL accepts takes one call. */
  lemma StatementTakesACall(tx: Tx, st: Statement, engine: Engine, calls: nat)
    requires At(tx, engine, calls) && Execute(tx.working, st).Some?
    ensures var (ok, tx1) := Exec(tx, st);
      && (ok <==> Up(engine, calls + 1))
      && (ok ==> At(tx1, engine, calls + 1) && tx1.working == Execute(tx.working, st).value)
  {
  }

  lemma DropIsCounted(s: State, engine: Engine)
    requires Counted(s, engine) && s.importer == SettingUp(SETUP)
    ensures Counted(ImporterStep(s).value, engine)
  {
    StatementTakesACall(s.tx, SETUP[0], engine, 1);
    assert WithBarcode([]) == [];
  }

  lemma CreateIsCounted(s: State, engine: Engine)
    requires Counted(s, engine) && s.importer == SettingUp(SETUP[1..])
    ensures Counted(ImporterStep(s).value, engine)
  {
    assert SETUP[1..] == [CreateTable(NEXT)] && SETUP[1..][1..] == [];
    StatementTakesACall(s.tx, CreateTable(NEXT), engine, 2);
    assert WithBarcode([]) == [];
  }

  lemma PrepareIsCounted(s: State, engine: Engine)
    requires Counted(s, engine) && (s.importer == SettingUp([]) || s.importer.Preparing?)
    ensures Counted(ImporterStep(s).value, engine)
  {
    if s.importer.Preparing? { StatementTakesACall(s.tx, PrepareInsert(NEXT), engine, 3); }
    assert WithBarcode([]) == [];
  }

  lemma SetupIsCounted(s: State, engine: Engine)
    requires Counted(s, engine) && (s.importer.SettingUp? || s.importer.Preparing?)
    ensures Counted(ImporterStep(s).value, engine)
  {
    if s.importer == SettingUp(SETUP) { DropIsCounted(s, engine); }
    else if s.importer == SettingUp(SETUP[1..]) { CreateIsCounted(s, engine); }
    else { PrepareIsCounted(s, engine); }
  }

  lemma InsertIsCounted(s: State, engine: Engine)
    requires Counted(s, engine) && s.importer.Inserting?
    ensures Counted(ImporterStep(s).value, engine)
  {
    var n, p := |s.received| - 1, s.importer.product;
    assert s.received == s.received[..n] + [p];
    WithBarcodeAppend(s.received[..n], p);
    if p.barcode == "" {
      assert Calls(s.received) == Calls(s.received[..n]);
    } else {
      StatementTakesACall(s.tx, InsertOrReplace(NEXT, p), engine, Calls(s.received[..n]));
      InsertStepIs(s);
    }
  }

  lemma InsertStepIs(s: State)
    requires s.importer.Inserting? && s.importer.product.barcode != ""
    ensures var p := s.importer.product;
      var (ok, tx1) := Exec(s.tx, InsertOrReplace(NEXT, p));
      ImporterStep(s).value == if ok then s.(tx := tx1, importer := Ranging, imported := s.imported + 1)
        else s.(tx := tx1, importer := Returned(ImportResult(s.imported, Some(InsertFailed(p.barcode)))))
  {
  }

  lemma RangeEndIsCounted(s: State, engine: Engine)
    requires Counted(s, engine) && ImporterStep(s).Some? && (s.importer.Ranging? || s.importer.AwaitingVerdict?)
    ensures Counted(ImporterStep(s).value, engine)
  {
  }

  lemma SwapIsCounted(s: State, engine: Engine)
    requires Counted(s, engine) && (s.importer.Swapping? || s.importer.Committing?)
    ensures Counted(ImporterStep(s).value, engine)
  {
  }

  lemma HandoverIsCounted(s: State, engine: Engine)
    requires Counted(s, engine) && HandoverStep(s).Some?
    ensures Counted(HandoverStep(s).value, engine)
  {
    assert (s.received + [s.parser.product])[..|s.received|] == s.received;
  }

  lemma StepIsCounted(s: State, csv: Csv, engine: Engine, who: Actor)
    requires Counted(s, engine) && Step(s, csv, who).Some?
    ensures Counted(Step(s, csv, who).value, engine)
  {
    match who
    case Parse => ParserMoves(s, csv);
    case Handover => HandoverIsCounted(s, engine);
    case Store =>
      if s.importer.Inserting? { InsertIsCounted(s, engine); }
      else if s.importer.Beginning? { BeginIsCounted(s, engine); }
      else if s.importer.SettingUp? || s.importer.Preparing? { SetupIsCounted(s, engine); }
      else if s.importer.Swapping? || s.importer.Committing? { SwapIsCounted(s, engine); }
      else { RangeEndIsCounted(s, engine); }
  }

  lemma {:induction false} RunIsCounted(committed: Schema, engine: Engine, csv: Csv, schedule: seq<Actor>)
    ensures Counted(Run(Start(committed, engine), csv, schedule), engine)
  {
    if schedule != [] {
      var n := |schedule| - 1;
      RunIsCounted(committed, engine, csv, schedule[..n]);
      var before := Run(Start(committed, engine), csv, schedule[..n]);
      if Step(before, csv, schedule[n]).Some? { StepIsCounted(before, csv, engine, schedule[n]); }
    }
  }

  /** The engine fails before the import can ask for the last product. */
  predicate FailsBeforeLast(csv: Csv, engine: Engine) {
    var p := Parsed(csv);
    p != [] && !Up(engine, Calls(p[..|p| - 1]))
  }

  lemma {:induction false} WithBarcodeGrows(a: seq<Product>, b: seq<Product>)
    requires a <= b
    ensures |WithBarcode(a)| <= |WithBarcode(b)|
  {
    if a != [] { WithBarcodeGrows(a[1..], b[1..]); }
  }

  /** Where things stand when nothing moves any more. */
  lemma NothingMoves(s: State, csv: Csv)
    requires ChannelsMatch(s, csv) && !CanMove(s, csv)
    ensures s.importer.Returned? && (s.parser.Sending? || s.parser.Exited?)
    ensures s.parser.Exited? ==> s.received == Parsed(csv)
    ensures s.parser.Sending? ==>
      GaveUp(s.importer) && |s.received| < |Parsed(csv)| && s.received == Parsed(csv)[..|s.received|]
  {
    SomebodyCanMove(s, csv);
  }

  lemma ReturnedIsCounted(s: State, engine: Engine)
    requires Counted(s, engine) && s.importer.Returned?
    ensures GaveUp(s.importer) ==> !Up(engine, Calls(s.received))
    ensures s.received != [] ==> Up(engine, Calls(s.received[..|s.received| - 1]))
  {
    var got := s.received;
    if got != [] { WithBarcodeGrows(got[..|got| - 1], got); }
  }

  /** When nothing moves any more the parser has either exited or is blocked for good on a product
      that nobody will take: the latter exactly if the engine failed before the import could ask
      for the last product, whatever the database held and however the two were scheduled. */
  lemma ParserLeftBlocked(committed: Schema, engine: Engine, csv: Csv, schedule: seq<Actor>)
    requires !CanMove(Run(Start(committed, engine), csv, schedule), csv)
    ensures var s := Run(Start(committed, engine), csv, schedule);
      && s.importer.Returned?
      && (if FailsBeforeLast(csv, engine) then s.parser.Sending? else s.parser.Exited?)
  {
    RunKeepsInv(committed, engine, csv, schedule);
    RunIsCounted(committed, engine, csv, schedule);
    StandstillDecides(Run(Start(committed, engine), csv, schedule), csv, engine);
  }

  lemma StandstillDecides(s: State, csv: Csv, engine: Engine)
    requires ChannelsMatch(s, csv) && Counted(s, engine) && !CanMove(s, csv)
    ensures s.importer.Returned?
    ensures if FailsBeforeLast(csv, engine) then s.parser.Sending? else s.parser.Exited?
  {
    NothingMoves(s, csv);
    ReturnedIsCounted(s, engine);
    LeftoverDecides(s.parser.Sending?, s.received, Parsed(csv), engine);
  }

  lemma LeftoverDecides(sending: bool, got: seq<Product>, p: seq<Product>, engine: Engine)
    requires sending ==> |got| < |p| && got == p[..|got|] && !Up(engine, Calls(got))
    requires !sending ==> got == p && (got != [] ==> Up(engine, Calls(got[..|got| - 1])))
    ensures sending <==> p != [] && !Up(engine, Calls(p[..|p| - 1]))
  {
    if sending {
      assert got <= p[..|p| - 1];
      WithBarcodeGrows(got, p[..|p| - 1]);
    }
  }

  /** So every fair run of such an import leaves its parser blocked, and every other fair run
      does not. */
  lemma FairRunsDecide(committed: Schema, engine: Engine, csv: Csv, schedule: seq<Actor>)
    requires Fair(schedule, csv)
    ensures Run(Start(committed, engine), csv, schedule).parser.Sending? <==> FailsBeforeLast(csv, engine)
  {
    ImportReturns(committed, engine, csv, schedule);
    ParserLeftBlocked(committed, engine, csv, schedule);
  }

  /** Fair schedules exist: everyone in turn, n times. */
  function Rounds(n: nat): seq<Actor> {
    if n == 0 then [] else Rounds(n - 1) + [Parse] + [Store] + [Handover]
  }

  lemma TurnsLast(schedule: seq<Actor>, who: Actor)
    ensures Turns(schedule + [who]) == NextTurn(Turns(schedule), who)
  {
    assert (schedule + [who])[..|schedule|] == schedule;
  }

  lemma RoundIsTurn(schedule: seq<Actor>, n: nat)
    requires Turns(schedule) == Count(n, false, false, false)
    ensures Turns(schedule + [Parse] + [Store] + [Handover]) == Count(n + 1, false, false, false)
  {
    hide Turns;
    TurnsLast(schedule, Parse);
    TurnsLast(schedule + [Parse], Store);
    TurnsLast(schedule + [Parse] + [Store], Handover);
  }

  lemma {:induction false} RoundsAreTurns(n: nat)
    ensures Turns(Rounds(n)) == Count(n, false, false, false)
  {
    if n > 0 {
      RoundsAreTurns(n - 1);
      RoundIsTurn(Rounds(n - 1), n - 1);
    }
  }
}
