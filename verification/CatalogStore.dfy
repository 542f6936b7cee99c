/** The catalogue database: the SQL that `TursoStore` uses, `ensureSchema`, `Lookup` and
    `Import`.

    The database engine is not part of this model. A statement either does what SQL says of
    it, on the transaction's own copy of the schema, or fails and does nothing; a commit
    either installs the copy or does nothing. An import stops at its first failing call, so all that
    matters of the engine is after how many calls that comes, if ever: statements about
    every `Engine` are about every failure. */
module CatalogStore {
  import opened Wrappers

  datatype Product = Product(
    name: string, barcode: string, price: string, stock: string, unit: string, coef: string, valid: bool)

  datatype Row = Row(name: string, price: string, stock: string, unit: string, coef: string)

  type Table = map<string, Row>

  /** Tables by name, and for every index the name of the table it is attached to. */
  datatype Schema = Schema(tables: map<string, Table>, indexes: map<string, string>)

  datatype Statement =
    | CreateTableIfMissing(table: string)
    | CreateTable(table: string)
    | DropTableIfExists(table: string)
    | DropTable(table: string)
    | PrepareInsert(table: string)
    | InsertOrReplace(table: string, product: Product)
    | CreateIndexIfMissing(index: string, table: string)
    | RenameTable(table: string, target: string)

  function RowOf(p: Product): Row {
    Row(p.name, p.price, p.stock, p.unit, p.coef)
  }

  /** A table goes, and its indexes with it. */
  function WithoutTable(s: Schema, table: string): Schema {
    Schema(s.tables - {table}, map x | x in s.indexes && s.indexes[x] != table :: s.indexes[x])
  }

  /** The indexes of table t are now indexes of table u. */
  function Reattached(indexes: map<string, string>, t: string, u: string): map<string, string> {
    map x | x in indexes :: if indexes[x] == t then u else indexes[x]
  }

  /** What a statement does to a schema; None where SQL refuses it. Indexes follow their table
      through a rename. */
  function Execute(s: Schema, st: Statement): Option<Schema> {
    match st
    case CreateTableIfMissing(t) =>
      if t in s.tables then Some(s) else Some(s.(tables := s.tables[t := map[]]))
    case CreateTable(t) =>
      if t in s.tables then None else Some(s.(tables := s.tables[t := map[]]))
    case DropTableIfExists(t) =>
      Some(WithoutTable(s, t))
    case DropTable(t) =>
      if t !in s.tables then None else Some(WithoutTable(s, t))
    case PrepareInsert(t) =>
      if t !in s.tables then None else Some(s)
    case InsertOrReplace(t, p) =>
      if t !in s.tables then None else Some(s.(tables := s.tables[t := s.tables[t][p.barcode := RowOf(p)]]))
    case CreateIndexIfMissing(x, t) =>
      if x in s.indexes then Some(s)
      else if t !in s.tables then None
      else Some(s.(indexes := s.indexes[x := t]))
    case RenameTable(t, u) =>
      if t !in s.tables || u in s.tables then None
      else Some(Schema((s.tables - {t})[u := s.tables[t]], Reattached(s.indexes, t, u)))
  }

  /** The number of calls that will go through before one fails; None if none ever does. */
  type Engine = Option<nat>

  /** The result of the next call, and the engine after it. */
  function NextCall(engine: Engine): (bool, Engine) {
    if engine.None? then (true, None)
    else if engine.value == 0 then (false, engine)
    else (true, Some(engine.value - 1))
  }

  /** A transaction: its private schema, and the engine it runs on. */
  datatype Tx = Tx(working: Schema, engine: Engine)

  function Exec(tx: Tx, st: Statement): (r: (bool, Tx)) {
    var (up, rest) := NextCall(tx.engine);
    var after := Execute(tx.working, st);
    if up && after.Some? then (true, Tx(after.value, rest)) else (false, tx.(engine := rest))
  }

  function ExecAll(tx: Tx, sts: seq<Statement>): (bool, Tx)
    decreases |sts|
  {
    if sts == [] then (true, tx)
    else
      var (ok, tx1) := Exec(tx, sts[0]);
      if ok then ExecAll(tx1, sts[1..]) else (false, tx1)
  }

  const LIVE := "products"
  const NEXT := "products_next"
  const OLD := "products_old"
  const INDEX := "products_next_barcode_idx"

  const SETUP: seq<Statement> := [DropTableIfExists(NEXT), CreateTable(NEXT)]

  const SWAP: seq<Statement> :=
    [CreateIndexIfMissing(INDEX, NEXT), DropTableIfExists(OLD), RenameTable(LIVE, OLD), RenameTable(NEXT, LIVE), DropTable(OLD)]

  datatype ImportError =
    | BeginFailed | SetupFailed | PrepareFailed | InsertFailed(barcode: string)
    | ParseFailed(message: string) | SwapFailed | CommitFailed

  /** How many rows were inserted, and why the import failed, if it did. */
  datatype ImportResult = ImportResult(imported: nat, error: Option<ImportError>)

  /** The range loop: insert every product that has a barcode. */
  function InsertAll(tx: Tx, products: seq<Product>, imported: nat): (ImportResult, Tx)
    decreases |products|
  {
    if products == [] then (ImportResult(imported, None), tx)
    else if products[0].barcode == "" then InsertAll(tx, products[1..], imported)
    else
      var (ok, tx1) := Exec(tx, InsertOrReplace(NEXT, products[0]));
      if ok then InsertAll(tx1, products[1..], imported + 1)
      else (ImportResult(imported, Some(InsertFailed(products[0].barcode))), tx1)
  }

  /** Everything between begin and commit, on what the channels deliver: the products, then the
      parser's verdict. */
  function Fill(tx: Tx, products: seq<Product>, verdict: Option<string>): (ImportResult, Tx) {
    var (setup, tx1) := ExecAll(tx, SETUP);
    if !setup then (ImportResult(0, Some(SetupFailed)), tx1)
    else
      var (prepared, tx2) := Exec(tx1, PrepareInsert(NEXT));
      if !prepared then (ImportResult(0, Some(PrepareFailed)), tx2)
      else
        var (inserted, tx3) := InsertAll(tx2, products, 0);
        if inserted.error.Some? then (inserted, tx3)
        else if verdict.Some? then (inserted.(error := Some(ParseFailed(verdict.value))), tx3)
        else
          var (swapped, tx4) := ExecAll(tx3, SWAP);
          (if swapped then inserted else inserted.(error := Some(SwapFailed)), tx4)
  }

  /** The whole import, from the committed schema to the committed schema. */
  function Import(committed: Schema, engine: Engine, products: seq<Product>, verdict: Option<string>)
    : (ImportResult, Schema)
  {
    var (begun, rest) := NextCall(engine);
    if !begun then (ImportResult(0, Some(BeginFailed)), committed)
    else
      var (filled, tx) := Fill(Tx(committed, rest), products, verdict);
      if filled.error.Some? then (filled, committed)
      else if NextCall(tx.engine).0 then (filled, tx.working)
      else (filled.(error := Some(CommitFailed)), committed)
  }

  function Lookup(committed: Schema, barcode: string): Option<Product> {
    if LIVE !in committed.tables then None
    else if barcode in committed.tables[LIVE] then
      var row := committed.tables[LIVE][barcode];
      Some(Product(row.name, barcode, row.price, row.stock, row.unit, row.coef, true))
    else Some(Product("", barcode, "", "", "", "", false))
  }

  class TursoStore {
    var committed: Schema

    /** Opening a database leaves what is in it alone, but makes sure there is a catalogue. */
    constructor (found: Schema)
      ensures LIVE in committed.tables
      ensures LIVE in found.tables ==> committed == found
      ensures LIVE !in found.tables ==> committed == found.(tables := found.tables[LIVE := map[]])
    {
      committed := Execute(found, CreateTableIfMissing(LIVE)).value;
    }

    static method ExecStatements(tx0: Tx, statements: seq<Statement>) returns (ok: bool, tx: Tx)
      ensures (ok, tx) == ExecAll(tx0, statements)
    {
      tx := tx0;
      for i := 0 to |statements|
        invariant ExecAll(tx, statements[i..]) == ExecAll(tx0, statements)
      {
        var step := Exec(tx, statements[i]);
        tx := step.1;
        if !step.0 {
          return false, tx;
        }
      }
      return true, tx;
    }

    static method InsertProducts(tx0: Tx, products: seq<Product>) returns (r: ImportResult, tx: Tx)
      ensures (r, tx) == InsertAll(tx0, products, 0)
    {
      tx := tx0;
      var imported: nat := 0;
      for i := 0 to |products|
        invariant InsertAll(tx, products[i..], imported) == InsertAll(tx0, products, 0)
      {
        if products[i].barcode == "" {
          continue;
        }
        var step := Exec(tx, InsertOrReplace(NEXT, products[i]));
        tx := step.1;
        if !step.0 {
          return ImportResult(imported, Some(InsertFailed(products[i].barcode))), tx;
        }
        imported := imported + 1;
      }
      return ImportResult(imported, None), tx;
    }

    method ImportProducts(engine: Engine, products: seq<Product>, verdict: Option<string>) returns (r: ImportResult)
      modifies this
      ensures (r, committed) == Import(old(committed), engine, products, verdict)
    {
      var begun := NextCall(engine);
      if !begun.0 {
        return ImportResult(0, Some(BeginFailed));
      }
      var tx := Tx(committed, begun.1);
      var ok: bool;
      ok, tx := ExecStatements(tx, SETUP);
      if !ok {
        return ImportResult(0, Some(SetupFailed));
      }
      var prepared := Exec(tx, PrepareInsert(NEXT));
      if !prepared.0 {
        return ImportResult(0, Some(PrepareFailed));
      }
      r, tx := InsertProducts(prepared.1, products);
      if r.error.Some? {
        return;
      }
      if verdict.Some? {
        return r.(error := Some(ParseFailed(verdict.value)));
      }
      ok, tx := ExecStatements(tx, SWAP);
      if !ok {
        return r.(error := Some(SwapFailed));
      }
      var commit := NextCall(tx.engine);
      if !commit.0 {
        return r.(error := Some(CommitFailed));
      }
      committed := tx.working;
    }
  }

  // ---- What an import is for -------------------------------------------------------------------

  /** Product i is the last one with barcode b. */
  predicate LastWith(products: seq<Product>, b: string, i: nat) {
    i < |products| && products[i].barcode == b && forall j :: i < j < |products| ==> products[j].barcode != b
  }

  /** The catalogue that a list of products stands for: for every barcode, the last product with it. */
  function Catalogue(products: seq<Product>): Table {
    if products == [] then map[]
    else
      var p, before := products[|products| - 1], Catalogue(products[..|products| - 1]);
      if p.barcode == "" then before else before[p.barcode := RowOf(p)]
  }

  /** For every barcode, the catalogue has the last product with it, all of its fields, and
      nothing else. */
  lemma {:induction false} CatalogueIsLastWins(products: seq<Product>, b: string)
    ensures b in Catalogue(products) <==> b != "" && exists i: nat :: LastWith(products, b, i)
    ensures forall i: nat :: b != "" && LastWith(products, b, i) ==>
      var p := products[i];
      Catalogue(products)[b] == Row(p.name, p.price, p.stock, p.unit, p.coef)
  {
    if products != [] {
      var n := |products| - 1;
      CatalogueIsLastWins(products[..n], b);
      if products[n].barcode == b {
        assert LastWith(products, b, n);
      } else {
        forall i: nat ensures LastWith(products, b, i) <==> LastWith(products[..n], b, i) {
          LastWithBefore(products, b, i);
        }
      }
    }
  }

  lemma LastWithBefore(products: seq<Product>, b: string, i: nat)
    requires products != [] && products[|products| - 1].barcode != b
    ensures LastWith(products, b, i) <==> LastWith(products[..|products| - 1], b, i)
  {
    var before := products[..|products| - 1];
    assert forall j :: 0 <= j < |before| ==> before[j] == products[j];
  }

  /** The products that have a barcode. */
  function WithBarcode(products: seq<Product>): seq<Product> {
    if products == [] then []
    else if products[0].barcode == "" then WithBarcode(products[1..])
    else [products[0]] + WithBarcode(products[1..])
  }

  ghost predicate Distinct(products: seq<Product>) {
    forall i, j :: 0 <= i < j < |products| ==> products[i].barcode != products[j].barcode
  }

  /** The tables after an import: the new catalogue, and every table the import has no use for. */
  function SwappedTables(tables: map<string, Table>, next: Table): map<string, Table> {
    (tables - {NEXT, OLD})[LIVE := next]
  }

  /** The import creates the index: only if there is none of its name, or only on a table that
      the import drops first. */
  predicate CreatesIndex(indexes: map<string, string>) {
    INDEX !in indexes || indexes[INDEX] == NEXT
  }

  /** The indexes after an import: those of other tables, and the one on the catalogue if this
      import created it. An older one on the catalogue goes with the old table. */
  function SwappedIndexes(indexes: map<string, string>): map<string, string> {
    var others := map x | x in indexes && indexes[x] !in {LIVE, NEXT, OLD} :: indexes[x];
    if CreatesIndex(indexes) then others[INDEX := LIVE] else others
  }

  /** The database after an import that made `next` the catalogue. */
  function Swapped(s: Schema, next: Table): Schema {
    Schema(SwappedTables(s.tables, next), SwappedIndexes(s.indexes))
  }

  /** The database in the middle of an import. */
  function Midway(s: Schema, next: Table): Schema {
    WithoutTable(s, NEXT).(tables := s.tables[NEXT := next])
  }

  lemma NamesDiffer()
    ensures LIVE != NEXT && LIVE != OLD && NEXT != OLD
  {
    assert |LIVE| == 8 && |NEXT| == 13 && |OLD| == 12;
  }

  /** The next n calls on the engine go through. */
  predicate Up(engine: Engine, n: nat) {
    engine.Some? ==> n <= engine.value
  }

  function Later(engine: Engine, n: nat): Engine
    requires Up(engine, n)
  {
    if engine.None? then None else Some(engine.value - n)
  }

  lemma ExecStep(tx: Tx, st: Statement, after: Schema)
    requires Execute(tx.working, st) == Some(after)
    ensures var (ok, tx') := Exec(tx, st);
      && (ok <==> Up(tx.engine, 1))
      && (ok ==> tx' == Tx(after, Later(tx.engine, 1)))
  {
  }

  /** Statements that SQL accepts one after the other fail only with the engine. */
  lemma {:induction false} ExecAllSteps(tx: Tx, sts: seq<Statement>, states: seq<Schema>)
    requires |states| == |sts| + 1 && states[0] == tx.working
    requires forall i :: 0 <= i < |sts| ==> Execute(states[i], sts[i]) == Some(states[i + 1])
    ensures var (ok, tx') := ExecAll(tx, sts);
      && (ok <==> Up(tx.engine, |sts|))
      && (ok ==> tx' == Tx(states[|sts|], Later(tx.engine, |sts|)))
    decreases |sts|
  {
    if sts != [] {
      ExecStep(tx, sts[0], states[1]);
      if Up(tx.engine, 1) { ExecAllSteps(Exec(tx, sts[0]).1, sts[1..], states[1..]); }
    }
  }

  lemma SetupSteps(tx: Tx)
    ensures var (ok, tx') := ExecAll(tx, SETUP);
      && (ok <==> Up(tx.engine, 2))
      && (ok ==> tx' == Tx(Midway(tx.working, map[]), Later(tx.engine, 2)))
  {
    var s := tx.working;
    var s1 := WithoutTable(s, NEXT);
    assert s1.tables[NEXT := map[]] == s.tables[NEXT := map[]];
    ExecAllSteps(tx, SETUP, [s, s1, Midway(s, map[])]);
  }

  /** The indexes of a database in the middle of an import, once its index is there and anything
      on a leftover old table is gone. */
  function Prepared(indexes: map<string, string>): map<string, string> {
    var kept := map x | x in indexes && indexes[x] !in {NEXT, OLD} :: indexes[x];
    if CreatesIndex(indexes) then kept[INDEX := NEXT] else kept
  }

  lemma IndexStep(s: Schema, next: Table)
    ensures var s1 := Execute(Midway(s, next), SWAP[0]);
      && s1.Some? && s1.value.tables == s.tables[NEXT := next]
      && Execute(s1.value, SWAP[1]) == Some(Schema((s.tables - {OLD})[NEXT := next], Prepared(s.indexes)))
  {
    NamesDiffer();
    var s1 := Execute(Midway(s, next), SWAP[0]).value;
    assert WithoutTable(s1, OLD).tables == (s.tables - {OLD})[NEXT := next];
    assert WithoutTable(s1, OLD).indexes == Prepared(s.indexes);
  }

  /** The old catalogue steps aside, the new one takes its name, the old one goes. */
  lemma TablesMove(tables: map<string, Table>, next: Table)
    requires LIVE in tables
    ensures var t0 := (tables - {OLD})[NEXT := next];
      && LIVE in t0 && OLD !in t0
      && var t1 := (t0 - {LIVE})[OLD := t0[LIVE]];
      && NEXT in t1 && LIVE !in t1 && t1[NEXT] == next
      && var t2 := (t1 - {NEXT})[LIVE := next];
      && OLD in t2 && t2 - {OLD} == SwappedTables(tables, next)
  {
    NamesDiffer();
  }

  lemma IndexesMove(indexes: map<string, string>)
    ensures var x1 := Reattached(Prepared(indexes), LIVE, OLD);
      var x2 := Reattached(x1, NEXT, LIVE);
      (map x | x in x2 && x2[x] != OLD :: x2[x]) == SwappedIndexes(indexes)
  {
    NamesDiffer();
  }

  /** The renames and the drop, on a database whose tables and indexes they are known to move. */
  lemma RenamesAndDrop(s2: Schema, goal: Schema) returns (s3: Schema, s4: Schema)
    requires LIVE in s2.tables && OLD !in s2.tables
    requires var t1 := (s2.tables - {LIVE})[OLD := s2.tables[LIVE]];
      && NEXT in t1 && LIVE !in t1
      && var t2 := (t1 - {NEXT})[LIVE := t1[NEXT]];
      OLD in t2 && t2 - {OLD} == goal.tables
    requires var x2 := Reattached(Reattached(s2.indexes, LIVE, OLD), NEXT, LIVE);
      (map x | x in x2 && x2[x] != OLD :: x2[x]) == goal.indexes
    ensures Execute(s2, RenameTable(LIVE, OLD)) == Some(s3)
    ensures Execute(s3, RenameTable(NEXT, LIVE)) == Some(s4)
    ensures Execute(s4, DropTable(OLD)) == Some(goal)
  {
    s3 := Execute(s2, RenameTable(LIVE, OLD)).value;
    s4 := Execute(s3, RenameTable(NEXT, LIVE)).value;
  }

  /** Five statements in a row. */
  lemma FiveSteps(tx: Tx, sts: seq<Statement>, s1: Schema, s2: Schema, s3: Schema, s4: Schema, s5: Schema)
    requires |sts| == 5
    requires Execute(tx.working, sts[0]) == Some(s1) && Execute(s1, sts[1]) == Some(s2) && Execute(s2, sts[2]) == Some(s3)
    requires Execute(s3, sts[3]) == Some(s4) && Execute(s4, sts[4]) == Some(s5)
    ensures var (ok, tx') := ExecAll(tx, sts);
      && (ok <==> Up(tx.engine, 5))
      && (ok ==> tx' == Tx(s5, Later(tx.engine, 5)))
  {
    var states := [tx.working, s1, s2, s3, s4, s5];
    assert forall i :: 0 <= i < |sts| ==> Execute(states[i], sts[i]) == Some(states[i + 1]);
    ExecAllSteps(tx, sts, states);
  }

  /** The swap never meets a missing source or an existing target, whatever else is in the
      database. */
  lemma SwapSteps(tx: Tx, s: Schema, next: Table)
    requires LIVE in s.tables && tx.working == Midway(s, next)
    ensures var (ok, tx') := ExecAll(tx, SWAP);
      && (ok <==> Up(tx.engine, 5))
      && (ok ==> tx' == Tx(Swapped(s, next), Later(tx.engine, 5)))
  {
    IndexStep(s, next);
    TablesMove(s.tables, next);
    IndexesMove(s.indexes);
    var s1 := Execute(tx.working, SWAP[0]).value;
    var s2 := Execute(s1, SWAP[1]).value;
    var s3, s4 := RenamesAndDrop(s2, Swapped(s, next));
    FiveSteps(tx, SWAP, s1, s2, s3, s4, Swapped(s, next));
  }

  /** A table after more products have been inserted into it. */
  function Extend(next: Table, products: seq<Product>): Table
    decreases |products|
  {
    if products == [] then next
    else Extend(if products[0].barcode == "" then next else next[products[0].barcode := RowOf(products[0])], products[1..])
  }

  lemma {:induction false} ExtendCatalogue(before: seq<Product>, products: seq<Product>)
    ensures Extend(Catalogue(before), products) == Catalogue(before + products)
    decreases |products|
  {
    if products == [] {
      assert before + products == before;
    } else {
      var more := before + [products[0]];
      assert more[..|before|] == before;
      ExtendCatalogue(more, products[1..]);
      assert more + products[1..] == before + products;
    }
  }

  lemma {:induction false} InsertSteps(tx: Tx, products: seq<Product>, imported: nat, s: Schema, next: Table)
    requires tx.working == Midway(s, next)
    ensures var (r, tx') := InsertAll(tx, products, imported);
      var n := |WithBarcode(products)|;
      && (r.error.None? <==> Up(tx.engine, n))
      && (r.error.None? ==> r.imported == imported + n && tx' == Tx(Midway(s, Extend(next, products)), Later(tx.engine, n)))
    decreases |products|
  {
    if products != [] {
      var p := products[0];
      if p.barcode == "" {
        InsertSteps(tx, products[1..], imported, s, next);
      } else {
        var next' := next[p.barcode := RowOf(p)];
        assert s.tables[NEXT := next][NEXT := next'] == s.tables[NEXT := next'];
        assert Midway(s, next).(tables := s.tables[NEXT := next']) == Midway(s, next');
        ExecStep(tx, InsertOrReplace(NEXT, p), Midway(s, next'));
        if Up(tx.engine, 1) {
          InsertSteps(Exec(tx, InsertOrReplace(NEXT, p)).1, products[1..], imported + 1, s, next');
        }
      }
    }
  }

  /** The insertions, from the empty shadow table. */
  lemma InsertAllSteps(tx: Tx, products: seq<Product>, s: Schema)
    requires tx.working == Midway(s, map[])
    ensures var (r, tx') := InsertAll(tx, products, 0);
      var n := |WithBarcode(products)|;
      && (r.error.None? <==> Up(tx.engine, n))
      && (r.error.None? ==> r.imported == n && tx' == Tx(Midway(s, Catalogue(products)), Later(tx.engine, n)))
  {
    InsertSteps(tx, products, 0, s, map[]);
    ExtendCatalogue([], products);
    assert [] + products == products;
  }

  lemma PrepareSteps(tx: Tx)
    ensures var (ok, tx1) := ExecAll(tx, SETUP);
      var (prepared, tx2) := Exec(tx1, PrepareInsert(NEXT));
      && (ok && prepared <==> Up(tx.engine, 3))
      && (ok && prepared ==> tx2 == Tx(Midway(tx.working, map[]), Later(tx.engine, 3)))
  {
    SetupSteps(tx);
  }

  /** What Fill does from the insertions on, for any statements to swap the tables with. */
  function FillFrom(tx: Tx, products: seq<Product>, verdict: Option<string>, swap: seq<Statement>): (ImportResult, Tx) {
    var (inserted, tx3) := InsertAll(tx, products, 0);
    if inserted.error.Some? then (inserted, tx3)
    else if verdict.Some? then (inserted.(error := Some(ParseFailed(verdict.value))), tx3)
    else
      var (swapped, tx4) := ExecAll(tx3, swap);
      (if swapped then inserted else inserted.(error := Some(SwapFailed)), tx4)
  }

  lemma FillBegins(tx: Tx, products: seq<Product>, verdict: Option<string>)
    ensures if Up(tx.engine, 3)
      then Fill(tx, products, verdict) == FillFrom(Tx(Midway(tx.working, map[]), Later(tx.engine, 3)), products, verdict, SWAP)
      else Fill(tx, products, verdict).0 == ImportResult(0, Some(if Up(tx.engine, 2) then PrepareFailed else SetupFailed))
  {
    PrepareSteps(tx);
    SetupSteps(tx);
  }

  /** The transaction when all products are in the shadow table. */
  function Filled(tx: Tx, products: seq<Product>, s: Schema): Tx
    requires Up(tx.engine, |WithBarcode(products)|)
  {
    Tx(Midway(s, Catalogue(products)), Later(tx.engine, |WithBarcode(products)|))
  }

  /** The swap takes five calls and leads to `goal`. */
  predicate LeadsTo(tx: Tx, swap: seq<Statement>, goal: Schema) {
    var (ok, tx') := ExecAll(tx, swap);
    (ok <==> Up(tx.engine, 5)) && (ok ==> tx' == Tx(goal, Later(tx.engine, 5)))
  }

  lemma FillEnds(tx: Tx, products: seq<Product>, verdict: Option<string>, s: Schema, swap: seq<Statement>, goal: Schema)
    requires tx.working == Midway(s, map[])
    requires Up(tx.engine, |WithBarcode(products)|) ==> LeadsTo(Filled(tx, products, s), swap, goal)
    ensures var (r, tx') := FillFrom(tx, products, verdict, swap);
      var n := |WithBarcode(products)|;
      && (r.error.None? <==> verdict.None? && Up(tx.engine, n + 5))
      && (r.error.None? ==> r.imported == n && tx' == Tx(goal, Later(tx.engine, n + 5)))
  {
    InsertAllSteps(tx, products, s);
  }

  lemma SwapLeadsTo(tx: Tx, products: seq<Product>)
    requires LIVE in tx.working.tables
    ensures var n := |WithBarcode(products)|;
      Up(tx.engine, n + 3) ==>
      LeadsTo(Tx(Midway(tx.working, Catalogue(products)), Later(tx.engine, n + 3)), SWAP, Swapped(tx.working, Catalogue(products)))
  {
    var n := |WithBarcode(products)|;
    if Up(tx.engine, n + 3) {
      SwapSteps(Tx(Midway(tx.working, Catalogue(products)), Later(tx.engine, n + 3)), tx.working, Catalogue(products));
    }
  }

  lemma FillGoes(tx: Tx, products: seq<Product>, verdict: Option<string>, swap: seq<Statement>, goal: Schema, fill: (ImportResult, Tx))
    requires if Up(tx.engine, 3)
      then fill == FillFrom(Tx(Midway(tx.working, map[]), Later(tx.engine, 3)), products, verdict, swap)
      else fill.0.error.Some?
    requires Up(tx.engine, |WithBarcode(products)| + 3) ==>
      LeadsTo(Tx(Midway(tx.working, Catalogue(products)), Later(tx.engine, |WithBarcode(products)| + 3)), swap, goal)
    ensures var n := |WithBarcode(products)|;
      && (fill.0.error.None? <==> verdict.None? && Up(tx.engine, n + 8))
      && (fill.0.error.None? ==> fill.0.imported == n && fill.1 == Tx(goal, Later(tx.engine, n + 8)))
  {
    if Up(tx.engine, 3) {
      FillEnds(Tx(Midway(tx.working, map[]), Later(tx.engine, 3)), products, verdict, tx.working, swap, goal);
    }
  }

  lemma FillSteps(tx: Tx, products: seq<Product>, verdict: Option<string>)
    requires LIVE in tx.working.tables
    ensures var (r, tx') := Fill(tx, products, verdict);
      var n := |WithBarcode(products)|;
      && (r.error.None? <==> verdict.None? && Up(tx.engine, n + 8))
      && (r.error.None? ==> r.imported == n && tx' == Tx(Swapped(tx.working, Catalogue(products)), Later(tx.engine, n + 8)))
  {
    FillBegins(tx, products, verdict);
    SwapLeadsTo(tx, products);
    FillGoes(tx, products, verdict, SWAP, Swapped(tx.working, Catalogue(products)), Fill(tx, products, verdict));
  }

  /** The same for the whole import, around any filling that leads to `goal`. */
  lemma ImportEnds(committed: Schema, engine: Engine, products: seq<Product>, verdict: Option<string>, n: nat, goal: Schema)
    requires Up(engine, 1) ==>
      var (r, tx) := Fill(Tx(committed, Later(engine, 1)), products, verdict);
      && (r.error.None? <==> verdict.None? && Up(engine, n + 9))
      && (r.error.None? ==> r.imported == n && tx == Tx(goal, Later(engine, n + 9)))
    ensures var (r, after) := Import(committed, engine, products, verdict);
      && (r.error.None? <==> verdict.None? && Up(engine, n + 10))
      && (if r.error.None? then r.imported == n && after == goal else after == committed)
  {
    if Up(engine, 1) { assert NextCall(engine) == (true, Later(engine, 1)); }
  }

  /** Whatever else the database holds, also what an earlier program left in it: an import succeeds
      exactly if the parser was content and the engine did not fail, so no statement ever meets a
      missing or an existing table; it then has replaced the catalogue by the products it was
      given and removed the two auxiliary tables, and touched no other; and otherwise it has
      changed nothing. */
  lemma ImportReplacesOrKeeps(committed: Schema, engine: Engine, products: seq<Product>, verdict: Option<string>)
    requires LIVE in committed.tables
    ensures var (r, after) := Import(committed, engine, products, verdict);
      var n := |WithBarcode(products)|;
      && (r.error.None? <==> verdict.None? && Up(engine, n + 10))
      && (if r.error.None? then r.imported == n && after == Swapped(committed, Catalogue(products)) else after == committed)
      && LIVE in after.tables && (r.error.None? ==> after.tables[LIVE] == Catalogue(products))
      && (r.error.None? ==>
          after.tables == (committed.tables - {"products_next", "products_old"})["products" := Catalogue(products)])
  {
    hide Import, Catalogue, WithBarcode;
    var goal := Swapped(committed, Catalogue(products));
    if Up(engine, 1) { FillSteps(Tx(committed, Later(engine, 1)), products, verdict); }
    ImportEnds(committed, engine, products, verdict, |WithBarcode(products)|, goal);
    SwappedShows(committed, Catalogue(products));
  }

  // ---- Where an import fails ---------------------------------------------------------------------

  /** If the engine gives out before the last insertion, it is at the product that comes next. */
  lemma {:induction false} InsertFails(tx: Tx, products: seq<Product>, imported: nat)
    requires NEXT in tx.working.tables && !Up(tx.engine, |WithBarcode(products)|)
    ensures var (r, _) := InsertAll(tx, products, imported);
      var k := tx.engine.value;
      r == ImportResult(imported + k, Some(InsertFailed(WithBarcode(products)[k].barcode)))
    decreases |products|
  {
    if products[0].barcode == "" {
      InsertFails(tx, products[1..], imported);
    } else if Up(tx.engine, 1) {
      InsertFails(Exec(tx, InsertOrReplace(NEXT, products[0])).1, products[1..], imported + 1);
    }
  }

  /** The result of an import that a database failing at call number `k` (the first is 0) and a
      parser's verdict have in store. */
  function Failure(k: nat, products: seq<Product>, verdict: Option<string>): ImportResult {
    var n := |WithBarcode(products)|;
    if k == 0 then ImportResult(0, Some(BeginFailed))
    else if k < 3 then ImportResult(0, Some(SetupFailed))
    else if k == 3 then ImportResult(0, Some(PrepareFailed))
    else if k < n + 4 then ImportResult(k - 4, Some(InsertFailed(WithBarcode(products)[k - 4].barcode)))
    else if verdict.Some? then ImportResult(n, Some(ParseFailed(verdict.value)))
    else if k < n + 9 then ImportResult(n, Some(SwapFailed))
    else ImportResult(n, Some(CommitFailed))
  }

  lemma FromInsertionsFails(tx: Tx, products: seq<Product>, verdict: Option<string>, s: Schema, swap: seq<Statement>, goal: Schema)
    requires tx.working == Midway(s, map[])
    requires Up(tx.engine, |WithBarcode(products)|) ==> LeadsTo(Filled(tx, products, s), swap, goal)
    ensures var r := FillFrom(tx, products, verdict, swap).0;
      var n := |WithBarcode(products)|;
      && (!Up(tx.engine, n) ==> r == Failure(tx.engine.value + 4, products, verdict))
      && (Up(tx.engine, n) && verdict.Some? ==> r == ImportResult(n, Some(ParseFailed(verdict.value))))
      && (Up(tx.engine, n) && verdict.None? && !Up(tx.engine, n + 5) ==> r == ImportResult(n, Some(SwapFailed)))
  {
    InsertAllSteps(tx, products, s);
    if !Up(tx.engine, |WithBarcode(products)|) { InsertFails(tx, products, 0); }
  }

  lemma FillFails(tx: Tx, products: seq<Product>, verdict: Option<string>)
    requires LIVE in tx.working.tables
    ensures var r := Fill(tx, products, verdict).0;
      var n := |WithBarcode(products)|;
      && (!Up(tx.engine, n + 3) ==> r == Failure(tx.engine.value + 1, products, verdict))
      && (Up(tx.engine, n + 3) && verdict.Some? ==> r == ImportResult(n, Some(ParseFailed(verdict.value))))
      && (Up(tx.engine, n + 3) && verdict.None? && !Up(tx.engine, n + 8) ==> r == ImportResult(n, Some(SwapFailed)))
  {
    hide Fill, FillFrom, LeadsTo, Catalogue, WithBarcode, Midway, Swapped;
    FillBegins(tx, products, verdict);
    SwapLeadsTo(tx, products);
    if Up(tx.engine, 3) {
      FromInsertionsFails(Tx(Midway(tx.working, map[]), Later(tx.engine, 3)), products, verdict, tx.working,
                          SWAP, Swapped(tx.working, Catalogue(products)));
    }
  }

  /** An import that fails says which of its steps failed, and how many rows it had inserted by
      then: begin, two statements of setup, prepare, one insertion for every product with a
      barcode, the parser's verdict, five statements of the swap, commit. */
  lemma ImportFailsWhere(committed: Schema, engine: Engine, products: seq<Product>, verdict: Option<string>)
    requires LIVE in committed.tables && Import(committed, engine, products, verdict).0.error.Some?
    ensures var r := Import(committed, engine, products, verdict).0;
      var n := |WithBarcode(products)|;
      if Up(engine, n + 4) && verdict.Some? then r == ImportResult(n, Some(ParseFailed(verdict.value)))
      else engine.Some? && r == Failure(engine.value, products, verdict)
  {
    hide WithBarcode;
    ImportReplacesOrKeeps(committed, engine, products, verdict);
    if Up(engine, 1) {
      FillFails(Tx(committed, Later(engine, 1)), products, verdict);
      FillSteps(Tx(committed, Later(engine, 1)), products, verdict);
    }
  }

  lemma SwappedShows(s: Schema, next: Table)
    ensures LIVE in Swapped(s, next).tables && Swapped(s, next).tables[LIVE] == next
  {
  }

  /** Whatever database file the service is given: once opened, it can import, and a successful
      import leaves the new catalogue and every table the service has no name for. */
  lemma OpenThenImport(found: Schema, engine: Engine, products: seq<Product>, verdict: Option<string>)
    ensures var ready := Execute(found, CreateTableIfMissing(LIVE)).value;
      var (r, after) := Import(ready, engine, products, verdict);
      && (r.error.None? <==> verdict.None? && Up(engine, |WithBarcode(products)| + 10))
      && (r.error.None? ==> after.tables == (found.tables - {NEXT, OLD})[LIVE := Catalogue(products)])
      && (r.error.Some? ==> after == ready)
  {
    var ready := Execute(found, CreateTableIfMissing(LIVE)).value;
    ImportReplacesOrKeeps(ready, engine, products, verdict);
    OpenedTables(found.tables, Catalogue(products));
  }

  lemma OpenedTables(tables: map<string, Table>, next: Table)
    ensures SwappedTables(if LIVE in tables then tables else tables[LIVE := map[]], next) == (tables - {NEXT, OLD})[LIVE := next]
  {
    NamesDiffer();
  }

  /** After a successful import a lookup answers with the last product with the barcode that was
      asked for, field by field as it was imported, or with that barcode alone, not valid. */
  lemma LookupAfterImport(committed: Schema, engine: Engine, products: seq<Product>, verdict: Option<string>, b: string)
    requires LIVE in committed.tables && Import(committed, engine, products, verdict).0.error.None?
    ensures var found := Lookup(Import(committed, engine, products, verdict).1, b);
      && found.Some?
      && (forall i: nat :: b != "" && LastWith(products, b, i) ==> found.value == products[i].(valid := true))
      && (b == "" || (forall i: nat :: !LastWith(products, b, i)) ==> found.value == Product("", b, "", "", "", "", false))
  {
    ImportReplacesOrKeeps(committed, engine, products, verdict);
    CatalogueIsLastWins(products, b);
  }

  lemma {:induction false} CatalogueHasBarcodes(products: seq<Product>, b: string)
    ensures b in Catalogue(products) <==> exists i: nat :: i < |WithBarcode(products)| && WithBarcode(products)[i].barcode == b
  {
    if products != [] {
      var n := |products| - 1;
      var ps := WithBarcode(products[..n]);
      CatalogueHasBarcodes(products[..n], b);
      WithBarcodeAppend(products[..n], products[n]);
      assert products[..n] + [products[n]] == products;
      assert forall i: nat :: i < |ps| ==> WithBarcode(products)[i] == ps[i];
      if products[n].barcode == b && b != "" { assert WithBarcode(products)[|ps|].barcode == b; }
    }
  }

  lemma DistinctAppend(ps: seq<Product>, p: Product)
    ensures Distinct(ps + [p]) <==> Distinct(ps) && !exists i: nat :: i < |ps| && ps[i].barcode == p.barcode
  {
    var all := ps + [p];
    assert all[|ps|] == p && forall i: nat :: i < |ps| ==> all[i] == ps[i];
  }

  /** The count reported is the number of products with a barcode: never less than the size of
      the new table, and equal to it exactly if no barcode occurs twice. */
  lemma {:induction false} CountCoversTable(products: seq<Product>)
    ensures |Catalogue(products)| <= |WithBarcode(products)|
    ensures |Catalogue(products)| == |WithBarcode(products)| <==> Distinct(WithBarcode(products))
  {
    if products != [] {
      var n := |products| - 1;
      var p, before := products[n], products[..n];
      CountCoversTable(before);
      WithBarcodeAppend(before, p);
      assert before + [p] == products;
      if p.barcode != "" {
        CatalogueHasBarcodes(before, p.barcode);
        DistinctAppend(WithBarcode(before), p);
        var m := Catalogue(before);
        assert Catalogue(products) == m[p.barcode := RowOf(p)];
        assert |m[p.barcode := RowOf(p)]| == if p.barcode in m then |m| else |m| + 1;
      } else {
        assert WithBarcode(products) == WithBarcode(before);
      }
    }
  }

  lemma {:induction false} WithBarcodeAppend(products: seq<Product>, p: Product)
    ensures WithBarcode(products + [p]) == WithBarcode(products) + (if p.barcode == "" then [] else [p])
    decreases |products|
  {
    if products != [] {
      assert (products + [p])[1..] == products[1..] + [p];
      WithBarcodeAppend(products[1..], p);
    } else {
      assert (products + [p])[1..] == [];
    }
  }

  /** So it is the number of products that have one. */
  lemma {:induction false} WithBarcodeCounts(products: seq<Product>)
    ensures |WithBarcode(products)| == |set i | 0 <= i < |products| && products[i].barcode != ""|
  {
    if products != [] {
      var n := |products| - 1;
      var before := products[..n];
      WithBarcodeCounts(before);
      WithBarcodeAppend(before, products[n]);
      assert before + [products[n]] == products;
      HavingBarcode(before, products[n]);
    }
  }

  lemma HavingBarcode(before: seq<Product>, p: Product)
    ensures var n, products := |before|, before + [p];
      |set i | 0 <= i < n + 1 && products[i].barcode != ""|
      == |set i | 0 <= i < n && before[i].barcode != ""| + (if p.barcode == "" then 0 else 1)
  {
    var n, products := |before|, before + [p];
    var most := set i | 0 <= i < n && before[i].barcode != "";
    var all := set i | 0 <= i < n + 1 && products[i].barcode != "";
    assert forall i :: 0 <= i < n ==> products[i] == before[i];
    assert all == if p.barcode == "" then most else most + {n};
  }

  // ---- Import after import ---------------------------------------------------------------------

  datatype Job = Job(products: seq<Product>, verdict: Option<string>, engine: Engine) {
    /** The parser is content with the records and the engine stays up throughout. */
    predicate Succeeds() {
      verdict.None? && Up(engine, |WithBarcode(products)| + 10)
    }
  }

  function RunAll(committed: Schema, jobs: seq<Job>): Schema {
    if jobs == [] then committed
    else
      var j := jobs[|jobs| - 1];
      Import(RunAll(committed, jobs[..|jobs| - 1]), j.engine, j.products, j.verdict).1
  }

  /** What the live table should be after the jobs: the last one that succeeded decides. */
  function Latest(initial: Table, jobs: seq<Job>): Table {
    if jobs == [] then initial
    else if jobs[|jobs| - 1].Succeeds() then Catalogue(jobs[|jobs| - 1].products)
    else Latest(initial, jobs[..|jobs| - 1])
  }

  function Successes(jobs: seq<Job>): nat {
    if jobs == [] then 0 else Successes(jobs[..|jobs| - 1]) + (if jobs[|jobs| - 1].Succeeds() then 1 else 0)
  }

  /** The index of the import is there, and it is on the catalogue. */
  predicate Indexed(s: Schema) {
    INDEX in s.indexes && s.indexes[INDEX] == LIVE
  }

  /** An index of that name is on a table that imports leave alone. */
  predicate Taken(s: Schema) {
    INDEX in s.indexes && s.indexes[INDEX] !in {LIVE, NEXT, OLD}
  }

  lemma JobStep(s: Schema, j: Job)
    requires LIVE in s.tables
    ensures var after := Import(s, j.engine, j.products, j.verdict).1;
      if j.Succeeds() then
        && after.tables == SwappedTables(s.tables, Catalogue(j.products))
        && after.indexes == SwappedIndexes(s.indexes)
      else after == s
  {
    ImportReplacesOrKeeps(s, j.engine, j.products, j.verdict);
  }

  /** Over any history of imports, failed and successful, from any database with a catalogue: the
      catalogue is exactly that of the last import that succeeded, no auxiliary table is left
      over once one has, and all other tables are as they were. */
  lemma {:induction false} HistoryShowsLatest(committed: Schema, jobs: seq<Job>)
    requires LIVE in committed.tables
    ensures RunAll(committed, jobs).tables ==
      if Successes(jobs) == 0 then committed.tables else SwappedTables(committed.tables, Latest(committed.tables[LIVE], jobs))
    ensures LIVE in RunAll(committed, jobs).tables
    ensures RunAll(committed, jobs).tables[LIVE] == Latest(committed.tables[LIVE], jobs)
  {
    if jobs != [] {
      var before, j := jobs[..|jobs| - 1], jobs[|jobs| - 1];
      HistoryShowsLatest(committed, before);
      JobStep(RunAll(committed, before), j);
      SwapAgain(committed.tables, Latest(committed.tables[LIVE], before), Catalogue(j.products));
    }
  }

  lemma SwapAgain(tables: map<string, Table>, first: Table, second: Table)
    ensures SwappedTables(SwappedTables(tables, first), second) == SwappedTables(tables, second)
  {
    NamesDiffer();
  }

  lemma SwapIndexAgain(s: Schema, after: Schema)
    requires after.indexes == SwappedIndexes(s.indexes)
    ensures Indexed(after) <==> CreatesIndex(s.indexes)
    ensures Taken(after) <==> Taken(s)
    ensures CreatesIndex(after.indexes) <==> !CreatesIndex(s.indexes) && !Taken(s)
  {
    NamesDiffer();
  }

  /** What one more job does to the index. */
  lemma JobIndex(s: Schema, j: Job)
    requires LIVE in s.tables
    ensures var after := Import(s, j.engine, j.products, j.verdict).1;
      if j.Succeeds() then
        && (Indexed(after) <==> CreatesIndex(s.indexes))
        && (CreatesIndex(after.indexes) <==> !CreatesIndex(s.indexes) && !Taken(s))
        && (Taken(after) <==> Taken(s))
      else after == s
  {
    JobStep(s, j);
    var after := Import(s, j.engine, j.products, j.verdict).1;
    if j.Succeeds() { SwapIndexAgain(s, after); }
  }

  /** After the first success the catalogue is indexed after every other success only: after an
      odd number of them if the first had an index to create, and otherwise after an even number
      — or never, if the index's name is taken by another table. */
  lemma {:induction false} HistoryIndexesAlternately(committed: Schema, jobs: seq<Job>)
    requires LIVE in committed.tables && Successes(jobs) > 0
    ensures Indexed(RunAll(committed, jobs))
       <==> !Taken(committed) && ((Successes(jobs) % 2 == 1) == CreatesIndex(committed.indexes))
    ensures CreatesIndex(RunAll(committed, jobs).indexes)
       <==> !Taken(committed) && ((Successes(jobs) % 2 == 0) == CreatesIndex(committed.indexes))
    ensures Taken(RunAll(committed, jobs)) <==> Taken(committed)
  {
    var before, j := jobs[..|jobs| - 1], jobs[|jobs| - 1];
    var k := Successes(before);
    HistoryShowsLatest(committed, before);
    JobIndex(RunAll(committed, before), j);
    if k == 0 {
      NoSuccessNoChange(committed, before);
      TakenIsNoCreation(committed);
    } else {
      HistoryIndexesAlternately(committed, before);
      assert (k + 1) % 2 == 1 - k % 2;
    }
  }

  lemma TakenIsNoCreation(s: Schema)
    ensures Taken(s) ==> !CreatesIndex(s.indexes)
  {
  }

  lemma {:induction false} NoSuccessNoChange(committed: Schema, jobs: seq<Job>)
    requires LIVE in committed.tables && Successes(jobs) == 0
    ensures RunAll(committed, jobs) == committed
  {
    if jobs != [] {
      NoSuccessNoChange(committed, jobs[..|jobs| - 1]);
      JobStep(committed, jobs[|jobs| - 1]);
    }
  }

  /** Every index is on a table that exists. */
  predicate Attached(s: Schema) {
    forall x :: x in s.indexes ==> s.indexes[x] in s.tables
  }

  /** An import keeps it so. */
  lemma IndexesStayAttached(committed: Schema, engine: Engine, products: seq<Product>, verdict: Option<string>)
    requires LIVE in committed.tables && Attached(committed)
    ensures Attached(Import(committed, engine, products, verdict).1)
  {
    NamesDiffer();
    ImportReplacesOrKeeps(committed, engine, products, verdict);
  }

  /** So two imports in a row leave a new database without its index. */
  lemma SecondImportLosesIndex(products: seq<Product>)
    ensures var empty := Execute(Schema(map[], map[]), CreateTableIfMissing(LIVE)).value;
      var job := Job(products, None, None);
      && Indexed(RunAll(empty, [job]))
      && !Indexed(RunAll(empty, [job, job]))
  {
    var empty := Execute(Schema(map[], map[]), CreateTableIfMissing(LIVE)).value;
    var job := Job(products, None, None);
    assert [job, job][..1] == [job] && [job][..0] == [];
    assert Successes([]) == 0 && Successes([job]) == 1 && Successes([job, job]) == 2;
    HistoryIndexesAlternately(empty, [job]);
    HistoryIndexesAlternately(empty, [job, job]);
  }
}
