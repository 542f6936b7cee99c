/** The export of a stock database to CSV (`mdb_to_csv.sh`): which columns of the table the
    script finds by name, and the rows it writes from them. */
module MdbProjection {
  import opened GoStrings
  import opened Wrappers
  import Pipeline = CatalogPipeline

  const REQUIRED := ["Nazev", "EAN", "ProdejDPH", "MJ2", "MJ2Koef", "StavZ"]

  // ---- Finding columns by name ---------------------------------------------------------------

  /** tr '[:upper:]' '[:lower:]', one character */
  function LowerChar(c: char): char {
    if 'A' <= c <= 'Z' then c - 'A' + 'a' else c
  }

  function Lower(s: string): string {
    seq(|s|, i requires 0 <= i < |s| => LowerChar(s[i]))
  }

  /** tr -d */
  function Without(s: string, c: char): string {
    if s == "" then "" else (if s[0] == c then "" else [s[0]]) + Without(s[1..], c)
  }

  /** A header cell in the form in which names are compared. */
  function Normal(cell: string): string {
    Without(Without(Lower(cell), '"'), ' ')
  }

  /** Cell i of the header names the required column. */
  predicate Names(header: seq<string>, i: nat, column: string) {
    i < |header| && Normal(header[i]) == Lower(column)
  }

  /** The 1-based index of the last header cell that names a column; 0 if none does. */
  function Position(header: seq<string>, column: string): (n: nat)
    ensures n <= |header|
  {
    if header == [] then 0
    else if Names(header, |header| - 1, column) then |header|
    else Position(header[..|header| - 1], column)
  }

  lemma {:induction false} PositionIsLast(header: seq<string>, column: string)
    ensures var n := Position(header, column); n > 0 ==> Names(header, n - 1, column)
    ensures forall i: nat :: Names(header, i, column) ==> i < Position(header, column)
  {
    if header != [] {
      var front := header[..|header| - 1];
      PositionIsLast(front, column);
      assert forall i: nat :: i < |front| ==> Names(header, i, column) == Names(front, i, column);
    }
  }

  lemma PositionStep(header: seq<string>, i: nat, column: string)
    requires i < |header|
    ensures Position(header[..i + 1], column)
         == if Names(header, i, column) then i + 1 else Position(header[..i], column)
  {
    assert header[..i + 1][..i] == header[..i];
  }

  lemma RequiredAreDistinct()
    ensures forall a, b :: a in REQUIRED && b in REQUIRED && Lower(a) == Lower(b) ==> a == b
  {
    assert Lower("Nazev")[0] == 'n' && Lower("StavZ")[0] == 's';
    assert Lower("EAN")[0] == 'e' && Lower("MJ2")[0] == 'm';
  }

  predicate Found(header: seq<string>, found: map<string, nat>, columns: seq<string>) {
    && (forall c :: c in found ==> c in columns && found[c] == Position(header, c) > 0)
    && (forall c :: c in columns && Position(header, c) > 0 ==> c in found)
  }

  predicate Maps(required: map<string, string>, columns: seq<string>) {
    && (forall c :: c in columns ==> Lower(c) in required && required[Lower(c)] == c)
    && (forall n :: n in required ==> required[n] in columns && Lower(required[n]) == n)
  }

  /** The loop that fills required_map */
  method RequiredMap() returns (required: map<string, string>)
    ensures Maps(required, REQUIRED)
  {
    RequiredAreDistinct();
    required := map[];
    for k := 0 to |REQUIRED|
      invariant Maps(required, REQUIRED[..k])
    {
      required := required[Lower(REQUIRED[k]) := REQUIRED[k]];
    }
    assert REQUIRED[..|REQUIRED|] == REQUIRED;
  }

  lemma PositionsStep(header: seq<string>, i: nat, columns: seq<string>)
    requires i < |header|
    ensures forall c :: c in columns ==>
      Position(header[..i + 1], c) == if Normal(header[i]) == Lower(c) then i + 1 else Position(header[..i], c)
  {
    forall c | c in columns
      ensures Position(header[..i + 1], c) == if Normal(header[i]) == Lower(c) then i + 1 else Position(header[..i], c)
    {
      PositionStep(header, i, c);
    }
  }

  /** The loop that fills found_indices: a later cell of the same name wins. */
  method FindColumns(header: seq<string>, required: map<string, string>, ghost columns: seq<string>) returns (found: map<string, nat>)
    requires Maps(required, columns)
    ensures Found(header, found, columns)
  {
    found := map[];
    for i := 0 to |header|
      invariant Found(header[..i], found, columns)
    {
      var name := Normal(header[i]);
      PositionsStep(header, i, columns);
      if name in required {
        found := found[required[name] := i + 1];
      }
    }
    assert header[..|header|] == header;
  }

  // ---- The script ----------------------------------------------------------------------------

  /** What the script leaves behind: an error for an empty export; nothing but the shell's own
      complaint that an array is unbound; the names of the columns it did not find; or the lines
      of the CSV file. */
  datatype Output = NoData | Aborted | Missing(columns: seq<string>) | Lines(lines: seq<string>)

  function MissingFrom(header: seq<string>, columns: seq<string>): seq<string> {
    if columns == [] then []
    else Absent(header, columns[0]) + MissingFrom(header, columns[1..])
  }

  function Absent(header: seq<string>, column: string): seq<string> {
    if Position(header, column) == 0 then [column] else []
  }

  /** awk's $c: empty behind the last field */
  function Cell(fields: seq<string>, c: nat): string {
    if 1 <= c <= |fields| then fields[c - 1] else ""
  }

  function Named(header: seq<string>, row: seq<string>, column: string): string {
    Cell(row, Position(header, column))
  }

  function Quoted(s: string): string {
    "\"" + s + "\""
  }

  function Layout(c1: string, c2: string, c3: string, c4: string, c5: string, c6: string): (cells: seq<string>)
    ensures |cells| == 6
  {
    [c1, c2, Quoted(c3), c4, Quoted(c5), Quoted(c6)]
  }

  /** The six cells of an output row, from the cells of a table row. */
  function OutCells(header: seq<string>, row: seq<string>): (cells: seq<string>)
    ensures |cells| == 6
  {
    Layout(Named(header, row, "Nazev"), Named(header, row, "EAN"), Named(header, row, "ProdejDPH"),
           Named(header, row, "MJ2"), Named(header, row, "MJ2Koef"), Named(header, row, "StavZ"))
  }

  function OutRow(header: seq<string>, line: string): string {
    Join(OutCells(header, Split(line, ';')), ';')
  }

  function OutRows(header: seq<string>, lines: seq<string>): seq<string> {
    seq(|lines|, k requires 0 <= k < |lines| => OutRow(header, lines[k]))
  }

  /** No required column is in the header. */
  predicate NamesNone(header: seq<string>) {
    forall c :: c in REQUIRED ==> Position(header, c) == 0
  }

  /** The script's answer to a header, with these rows to write. Under `set -u` the shell takes an
      associative array without entries for unbound, and gives up when it is asked for its size. */
  function Judge(header: seq<string>, rows: seq<string>): Output {
    if NamesNone(header) then Aborted
    else if MissingFrom(header, REQUIRED) != [] then Missing(MissingFrom(header, REQUIRED))
    else Lines([Join(REQUIRED, ';')] + rows)
  }

  function Script(lines: seq<string>): Output {
    if lines == [] then NoData
    else
      var header := Split(lines[0], ';');
      Judge(header, OutRows(header, lines[1..]))
  }

  /** The script gives up without naming a missing column exactly if the header names none of the
      six at all. */
  lemma AbortsExactly(lines: seq<string>)
    ensures Script(lines) == Aborted
       <==> lines != [] && forall c, i: nat :: c in REQUIRED ==> !Names(Split(lines[0], ';'), i, c)
  {
    hide Names, OutRows;
    if lines != [] {
      NamesNoneExactly(Split(lines[0], ';'));
      assert Script(lines) == Aborted <==> NamesNone(Split(lines[0], ';'));
    }
  }

  lemma NamesNoneExactly(header: seq<string>)
    ensures NamesNone(header) <==> forall c, i: nat :: c in REQUIRED ==> !Names(header, i, c)
  {
    if NamesNone(header) {
      forall c, i: nat | c in REQUIRED ensures !Names(header, i, c) { PositionIsLast(header, c); }
    } else {
      var c :| c in REQUIRED && Position(header, c) > 0;
      PositionIsLast(header, c);
      assert Names(header, Position(header, c) - 1, c);
    }
  }

  lemma {:induction false} MissingFromExact(header: seq<string>, columns: seq<string>)
    ensures forall c :: c in MissingFrom(header, columns) <==> c in columns && Position(header, c) == 0
  {
    if columns != [] {
      MissingFromExact(header, columns[1..]);
      assert columns == [columns[0]] + columns[1..];
    }
  }

  /** A cell is compared without its quotes and spaces, and without regard to case. */
  lemma NormalStep(c: char, rest: string)
    ensures Normal("") == ""
    ensures Normal([c] + rest) == (if c == '"' || c == ' ' then "" else if 'A' <= c <= 'Z' then [c - 'A' + 'a'] else [c]) + Normal(rest)
  {
    assert Lower([c] + rest) == [LowerChar(c)] + Lower(rest);
    var d, t := LowerChar(c), Lower(rest);
    WithoutStep(d, t, '"');
    if d == '"' { assert "" + Without(t, '"') == Without(t, '"'); } else { WithoutStep(d, Without(t, '"'), ' '); }
    assert "" + Normal(rest) == Normal(rest);
  }

  lemma WithoutStep(d: char, t: string, c: char)
    ensures Without([d] + t, c) == (if d == c then "" else [d]) + Without(t, c)
  {
    assert ([d] + t)[1..] == t;
  }

  lemma RequiredInLowerCase()
    ensures Lower("Nazev") == "nazev" && Lower("EAN") == "ean" && Lower("ProdejDPH") == "prodejdph"
    ensures Lower("MJ2") == "mj2" && Lower("MJ2Koef") == "mj2koef" && Lower("StavZ") == "stavz"
  {
    LowerIs("Nazev", "nazev");
    LowerIs("EAN", "ean");
    LowerIs("ProdejDPH", "prodejdph");
    LowerIs("MJ2", "mj2");
    LowerIs("MJ2Koef", "mj2koef");
    LowerIs("StavZ", "stavz");
  }

  lemma LowerIs(s: string, t: string)
    requires |s| == |t| && forall i :: 0 <= i < |s| ==> LowerChar(s[i]) == t[i]
    ensures Lower(s) == t
  {
  }

  /** Those of the names that are to be kept, in order. */
  function Those(names: seq<string>, keep: set<string>): seq<string> {
    if names == [] then [] else (if names[0] in keep then [names[0]] else []) + Those(names[1..], keep)
  }

  /** The cell is in a header that names no column c. */
  ghost predicate Nowhere(header: seq<string>, c: string) {
    forall i: nat :: !Names(header, i, c)
  }

  lemma {:induction false} MissingAreThose(header: seq<string>, columns: seq<string>, keep: set<string>)
    requires forall c :: c in columns ==> (c in keep <==> Nowhere(header, c))
    ensures MissingFrom(header, columns) == Those(columns, keep)
  {
    if columns != [] {
      PositionIsLast(header, columns[0]);
      MissingAreThose(header, columns[1..], keep);
      NowhereIsZero(header, columns[0]);
    }
  }

  lemma NowhereIsZero(header: seq<string>, c: string)
    ensures Nowhere(header, c) <==> Position(header, c) == 0
  {
    PositionIsLast(header, c);
    if Position(header, c) > 0 { assert Names(header, Position(header, c) - 1, c); }
  }

  /** The text under the last cell that names the column; empty in a row that ends before it. */
  lemma NamedExact(header: seq<string>, row: seq<string>, c: string, i: nat)
    requires Names(header, i, c) && forall j: nat :: j > i ==> !Names(header, j, c)
    ensures Named(header, row, c) == if i < |row| then row[i] else ""
  {
    PositionIsLast(header, c);
  }

  /** An output row: the six cells with three of them in quotes. */
  lemma OutRowIs(header: seq<string>, line: string)
    ensures var row := Split(line, ';');
      OutRow(header, line) ==
        Named(header, row, "Nazev") + ";" + (Named(header, row, "EAN") + ";" + ("\"" + Named(header, row, "ProdejDPH") + "\"" + ";"
        + (Named(header, row, "MJ2") + ";" + ("\"" + Named(header, row, "MJ2Koef") + "\"" + ";" + ("\"" + Named(header, row, "StavZ") + "\"")))))
  {
    hide Named, Split;
    var row := Split(line, ';');
    JoinSix(Named(header, row, "Nazev"), Named(header, row, "EAN"), Quoted(Named(header, row, "ProdejDPH")),
            Named(header, row, "MJ2"), Quoted(Named(header, row, "MJ2Koef")), Quoted(Named(header, row, "StavZ")));
  }

  lemma JoinSix(a: string, b: string, c: string, d: string, e: string, f: string)
    ensures Join([a, b, c, d, e, f], ';') == a + ";" + (b + ";" + (c + ";" + (d + ";" + (e + ";" + f))))
  {
    JoinOne(a, [b, c, d, e, f]);
    JoinOne(b, [c, d, e, f]);
    JoinOne(c, [d, e, f]);
    JoinOne(d, [e, f]);
    JoinOne(e, [f]);
    hide Join;
    assert Join([f], ';') == f by { JoinNone(f); }
    assert [a] + [b, c, d, e, f] == [a, b, c, d, e, f];
    assert [b] + [c, d, e, f] == [b, c, d, e, f] && [c] + [d, e, f] == [c, d, e, f];
    assert [d] + [e, f] == [d, e, f] && [e] + [f] == [e, f];
  }

  lemma JoinOne(a: string, rest: seq<string>)
    requires rest != []
    ensures Join([a] + rest, ';') == a + ";" + Join(rest, ';')
  {
    assert ([a] + rest)[1..] == rest;
  }

  lemma JoinNone(f: string)
    ensures Join([f], ';') == f
  {
  }

  /** What the script leaves behind, for any exported lines: nothing to read from an empty export; no
      name at all for a header that names none of the six columns; for one that names some, those it
      does not name, in order; and otherwise the header of six names and one row for every line. */
  lemma ScriptExact(lines: seq<string>)
    ensures Script(lines) == NoData <==> lines == []
    ensures lines != [] ==>
      var out, header := Script(lines), Split(lines[0], ';');
      var names := ["Nazev", "EAN", "ProdejDPH", "MJ2", "MJ2Koef", "StavZ"];
      var missing := set c | c in names && Nowhere(header, c);
      if |missing| == 6 then out == Aborted
      else if missing != {} then out == Missing(Those(names, missing))
      else
        && out.Lines? && |out.lines| == |lines| && out.lines[0] == "Nazev;EAN;ProdejDPH;MJ2;MJ2Koef;StavZ"
        && forall k :: 0 < k < |lines| ==> out.lines[k] == OutRow(header, lines[k])
  {
    hide Split, OutRow, Nowhere, MissingFrom, NamesNone, Join, Those;
    if lines != [] {
      var header := Split(lines[0], ';');
      var missing := set c | c in REQUIRED && Nowhere(header, c);
      MissingAreThose(header, REQUIRED, missing);
      NoneIsMissing(header, missing);
      FirstLineIs();
    }
  }

  lemma FirstLineIs()
    ensures Join(REQUIRED, ';') == "Nazev;EAN;ProdejDPH;MJ2;MJ2Koef;StavZ"
  {
    JoinSix("Nazev", "EAN", "ProdejDPH", "MJ2", "MJ2Koef", "StavZ");
    hide Join;
    SixNames();
  }

  lemma SixNames()
    ensures "Nazev" + ";" + ("EAN" + ";" + ("ProdejDPH" + ";" + ("MJ2" + ";" + ("MJ2Koef" + ";" + "StavZ"))))
         == "Nazev;EAN;ProdejDPH;MJ2;MJ2Koef;StavZ"
  {
  }

  lemma NoneIsMissing(header: seq<string>, missing: set<string>)
    requires forall c :: c in missing <==> c in REQUIRED && Nowhere(header, c)
    ensures |missing| == 6 <==> NamesNone(header)
    ensures missing == {} <==> MissingFrom(header, REQUIRED) == []
  {
    hide Nowhere;
    MissingFromExact(header, REQUIRED);
    forall c | c in REQUIRED ensures c in missing <==> Position(header, c) == 0 { NowhereIsZero(header, c); }
    var all := set c | c in REQUIRED;
    RequiredCount();
    assert missing <= all;
    if |missing| == 6 { SubsetOfSameSize(missing, all); }
    if NamesNone(header) { assert missing == all; }
    if missing != {} {
      var c :| c in missing;
      assert c in MissingFrom(header, REQUIRED);
    }
    if MissingFrom(header, REQUIRED) != [] { assert MissingFrom(header, REQUIRED)[0] in missing; }
  }

  lemma SubsetOfSameSize<T>(a: set<T>, b: set<T>)
    requires a <= b && |a| == |b|
    ensures a == b
  {
    if !(b <= a) {
      var x :| x in b && x !in a;
      assert a <= b - {x};
      SizeOfSubset(a, b - {x});
    }
  }

  lemma {:induction false} SizeOfSubset<T>(a: set<T>, b: set<T>)
    requires a <= b
    ensures |a| <= |b|
  {
    if a != {} {
      var x :| x in a;
      SizeOfSubset(a - {x}, b - {x});
    }
  }

  lemma RequiredCount()
    ensures |set c | c in REQUIRED| == |REQUIRED|
  {
    RequiredAreDistinct();
    var all := set c | c in REQUIRED;
    assert all == {"Nazev", "EAN", "ProdejDPH", "MJ2", "MJ2Koef", "StavZ"};
  }

  /** The test that counts the entries of found_indices finds out whether a column is missing. */
  lemma CountingFindsMissing(header: seq<string>, found: map<string, nat>)
    requires Found(header, found, REQUIRED)
    ensures |found| == |REQUIRED| <==> MissingFrom(header, REQUIRED) == []
  {
    MissingFromExact(header, REQUIRED);
    RequiredCount();
    var all := set c | c in REQUIRED;
    assert |found| == |found.Keys| && found.Keys <= all;
    if |found| == |REQUIRED| {
      SubsetOfSameSize(found.Keys, all);
    }
    var missing := MissingFrom(header, REQUIRED);
    assert missing != [] ==> missing[0] in missing;
    if missing == [] {
      assert found.Keys == all;
    }
  }

  lemma EmptyFindsNone(header: seq<string>, found: map<string, nat>)
    requires Found(header, found, REQUIRED)
    ensures |found| == 0 <==> NamesNone(header)
  {
    if |found| > 0 {
      assert |found| == |found.Keys|;
      var c :| c in found.Keys;
      assert Position(header, c) > 0;
    }
  }

  predicate Located(header: seq<string>, found: map<string, nat>, columns: seq<string>) {
    forall c :: c in columns ==> c in found && found[c] == Position(header, c)
  }

  lemma AllAreFound(header: seq<string>, found: map<string, nat>, columns: seq<string>)
    requires Found(header, found, columns) && MissingFrom(header, columns) == []
    ensures Located(header, found, columns)
  {
    MissingFromExact(header, columns);
  }

  /** mdb_to_csv.sh, on the lines that mdb-export has written */
  method ToCsv(lines: seq<string>) returns (out: Output)
    ensures out == Script(lines)
  {
    if lines == [] {
      return NoData;
    }
    var header := Split(lines[0], ';');
    var required := RequiredMap();
    var found := FindColumns(header, required, REQUIRED);
    EmptyFindsNone(header, found);
    if |found| == 0 {
      return Aborted;
    }
    CountingFindsMissing(header, found);
    if |found| != |REQUIRED| {
      out := ReportMissing(header, found, REQUIRED);
      return;
    }
    AllAreFound(header, found, REQUIRED);
    out := WriteRows(header, found, lines, Join(REQUIRED, ';'));
  }

  method WriteRows(ghost header: seq<string>, found: map<string, nat>, lines: seq<string>, first: string) returns (out: Output)
    requires lines != [] && Located(header, found, REQUIRED)
    ensures out == Lines([first] + OutRows(header, lines[1..]))
  {
    var rows := [];
    for k := 1 to |lines|
      invariant rows == OutRows(header, lines[1..k])
    {
      var row := WriteRow(header, found, lines[k]);
      rows := rows + [row];
      OutRowsStep(header, lines, k);
    }
    assert lines[1..|lines|] == lines[1..];
    out := Lines([first] + rows);
  }

  lemma OutRowsStep(header: seq<string>, lines: seq<string>, k: nat)
    requires 1 <= k < |lines|
    ensures OutRows(header, lines[1..k + 1]) == OutRows(header, lines[1..k]) + [OutRow(header, lines[k])]
  {
    assert lines[1..k + 1] == lines[1..k] + [lines[k]];
  }

  method WriteRow(ghost header: seq<string>, found: map<string, nat>, line: string) returns (row: string)
    requires Located(header, found, REQUIRED)
    ensures row == OutRow(header, line)
  {
    var f := Split(line, ';');
    var cells := Layout(
      Cell(f, found["Nazev"]), Cell(f, found["EAN"]), Cell(f, found["ProdejDPH"]),
      Cell(f, found["MJ2"]), Cell(f, found["MJ2Koef"]), Cell(f, found["StavZ"]));
    assert cells == OutCells(header, f);
    row := Join(cells, ';');
  }

  lemma MissingStep(header: seq<string>, columns: seq<string>, k: nat)
    requires k < |columns|
    ensures MissingFrom(header, columns[k..]) == Absent(header, columns[k]) + MissingFrom(header, columns[k + 1..])
  {
    assert columns[k..][1..] == columns[k + 1..];
  }

  method ReportMissing(ghost header: seq<string>, found: map<string, nat>, columns: seq<string>) returns (out: Output)
    requires Found(header, found, columns)
    ensures out == Missing(MissingFrom(header, columns))
  {
    var missing := [];
    for k := 0 to |columns|
      invariant missing + MissingFrom(header, columns[k..]) == MissingFrom(header, columns)
    {
      MissingStep(header, columns, k);
      var named := if columns[k] !in found then [columns[k]] else [];
      Regroup(missing, named, MissingFrom(header, columns[k + 1..]));
      missing := missing + named;
    }
    out := Missing(missing);
  }

  // ---- Tables --------------------------------------------------------------------------------

  /** A table as mdb-export prints it, if no cell holds the delimiter or a newline. */
  datatype Table = Table(header: seq<string>, rows: seq<seq<string>>)

  predicate Plain(cells: seq<string>) {
    forall i :: 0 <= i < |cells| ==> ';' !in cells[i] && '\n' !in cells[i]
  }

  predicate WellFormed(t: Table) {
    && t.header != [] && Plain(t.header)
    && forall k :: 0 <= k < |t.rows| ==> |t.rows[k]| == |t.header| && Plain(t.rows[k])
  }

  function Exported(t: Table): seq<string>
    requires WellFormed(t)
  {
    [Join(t.header, ';')] + seq(|t.rows|, k requires 0 <= k < |t.rows| => Join(t.rows[k], ';'))
  }

  /** The output rows, cell by cell. */
  function Projected(t: Table): seq<string> {
    seq(|t.rows|, k requires 0 <= k < |t.rows| => Join(OutCells(t.header, t.rows[k]), ';'))
  }

  lemma ScriptOnTable(t: Table)
    requires WellFormed(t)
    ensures Script(Exported(t)) == Judge(t.header, Projected(t))
  {
    var lines := Exported(t);
    JoinSplits(t.header, ';');
    forall k | 0 <= k < |t.rows| ensures OutRow(t.header, lines[1..][k]) == Projected(t)[k] {
      JoinSplits(t.rows[k], ';');
    }
    assert OutRows(t.header, lines[1..]) == Projected(t);
  }

  /** A name that occurs once in the header stands for the cell under it. */
  lemma NamedIsCellBelow(header: seq<string>, row: seq<string>, column: string, i: nat)
    requires |row| == |header| && Names(header, i, column)
    requires forall j: nat :: Names(header, j, column) ==> j == i
    ensures Named(header, row, column) == row[i]
  {
    PositionIsLast(header, column);
  }

  /** Every output row reads back as the six cells, in the order of REQUIRED. */
  lemma RowsReadBack(t: Table, k: nat)
    requires WellFormed(t) && MissingFrom(t.header, REQUIRED) == [] && k < |t.rows|
    ensures var out := Script(Exported(t));
            out.Lines? && |out.lines| == |t.rows| + 1 && Split(out.lines[k + 1], ';') == OutCells(t.header, t.rows[k])
  {
    hide OutCells, Join, Split;
    ScriptOnTable(t);
    OutCellsArePlain(t.header, t.rows[k]);
    JoinSplits(OutCells(t.header, t.rows[k]), ';');
    assert ([Join(REQUIRED, ';')] + Projected(t))[k + 1] == Projected(t)[k];
  }

  // ---- The order of the columns --------------------------------------------------------------

  /** perm rearranges n places, and inv puts them back. */
  predicate IsPermutation(perm: seq<nat>, inv: seq<nat>, n: nat) {
    && |perm| == |inv| == n
    && (forall i :: 0 <= i < n ==> perm[i] < n && inv[perm[i]] == i)
    && (forall i :: 0 <= i < n ==> inv[i] < n && perm[inv[i]] == i)
  }

  function Permuted(cells: seq<string>, perm: seq<nat>): (r: seq<string>)
    requires forall i :: 0 <= i < |perm| ==> perm[i] < |cells|
  {
    seq(|perm|, i requires 0 <= i < |perm| => cells[perm[i]])
  }

  function PermutedTable(t: Table, perm: seq<nat>): Table
    requires WellFormed(t) && forall i :: 0 <= i < |perm| ==> perm[i] < |t.header|
  {
    Table(Permuted(t.header, perm), seq(|t.rows|, k requires 0 <= k < |t.rows| => Permuted(t.rows[k], perm)))
  }

  /** At most one header cell names the column. */
  ghost predicate NamedOnce(header: seq<string>, column: string) {
    forall i: nat, j: nat :: Names(header, i, column) && Names(header, j, column) ==> i == j
  }

  ghost predicate Unambiguous(header: seq<string>) {
    forall c :: c in REQUIRED ==> NamedOnce(header, c)
  }

  lemma PositionMoves(header: seq<string>, perm: seq<nat>, inv: seq<nat>, column: string)
    requires IsPermutation(perm, inv, |header|) && NamedOnce(header, column)
    ensures var n := Position(header, column);
            Position(Permuted(header, perm), column) == if n == 0 then 0 else inv[n - 1] + 1
  {
    hide Normal, Lower;
    var n, moved := Position(header, column), Permuted(header, perm);
    var m := Position(moved, column);
    PositionIsLast(header, column);
    PositionIsLast(moved, column);
    if m > 0 {
      assert Names(header, perm[m - 1], column);
    }
    if n > 0 {
      assert Names(moved, inv[n - 1], column);
      assert m > 0 && perm[m - 1] == n - 1;
    }
  }

  lemma NamedMoves(header: seq<string>, row: seq<string>, perm: seq<nat>, inv: seq<nat>, column: string)
    requires |row| == |header| && IsPermutation(perm, inv, |header|) && NamedOnce(header, column)
    ensures Named(Permuted(header, perm), Permuted(row, perm), column) == Named(header, row, column)
  {
    PositionMoves(header, perm, inv, column);
    CellMoves(row, perm, inv, Position(header, column));
  }

  lemma CellMoves(row: seq<string>, perm: seq<nat>, inv: seq<nat>, n: nat)
    requires IsPermutation(perm, inv, |row|) && n <= |row|
    ensures Cell(Permuted(row, perm), if n == 0 then 0 else inv[n - 1] + 1) == Cell(row, n)
  {
  }

  lemma {:induction false} MissingStays(header: seq<string>, perm: seq<nat>, inv: seq<nat>, columns: seq<string>)
    requires IsPermutation(perm, inv, |header|)
    ensures MissingFrom(Permuted(header, perm), columns) == MissingFrom(header, columns)
  {
    if columns != [] {
      PositionZeroMoves(header, perm, inv, columns[0]);
      MissingStays(header, perm, inv, columns[1..]);
    }
  }

  lemma OutCellsStay(header: seq<string>, row: seq<string>, perm: seq<nat>, inv: seq<nat>)
    requires |row| == |header| && IsPermutation(perm, inv, |header|) && Unambiguous(header)
    ensures OutCells(Permuted(header, perm), Permuted(row, perm)) == OutCells(header, row)
  {
    forall c | c in REQUIRED ensures Named(Permuted(header, perm), Permuted(row, perm), c) == Named(header, row, c) {
      NamedMoves(header, row, perm, inv, c);
    }
  }

  lemma PositionZeroMoves(header: seq<string>, perm: seq<nat>, inv: seq<nat>, column: string)
    requires IsPermutation(perm, inv, |header|)
    ensures Position(Permuted(header, perm), column) == 0 <==> Position(header, column) == 0
  {
    hide Normal;
    var moved := Permuted(header, perm);
    PositionIsLast(header, column);
    PositionIsLast(moved, column);
    var n, m := Position(header, column), Position(moved, column);
    if n > 0 { assert Names(moved, inv[n - 1], column); }
    if m > 0 { assert Names(header, perm[m - 1], column); }
  }

  lemma NamesNoneMoves(header: seq<string>, perm: seq<nat>, inv: seq<nat>)
    requires IsPermutation(perm, inv, |header|)
    ensures NamesNone(Permuted(header, perm)) <==> NamesNone(header)
  {
    forall c | c in REQUIRED ensures Position(Permuted(header, perm), c) == 0 <==> Position(header, c) == 0 {
      PositionZeroMoves(header, perm, inv, c);
    }
  }

  lemma ProjectedStays(t: Table, perm: seq<nat>, inv: seq<nat>)
    requires WellFormed(t) && IsPermutation(perm, inv, |t.header|) && Unambiguous(t.header)
    ensures Projected(PermutedTable(t, perm)) == Projected(t)
  {
    forall k | 0 <= k < |t.rows| ensures Projected(PermutedTable(t, perm))[k] == Projected(t)[k] {
      OutCellsStay(t.header, t.rows[k], perm, inv);
    }
  }

  /** If no required name occurs twice in the header, or one is missing from it, the output or the
      error does not depend on the order of the table's columns. */
  lemma ColumnOrderDoesNotMatter(t: Table, perm: seq<nat>, inv: seq<nat>)
    requires WellFormed(t) && IsPermutation(perm, inv, |t.header|)
    requires Unambiguous(t.header) || MissingFrom(t.header, REQUIRED) != []
    ensures WellFormed(PermutedTable(t, perm))
    ensures Script(Exported(PermutedTable(t, perm))) == Script(Exported(t))
  {
    hide Script, Exported, Projected, MissingFrom, NamesNone;
    var p := PermutedTable(t, perm);
    ScriptOnTable(t);
    ScriptOnTable(p);
    MissingStays(t.header, perm, inv, REQUIRED);
    NamesNoneMoves(t.header, perm, inv);
    if Unambiguous(t.header) { ProjectedStays(t, perm, inv); }
  }

  function Swap(n: nat, i: nat, j: nat): (perm: seq<nat>)
    ensures i < n && j < n ==> IsPermutation(perm, perm, n)
  {
    seq(n, k requires 0 <= k < n => if k == i then j else if k == j then i else k)
  }

  /** A row that holds 1 in one column and 0 in all others. */
  function Marked(n: nat, at: nat): (row: seq<string>)
    ensures |row| == n && Plain(row)
  {
    seq(n, k requires 0 <= k < n => if k == at then "1" else "0")
  }

  /** Two places of the header that name the same column; the second is the one that is used. */
  lemma TwoNames(header: seq<string>) returns (column: string, i: nat)
    requires !Unambiguous(header)
    ensures column in REQUIRED && Position(header, column) > 0
    ensures i < Position(header, column) - 1 && Normal(header[i]) == Normal(header[Position(header, column) - 1])
  {
    column :| column in REQUIRED && !NamedOnce(header, column);
    PositionIsLast(header, column);
    var j: nat, k: nat :| Names(header, j, column) && Names(header, k, column) && j != k;
    i := if j < k then j else k;
  }

  lemma SwapKeepsPosition(header: seq<string>, i: nat, j: nat, column: string)
    requires i < |header| && j < |header| && Normal(header[i]) == Normal(header[j])
    ensures Position(Permuted(header, Swap(|header|, i, j)), column) == Position(header, column)
  {
    var moved := Permuted(header, Swap(|header|, i, j));
    assert forall k: nat :: Names(moved, k, column) <==> Names(header, k, column);
    var n, m := Position(header, column), Position(moved, column);
    hide Normal, Lower;
    PositionIsLast(header, column);
    PositionIsLast(moved, column);
    assert n > 0 ==> Names(moved, n - 1, column);
  }

  lemma DifferentCells(a: seq<string>, b: seq<string>)
    requires a != [] && b != [] && Plain(a) && Plain(b) && a != b
    ensures Join(a, ';') != Join(b, ';')
  {
    JoinSplits(a, ';');
    JoinSplits(b, ';');
  }

  lemma NamedIsPlain(header: seq<string>, row: seq<string>, column: string)
    requires Plain(row)
    ensures Plain([Named(header, row, column), Quoted(Named(header, row, column))])
  {
  }

  lemma OutCellsArePlain(header: seq<string>, row: seq<string>)
    requires Plain(row)
    ensures Plain(OutCells(header, row))
  {
    NamedIsPlain(header, row, "Nazev");
    NamedIsPlain(header, row, "EAN");
    NamedIsPlain(header, row, "ProdejDPH");
    NamedIsPlain(header, row, "MJ2");
    NamedIsPlain(header, row, "MJ2Koef");
    NamedIsPlain(header, row, "StavZ");
  }

  lemma QuotedTells(a: string, b: string)
    requires Quoted(a) == Quoted(b)
    ensures a == b
  {
    assert Quoted(a)[1..|Quoted(a)| - 1] == a && Quoted(b)[1..|Quoted(b)| - 1] == b;
  }

  lemma LayoutTells(a1: string, a2: string, a3: string, a4: string, a5: string, a6: string,
                    b1: string, b2: string, b3: string, b4: string, b5: string, b6: string)
    requires Layout(a1, a2, a3, a4, a5, a6) == Layout(b1, b2, b3, b4, b5, b6)
    ensures a1 == b1 && a2 == b2 && a3 == b3 && a4 == b4 && a5 == b5 && a6 == b6
  {
    var a, b := Layout(a1, a2, a3, a4, a5, a6), Layout(b1, b2, b3, b4, b5, b6);
    assert a[0] == b[0] && a[1] == b[1] && a[2] == b[2] && a[3] == b[3] && a[4] == b[4] && a[5] == b[5];
    QuotedTells(a3, b3);
    QuotedTells(a5, b5);
    QuotedTells(a6, b6);
  }

  lemma OutCellsTell(h1: seq<string>, r1: seq<string>, h2: seq<string>, r2: seq<string>, column: string)
    requires column in REQUIRED && OutCells(h1, r1) == OutCells(h2, r2)
    ensures Named(h1, r1, column) == Named(h2, r2, column)
  {
    LayoutTells(Named(h1, r1, "Nazev"), Named(h1, r1, "EAN"), Named(h1, r1, "ProdejDPH"),
                Named(h1, r1, "MJ2"), Named(h1, r1, "MJ2Koef"), Named(h1, r1, "StavZ"),
                Named(h2, r2, "Nazev"), Named(h2, r2, "EAN"), Named(h2, r2, "ProdejDPH"),
                Named(h2, r2, "MJ2"), Named(h2, r2, "MJ2Koef"), Named(h2, r2, "StavZ"));
  }

  /** Tables that are rearrangements of each other are told apart by the output of one cell. */
  lemma ScriptTells(t: Table, p: Table, column: string)
    requires WellFormed(t) && WellFormed(p) && |t.rows| == |p.rows| == 1
    requires MissingFrom(t.header, REQUIRED) == [] && column in REQUIRED
    requires Named(t.header, t.rows[0], column) != Named(p.header, p.rows[0], column)
    ensures Script(Exported(t)) != Script(Exported(p))
  {
    ScriptOnTable(t);
    ScriptOnTable(p);
    var a, b := OutCells(t.header, t.rows[0]), OutCells(p.header, p.rows[0]);
    OutCellsArePlain(t.header, t.rows[0]);
    OutCellsArePlain(p.header, p.rows[0]);
    if a == b { OutCellsTell(t.header, t.rows[0], p.header, p.rows[0], column); }
    DifferentCells(a, b);
    assert Projected(t)[0] == Join(a, ';') && Projected(p)[0] == Join(b, ';');
    LinesTell(Join(REQUIRED, ';'), Projected(t), Projected(p));
  }

  lemma LinesTell(first: string, a: seq<string>, b: seq<string>)
    requires a != b
    ensures Lines([first] + a) != Lines([first] + b)
  {
    assert ([first] + a)[1..] == a && ([first] + b)[1..] == b;
  }

  lemma CellOfMark(n: nat, i: nat, j: nat)
    requires i < j < n
    ensures Cell(Marked(n, j), j + 1) == "1" && Cell(Permuted(Marked(n, j), Swap(n, i, j)), j + 1) == "0"
  {
  }

  lemma SwapMovesMark(header: seq<string>, i: nat, j: nat, column: string)
    requires i < j < |header| && Normal(header[i]) == Normal(header[j]) && Position(header, column) == j + 1
    ensures Named(header, Marked(|header|, j), column) == "1"
    ensures var perm := Swap(|header|, i, j); Named(Permuted(header, perm), Permuted(Marked(|header|, j), perm), column) == "0"
  {
    SwapKeepsPosition(header, i, j, column);
    CellOfMark(|header|, i, j);
  }

  lemma MarkedTable(header: seq<string>, at: nat, perm: seq<nat>) returns (t: Table)
    requires header != [] && Plain(header) && IsPermutation(perm, perm, |header|)
    ensures t == Table(header, [Marked(|header|, at)]) && WellFormed(t)
    ensures WellFormed(PermutedTable(t, perm))
    ensures PermutedTable(t, perm) == Table(Permuted(header, perm), [Permuted(Marked(|header|, at), perm)])
  {
    t := Table(header, [Marked(|header|, at)]);
  }

  lemma SwapTells(header: seq<string>, i: nat, j: nat, column: string) returns (t: Table)
    requires Plain(header) && MissingFrom(header, REQUIRED) == [] && column in REQUIRED
    requires i < j < |header| && Normal(header[i]) == Normal(header[j]) && Position(header, column) == j + 1
    ensures t.header == header && WellFormed(t) && WellFormed(PermutedTable(t, Swap(|header|, i, j)))
    ensures Script(Exported(t)) != Script(Exported(PermutedTable(t, Swap(|header|, i, j))))
  {
    t := MarkedTable(header, j, Swap(|header|, i, j));
    SwapMovesMark(header, i, j, column);
    ScriptTells(t, PermutedTable(t, Swap(|header|, i, j)), column);
  }

  /** If a required name does occur twice, there is a table on which the order matters. */
  lemma ColumnOrderMatters(header: seq<string>) returns (t: Table, perm: seq<nat>)
    requires Plain(header) && MissingFrom(header, REQUIRED) == [] && !Unambiguous(header)
    ensures t.header == header && WellFormed(t) && IsPermutation(perm, perm, |header|)
    ensures WellFormed(PermutedTable(t, perm)) && Script(Exported(PermutedTable(t, perm))) != Script(Exported(t))
  {
    hide Script, Exported, MissingFrom, Unambiguous;
    var column, i := TwoNames(header);
    var j := Position(header, column) - 1;
    perm := Swap(|header|, i, j);
    t := SwapTells(header, i, j, column);
  }

  /** Whatever the rows, and however the columns are rearranged, the script says the same. */
  ghost predicate OrderIndependent(header: seq<string>) {
    forall t: Table, perm: seq<nat>, inv: seq<nat> :: t.header == header && WellFormed(t) && IsPermutation(perm, inv, |header|) ==>
      WellFormed(PermutedTable(t, perm)) && Script(Exported(PermutedTable(t, perm))) == Script(Exported(t))
  }

  /** Only then: the order of the columns matters exactly if all required columns are there and one
      of them twice. */
  lemma ColumnOrderMattersExactly(header: seq<string>)
    requires header != [] && Plain(header)
    ensures OrderIndependent(header) <==> Unambiguous(header) || MissingFrom(header, REQUIRED) != []
  {
    if Unambiguous(header) || MissingFrom(header, REQUIRED) != [] {
      forall t: Table, perm: seq<nat>, inv: seq<nat> | t.header == header && WellFormed(t) && IsPermutation(perm, inv, |header|)
        ensures WellFormed(PermutedTable(t, perm)) && Script(Exported(PermutedTable(t, perm))) == Script(Exported(t))
      {
        ColumnOrderDoesNotMatter(t, perm, inv);
      }
    } else {
      var t, perm := ColumnOrderMatters(header);
    }
  }

  // ---- From the table to the catalogue -------------------------------------------------------

  /** encoding/csv, LazyQuotes on, behind the quote that opens a field: the rest of the field's text
      up to its end, or None where the reader would run on into the next field. */
  function Unquote(s: string): Option<string> {
    var i := Index(s, "\"");
    if i < 0 then None
    else if i + 1 == |s| then Some(s[..i])
    else
      var rest := Unquote(if s[i + 1] == '"' then s[i + 2..] else s[i + 1..]);
      if rest.Some? then Some(s[..i] + "\"" + rest.value) else None
  }

  /** What the reader makes of the text of a field. */
  function ReadField(s: string): Option<string> {
    if s != "" && s[0] == '"' then Unquote(s[1..]) else Some(s)
  }

  /** A cell as mdb-export writes it: bare, or between quotes, with none inside. */
  predicate Simple(cell: string) {
    '"' !in cell || IsQuoted(cell)
  }

  predicate IsQuoted(cell: string) {
    |cell| >= 2 && cell[0] == '"' && cell[|cell| - 1] == '"' && '"' !in cell[1..|cell| - 1]
  }

  /** The cell without its quotes. */
  function Bare(cell: string): string {
    if IsQuoted(cell) then cell[1..|cell| - 1] else cell
  }

  /** The reader takes a simple cell's quotes off. */
  lemma SimpleIsRead(cell: string)
    requires Simple(cell)
    ensures ReadField(cell) == Some(Bare(cell))
  {
    if IsQuoted(cell) {
      var s := cell[1..];
      IndexOfByte(s, '"');
      assert s[|s| - 1] == '"' && s[..|s| - 1] == cell[1..|cell| - 1];
      assert forall k :: 0 <= k < |s| - 1 ==> s[k] == cell[1..|cell| - 1][k];
    }
  }

  lemma QuotedIsRead(cell: string)
    requires '"' !in cell
    ensures ReadField(Quoted(cell)) == Some(cell)
  {
    var q := Quoted(cell);
    assert q[1..|q| - 1] == cell;
    SimpleIsRead(q);
  }

  /** Nothing to trim but white space. */
  lemma CleanIsTrimmed(text: string)
    requires '"' !in text
    ensures Pipeline.Clean(text) == TrimSpace(text)
  {
    TrimKeepsOut(text);
  }

  lemma {:induction false} TrimLeftKeepsOut(s: string, c: char)
    requires c !in s
    ensures c !in TrimLeft(s)
    decreases |s|
  {
    if SpaceAt(s, 0) > 0 { TrimLeftKeepsOut(s[SpaceAt(s, 0)..], c); }
  }

  lemma {:induction false} TrimRightKeepsOut(s: string, c: char)
    requires c !in s
    ensures c !in TrimRight(s)
    decreases |s|
  {
    if TrailingSpace(s) > 0 { TrimRightKeepsOut(s[..|s| - TrailingSpace(s)], c); }
  }

  lemma TrimKeepsOut(s: string)
    requires '"' !in s
    ensures '"' !in TrimSpace(s)
  {
    TrimLeftKeepsOut(s, '"');
    TrimRightKeepsOut(TrimLeft(s), '"');
  }

  /** A row as ParseCSV gets it. */
  predicate ReadsAs(record: Pipeline.Record, cells: seq<string>)
    requires |cells| == 6
  {
    forall i :: 0 <= i < 6 ==> ReadField(cells[i]) == Some(record[i])
  }

  predicate WellQuoted(header: seq<string>, row: seq<string>) {
    && (forall i :: 0 <= i < |row| ==> Simple(row[i]))
    && '"' !in Named(header, row, "ProdejDPH") && '"' !in Named(header, row, "MJ2Koef") && '"' !in Named(header, row, "StavZ")
  }

  /** The reader gets six fields out of such a row. */
  lemma RowIsRead(header: seq<string>, row: seq<string>) returns (record: Pipeline.Record)
    requires WellQuoted(header, row)
    ensures ReadsAs(record, OutCells(header, row))
  {
    record := RecordOf(Named(header, row, "Nazev"), Named(header, row, "EAN"), Named(header, row, "ProdejDPH"),
                       Named(header, row, "MJ2"), Named(header, row, "MJ2Koef"), Named(header, row, "StavZ"));
  }

  lemma RecordOf(c1: string, c2: string, c3: string, c4: string, c5: string, c6: string) returns (record: Pipeline.Record)
    requires Simple(c1) && Simple(c2) && Simple(c4) && '"' !in c3 && '"' !in c5 && '"' !in c6
    ensures ReadsAs(record, Layout(c1, c2, c3, c4, c5, c6))
  {
    hide ReadField, Simple, Bare, Quoted;
    record := [Bare(c1), Bare(c2), c3, Bare(c4), c5, c6];
    SimpleIsRead(c1);
    SimpleIsRead(c2);
    QuotedIsRead(c3);
    SimpleIsRead(c4);
    QuotedIsRead(c5);
    QuotedIsRead(c6);
  }

  /** A row of the output becomes the product whose fields are the trimmed contents of the row's
      cells under the six names, wherever those columns stand — if quotes occur around texts only,
      not inside cells, and not around the three numbers that the script puts in quotes itself. */
  lemma ColumnsReachProduct(header: seq<string>, row: seq<string>, record: Pipeline.Record)
    requires WellQuoted(header, row) && ReadsAs(record, OutCells(header, row))
    ensures var p := Pipeline.ParseRecord(record);
            && p.name == TrimSpace(Bare(Named(header, row, "Nazev")))
            && p.barcode == TrimSpace(Bare(Named(header, row, "EAN")))
            && p.price == TrimSpace(Named(header, row, "ProdejDPH"))
            && p.unit == TrimSpace(Bare(Named(header, row, "MJ2")))
            && p.coef == TrimSpace(Named(header, row, "MJ2Koef"))
            && p.stock == TrimSpace(Named(header, row, "StavZ"))
  {
    hide ReadField, Simple, Bare, TrimSpace, Pipeline.Clean;
    TextIsCleaned(Named(header, row, "Nazev"), record[0]);
    TextIsCleaned(Named(header, row, "EAN"), record[1]);
    NumberIsCleaned(Named(header, row, "ProdejDPH"), record[2]);
    TextIsCleaned(Named(header, row, "MJ2"), record[3]);
    NumberIsCleaned(Named(header, row, "MJ2Koef"), record[4]);
    NumberIsCleaned(Named(header, row, "StavZ"), record[5]);
  }

  lemma TextIsCleaned(cell: string, field: string)
    requires Simple(cell) && ReadField(cell) == Some(field)
    ensures Pipeline.Clean(field) == TrimSpace(Bare(cell))
  {
    SimpleIsRead(cell);
    CleanIsTrimmed(field);
  }

  lemma NumberIsCleaned(cell: string, field: string)
    requires '"' !in cell && ReadField(Quoted(cell)) == Some(field)
    ensures Pipeline.Clean(field) == TrimSpace(cell)
  {
    QuotedIsRead(cell);
    CleanIsTrimmed(field);
  }
}
