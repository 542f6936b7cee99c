/** The receipt proxy: commands hidden in printed text (`parseCommand`), the payment they ask
    for (`parseQRPayArgs`) and what becomes of each receipt (`main`). */
module QrProxy {
  import opened GoStrings

  // ---- Go slices -----------------------------------------------------------------------------

  /** A []byte: the bytes lo..hi of an array, free to grow in place as far as cap. */
  datatype Slice = Slice(buf: array<char>, lo: nat, hi: nat, cap: nat) {
    ghost predicate Valid() {
      lo <= hi <= cap <= buf.Length
    }

    function Length(): nat
      requires Valid()
    {
      hi - lo
    }

    function Text(): string
      requires Valid()
      reads buf
    {
      buf[lo..hi]
    }

    /** s[i:j] keeps the capacity of s. */
    function Sub(i: nat, j: nat): (r: Slice)
      requires Valid() && i <= j <= hi - lo
      ensures r.Valid()
    {
      Slice(buf, lo + i, lo + j, cap)
    }

    /** s[:j:j] leaves no room to grow. */
    function Clipped(j: nat): (r: Slice)
      requires Valid() && j <= hi - lo
      ensures r.Valid()
    {
      Slice(buf, lo, lo + j, lo + j)
    }
  }

  lemma SubText(s: Slice, i: nat, j: nat)
    requires s.Valid() && i <= j <= s.Length()
    ensures s.Sub(i, j).Text() == s.Text()[i..j]
    ensures s.Clipped(j).Text() == s.Text()[..j]
  {
    assert s.buf[s.lo..s.hi][i..j] == s.buf[s.lo + i..s.lo + j];
    assert s.buf[s.lo..s.hi][..j] == s.buf[s.lo..s.lo + j];
  }

  /** append writes behind dst, into the array that dst shares with others. */
  predicate GrowsInPlace(dst: Slice, src: Slice)
    requires dst.Valid() && src.Valid()
  {
    0 < src.Length() && dst.hi + src.Length() <= dst.cap
  }

  /** append(dst, src...) */
  method Append(dst: Slice, src: Slice) returns (r: Slice)
    requires dst.Valid() && src.Valid()
    modifies if GrowsInPlace(dst, src) then {dst.buf} else {}
    ensures r.Valid() && r.Text() == old(dst.Text() + src.Text())
    ensures src.Length() == 0 ==> r == dst
    ensures GrowsInPlace(dst, src) ==> r == dst.(hi := dst.hi + src.Length())
    ensures GrowsInPlace(dst, src) ==> dst.buf[..dst.hi] == old(dst.buf[..dst.hi]) && dst.buf[r.hi..] == old(dst.buf[r.hi..])
    ensures src.Length() > 0 && !GrowsInPlace(dst, src) ==> fresh(r.buf)
  {
    if src.Length() == 0 {
      r := dst;
    } else if GrowsInPlace(dst, src) {
      Overwrite(dst.buf, dst.hi, src.Text());
      r := dst.(hi := dst.hi + src.Length());
      assert r.Text() == r.buf[dst.lo..dst.hi] + r.buf[dst.hi..r.hi];
      assert r.buf[dst.lo..dst.hi] == r.buf[..dst.hi][dst.lo..];
    } else {
      var all := dst.Text() + src.Text();
      var spare: nat :| 0 <= spare;
      var copied := new char[|all| + spare];
      Overwrite(copied, 0, all);
      r := Slice(copied, 0, |all|, |all| + spare);
    }
  }

  /** Stores a text at position at of an array. */
  method Overwrite(buf: array<char>, at: nat, text: string)
    requires at + |text| <= buf.Length
    modifies buf
    ensures buf[at..at + |text|] == text
    ensures buf[..at] == old(buf[..at]) && buf[at + |text|..] == old(buf[at + |text|..])
  {
    forall i | 0 <= i < |text| {
      buf[at + i] := text[i];
    }
  }

  // ---- Commands ------------------------------------------------------------------------------

  const TAG := "CMD:"

  datatype Command = Command(cmd: string, arg: string, stripped: string)

  /** The first word of a command line, and what follows it. */
  function SplitLine(line: string): (string, string) {
    var s := TrimSpace(line);
    var i := Index(s, " ");
    if i < 0 then (s, "") else (s[..i], TrimSpace(s[i + 1..]))
  }

  function Finish(line: string, stripped: string): Command {
    Command(SplitLine(line).0, SplitLine(line).1, stripped)
  }

  lemma NewlineAfterTag(s: string)
    requires OccursAt(s, TAG, 0) && Index(s, "\n") >= 0
    ensures Index(s, "\n") >= |TAG|
  {
    IndexOfByte(s, '\n');
    assert forall i :: 0 <= i < |TAG| ==> s[i] == TAG[i] && TAG[i] != '\n';
  }

  /** Where the line that starts at idx ends: at a newline, or at the end of the text. */
  function LineEnd(data: string, idx: nat): (end: nat)
    requires idx <= |data|
    ensures idx <= end <= |data|
  {
    var n := Index(data[idx..], "\n");
    if n < 0 then |data| else idx + n
  }

  lemma TagIsInLine(data: string, idx: nat)
    requires OccursAt(data, TAG, idx)
    ensures idx + |TAG| <= LineEnd(data, idx)
  {
    var s := data[idx..];
    assert s[0..|TAG|] == data[idx..idx + |TAG|];
    if Index(s, "\n") >= 0 { NewlineAfterTag(s); }
  }

  /** The text without the bytes from i to j, and without the newline at j, if there is one. */
  function Without(data: string, i: nat, j: nat): string
    requires i <= j <= |data|
  {
    if j < |data| then data[..i] + data[j + 1..] else data[..i]
  }

  lemma LineEndIs(data: string, idx: nat)
    requires idx <= |data|
    ensures var n := Index(data[idx..], "\n");
      if n < 0 then LineEnd(data, idx) == |data| && Without(data, idx, |data|) == data[..idx]
      else LineEnd(data, idx) == idx + n < |data| && Without(data, idx, idx + n) == data[..idx] + data[idx + n + 1..]
  {
  }

  /** parseCommand, on the text alone */
  function Parse(data: string): Command {
    var idx := Index(data, TAG);
    if idx < 0 then Command("", "", data)
    else
      TagIsInLine(data, idx);
      var end := LineEnd(data, idx);
      Finish(data[idx + |TAG|..end], Without(data, idx, end))
  }

  lemma ParseAt(data: string, idx: nat)
    requires Index(data, TAG) == idx && idx + |TAG| <= LineEnd(data, idx)
    ensures Parse(data) == Finish(data[idx + |TAG|..LineEnd(data, idx)], Without(data, idx, LineEnd(data, idx)))
  {
  }

  /** There is something behind the line that starts at idx. */
  predicate TextFollows(data: string, idx: nat) {
    idx <= |data| && LineEnd(data, idx) + 1 < |data|
  }

  /** append(data[:i:i], data[j:]...): append copies, because the slice in front has been denied
      any room to grow. */
  method WithoutMiddle(data: Slice, i: nat, j: nat) returns (rest: Slice)
    requires data.Valid() && i <= j <= data.Length()
    ensures rest.Valid() && rest.Text() == old(data.Text())[..i] + old(data.Text())[j..]
    ensures if j < data.Length() then fresh(rest.buf) else rest.buf == data.buf
  {
    SubText(data, j, data.Length());
    SubText(data, 0, i);
    rest := Append(data.Clipped(i), data.Sub(j, data.Length()));
  }

  /** The part of parseCommand that takes the command line out. */
  method CutCommand(data: Slice, idx: nat) returns (cmdLine: Slice, rest: Slice)
    requires data.Valid() && OccursAt(data.Text(), TAG, idx)
    ensures cmdLine.Valid() && cmdLine.buf == data.buf && rest.Valid()
    ensures var text := old(data.Text());
            var end := LineEnd(text, idx);
            && idx + |TAG| <= end
            && cmdLine.Text() == text[idx + |TAG|..end]
            && rest.Text() == Without(text, idx, end)
    ensures if TextFollows(old(data.Text()), idx) then fresh(rest.buf) else rest.buf == data.buf
  {
    hide Index;
    ghost var text := data.Text();
    var lineEnd := Index(data.Text()[idx..], "\n");
    TagIsInLine(text, idx);
    LineEndIs(text, idx);
    ghost var end := LineEnd(text, idx);
    SubText(data, idx + |TAG|, end);
    if lineEnd >= 0 {
      cmdLine := data.Sub(idx + |TAG|, idx + lineEnd);
      rest := WithoutMiddle(data, idx, idx + lineEnd + 1);
    } else {
      cmdLine := data.Sub(idx + |TAG|, data.Length());
      SubText(data, 0, idx);
      rest := data.Sub(0, idx);
    }
  }

  /** parseCommand: writes nothing that existed before, so the receipt it was given stays as it
      was; what it returns shares the receipt's array unless text followed the command line. */
  method ParseCommand(data: Slice) returns (cmd: string, arg: string, stripped: Slice)
    requires data.Valid()
    ensures stripped.Valid()
    ensures Command(cmd, arg, stripped.Text()) == Parse(old(data.Text()))
    ensures var text := old(data.Text());
            var idx := Index(text, TAG);
            if idx >= 0 && TextFollows(text, idx) then fresh(stripped.buf) else stripped.buf == data.buf
  {
    var idx := Index(data.Text(), TAG);
    if idx < 0 {
      return "", "", data;
    }
    ghost var text := data.Text();
    var cmdLine;
    cmdLine, stripped := CutCommand(data, idx);
    ParseAt(text, idx);
    var s := TrimSpace(cmdLine.Text());
    var i := Index(s, " ");
    if i >= 0 {
      cmd, arg := s[..i], TrimSpace(s[i + 1..]);
    } else {
      cmd, arg := s, "";
    }
    assert SplitLine(cmdLine.Text()) == (cmd, arg);
  }

  // ---- What is cut out of a receipt ----------------------------------------------------------

  /** data is a receipt whose first command line is `line`: no tag before it, tail is what
      follows, from the newline on. */
  predicate IsCut(data: string, head: string, line: string, tail: string) {
    && data == head + TAG + line + tail
    && Index(head, TAG) < 0
    && '\n' !in line
    && (tail == "" || tail[0] == '\n')
  }

  function Body(tail: string): string {
    if tail == "" then "" else tail[1..]
  }

  /** A tag never overlaps another one, so text before the tag cannot make it start earlier. */
  lemma TagStartsHere(head: string, rest: string)
    requires Index(head, TAG) < 0
    ensures Index(head + TAG + rest, TAG) == |head|
  {
    var data := head + TAG + rest;
    assert data[|head|..|head| + 4] == TAG;
    forall j: nat | j < |head| ensures !OccursAt(data, TAG, j) {
      IndexIsFirst(head, TAG);
      assert !OccursAt(head, TAG, j);
      if j + 4 <= |head| {
        assert data[j..j + 4] == head[j..j + 4];
      } else {
        assert data[|head|] == 'C' && data[|head|] == data[j..j + 4][|head| - j] != TAG[|head| - j];
      }
    }
    FirstOccurrence(data, TAG, |head|);
  }

  lemma LineEndIsAt(front: string, line: string, tail: string)
    requires '\n' !in line && (tail == "" || tail[0] == '\n')
    ensures LineEnd(front + line + tail, |front|) == |front| + |line|
  {
    var s := line + tail;
    assert (front + line + tail)[|front|..] == s;
    IndexOfByte(s, '\n');
    assert tail != "" ==> s[|line|] == '\n';
    assert forall k :: 0 <= k < |line| ==> s[k] == line[k];
  }

  lemma WithoutLine(head: string, line: string, tail: string)
    ensures Without(head + line + tail, |head|, |head| + |line|) == head + Body(tail)
  {
    var s := head + line + tail;
    assert s[..|head|] == head;
    if tail != "" { assert s[|head| + |line| + 1..] == tail[1..]; }
  }

  lemma CutPieces(head: string, line: string, tail: string)
    requires '\n' !in line && (tail == "" || tail[0] == '\n')
    ensures var data := head + TAG + line + tail;
            var end := LineEnd(data, |head|);
            && end == |head| + |TAG| + |line|
            && data[|head| + |TAG|..end] == line
            && Without(data, |head|, end) == head + Body(tail)
  {
    hide Index, LineEnd, Without, Body;
    var whole := TAG + line;
    Regroup(head, TAG, line);
    LineEndIsAt(head, whole, tail);
    WithoutLine(head, whole, tail);
  }

  lemma TagIsAt(head: string, line: string, tail: string)
    requires Index(head, TAG) < 0
    ensures Index(head + TAG + line + tail, TAG) == |head|
  {
    assert head + TAG + line + tail == head + TAG + (line + tail);
    TagStartsHere(head, line + tail);
  }

  /** Whatever the receipt's pieces are, exactly the command line and its newline go. */
  lemma CutIsParsed(data: string, head: string, line: string, tail: string)
    requires IsCut(data, head, line, tail)
    ensures Parse(data) == Finish(line, head + Body(tail))
  {
    CutPieces(head, line, tail);
    TagIsAt(head, line, tail);
    ParseAt(data, |head|);
  }

  /** Every receipt with a tag in it is cut in this way; without one, nothing changes. */
  lemma EveryReceiptIsCut(data: string)
    ensures Index(data, TAG) < 0 ==> Parse(data) == Command("", "", data)
    ensures Index(data, TAG) >= 0 ==>
              exists head, line, tail :: IsCut(data, head, line, tail) && Parse(data) == Finish(line, head + Body(tail))
  {
    if Index(data, TAG) >= 0 {
      var head, line, tail := CutExists(data);
      CutIsParsed(data, head, line, tail);
    }
  }

  lemma CutExists(data: string) returns (head: string, line: string, tail: string)
    requires Index(data, TAG) >= 0
    ensures IsCut(data, head, line, tail)
  {
    NoneBeforeFirst(data, TAG);
    head := data[..Index(data, TAG)];
    line, tail := FirstLine(data[Index(data, TAG) + |TAG|..]);
    InThree(data, Index(data, TAG), line, tail);
  }

  lemma FirstLine(s: string) returns (line: string, tail: string)
    ensures s == line + tail && '\n' !in line && (tail == "" || tail[0] == '\n')
  {
    IndexOfByte(s, '\n');
    var n := Index(s, "\n");
    line, tail := if n < 0 then s else s[..n], if n < 0 then "" else s[n..];
  }

  lemma InThree(data: string, idx: nat, line: string, tail: string)
    requires OccursAt(data, TAG, idx) && data[idx + |TAG|..] == line + tail
    ensures data == data[..idx] + TAG + line + tail
  {
    assert data == data[..idx] + data[idx..idx + |TAG|] + data[idx + |TAG|..];
  }

  // ---- Printing a command and parsing it -----------------------------------------------------

  lemma SpaceFreeIsTrimmed(w: string)
    requires SpaceFree(w)
    ensures Trimmed(w)
  {
  }

  lemma SpaceFreeHasNone(w: string)
    requires SpaceFree(w)
    ensures ' ' !in w && '\n' !in w
  {
    forall i | 0 <= i < |w| ensures w[i] != ' ' && w[i] != '\n' { assert SpaceAt(w, i) == 0; }
  }

  lemma OneSpaceIsGap()
    ensures IsGap("") && IsGap(" ")
  {
    RuneAndGap(" ", "");
  }

  /** A command line without an argument, however it is spaced. */
  lemma BareLineIsSplit(a: string, cmd: string, b: string)
    requires IsGap(a) && IsGap(b) && cmd != "" && SpaceFree(cmd)
    ensures SplitLine(a + (cmd + b)) == (cmd, "")
  {
    SpaceFreeIsTrimmed(cmd);
    TrimSpaceExact(a, cmd, b);
    SpaceFreeHasNone(cmd);
    IndexOfByte(cmd, ' ');
  }

  /** And one with an argument: a blank ends the command, and what white space follows it or the
      argument, or comes before it all, does not matter. */
  lemma LineIsSplit(a: string, cmd: string, g: string, arg: string, b: string)
    requires IsGap(a) && IsGap(g) && IsGap(b)
    requires cmd != "" && SpaceFree(cmd) && Trimmed(arg) && arg != ""
    ensures SplitLine(a + ((cmd + " " + (g + arg)) + b)) == (cmd, arg)
  {
    hide TrimSpace, Trimmed, IsGap, Index, SpaceFree;
    LineIsTrimmed(cmd, g, arg);
    TrimSpaceExact(a, cmd + " " + (g + arg), b);
    FirstBlank(cmd, g + arg);
    assert IsGap("") by { OneSpaceIsGap(); }
    TrimSpaceExact(g, arg, "");
    assert g + (arg + "") == g + arg;
  }

  lemma LineIsTrimmed(cmd: string, g: string, arg: string)
    requires IsGap(g) && cmd != "" && SpaceFree(cmd) && Trimmed(arg) && arg != ""
    ensures Trimmed(cmd + " " + (g + arg))
  {
    hide SpaceAt, TrailingSpace, SpaceFree, IsGap;
    LineStarts(cmd, g + arg);
    LineEnds(cmd, g, arg);
  }

  lemma LineStarts(cmd: string, rest: string)
    requires cmd != "" && SpaceFree(cmd)
    ensures SpaceAt(cmd + " " + rest, 0) == 0
  {
    Regroup(cmd, " ", rest);
    assert SpaceAt(" " + rest, 0) == 1;
    GapDoesNotJoin(cmd, " " + rest, 0);
  }

  lemma LineEnds(cmd: string, g: string, arg: string)
    requires IsGap(g) && Trimmed(arg) && arg != ""
    ensures TrailingSpace(cmd + " " + (g + arg)) == 0
  {
    hide SpaceAt, TrailingSpace, IsGap;
    OneSpaceIsGap();
    GapsJoin(" ", g);
    EndsBehindGap(cmd, " " + g, arg);
    Regroup(cmd, " ", g);
    Regroup(cmd + " ", g, arg);
  }

  lemma FirstBlank(cmd: string, rest: string)
    requires SpaceFree(cmd)
    ensures var s := cmd + " " + rest; Index(s, " ") == |cmd| && s[..|cmd|] == cmd && s[|cmd| + 1..] == rest
  {
    var s := cmd + " " + rest;
    SpaceFreeHasNone(cmd);
    IndexOfByte(s, ' ');
    hide SpaceFree, Index;
    assert s[|cmd|] == ' ' && s[..|cmd|] == cmd;
  }

  lemma PrintedLineIsSplit(cmd: string, arg: string)
    requires cmd != "" && SpaceFree(cmd) && Trimmed(arg)
    ensures SplitLine(cmd + " " + arg) == (cmd, arg)
  {
    OneSpaceIsGap();
    hide SplitLine, IsGap, SpaceFree, Trimmed;
    if arg == "" {
      BareLineIsSplit("", cmd, " ");
      assert "" + (cmd + " ") == cmd + " " + "";
    } else {
      LineIsSplit("", cmd, "", arg, "");
      assert "" + ((cmd + " " + ("" + arg)) + "") == cmd + " " + arg;
    }
  }

  /** The inverse of Parse: a receipt with a command line between two pieces of text. */
  function Printed(head: string, cmd: string, arg: string, body: string): string {
    head + TAG + cmd + " " + arg + "\n" + body
  }

  lemma PrintedIsCut(head: string, cmd: string, arg: string, body: string)
    requires Index(head, TAG) < 0 && SpaceFree(cmd) && '\n' !in arg
    ensures IsCut(Printed(head, cmd, arg, body), head, cmd + " " + arg, "\n" + body)
  {
    SpaceFreeHasNone(cmd);
    var line := cmd + " " + arg;
    assert '\n' !in line;
    assert Printed(head, cmd, arg, body) == head + TAG + line + ("\n" + body);
  }

  /** Parsing a printed command gives it back, and the receipt without it. */
  lemma ParsePrinted(head: string, cmd: string, arg: string, body: string)
    requires Index(head, TAG) < 0
    requires cmd != "" && SpaceFree(cmd)
    requires Trimmed(arg) && '\n' !in arg
    ensures Parse(Printed(head, cmd, arg, body)) == Command(cmd, arg, head + body)
  {
    PrintedLineIsSplit(cmd, arg);
    PrintedIsCut(head, cmd, arg, body);
    CutIsParsed(Printed(head, cmd, arg, body), head, cmd + " " + arg, "\n" + body);
    assert ("\n" + body)[1..] == body;
  }

  /** The end of head and the start of body make up a tag. */
  predicate JoinTag(head: string, body: string) {
    exists k: nat :: k in {1, 2, 3} && JoinTagAt(head, body, k)
  }

  predicate JoinTagAt(head: string, body: string, k: nat)
    requires 1 <= k <= 3
  {
    k <= |head| && 4 - k <= |body| && head[|head| - k..] == TAG[..k] && body[..4 - k] == TAG[k..]
  }

  /** What is left of a receipt holds another command exactly if what follows its first command
      line does, or if taking that line out has joined the two halves of one. */
  lemma WhenACommandRemains(data: string, head: string, line: string, tail: string)
    requires IsCut(data, head, line, tail)
    ensures Index(Parse(data).stripped, TAG) >= 0 <==> Index(Body(tail), TAG) >= 0 || JoinTag(head, Body(tail))
  {
    CutIsParsed(data, head, line, tail);
    if Index(head + Body(tail), TAG) >= 0 { TagIsSomewhere(head, Body(tail)); }
    if Index(Body(tail), TAG) >= 0 || JoinTag(head, Body(tail)) { TagInBody(head, Body(tail)); }
  }

  lemma TagInBody(head: string, body: string)
    requires Index(body, TAG) >= 0 || JoinTag(head, body)
    ensures Index(head + body, TAG) >= 0
  {
    IndexIsFirst(head + body, TAG);
    if Index(body, TAG) >= 0 {
      OccursBehind(head, body, TAG, Index(body, TAG));
    } else {
      var k :| k in {1, 2, 3} && JoinTagAt(head, body, k);
      TagAcross(head, body, k);
    }
  }

  lemma TagIsSomewhere(head: string, body: string)
    requires Index(head, TAG) < 0 && Index(head + body, TAG) >= 0
    ensures Index(body, TAG) >= 0 || JoinTag(head, body)
  {
    var at := Index(head + body, TAG);
    hide Index;
    if at >= |head| {
      IndexIsFirst(body, TAG);
      OccursBehind(head, body, TAG, at - |head|);
    } else if at + 4 <= |head| {
      IndexIsFirst(head, TAG);
      OccursInFront(head, body, TAG, at);
    } else {
      TagAcross(head, body, |head| - at);
      var k: nat := |head| - at;
      assert k in {1, 2, 3} && JoinTagAt(head, body, k);
    }
  }

  lemma TagAcross(head: string, body: string, k: nat)
    requires 1 <= k <= 3 && k <= |head|
    ensures JoinTagAt(head, body, k) <==> OccursAt(head + body, TAG, |head| - k)
  {
    if 4 - k <= |body| {
      var w := (head + body)[|head| - k..|head| - k + 4];
      assert w[..k] == head[|head| - k..];
      assert w[k..] == body[..4 - k];
      SameHalves(w, TAG, k);
    }
  }

  lemma SameHalves(a: string, b: string, k: nat)
    requires |a| == |b| && k <= |a|
    ensures a == b <==> a[..k] == b[..k] && a[k..] == b[k..]
  {
    assert a == a[..k] + a[k..] && b == b[..k] + b[k..];
  }

  /** Whatever the first command is, the two halves of another around it come together. */
  lemma HalvesMakeACommand(cmd: string, arg: string, rest: string)
    requires cmd != "" && SpaceFree(cmd)
    requires Trimmed(arg) && '\n' !in arg
    ensures Parse(Printed("CM", cmd, arg, "D:" + rest)).stripped == TAG + rest
  {
    hide Parse, Printed;
    ParsePrinted("CM", cmd, arg, "D:" + rest);
    assert "CM" + ("D:" + rest) == TAG + rest;
  }

  // ---- Payments ------------------------------------------------------------------------------

  datatype Payment = Payment(amount: string, ref: string)

  predicate IsAmount(part: string) {
    |part| >= 2 && part[..2] == "A:"
  }

  predicate IsRef(part: string) {
    |part| >= 3 && part[..3] == "VS:"
  }

  /** One turn of the loop: the key that is current afterwards, and the payment so far. */
  function Take(part: string, key: string, p: Payment): (string, Payment) {
    if IsAmount(part) then ("A", p.(amount := part[2..]))
    else if IsRef(part) then ("VS", p.(ref := part[3..]))
    else if key == "A" then (key, p.(amount := part))
    else if key == "VS" then (key, p.(ref := part))
    else (key, p)
  }

  function Scan(parts: seq<string>, key: string, p: Payment): Payment {
    if parts == [] then p else Scan(parts[1..], Take(parts[0], key, p).0, Take(parts[0], key, p).1)
  }

  function PayArgs(arg: string): Payment {
    Scan(Fields(arg), "", Payment("", ""))
  }

  /** parseQRPayArgs */
  method ParseQRPayArgs(arg: string) returns (amount: string, ref: string)
    ensures Payment(amount, ref) == PayArgs(arg)
  {
    var key := "";
    amount, ref := "", "";
    var parts := Fields(arg);
    var i := 0;
    while i < |parts|
      invariant 0 <= i <= |parts|
      invariant Scan(parts[i..], key, Payment(amount, ref)) == PayArgs(arg)
    {
      var part := parts[i];
      if IsAmount(part) {
        key, amount := "A", part[2..];
      } else if IsRef(part) {
        key, ref := "VS", part[3..];
      } else if key == "A" {
        amount := part;
      } else if key == "VS" {
        ref := part;
      }
      i := i + 1;
    }
  }

  /** The word gives the field of this name a value of its own. */
  predicate Names(part: string, key: string) {
    (key == "A" && IsAmount(part)) || (key == "VS" && IsRef(part) && !IsAmount(part))
  }

  /** Word i belongs to the field: the last word up to it that names any field names this one. */
  predicate BelongsTo(parts: seq<string>, i: nat, key: string)
    requires i < |parts|
  {
    exists j :: 0 <= j <= i && Names(parts[j], key) && forall k :: j < k <= i ==> !Labelled(parts[k])
  }

  /** What the word says. */
  function ValueIn(part: string): string {
    if IsAmount(part) then part[2..] else if IsRef(part) then part[3..] else part
  }

  /** Word i is the last one that belongs to the field. */
  ghost predicate BelongsLast(parts: seq<string>, i: nat, key: string) {
    i < |parts| && BelongsTo(parts, i, key) && forall k: nat :: i < k < |parts| ==> !BelongsTo(parts, k, key)
  }

  /** The last word that belongs to the field says its value; without one it is empty. */
  ghost predicate SaidLast(parts: seq<string>, key: string, value: string) {
    && (forall i: nat :: BelongsLast(parts, i, key) ==> value == ValueIn(parts[i]))
    && ((forall i: nat :: i < |parts| ==> !BelongsTo(parts, i, key)) ==> value == "")
  }

  /** The key and the payment after these words. */
  function After(parts: seq<string>): (string, Payment) {
    if parts == [] then ("", Payment("", ""))
    else
      var before := After(parts[..|parts| - 1]);
      Take(parts[|parts| - 1], before.0, before.1)
  }

  lemma {:induction false} ScanGoesOn(front: seq<string>, rest: seq<string>)
    ensures Scan(rest, After(front).0, After(front).1) == After(front + rest).1
    decreases |rest|
  {
    if rest == [] {
      assert front + rest == front;
    } else {
      var more := front + [rest[0]];
      assert more[..|front|] == front;
      ScanGoesOn(more, rest[1..]);
      assert more + rest[1..] == front + rest;
    }
  }

  /** The key is the field that the last word belongs to. */
  lemma {:induction false} KeyIsOwner(parts: seq<string>, key: string)
    requires parts != [] && key in {"A", "VS"}
    ensures After(parts).0 == key <==> BelongsTo(parts, |parts| - 1, key)
    ensures After(parts).0 in {"", "A", "VS"}
  {
    var n := |parts| - 1;
    var front := parts[..n];
    if Labelled(parts[n]) {
      if n > 0 { KeyIsOwner(front, key); }
      if After(parts).0 == key { assert Names(parts[n], key); }
    } else if n > 0 {
      KeyIsOwner(front, key);
      if BelongsTo(front, n - 1, key) {
        var j :| 0 <= j <= n - 1 && Names(front[j], key) && forall k :: j < k <= n - 1 ==> !Labelled(front[k]);
        assert Names(parts[j], key) && forall k :: j < k <= n ==> !Labelled(parts[k]);
      }
      if BelongsTo(parts, n, key) {
        var j :| 0 <= j <= n && Names(parts[j], key) && forall k :: j < k <= n ==> !Labelled(parts[k]);
        assert Names(front[j], key) && forall k :: j < k <= n - 1 ==> !Labelled(front[k]);
      }
    }
  }

  lemma BelongingStays(parts: seq<string>, i: nat, key: string)
    requires i < |parts| - 1
    ensures BelongsTo(parts, i, key) <==> BelongsTo(parts[..|parts| - 1], i, key)
  {
    var front := parts[..|parts| - 1];
    if BelongsTo(parts, i, key) {
      var j :| 0 <= j <= i && Names(parts[j], key) && forall k :: j < k <= i ==> !Labelled(parts[k]);
      assert Names(front[j], key);
    }
    if BelongsTo(front, i, key) {
      var j :| 0 <= j <= i && Names(front[j], key) && forall k :: j < k <= i ==> !Labelled(front[k]);
      assert Names(parts[j], key);
    }
  }

  lemma LastWordSays(parts: seq<string>, key: string)
    requires parts != [] && BelongsTo(parts, |parts| - 1, key)
    ensures SaidLast(parts, key, ValueIn(parts[|parts| - 1]))
  {
    hide BelongsTo, ValueIn;
    var n := |parts| - 1;
    forall i: nat | BelongsLast(parts, i, key) ensures i == n {
      assert BelongsTo(parts, n, key);
    }
  }

  lemma LastWordIsElsewhere(parts: seq<string>, key: string, value: string)
    requires parts != [] && !BelongsTo(parts, |parts| - 1, key) && SaidLast(parts[..|parts| - 1], key, value)
    ensures SaidLast(parts, key, value)
  {
    var n := |parts| - 1;
    forall i: nat | i < n ensures BelongsTo(parts, i, key) <==> BelongsTo(parts[..n], i, key) { BelongingStays(parts, i, key); }
    hide BelongsTo, ValueIn;
    forall i: nat | BelongsLast(parts, i, key) ensures value == ValueIn(parts[i]) {
      assert BelongsLast(parts[..n], i, key);
    }
  }

  lemma TakeSays(part: string, key: string, p: Payment)
    ensures var (k, q) := Take(part, key, p);
      && q.amount == (if k == "A" then ValueIn(part) else p.amount)
      && q.ref == (if k == "VS" then ValueIn(part) else p.ref)
  {
  }

  lemma {:induction false} AfterSaysLast(parts: seq<string>)
    ensures SaidLast(parts, "A", After(parts).1.amount) && SaidLast(parts, "VS", After(parts).1.ref)
  {
    if parts != [] {
      var n := |parts| - 1;
      var front := After(parts[..n]);
      AfterSaysLast(parts[..n]);
      TakeSays(parts[n], front.0, front.1);
      assert After(parts) == Take(parts[n], front.0, front.1);
      hide BelongsTo, Take, ValueIn, SaidLast, After;
      KeyIsOwner(parts, "A");
      KeyIsOwner(parts, "VS");
      if BelongsTo(parts, n, "A") { LastWordSays(parts, "A"); } else { LastWordIsElsewhere(parts, "A", front.1.amount); }
      if BelongsTo(parts, n, "VS") { LastWordSays(parts, "VS"); } else { LastWordIsElsewhere(parts, "VS", front.1.ref); }
    }
  }

  /** For any argument at all: amount and reference are what the last words say that belong to them;
      words in front of the first field belong to none. */
  lemma PayArgsExact(arg: string)
    ensures SaidLast(Fields(arg), "A", PayArgs(arg).amount) && SaidLast(Fields(arg), "VS", PayArgs(arg).ref)
  {
    var parts := Fields(arg);
    ScanGoesOn([], parts);
    assert [] + parts == parts;
    AfterSaysLast(parts);
  }

  /** The two ways of writing a field: name and value in one word, or in two. */
  function Field(name: string, value: string, apart: bool): seq<string> {
    if apart then [name, value] else [name + value]
  }

  /** A value that would be read as a field of its own. */
  predicate Labelled(value: string) {
    IsAmount(value) || IsRef(value)
  }

  function PayWords(amount: string, ref: string, amountApart: bool, refApart: bool, refFirst: bool): seq<string> {
    var a, r := Field("A:", amount, amountApart), Field("VS:", ref, refApart);
    if refFirst then r + a else a + r
  }

  /** The state of the loop after a field. */
  function Taken(name: string, value: string, p: Payment): (string, Payment) {
    if name == "A:" then ("A", p.(amount := value)) else ("VS", p.(ref := value))
  }

  lemma TakeName(name: string, value: string, key: string, p: Payment)
    requires name == "A:" || name == "VS:"
    ensures Take(name + value, key, p) == Taken(name, value, p)
  {
    var part := name + value;
    assert part[..|name|] == name && part[|name|..] == value;
    assert name == "VS:" ==> part[0] != 'A';
  }

  lemma TakeField(name: string, value: string, apart: bool, rest: seq<string>, key: string, p: Payment)
    requires name == "A:" || name == "VS:"
    requires apart ==> !Labelled(value)
    ensures Scan(Field(name, value, apart) + rest, key, p) == Scan(rest, Taken(name, value, p).0, Taken(name, value, p).1)
  {
    var parts := Field(name, value, apart) + rest;
    if apart {
      TakeName(name, "", key, p);
      assert name + "" == name;
      assert parts[1..][0] == value && parts[1..][1..] == rest;
    } else {
      TakeName(name, value, key, p);
      assert parts[1..] == rest;
    }
  }

  /** With values that are not read as fields themselves, both come back in either order. */
  lemma FieldsAreTaken(amount: string, ref: string, amountApart: bool, refApart: bool, refFirst: bool)
    requires (amountApart ==> !Labelled(amount)) && (refApart ==> !Labelled(ref))
    ensures Scan(PayWords(amount, ref, amountApart, refApart, refFirst), "", Payment("", "")) == Payment(amount, ref)
  {
    var a, r := Field("A:", amount, amountApart), Field("VS:", ref, refApart);
    if refFirst {
      TakeField("VS:", ref, refApart, a, "", Payment("", ""));
      TakeField("A:", amount, amountApart, [], "VS", Payment("", ref));
      assert a + [] == a;
    } else {
      TakeField("A:", amount, amountApart, r, "", Payment("", ""));
      TakeField("VS:", ref, refApart, [], "A", Payment(amount, ""));
      assert r + [] == r;
    }
  }

  function ValueOf(name: string, p: Payment): string {
    if name == "A:" then p.amount else p.ref
  }

  /** A labelled value in a word of its own never becomes the value of the field before it. */
  lemma Misread(name: string, value: string, rest: seq<string>, key: string, p: Payment)
    requires name == "A:" || name == "VS:"
    requires Labelled(value)
    ensures exists k, q :: Scan(Field(name, value, true) + rest, key, p) == Scan(rest, k, q) && ValueOf(name, q) != value
  {
    var parts := Field(name, value, true) + rest;
    TakeName(name, "", key, p);
    assert name + "" == name;
    assert parts[1..][0] == value && parts[1..][1..] == rest;
    var (k, q) := Take(value, Taken(name, "", p).0, Taken(name, "", p).1);
    assert |ValueOf(name, q)| < |value|;
    assert Scan(parts, key, p) == Scan(rest, k, q);
  }

  lemma TwoFields(first: string, v1: string, apart1: bool, second: string, v2: string, apart2: bool)
    requires (first, second) == ("A:", "VS:") || (first, second) == ("VS:", "A:")
    requires (apart1 && Labelled(v1)) || (apart2 && Labelled(v2))
    ensures var p := Scan(Field(first, v1, apart1) + Field(second, v2, apart2), "", Payment("", ""));
            ValueOf(first, p) != v1 || ValueOf(second, p) != v2
  {
    var p0 := Payment("", "");
    var f2 := Field(second, v2, apart2);
    assert f2 + [] == f2;
    if apart2 && Labelled(v2) {
      var k, q := AfterField(first, v1, apart1, f2, "", p0);
      Misread(second, v2, [], k, q);
    } else {
      Misread(first, v1, f2, "", p0);
      var k, q :| Scan(Field(first, v1, true) + f2, "", p0) == Scan(f2, k, q) && ValueOf(first, q) != v1;
      TakeField(second, v2, apart2, [], k, q);
    }
  }

  lemma AfterField(name: string, value: string, apart: bool, rest: seq<string>, key: string, p: Payment) returns (k: string, q: Payment)
    ensures Scan(Field(name, value, apart) + rest, key, p) == Scan(rest, k, q)
  {
    var parts := Field(name, value, apart) + rest;
    var one := Take(parts[0], key, p);
    if apart {
      assert parts[1..][0] == value && parts[1..][1..] == rest;
      var two := Take(value, one.0, one.1);
      k, q := two.0, two.1;
    } else {
      assert parts[1..] == rest;
      k, q := one.0, one.1;
    }
  }

  lemma WordsAreSpaceFree(name: string, value: string, apart: bool)
    requires name == "A:" || name == "VS:"
    requires value != "" && SpaceFree(value)
    ensures forall w :: w in Field(name, value, apart) ==> w != "" && SpaceFree(w)
  {
    var w := name + value;
    forall i | 0 <= i < |w| ensures SpaceAt(w, i) == 0 {
      if i >= |name| { assert SpaceAt(value, i - |name|) == 0; }
    }
    assert SpaceFree(name);
  }

  /** Whatever the order of the fields, the spacing, and the space after a colon, amount and
      reference are recovered, except when a value that stands apart looks like a field. */
  lemma PaymentRecovered(amount: string, ref: string, amountApart: bool, refApart: bool, refFirst: bool, gaps: seq<string>)
    requires amount != "" && SpaceFree(amount) && ref != "" && SpaceFree(ref)
    requires |gaps| == |PayWords(amount, ref, amountApart, refApart, refFirst)| + 1
    requires forall i :: 0 <= i < |gaps| ==> IsGap(gaps[i])
    requires forall i :: 0 < i < |gaps| - 1 ==> gaps[i] != ""
    ensures PayArgs(Spaced(PayWords(amount, ref, amountApart, refApart, refFirst), gaps)) == Payment(amount, ref)
            <==> !(amountApart && Labelled(amount)) && !(refApart && Labelled(ref))
  {
    var words := PayWords(amount, ref, amountApart, refApart, refFirst);
    WordsAreSpaceFree("A:", amount, amountApart);
    WordsAreSpaceFree("VS:", ref, refApart);
    assert forall i :: 0 <= i < |words| ==> words[i] in words;
    FieldsFindWords(words, gaps);
    if !(amountApart && Labelled(amount)) && !(refApart && Labelled(ref)) {
      FieldsAreTaken(amount, ref, amountApart, refApart, refFirst);
    } else if refFirst {
      TwoFields("VS:", ref, refApart, "A:", amount, amountApart);
    } else {
      TwoFields("A:", amount, amountApart, "VS:", ref, refApart);
    }
  }

  // ---- What becomes of a receipt -------------------------------------------------------------

  const BANK_POLL := "bank_poll"
  const NONE := "none"

  datatype Effect = Print(text: string) | Publish(amount: string, ref: string, confirmation: string) | Exit

  /** strings.ReplaceAll(amount, ",", ".") */
  function Dotted(amount: string): string {
    seq(|amount|, i requires 0 <= i < |amount| => if amount[i] == ',' then '.' else amount[i])
  }

  /** publishPaymentCommand */
  function PublishPayment(arg: string, confirmation: string): seq<Effect> {
    var p := PayArgs(arg);
    if p.amount == "" then [] else [Publish(Dotted(p.amount), p.ref, confirmation)]
  }

  /** One receipt in the loop of main. */
  function Handle(raw: string): seq<Effect> {
    var c := Parse(raw);
    if c.cmd == "QR_PAY" then PublishPayment(c.arg, BANK_POLL)
    else if c.cmd == "RECIEPT" then [Print(c.stripped)] + PublishPayment(c.arg, NONE)
    else if c.cmd == "RESTART" then [Exit]
    else [Print(c.stripped)]
  }

  predicate IsRestart(raw: string) {
    Parse(raw).cmd == "RESTART"
  }

  /** Receipts in the order of the channel, up to a restart. */
  function Serve(receipts: seq<string>): seq<Effect> {
    if receipts == [] then []
    else if IsRestart(receipts[0]) then [Exit]
    else Handle(receipts[0]) + Serve(receipts[1..])
  }

  /** The dispatch loop of main, on the receipts that arrive before the context ends. */
  method Dispatch(receipts: seq<string>) returns (effects: seq<Effect>)
    ensures effects == Serve(receipts)
  {
    effects := [];
    var i := 0;
    while i < |receipts|
      invariant 0 <= i <= |receipts|
      invariant effects + Serve(receipts[i..]) == Serve(receipts)
    {
      var c := Parse(receipts[i]);
      ghost var before := effects;
      if c.cmd == "QR_PAY" {
        effects := effects + PublishPayment(c.arg, BANK_POLL);
      } else if c.cmd == "RECIEPT" {
        effects := effects + [Print(c.stripped)];
        effects := effects + PublishPayment(c.arg, NONE);
        Regroup(before, [Print(c.stripped)], PublishPayment(c.arg, NONE));
      } else if c.cmd == "RESTART" {
        return effects + [Exit];
      } else {
        effects := effects + [Print(c.stripped)];
      }
      Regroup(before, Handle(receipts[i]), Serve(receipts[i..][1..]));
      i := i + 1;
    }
  }

  /** The texts sent to the printer. */
  function Printouts(effects: seq<Effect>): seq<string> {
    if effects == [] then []
    else (if effects[0].Print? then [effects[0].text] else []) + Printouts(effects[1..])
  }

  /** How many of the receipts are served before a restart. */
  function Served(receipts: seq<string>): (n: nat)
    ensures n <= |receipts|
  {
    if receipts == [] || IsRestart(receipts[0]) then 0 else 1 + Served(receipts[1..])
  }

  /** The text of a receipt that is to be printed, its command cut out: not that of a mere payment
      request, nor of a restart. */
  function Wanted(raw: string): seq<string> {
    var c := Parse(raw);
    if c.cmd == "QR_PAY" || c.cmd == "RESTART" then [] else [c.stripped]
  }

  function Stripped(receipts: seq<string>): seq<string> {
    if receipts == [] then [] else Stripped(receipts[..|receipts| - 1]) + Wanted(receipts[|receipts| - 1])
  }

  lemma {:induction false} PrintoutsAppend(a: seq<Effect>, b: seq<Effect>)
    ensures Printouts(a + b) == Printouts(a) + Printouts(b)
  {
    if a == [] {
      assert a + b == b;
    } else {
      PrintoutsAppend(a[1..], b);
      assert (a + b)[1..] == a[1..] + b;
      Regroup(if a[0].Print? then [a[0].text] else [], Printouts(a[1..]), Printouts(b));
    }
  }

  lemma HandlePrints(raw: string)
    ensures Printouts(Handle(raw)) == Wanted(raw)
  {
    var c := Parse(raw);
    if c.cmd == "RECIEPT" {
      PrintoutsAppend([Print(c.stripped)], PublishPayment(c.arg, NONE));
    }
  }

  lemma {:induction false} StrippedAppend(a: seq<string>, b: seq<string>)
    ensures Stripped(a + b) == Stripped(a) + Stripped(b)
    decreases |b|
  {
    hide Wanted;
    if b == [] {
      assert a + b == a;
    } else {
      var n := |b| - 1;
      StrippedAppend(a, b[..n]);
      assert (a + b)[..|a + b| - 1] == a + b[..n];
      Regroup(Stripped(a), Stripped(b[..n]), Wanted(b[n]));
    }
  }

  lemma StrippedOne(raw: string)
    ensures Stripped([raw]) == Wanted(raw)
  {
    assert [raw][..0] == [];
  }

  lemma StrippedFirst(receipts: seq<string>, n: nat)
    requires n < |receipts|
    ensures Stripped(receipts[..n + 1]) == Wanted(receipts[0]) + Stripped(receipts[1..][..n])
  {
    assert receipts[..n + 1] == [receipts[0]] + receipts[1..][..n];
    StrippedAppend([receipts[0]], receipts[1..][..n]);
    StrippedOne(receipts[0]);
  }

  /** Every receipt before a restart is handed to the printer once, in order and without its
      command, unless it only asks for a payment; nothing is handed over after a restart. */
  lemma {:induction false} HandedOverInOrder(receipts: seq<string>)
    ensures Printouts(Serve(receipts)) == Stripped(receipts[..Served(receipts)])
  {
    if receipts != [] && !IsRestart(receipts[0]) {
      HandedOverInOrder(receipts[1..]);
      HandlePrints(receipts[0]);
      PrintoutsAppend(Handle(receipts[0]), Serve(receipts[1..]));
      StrippedFirst(receipts, Served(receipts[1..]));
    }
  }

  /** Every receipt before a restart contributes what it asks for, in its place. */
  lemma {:induction false} ServedInPlace(receipts: seq<string>, i: nat)
    requires i < |receipts| && i <= Served(receipts)
    ensures Exit !in Serve(receipts[..i])
    ensures Serve(receipts) == Serve(receipts[..i]) + Serve(receipts[i..])
  {
    hide Handle, IsRestart;
    if i == 0 {
      assert receipts[..0] == [] && receipts[0..] == receipts;
    } else {
      var rest := receipts[1..];
      ServedInPlace(rest, i - 1);
      ExitOnlyForRestart(receipts[0]);
      assert receipts[..i] == [receipts[0]] + rest[..i - 1] && receipts[..i][1..] == rest[..i - 1];
      assert rest[i - 1..] == receipts[i..];
      Regroup(Handle(receipts[0]), Serve(rest[..i - 1]), Serve(receipts[i..]));
    }
  }

  lemma ExitOnlyForRestart(raw: string)
    ensures Exit in Handle(raw) <==> IsRestart(raw)
  {
  }

  // ---- From the till to the terminal ---------------------------------------------------------

  function PayArg(amount: string, ref: string): string {
    "A:" + amount + " VS:" + ref
  }

  lemma PayArgIsSpaced(amount: string, ref: string)
    ensures Spaced(PayWords(amount, ref, false, false, false), ["", " ", ""]) == PayArg(amount, ref)
  {
    var words := PayWords(amount, ref, false, false, false);
    var gaps := ["", " ", ""];
    assert words == ["A:" + amount, "VS:" + ref];
    assert gaps[1..] == [" ", ""] && gaps[1..][1..] == [""];
    assert Spaced(words[1..], gaps[1..]) == " " + (words[1] + "");
  }

  lemma PayArgIsTrimmed(amount: string, ref: string)
    requires SpaceFree(amount) && SpaceFree(ref) && ref != ""
    ensures Trimmed(PayArg(amount, ref)) && '\n' !in PayArg(amount, ref)
  {
    SpaceFreeHasNone(amount);
    SpaceFreeHasNone(ref);
    WordsAreSpaceFree("VS:", ref, false);
    SpaceFreeIsTrimmed("VS:" + ref);
    assert "VS:" + ref in Field("VS:", ref, false);
    OneSpaceIsGap();
    EndsBehindGap("A:" + amount, " ", "VS:" + ref);
    assert PayArg(amount, ref) == "A:" + amount + " " + ("VS:" + ref);
  }

  lemma PayArgIsRead(amount: string, ref: string)
    requires amount != "" && SpaceFree(amount) && ref != "" && SpaceFree(ref)
    ensures PayArgs(PayArg(amount, ref)) == Payment(amount, ref)
  {
    PayArgIsSpaced(amount, ref);
    PaymentRecovered(amount, ref, false, false, false, ["", " ", ""]);
  }

  lemma PaymentIsPublished(amount: string, ref: string, confirmation: string)
    requires amount != "" && SpaceFree(amount) && ref != "" && SpaceFree(ref)
    ensures PublishPayment(PayArg(amount, ref), confirmation) == [Publish(Dotted(amount), ref, confirmation)]
  {
    PayArgIsRead(amount, ref);
  }

  lemma PaymentIsParsed(head: string, cmd: string, amount: string, ref: string, body: string)
    requires Index(head, TAG) < 0
    requires cmd == "QR_PAY" || cmd == "RECIEPT"
    requires SpaceFree(amount) && ref != "" && SpaceFree(ref)
    ensures Parse(Printed(head, cmd, PayArg(amount, ref), body)) == Command(cmd, PayArg(amount, ref), head + body)
  {
    PayArgIsTrimmed(amount, ref);
    ParsePrinted(head, cmd, PayArg(amount, ref), body);
  }

  /** What a receipt with a command is served with: for QR_PAY its payment, if it has an amount, polled
      at the bank; for RECIEPT the text around the command, and then its payment, not polled; the
      end for RESTART; and otherwise the text around the command. */
  lemma PrintedIsHandled(head: string, cmd: string, arg: string, body: string)
    requires Index(head, TAG) < 0 && cmd != "" && SpaceFree(cmd) && Trimmed(arg) && '\n' !in arg
    ensures var effects, p := Handle(Printed(head, cmd, arg, body)), PayArgs(arg);
      && (cmd == "QR_PAY" && p.amount == "" ==> effects == [])
      && (cmd == "QR_PAY" && p.amount != "" ==> effects == [Publish(Dotted(p.amount), p.ref, "bank_poll")])
      && (cmd == "RECIEPT" && p.amount == "" ==> effects == [Print(head + body)])
      && (cmd == "RECIEPT" && p.amount != "" ==> effects == [Print(head + body), Publish(Dotted(p.amount), p.ref, "none")])
      && (cmd == "RESTART" ==> effects == [Exit])
      && (cmd !in {"QR_PAY", "RECIEPT", "RESTART"} ==> effects == [Print(head + body)])
  {
    hide Parse, PayArgs, Printed, Dotted;
    ParsePrinted(head, cmd, arg, body);
  }

  /** A receipt without a command is printed as it is. */
  lemma PlainIsHandled(raw: string)
    requires Index(raw, TAG) < 0
    ensures Handle(raw) == [Print(raw)]
  {
  }

  /** The amount with a point for every comma. */
  predicate IsDotted(amount: string, dotted: string) {
    |dotted| == |amount| && forall i :: 0 <= i < |amount| ==> dotted[i] == if amount[i] == ',' then '.' else amount[i]
  }

  /** In whatever company a payment comes out of the till: unless a restart comes first, it is
      published where it stands in the order of the receipts, with its dotted amount and its
      reference — for QR_PAY alone and to be polled for, for RECIEPT behind the receipt's text
      and not to be polled for. */
  lemma PaymentIsServed(receipts: seq<string>, i: nat, head: string, cmd: string, amount: string, ref: string, body: string)
    returns (dotted: string)
    requires i < |receipts| && i <= Served(receipts) && receipts[i] == Printed(head, cmd, PayArg(amount, ref), body)
    requires Index(head, TAG) < 0 && (cmd == "QR_PAY" || cmd == "RECIEPT")
    requires amount != "" && SpaceFree(amount) && ref != "" && SpaceFree(ref)
    ensures IsDotted(amount, dotted)
    ensures Serve(receipts)
      == Serve(receipts[..i])
       + (if cmd == "QR_PAY" then [Publish(dotted, ref, "bank_poll")] else [Print(head + body), Publish(dotted, ref, "none")])
       + Serve(receipts[i + 1..])
  {
    dotted := Dotted(amount);
    ServedInPlace(receipts, i);
    PaymentReachesTerminal(head, cmd, amount, ref, body);
    ExitOnlyForRestart(receipts[i]);
    hide Handle, IsRestart, Dotted;
    assert receipts[i..][1..] == receipts[i + 1..];
    Regroup(Serve(receipts[..i]), Handle(receipts[i]), Serve(receipts[i + 1..]));
  }

  /** A payment printed on a receipt reaches the terminal with its amount and reference, polled
      at the bank for QR_PAY; for RECIEPT the receipt is printed first, and nothing is polled. */
  lemma PaymentReachesTerminal(head: string, cmd: string, amount: string, ref: string, body: string)
    requires Index(head, TAG) < 0
    requires cmd == "QR_PAY" || cmd == "RECIEPT"
    requires amount != "" && SpaceFree(amount) && ref != "" && SpaceFree(ref)
    ensures Handle(Printed(head, cmd, PayArg(amount, ref), body))
            == if cmd == "QR_PAY" then [Publish(Dotted(amount), ref, "bank_poll")]
               else [Print(head + body), Publish(Dotted(amount), ref, "none")]
  {
    PaymentIsParsed(head, cmd, amount, ref, body);
    PaymentIsPublished(amount, ref, BANK_POLL);
    PaymentIsPublished(amount, ref, NONE);
  }
}
