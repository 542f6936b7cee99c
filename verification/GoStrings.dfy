/** Go strings, and the four routines of package strings that the programs lean on.

    A Go string is a sequence of bytes, so a `string` here holds one byte in each
    character. White space is what package unicode calls space, in its UTF-8
    encoding: one, two or three bytes. */
module GoStrings {

  predicate IsSpace1(a: char) {
    a == ' ' || '\t' <= a <= '\r'
  }

  predicate IsSpace2(a: char, b: char) {
    a == '\U{C2}' && (b == '\U{85}' || b == '\U{A0}')
  }

  predicate IsSpace3(a: char, b: char, c: char) {
    || (a == '\U{E1}' && b == '\U{9A}' && c == '\U{80}')
    || (a == '\U{E2}' && b == '\U{80}' && ('\U{80}' <= c <= '\U{8A}' || c == '\U{A8}' || c == '\U{A9}' || c == '\U{AF}'))
    || (a == '\U{E2}' && b == '\U{81}' && c == '\U{9F}')
    || (a == '\U{E3}' && b == '\U{80}' && c == '\U{80}')
  }

  /** How many bytes of s, from i on, encode one white-space rune; 0 if it does not start with one. */
  function SpaceAt(s: string, i: nat): (n: nat)
    ensures n <= 3 && (n > 0 ==> i + n <= |s|)
  {
    if i < |s| && IsSpace1(s[i]) then 1
    else if i + 1 < |s| && IsSpace2(s[i], s[i + 1]) then 2
    else if i + 2 < |s| && IsSpace3(s[i], s[i + 1], s[i + 2]) then 3
    else 0
  }

  /** The number of bytes of the white-space rune that s ends with; 0 if there is none. */
  function TrailingSpace(s: string): (n: nat)
    ensures n <= |s|
  {
    var k := |s|;
    if k >= 1 && SpaceAt(s, k - 1) == 1 then 1
    else if k >= 2 && SpaceAt(s, k - 2) == 2 then 2
    else if k >= 3 && SpaceAt(s, k - 3) == 3 then 3
    else 0
  }

  function TrimLeft(s: string): string {
    if SpaceAt(s, 0) == 0 then s else TrimLeft(s[SpaceAt(s, 0)..])
  }

  function TrimRight(s: string): string {
    if TrailingSpace(s) == 0 then s else TrimRight(s[..|s| - TrailingSpace(s)])
  }

  /** strings.TrimSpace */
  function TrimSpace(s: string): string {
    TrimRight(TrimLeft(s))
  }

  /** Neither end of s is white space. */
  predicate Trimmed(s: string) {
    SpaceAt(s, 0) == 0 && TrailingSpace(s) == 0
  }

  lemma {:induction false} TrimLeftTrims(s: string)
    ensures SpaceAt(TrimLeft(s), 0) == 0
    decreases |s|
  {
    if SpaceAt(s, 0) > 0 { TrimLeftTrims(s[SpaceAt(s, 0)..]); }
  }

  lemma {:induction false} TrimRightTrims(s: string)
    ensures TrailingSpace(TrimRight(s)) == 0
    ensures SpaceAt(s, 0) == 0 ==> SpaceAt(TrimRight(s), 0) == 0
    decreases |s|
  {
    if TrailingSpace(s) > 0 { TrimRightTrims(s[..|s| - TrailingSpace(s)]); }
  }

  /** TrimSpace leaves nothing to trim, and leaves a trimmed string alone. */
  lemma TrimSpaceTrims(s: string)
    ensures Trimmed(TrimSpace(s))
    ensures Trimmed(s) ==> TrimSpace(s) == s
    ensures TrimSpace(TrimSpace(s)) == TrimSpace(s)
  {
    TrimLeftTrims(s);
    TrimRightTrims(TrimLeft(s));
  }

  lemma FirstRune(s: string)
    ensures SpaceAt(s[..SpaceAt(s, 0)], 0) == SpaceAt(s, 0)
  {
  }

  lemma {:induction false} TrimLeftCuts(s: string) returns (a: string)
    ensures IsGap(a) && s == a + TrimLeft(s)
    decreases |s|
  {
    var n := SpaceAt(s, 0);
    FirstRune(s);
    assert IsGap("");
    hide SpaceAt, IsGap;
    if n == 0 {
      a := "";
    } else {
      var rest := TrimLeftCuts(s[n..]);
      a := s[..n] + rest;
      RuneAndGap(s[..n], rest);
      CutAt(s, n);
      Regroup(s[..n], rest, TrimLeft(s[n..]));
    }
  }

  lemma {:induction false} TrimRightCuts(s: string) returns (b: string)
    ensures IsGap(b) && s == TrimRight(s) + b
    decreases |s|
  {
    assert IsGap("");
    hide IsGap, SpaceAt;
    var n := TrailingSpace(s);
    if n == 0 {
      b := "";
    } else {
      var k := |s| - n;
      var rest := TrimRightCuts(s[..k]);
      LastRune(s);
      b := rest + s[k..];
      GapsJoin(rest, s[k..]);
      CutAt(s, k);
      Regroup(TrimRight(s[..k]), rest, s[k..]);
    }
  }

  lemma CutAt(s: string, k: nat)
    requires k <= |s|
    ensures s == s[..k] + s[k..]
  {
  }

  lemma LastRune(s: string)
    requires TrailingSpace(s) > 0
    ensures IsGap(s[|s| - TrailingSpace(s)..])
  {
    var rune := s[|s| - TrailingSpace(s)..];
    assert SpaceAt(rune, 0) == |rune|;
    assert rune[|rune|..] == "";
  }

  lemma RuneAndGap(rune: string, g: string)
    requires rune != "" && SpaceAt(rune, 0) == |rune| && IsGap(g)
    ensures IsGap(rune + g)
  {
    GapGoesFirst(rune, g);
    assert rune[|rune|..] + g == g;
  }

  lemma {:induction false} GapsJoin(a: string, b: string)
    requires IsGap(a) && IsGap(b)
    ensures IsGap(a + b)
    decreases |a|
  {
    if a == "" {
      assert a + b == b;
    } else {
      GapGoesFirst(a, b);
      GapsJoin(a[SpaceAt(a, 0)..], b);
    }
  }

  /** What TrimSpace takes off is nothing but white space, at either end. */
  lemma TrimSpaceCuts(s: string) returns (a: string, b: string)
    ensures IsGap(a) && IsGap(b) && s == a + TrimSpace(s) + b && Trimmed(TrimSpace(s))
  {
    a := TrimLeftCuts(s);
    b := TrimRightCuts(TrimLeft(s));
    Regroup(a, TrimSpace(s), b);
    TrimSpaceTrims(s);
  }

  /** Where the last rune of a gap begins. */
  lemma {:induction false} GapLast(g: string) returns (k: nat)
    requires IsGap(g) && g != ""
    ensures k < |g| && IsGap(g[..k]) && SpaceAt(g, k) == |g| - k
    decreases |g|
  {
    var n := SpaceAt(g, 0);
    if n == |g| {
      k := 0;
    } else {
      var rest := g[n..];
      var j := GapLast(rest);
      k := n + j;
      SpaceIn(g, n, j);
      FirstRune(g);
      RuneAndGap(g[..n], rest[..j]);
      assert g[..k] == g[..n] + rest[..j];
    }
  }

  lemma SpaceIn(s: string, n: nat, j: nat)
    requires n <= |s|
    ensures SpaceAt(s[n..], j) == SpaceAt(s, n + j)
  {
  }

  /** A white-space rune at the end is what TrimRight takes off first. */
  lemma LastRuneTrails(x: string, g: string, k: nat)
    requires k < |g| && SpaceAt(g, k) == |g| - k
    ensures TrailingSpace(x + g) == |g| - k
  {
    var s, n := x + g, |g| - k;
    assert s[|s| - n..] == g[k..];
    SpaceIn(s, |s| - n, 0);
    SpaceIn(g, k, 0);
  }

  lemma {:induction false} TrimRightDropsGap(t: string, g: string)
    requires IsGap(g) && TrailingSpace(t) == 0
    ensures TrimRight(t + g) == t
    decreases |g|
  {
    if g == "" {
      assert t + g == t;
    } else {
      var k := GapLast(g);
      LastRuneTrails(t, g, k);
      assert (t + g)[..|t| + k] == t + g[..k];
      TrimRightDropsGap(t, g[..k]);
    }
  }

  lemma {:induction false} TrimLeftDropsGap(g: string, t: string)
    requires IsGap(g) && SpaceAt(t, 0) == 0
    ensures TrimLeft(g + t) == t
    decreases |g|
  {
    if g == "" {
      assert g + t == t;
    } else {
      GapGoesFirst(g, t);
      TrimLeftDropsGap(g[SpaceAt(g, 0)..], t);
    }
  }

  lemma GapStartsWithSpace(g: string)
    requires IsGap(g) && g != ""
    ensures SpaceAt(g, 0) > 0
  {
  }

  /** TrimSpace yields exactly what stands between white space, wherever that is trimmed itself. */
  lemma TrimSpaceExact(a: string, t: string, b: string)
    requires IsGap(a) && IsGap(b) && Trimmed(t)
    ensures TrimSpace(a + (t + b)) == t
  {
    if t == "" {
      GapsJoin(a, b);
      assert t + b == b && (a + b) + "" == a + b;
      TrimLeftDropsGap(a + b, "");
    } else {
      if b != "" { GapStartsWithSpace(b); }
      GapDoesNotJoin(t, b, 0);
      TrimLeftDropsGap(a, t + b);
      TrimRightDropsGap(t, b);
    }
  }

  /** What follows a gap ends as it would alone. */
  lemma EndsBehindGap(x: string, g: string, t: string)
    requires IsGap(g) && g != "" && Trimmed(t) && t != ""
    ensures TrailingSpace(x + g + t) == 0
  {
    var k := GapLast(g);
    hide IsGap;
    var s := x + g + t;
    assert forall i :: 0 <= i < |t| ==> s[|x| + |g| + i] == t[i];
    assert forall i :: 0 <= i < |g| ==> s[|x| + i] == g[i];
  }

  /** The order sort.Strings sorts by: bytewise, a proper prefix first. */
  predicate Less(a: string, b: string) {
    if b == "" then false
    else if a == "" then true
    else a[0] < b[0] || (a[0] == b[0] && Less(a[1..], b[1..]))
  }

  lemma {:induction false} LessTotal(a: string, b: string)
    ensures a == b || Less(a, b) || Less(b, a)
    ensures !(Less(a, b) && Less(b, a)) && !Less(a, a)
  {
    if a != "" && b != "" {
      LessTotal(a[1..], b[1..]);
      LessTotal(a[1..], a[1..]);
      assert a[0] == b[0] && a[1..] == b[1..] ==> a == [a[0]] + a[1..] == b;
    } else if a != "" {
      LessTotal(a[1..], a[1..]);
    }
  }

  /** a sorts before b exactly if it is a proper beginning of b, or has the smaller byte where the two
      first differ. */
  lemma {:induction false} LessIsBytewise(a: string, b: string)
    ensures Less(a, b) <==> exists k: nat ::
      k <= |a| && k < |b| && a[..k] == b[..k] && (k == |a| || a[k] < b[k])
  {
    if Less(a, b) {
      var k := FirstDifference(a, b);
    }
    forall k: nat | k <= |a| && k < |b| && a[..k] == b[..k] && (k == |a| || a[k] < b[k]) ensures Less(a, b) {
      DifferenceDecides(a, b, k);
    }
  }

  lemma {:induction false} FirstDifference(a: string, b: string) returns (k: nat)
    requires Less(a, b)
    ensures k <= |a| && k < |b| && a[..k] == b[..k] && (k == |a| || a[k] < b[k])
  {
    k := 0;
    if a != "" && a[0] == b[0] {
      var n := FirstDifference(a[1..], b[1..]);
      k := n + 1;
      assert a[..k] == [a[0]] + a[1..][..n] && b[..k] == [b[0]] + b[1..][..n];
    }
  }

  lemma {:induction false} DifferenceDecides(a: string, b: string, k: nat)
    requires k <= |a| && k < |b| && a[..k] == b[..k] && (k == |a| || a[k] < b[k])
    ensures Less(a, b)
  {
    if k > 0 {
      assert a[0] == a[..k][0] == b[..k][0] == b[0];
      assert a[1..][..k - 1] == a[..k][1..] && b[1..][..k - 1] == b[..k][1..];
      DifferenceDecides(a[1..], b[1..], k - 1);
    }
  }

  lemma {:induction false} LessTransitive(a: string, b: string, c: string)
    requires Less(a, b) && Less(b, c)
    ensures Less(a, c)
  {
    if a != "" && a[0] == b[0] == c[0] {
      LessTransitive(a[1..], b[1..], c[1..]);
    }
  }

  ghost predicate Ascending(out: seq<string>) {
    forall i, j :: 0 <= i < j < |out| ==> Less(out[i], out[j])
  }

  /** out lists the strings of names, each once, in the order of sort.Strings. */
  ghost predicate SortsTo(names: set<string>, out: seq<string>) {
    Ascending(out) && forall n :: n in out <==> n in names
  }

  /** Puts n into its place in an ascending list. */
  function Insert(n: string, out: seq<string>): (r: seq<string>)
    requires Ascending(out)
    ensures Ascending(r)
    ensures forall m :: m in r <==> m == n || m in out
  {
    if out == [] then [n]
    else if n == out[0] then out
    else if Less(n, out[0]) then
      assert forall j :: 0 < j < |out| ==> Less(n, out[j]) by {
        forall j | 0 < j < |out| ensures Less(n, out[j]) { LessTransitive(n, out[0], out[j]); }
      }
      [n] + out
    else
      LessTotal(n, out[0]);
      var rest := Insert(n, out[1..]);
      assert forall j :: 0 <= j < |rest| ==> rest[j] == n || rest[j] in out[1..];
      [out[0]] + rest
  }

  lemma HeadIsMember(s: seq<string>)
    ensures s != [] ==> s[0] in s
  {
  }

  lemma {:induction false} SortingIsUnique(a: seq<string>, b: seq<string>)
    requires Ascending(a) && Ascending(b)
    requires forall n :: n in a <==> n in b
    ensures a == b
  {
    HeadIsMember(a);
    HeadIsMember(b);
    if a == [] {
    } else {
      var i :| 0 <= i < |b| && b[i] == a[0];
      var j :| 0 <= j < |a| && a[j] == b[0];
      LessTotal(a[0], b[0]);
      assert a[0] == b[0];
      forall n ensures n in a[1..] <==> n in b[1..] {
        LessTotal(a[0], a[0]);
        assert n in a[1..] ==> n in b && n != a[0];
        assert n in b[1..] ==> n in a && n != b[0];
      }
      SortingIsUnique(a[1..], b[1..]);
    }
  }

  // ---- Searching and splitting -------------------------------------------------------------

  /** strings.Index: the first place where pat occurs in s, or -1. */
  function Index(s: string, pat: string): (i: int)
    ensures -1 <= i && (i >= 0 ==> i + |pat| <= |s| && s[i..i + |pat|] == pat)
  {
    if |s| < |pat| then -1
    else if s[..|pat|] == pat then 0
    else if s == "" then -1
    else
      var i := Index(s[1..], pat);
      if i < 0 then -1 else i + 1
  }

  predicate OccursAt(s: string, pat: string, k: nat) {
    k + |pat| <= |s| && s[k..k + |pat|] == pat
  }

  /** Index yields the first occurrence, and misses none. */
  lemma {:induction false} IndexIsFirst(s: string, pat: string)
    ensures forall k: nat :: OccursAt(s, pat, k) ==> 0 <= Index(s, pat) <= k
  {
    forall k: nat | OccursAt(s, pat, k) ensures 0 <= Index(s, pat) <= k {
      if s[..|pat|] != pat && s != "" {
        IndexIsFirst(s[1..], pat);
        assert s[1..][k - 1..k - 1 + |pat|] == s[k..k + |pat|];
        assert OccursAt(s[1..], pat, k - 1);
      }
    }
  }

  lemma OccursBehind(a: string, b: string, pat: string, k: nat)
    ensures OccursAt(a + b, pat, |a| + k) <==> OccursAt(b, pat, k)
  {
    if k + |pat| <= |b| {
      assert (a + b)[|a| + k..|a| + k + |pat|] == b[k..k + |pat|];
    }
  }

  lemma OccursInFront(a: string, b: string, pat: string, k: nat)
    requires k + |pat| <= |a|
    ensures OccursAt(a + b, pat, k) <==> OccursAt(a, pat, k)
  {
    assert (a + b)[k..k + |pat|] == a[k..k + |pat|];
  }

  /** What comes before the first occurrence holds none. */
  lemma NoneBeforeFirst(s: string, pat: string)
    requires Index(s, pat) >= 0 && pat != ""
    ensures Index(s[..Index(s, pat)], pat) < 0
  {
    IndexIsFirst(s, pat);
    var n := Index(s, pat);
    assert s == s[..n] + s[n..];
    forall k: nat | k + |pat| <= n ensures !OccursAt(s[..n], pat, k) {
      OccursInFront(s[..n], s[n..], pat, k);
    }
    var j := Index(s[..n], pat);
    assert j >= 0 ==> OccursAt(s[..n], pat, j);
  }

  lemma FirstOccurrence(s: string, pat: string, k: nat)
    requires OccursAt(s, pat, k) && forall j: nat :: j < k ==> !OccursAt(s, pat, j)
    ensures Index(s, pat) == k
  {
    IndexIsFirst(s, pat);
    var i := Index(s, pat);
    assert 0 <= i <= k;
    assert OccursAt(s, pat, i);
  }

  /** strings.IndexByte: Index of a single byte. */
  lemma IndexOfByte(s: string, c: char)
    ensures var i := Index(s, [c]); if i < 0 then c !in s else s[i] == c && c !in s[..i]
  {
    var i := Index(s, [c]);
    IndexIsFirst(s, [c]);
    if i >= 0 { assert s[i] == s[i..i + 1][0]; }
    forall k: nat | k < |s| && s[k] == c ensures 0 <= i <= k {
      assert OccursAt(s, [c], k);
    }
  }

  lemma Regroup<T>(a: seq<T>, b: seq<T>, c: seq<T>)
    ensures (a + b) + c == a + (b + c)
  {
  }

  /** strings.Split at a single byte */
  function Split(s: string, sep: char): (parts: seq<string>)
    ensures |parts| >= 1
  {
    if s == "" then [""]
    else
      var rest := Split(s[1..], sep);
      if s[0] == sep then [""] + rest else [[s[0]] + rest[0]] + rest[1..]
  }

  /** The inverse of Split. */
  function Join(parts: seq<string>, sep: char): string
    requires |parts| >= 1
  {
    if |parts| == 1 then parts[0] else parts[0] + [sep] + Join(parts[1..], sep)
  }

  lemma {:induction false} SplitJoins(s: string, sep: char)
    ensures Join(Split(s, sep), sep) == s
    ensures forall i :: 0 <= i < |Split(s, sep)| ==> sep !in Split(s, sep)[i]
  {
    if s != "" {
      SplitJoins(s[1..], sep);
      var rest := Split(s[1..], sep);
      if s[0] != sep {
        var parts := Split(s, sep);
        assert parts[1..] == rest[1..];
        assert |rest| > 1 ==> parts[0] + [sep] + Join(rest[1..], sep) == [s[0]] + (rest[0] + [sep] + Join(rest[1..], sep));
      } else {
        assert Split(s, sep)[1..] == rest;
      }
    }
  }

  lemma {:induction false} SplitOne(a: string, sep: char)
    requires sep !in a
    ensures Split(a, sep) == [a]
  {
    if a != "" {
      SplitOne(a[1..], sep);
      assert [a[0]] + a[1..] == a;
    }
  }

  lemma {:induction false} SplitFirst(a: string, s: string, sep: char)
    requires sep !in a
    ensures Split(a + [sep] + s, sep) == [a] + Split(s, sep)
  {
    var t := a + [sep] + s;
    if a == "" {
      assert t[1..] == s;
    } else {
      SplitFirst(a[1..], s, sep);
      assert t[1..] == a[1..] + [sep] + s;
      assert [a[0]] + a[1..] == a;
      assert ([a[1..]] + Split(s, sep))[1..] == Split(s, sep);
    }
  }

  lemma {:induction false} JoinSplits(parts: seq<string>, sep: char)
    requires |parts| >= 1 && forall i :: 0 <= i < |parts| ==> sep !in parts[i]
    ensures Split(Join(parts, sep), sep) == parts
  {
    if |parts| == 1 {
      SplitOne(parts[0], sep);
    } else {
      JoinSplits(parts[1..], sep);
      SplitFirst(parts[0], Join(parts[1..], sep), sep);
    }
  }

  /** No white-space rune starts anywhere in s. */
  predicate SpaceFree(s: string) {
    forall i :: 0 <= i < |s| ==> SpaceAt(s, i) == 0
  }

  /** Nothing but white-space runes. */
  predicate IsGap(g: string) {
    g == "" || (SpaceAt(g, 0) > 0 && IsGap(g[SpaceAt(g, 0)..]))
  }

  /** A white-space rune starts with a byte that never occurs inside one. */
  lemma GapDoesNotJoin(w: string, g: string, i: nat)
    requires i < |w| && SpaceAt(w, i) == 0 && (g == "" || SpaceAt(g, 0) > 0)
    ensures SpaceAt(w + g, i) == 0
  {
  }

  /** The length of the word that s starts with: up to the next white-space rune. */
  function WordLength(s: string): (n: nat)
    ensures n <= |s|
  {
    if s == "" || SpaceAt(s, 0) > 0 then 0 else 1 + WordLength(s[1..])
  }

  /** strings.Fields */
  function Fields(s: string): seq<string>
    decreases |s|
  {
    if s == "" then []
    else if SpaceAt(s, 0) > 0 then Fields(s[SpaceAt(s, 0)..])
    else
      var n := WordLength(s);
      [s[..n]] + Fields(s[n..])
  }

  lemma SpaceShift(s: string, i: nat)
    requires s != ""
    ensures SpaceAt(s[1..], i) == SpaceAt(s, i + 1)
  {
  }

  lemma {:induction false} WordEndsAtGap(w: string, t: string)
    requires SpaceFree(w) && (t == "" || SpaceAt(t, 0) > 0)
    ensures WordLength(w + t) == |w|
  {
    if w == "" {
      assert w + t == t;
    } else {
      GapDoesNotJoin(w, t, 0);
      forall i | 0 <= i < |w[1..]| ensures SpaceAt(w[1..], i) == 0 { SpaceShift(w, i); }
      WordEndsAtGap(w[1..], t);
      assert (w + t)[1..] == w[1..] + t;
    }
  }

  lemma GapGoesFirst(g: string, t: string)
    requires g != "" && SpaceAt(g, 0) > 0
    ensures var n := SpaceAt(g, 0); SpaceAt(g + t, 0) == n && (g + t)[n..] == g[n..] + t
  {
    assert forall i :: 0 <= i < |g| ==> (g + t)[i] == g[i];
  }

  lemma {:induction false} FieldsSkipGap(g: string, t: string)
    requires IsGap(g)
    ensures Fields(g + t) == Fields(t)
    decreases |g|
  {
    if g == "" {
      assert g + t == t;
    } else {
      GapGoesFirst(g, t);
      FieldsSkipGap(g[SpaceAt(g, 0)..], t);
    }
  }

  /** The words with gaps between and around them. */
  function Spaced(words: seq<string>, gaps: seq<string>): string
    requires |gaps| == |words| + 1
  {
    if words == [] then gaps[0] else gaps[0] + (words[0] + Spaced(words[1..], gaps[1..]))
  }

  /** Fields gives back the words of a text, however they are spaced. */
  lemma {:induction false} FieldsFindWords(words: seq<string>, gaps: seq<string>)
    requires |gaps| == |words| + 1
    requires forall i :: 0 <= i < |words| ==> words[i] != "" && SpaceFree(words[i])
    requires forall i :: 0 <= i < |gaps| ==> IsGap(gaps[i])
    requires forall i :: 0 < i < |words| ==> gaps[i] != ""
    ensures Fields(Spaced(words, gaps)) == words
    decreases |words|
  {
    if words == [] {
      FieldsSkipGap(gaps[0], "");
      assert gaps[0] + "" == gaps[0];
    } else {
      var w, rest := words[0], Spaced(words[1..], gaps[1..]);
      FieldsSkipGap(gaps[0], w + rest);
      assert gaps[1..][0] == gaps[1];
      SpacedStartsWithGap(words[1..], gaps[1..]);
      WordEndsAtGap(w, rest);
      GapDoesNotJoin(w, rest, 0);
      FieldsFindWords(words[1..], gaps[1..]);
      assert (w + rest)[..|w|] == w && (w + rest)[|w|..] == rest;
      assert [w] + words[1..] == words;
    }
  }

  lemma SpacedStartsWithGap(words: seq<string>, gaps: seq<string>)
    requires |gaps| == |words| + 1 && IsGap(gaps[0]) && (words != [] ==> gaps[0] != "")
    ensures var t := Spaced(words, gaps); t == "" || SpaceAt(t, 0) > 0
  {
    if gaps[0] != "" && words != [] {
      var t := Spaced(words, gaps);
      assert forall i :: 0 <= i < |gaps[0]| ==> t[i] == gaps[0][i];
    }
  }
}
