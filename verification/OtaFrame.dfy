/** The chunk frame of an over-the-air update: `otaChunkFrame`, what a frame says to
    a receiver, and what a receiver can build from the frames that reach it. */
module OtaFrame {
  newtype byte = x: int | 0 <= x < 256

  type Bytes = seq<byte>

  const MAGIC: Bytes := [81, 79, 84, 65] // "QOTA"
  const SESSION_LENGTH := 32
  const HEADER_LENGTH := 42

  /** binary.BigEndian.PutUint16(uint16(n)): the two low bytes, high byte first. */
  function PutUint16(n: nat): (b: Bytes)
    ensures |b| == 2
  {
    [((n / 0x100) % 0x100) as byte, (n % 0x100) as byte]
  }

  function GetUint16(b: Bytes): nat
    requires |b| == 2
  {
    b[0] as nat * 0x100 + b[1] as nat
  }

  /** binary.BigEndian.PutUint32(uint32(n)): the four low bytes, high byte first. */
  function PutUint32(n: nat): (b: Bytes)
    ensures |b| == 4
  {
    PutUint16(n / 0x1_0000) + PutUint16(n)
  }

  function GetUint32(b: Bytes): nat
    requires |b| == 4
  {
    GetUint16(b[..2]) * 0x1_0000 + GetUint16(b[2..])
  }

  lemma Uint16ReadsBack(n: nat)
    ensures GetUint16(PutUint16(n)) == n % 0x1_0000
  {
    assert n % 0x1_0000 == n / 0x100 % 0x100 * 0x100 + n % 0x100;
  }

  lemma IntegersReadBack(n: nat)
    ensures GetUint16(PutUint16(n)) == n % 0x1_0000
    ensures GetUint32(PutUint32(n)) == n % 0x1_0000_0000
  {
    Uint16ReadsBack(n);
    Uint16ReadsBack(n / 0x1_0000);
    var b := PutUint32(n);
    assert b[..2] == PutUint16(n / 0x1_0000) && b[2..] == PutUint16(n);
    assert n % 0x1_0000_0000 == n / 0x1_0000 % 0x1_0000 * 0x1_0000 + n % 0x1_0000;
  }

  /** The header, byte by byte: magic 0..4, session 4..36, offset 36..40, length 40..42. */
  function HeaderByte(session: Bytes, offset: nat, length: nat, i: nat): byte
    requires |session| == SESSION_LENGTH && i < HEADER_LENGTH
  {
    if i < 4 then MAGIC[i]
    else if i < 36 then session[i - 4]
    else if i < 40 then PutUint32(offset)[i - 36]
    else PutUint16(length)[i - 40]
  }

  function Header(session: Bytes, offset: nat, length: nat): (b: Bytes)
    requires |session| == SESSION_LENGTH
    ensures |b| == HEADER_LENGTH
  {
    seq(HEADER_LENGTH, i requires 0 <= i < HEADER_LENGTH => HeaderByte(session, offset, length, i))
  }

  function Encode(session: Bytes, offset: nat, chunk: Bytes): (frame: Bytes)
    requires |session| == SESSION_LENGTH
    ensures |frame| == HEADER_LENGTH + |chunk|
  {
    Header(session, offset, |chunk|) + chunk
  }

  method OtaChunkFrame(session: Bytes, offset: nat, chunk: Bytes) returns (frame: Bytes)
    requires |session| == SESSION_LENGTH
    ensures frame == Encode(session, offset, chunk)
  {
    frame := [];
    frame := frame + MAGIC;
    frame := frame + session;
    var hdr := PutUint32(offset) + PutUint16(|chunk|);
    frame := frame + hdr;
    assert frame == Header(session, offset, |chunk|);
    frame := frame + chunk;
  }

  datatype Piece = NotAFrame | Piece(session: Bytes, offset: nat, payload: Bytes)

  /** What the layout says a frame means, read field by field from its own start: QOTA, the session,
      offset and length, the payload. */
  function Decode(frame: Bytes): Piece {
    if |frame| < 42 || frame[..4] != [81, 79, 84, 65] || |frame| - 42 != GetUint16(frame[40..42]) then NotAFrame
    else Piece(frame[4..36], GetUint32(frame[36..40]), frame[42..])
  }

  lemma HeaderFields(session: Bytes, offset: nat, length: nat)
    requires |session| == SESSION_LENGTH
    ensures var b := Header(session, offset, length);
      && b[..4] == MAGIC && b[4..36] == session
      && b[36..40] == PutUint32(offset) && b[40..42] == PutUint16(length)
  {
  }

  /** A frame gives back what went in, except that the offset wraps at 4 GiB; and it is
      readable at all exactly when the chunk's length fits its two bytes. */
  lemma DecodeEncode(session: Bytes, offset: nat, chunk: Bytes)
    requires |session| == SESSION_LENGTH
    ensures |chunk| < 0x1_0000 ==> Decode(Encode(session, offset, chunk)) == Piece(session, offset % 0x1_0000_0000, chunk)
    ensures |chunk| >= 0x1_0000 ==> Decode(Encode(session, offset, chunk)) == NotAFrame
  {
    var f, b := Encode(session, offset, chunk), Header(session, offset, |chunk|);
    HeaderFields(session, offset, |chunk|);
    assert f[..4] == b[..4];
    assert f[4..36] == b[4..36];
    assert f[36..40] == b[36..40];
    assert f[40..42] == b[40..42];
    assert f[42..] == chunk;
    IntegersReadBack(offset);
    IntegersReadBack(|chunk|);
  }

  /** The frames are the firmware's first `upto` bytes, cut into non-empty pieces of at
      most `limit` bytes, each labelled with where it starts. */
  predicate Tiles(frames: seq<Bytes>, session: Bytes, file: Bytes, limit: nat, upto: nat)
    requires |session| == SESSION_LENGTH
    decreases |frames|
  {
    if frames == [] then upto == 0
    else
      var last := frames[|frames| - 1];
      && HEADER_LENGTH < |last| <= HEADER_LENGTH + limit
      && |last| - HEADER_LENGTH <= upto <= |file|
      && var start := upto - (|last| - HEADER_LENGTH);
      && last == Encode(session, start, file[start..upto])
      && Tiles(frames[..|frames| - 1], session, file, limit, start)
  }

  /** The bytes the frames carry, one payload after another, as a receiver reads them. */
  function Payloads(frames: seq<Bytes>): Bytes {
    if frames == [] then []
    else
      var p := Decode(frames[|frames| - 1]);
      Payloads(frames[..|frames| - 1]) + (if p.Piece? then p.payload else [])
  }

  /** f is a readable frame of the session that carries a non-empty stretch of the
      firmware's first `upto` bytes, at the offset it names. */
  ghost predicate Carries(f: Bytes, session: Bytes, file: Bytes, limit: nat, upto: nat) {
    var p := Decode(f);
    && p.Piece? && p.session == session
    && 0 < |p.payload| <= limit
    && p.offset + |p.payload| <= upto <= |file|
    && p.payload == file[p.offset..p.offset + |p.payload|]
  }

  lemma LastTile(frames: seq<Bytes>, session: Bytes, file: Bytes, limit: nat, upto: nat)
    requires |session| == SESSION_LENGTH && limit < 0x1_0000 && |file| <= 0x1_0000_0000
    requires frames != [] && Tiles(frames, session, file, limit, upto)
    ensures var last := frames[|frames| - 1];
      var start := upto - (|last| - HEADER_LENGTH);
      && 0 <= start < upto <= |file|
      && Tiles(frames[..|frames| - 1], session, file, limit, start)
      && Decode(last) == Piece(session, start, file[start..upto])
      && upto - start <= limit
  {
    var start := upto - (|frames[|frames| - 1]| - HEADER_LENGTH);
    DecodeEncode(session, start, file[start..upto]);
  }

  /** Frames that tile carry, one payload after another, exactly the firmware's first bytes. */
  lemma {:induction false} TilesConcatenate(frames: seq<Bytes>, session: Bytes, file: Bytes, limit: nat, upto: nat)
    requires |session| == SESSION_LENGTH && limit < 0x1_0000 && |file| <= 0x1_0000_0000
    requires Tiles(frames, session, file, limit, upto)
    ensures upto <= |file| && Payloads(frames) == file[..upto]
  {
    if frames != [] {
      LastTile(frames, session, file, limit, upto);
      var start := upto - (|frames[|frames| - 1]| - HEADER_LENGTH);
      TilesConcatenate(frames[..|frames| - 1], session, file, limit, start);
      assert file[..start] + file[start..upto] == file[..upto];
    }
  }

  /** Each of them names the offset at which the payloads before it end. */
  lemma {:induction false} TilesInOrder(frames: seq<Bytes>, session: Bytes, file: Bytes, limit: nat, upto: nat, i: nat)
    requires |session| == SESSION_LENGTH && limit < 0x1_0000 && |file| <= 0x1_0000_0000
    requires Tiles(frames, session, file, limit, upto) && i < |frames|
    ensures Decode(frames[i]).Piece? && Decode(frames[i]).offset == |Payloads(frames[..i])|
  {
    LastTile(frames, session, file, limit, upto);
    var before := frames[..|frames| - 1];
    var start := upto - (|frames[|frames| - 1]| - HEADER_LENGTH);
    if i < |before| {
      TilesInOrder(before, session, file, limit, start, i);
      assert before[i] == frames[i] && before[..i] == frames[..i];
    } else {
      TilesConcatenate(before, session, file, limit, start);
    }
  }

  lemma {:induction false} TilesCarry(frames: seq<Bytes>, session: Bytes, file: Bytes, limit: nat, upto: nat)
    requires |session| == SESSION_LENGTH && limit < 0x1_0000 && |file| <= 0x1_0000_0000
    requires Tiles(frames, session, file, limit, upto)
    ensures upto <= |file|
    ensures forall f :: f in frames ==> Carries(f, session, file, limit, upto)
  {
    if frames != [] {
      var last, before := frames[|frames| - 1], frames[..|frames| - 1];
      LastTile(frames, session, file, limit, upto);
      var start := upto - (|last| - HEADER_LENGTH);
      TilesCarry(before, session, file, limit, start);
      forall f | f in frames ensures Carries(f, session, file, limit, upto) {
        if f in before { assert Carries(f, session, file, limit, start); }
      }
    }
  }

  /** A station's reaction to one frame: append the payload if the frame is for this session
      and starts exactly where the image held so far ends; otherwise keep the image. */
  function Accept(image: Bytes, session: Bytes, frame: Bytes): Bytes {
    var p := Decode(frame);
    if p.Piece? && p.session == session && p.offset == |image| then image + p.payload else image
  }

  /** The image after a station has seen the given deliveries, in their order. */
  function Assemble(session: Bytes, deliveries: seq<Bytes>): Bytes {
    if deliveries == [] then []
    else Accept(Assemble(session, deliveries[..|deliveries| - 1]), session, deliveries[|deliveries| - 1])
  }

  lemma AcceptKeepsPrefix(image: Bytes, f: Bytes, session: Bytes, file: Bytes, limit: nat, upto: nat)
    requires Carries(f, session, file, limit, upto)
    requires |image| <= upto && image == file[..|image|]
    ensures var next := Accept(image, session, f); |next| <= upto && next == file[..|next|]
  {
    var p := Decode(f);
    if p.offset == |image| {
      var k := |image| + |p.payload|;
      assert file[..|image|] + file[|image|..k] == file[..k];
    }
  }

  /** Whatever frames reach a station — any of the published ones, lost, repeated, delayed
      or reordered — its image is the beginning of the firmware. */
  lemma {:induction false} ImagesArePrefixes(frames: seq<Bytes>, session: Bytes, file: Bytes, limit: nat, upto: nat,
                                             deliveries: seq<Bytes>)
    requires |session| == SESSION_LENGTH && limit < 0x1_0000 && |file| <= 0x1_0000_0000
    requires Tiles(frames, session, file, limit, upto)
    requires forall f :: f in deliveries ==> f in frames
    ensures |Assemble(session, deliveries)| <= upto <= |file|
    ensures Assemble(session, deliveries) == file[..|Assemble(session, deliveries)|]
  {
    TilesCarry(frames, session, file, limit, upto);
    if deliveries != [] {
      var n := |deliveries| - 1;
      ImagesArePrefixes(frames, session, file, limit, upto, deliveries[..n]);
      assert deliveries[n] in frames;
      AcceptKeepsPrefix(Assemble(session, deliveries[..n]), deliveries[n], session, file, limit, upto);
    }
  }

  /** A station that gets every frame, in order, holds all that was sent. */
  lemma {:induction false} TilesAssemble(frames: seq<Bytes>, session: Bytes, file: Bytes, limit: nat, upto: nat)
    requires |session| == SESSION_LENGTH && limit < 0x1_0000 && |file| <= 0x1_0000_0000
    requires Tiles(frames, session, file, limit, upto)
    ensures upto <= |file| && Assemble(session, frames) == file[..upto]
  {
    if frames != [] {
      var n := |frames| - 1;
      LastTile(frames, session, file, limit, upto);
      var start := upto - (|frames[n]| - HEADER_LENGTH);
      TilesAssemble(frames[..n], session, file, limit, start);
      assert file[..start] + file[start..upto] == file[..upto];
    }
  }
}
