/** `uploadOTAChunksForDevices`: one stream of chunks for every discovered station, held
    back at every 64 KiB until all of them have caught up. */
module OtaBroadcast {
  import opened GoStrings
  import opened OtaFrame
  import opened OtaHost
  import opened OtaWait
  import opened OtaWindow

  const BARRIER := 64 * 1024

  function Min(a: nat, b: nat): nat {
    if a < b then a else b
  }

  /** The first half of a turn: read, and publish what was read. The second component says
      whether the file has ended. */
  function SendPart(h: Host, offset: nat, job: Job): (r: (Result<(nat, bool)>, Host))
    requires h.Readable() && job.Valid()
    ensures r.1.Readable() && r.1.file == h.file
    ensures r.0.Ok? ==> r.0.value.0 == offset + r.1.pos - h.pos && (r.0.value.1 <==> r.1.pos == h.pos)
    ensures r.0.Ok? && r.0.value.1 ==> h.pos == |h.file|
    ensures r.1.pos >= h.pos
  {
    var (r, h1) := h.Read(job.chunk);
    match r
    case Failed => (Err(ReadFailed), h1)
    case Eof => (Ok((offset, true)), h1)
    case Data(chunk) =>
      var (ok, h2) := h1.Publish(Chunk(Encode(job.session, offset, chunk)));
      (if ok then Ok((offset + |chunk|, false)) else Err(PublishFailed), h2)
  }

  /** Whether the stations must catch up before the next chunk. */
  predicate Holds(nextAck: nat, size: nat) {
    nextAck % BARRIER == 0 || nextAck == size
  }

  /** The second half: hold at a barrier. */
  ghost function CatchUp(h: Host, offset: nat, eof: bool, job: Job, devices: set<string>): (r: (Result<()>, Host))
    ensures After(h, r.1)
  {
    var nextAck := Min(offset, job.size);
    if Holds(nextAck, job.size) then WaitAll(h, devices, ACK, NACK, nextAck)
    else (if eof then Err(UnexpectedEof(nextAck, job.size)) else Ok(()), h)
  }

  ghost function Broadcast(h: Host, offset: nat, job: Job, devices: set<string>): (Result<()>, Host)
    requires h.Readable() && job.Valid()
    decreases |h.file| - h.pos
  {
    if offset >= job.size then (Ok(()), h)
    else
      var (sent, h1) := SendPart(h, offset, job);
      if sent.Err? then (Err(sent.error), h1)
      else
        var (held, h2) := CatchUp(h1, sent.value.0, sent.value.1, job, devices);
        if held.Err? || sent.value.1 then (held, h2)
        else Broadcast(h2, sent.value.0, job, devices)
  }

  ghost function UploadAll(h: Host, job: Job, devices: set<string>): (Result<()>, Host)
    requires job.Valid()
  {
    if h.openable then Broadcast(h.Open(), 0, job, devices) else (Err(OpenFailed), h)
  }

  method SendPartTo(link: Link, offset: nat, job: Job) returns (r: Result<(nat, bool)>)
    requires link.host.Readable() && job.Valid()
    modifies link
    ensures (r, link.host) == SendPart(old(link.host), offset, job)
  {
    var read := link.Read(job.chunk);
    match read
    case Failed =>
      return Err(ReadFailed);
    case Eof =>
      return Ok((offset, true));
    case Data(chunk) =>
      var frame := OtaChunkFrame(job.session, offset, chunk);
      var ok := link.Publish(Chunk(frame));
      if !ok {
        return Err(PublishFailed);
      }
      return Ok((offset + |chunk|, false));
  }

  method CatchUpWith(link: Link, offset: nat, eof: bool, job: Job, devices: seq<string>) returns (r: Result<()>)
    modifies link
    ensures (r, link.host) == CatchUp(old(link.host), offset, eof, job, Names(devices))
  {
    var nextAck := offset;
    if nextAck > job.size {
      nextAck := job.size;
    }
    if nextAck % BARRIER != 0 && nextAck != job.size {
      if eof {
        return Err(UnexpectedEof(nextAck, job.size));
      }
      return Ok(());
    }
    r := WaitAllOTADevices(link, devices, ACK, NACK, nextAck);
  }

  method UploadOTAChunksForDevices(link: Link, job: Job, devices: seq<string>) returns (r: Result<()>)
    requires job.Valid()
    modifies link
    ensures (r, link.host) == UploadAll(old(link.host), job, Names(devices))
  {
    if !link.host.openable {
      return Err(OpenFailed);
    }
    link.Open();
    var offset: nat := 0;
    while offset < job.size
      invariant link.host.Readable()
      invariant Broadcast(link.host, offset, job, Names(devices)) == UploadAll(old(link.host), job, Names(devices))
      decreases |link.host.file| - link.host.pos
    {
      var sent := SendPartTo(link, offset, job);
      if sent.Err? {
        return Err(sent.error);
      }
      var eof := sent.value.1;
      var held := CatchUpWith(link, sent.value.0, eof, job, devices);
      if held.Err? || eof {
        return held;
      }
      offset := sent.value.0;
    }
    return Ok(());
  }

  // ---- The stations keep up ----------------------------------------------------------------

  /** The last multiple of 64 KiB on which a chunk of t ended. */
  function LastBarrier(t: seq<Event>): nat {
    if t == [] then 0
    else if t[|t| - 1].Sent? && t[|t| - 1].message.Chunk? && SentBytes(t) % 0x1_0000 == 0 then SentBytes(t)
    else LastBarrier(t[..|t| - 1])
  }

  /** Since position `from` of t, every device has reported at least `level` bytes. */
  ghost predicate CaughtUp(t: seq<Event>, from: nat, devices: set<string>, level: nat) {
    level > 0 ==> forall d :: d in devices ==> Confirmed(t, from, d, {"chunk"}, level)
  }

  /** No chunk goes out before every device has confirmed the last barrier. */
  ghost predicate Lockstep(t: seq<Event>, from: nat, devices: set<string>) {
    forall i :: from <= i < |t| && t[i].Sent? ==> CaughtUp(t[..i], from, devices, LastBarrier(t[..i]))
  }

  /** The state of the broadcast between turns. */
  ghost predicate InStep(h: Host, offset: nat, job: Job, from: nat, devices: set<string>)
    requires job.Valid()
  {
    && h.Readable() && offset == h.pos && from <= |h.trace|
    && Tiles(Frames(h.trace), job.session, h.file, job.chunk, offset)
    && SentBytes(h.trace) == offset
    && Lockstep(h.trace, from, devices)
  }

  lemma CaughtUpGrows(t: seq<Event>, t': seq<Event>, from: nat, devices: set<string>, level: nat)
    requires t <= t' && CaughtUp(t, from, devices, level)
    ensures CaughtUp(t', from, devices, level)
  {
    if level > 0 {
      forall d | d in devices ensures Confirmed(t', from, d, ACK, level) {
        ConfirmedGrows(t, t', from, d, ACK, level, level);
      }
    }
  }

  lemma {:induction false} ListeningKeepsBarrier(t: seq<Event>, t': seq<Event>)
    requires Listened(t, t')
    ensures LastBarrier(t') == LastBarrier(t)
    decreases |t'|
  {
    if |t'| > |t| { ListeningKeepsBarrier(t, t'[..|t'| - 1]); } else { assert t == t'; }
  }

  lemma ListeningStaysInStep(h: Host, h': Host, offset: nat, job: Job, from: nat, devices: set<string>)
    requires job.Valid() && InStep(h, offset, job, from, devices) && After(h, h')
    ensures InStep(h', offset, job, from, devices)
    ensures CaughtUp(h.trace, from, devices, LastBarrier(h.trace)) ==> CaughtUp(h'.trace, from, devices, LastBarrier(h'.trace))
  {
    ListeningSendsNothing(h.trace, h'.trace);
    ListeningKeepsBarrier(h.trace, h'.trace);
    if CaughtUp(h.trace, from, devices, LastBarrier(h.trace)) {
      CaughtUpGrows(h.trace, h'.trace, from, devices, LastBarrier(h.trace));
    }
    forall i | from <= i < |h'.trace| && h'.trace[i].Sent?
      ensures CaughtUp(h'.trace[..i], from, devices, LastBarrier(h'.trace[..i]))
    {
      assert i < |h.trace| && h'.trace[..i] == h.trace[..i];
    }
  }

  lemma PublishTiles(t: seq<Event>, e: Event, file: Bytes, job: Job, upto: nat, n: nat)
    requires job.Valid() && Tiles(Frames(t), job.session, file, job.chunk, upto) && SentBytes(t) == upto
    requires 0 < n <= job.chunk && upto + n <= |file|
    requires e.Sent? && e.message == Chunk(Encode(job.session, upto, file[upto..upto + n]))
    ensures Tiles(Frames(t + [e]), job.session, file, job.chunk, upto + n) && SentBytes(t + [e]) == upto + n
    ensures LastBarrier(t + [e]) == if (upto + n) % BARRIER == 0 then upto + n else LastBarrier(t)
  {
    Append(t, e);
    var frames := Frames(t + [e]);
    assert frames[..|frames| - 1] == Frames(t);
    assert (t + [e])[..|t|] == t;
  }

  lemma LockstepAppend(t: seq<Event>, e: Event, from: nat, devices: set<string>)
    requires Lockstep(t, from, devices) && CaughtUp(t, from, devices, LastBarrier(t))
    ensures Lockstep(t + [e], from, devices)
  {
    var t' := t + [e];
    forall i | from <= i < |t'| && t'[i].Sent? ensures CaughtUp(t'[..i], from, devices, LastBarrier(t'[..i])) {
      assert t'[..i] == t[..i];
      if i == |t| { assert t'[..i] == t; }
    }
  }

  lemma PublishStaysInStep(h: Host, h2: Host, offset: nat, n: nat, ok: bool, job: Job, from: nat, devices: set<string>)
    requires job.Valid() && InStep(h, offset, job, from, devices)
    requires CaughtUp(h.trace, from, devices, LastBarrier(h.trace))
    requires 0 < n <= job.chunk && offset + n <= |h.file| && h2.file == h.file && h2.pos == offset + n
    requires h2.trace == h.trace + [Sent(Chunk(Encode(job.session, offset, h.file[offset..offset + n])), ok)]
    ensures InStep(h2, h2.pos, job, from, devices)
    ensures h2.pos % BARRIER == 0 ==> LastBarrier(h2.trace) == h2.pos
    ensures h2.pos % BARRIER != 0 ==> CaughtUp(h2.trace, from, devices, LastBarrier(h2.trace))
    ensures LastBarrier(h2.trace) == h2.pos ==> h2.pos % BARRIER == 0
  {
    var e := h2.trace[|h.trace|];
    PublishTiles(h.trace, e, h.file, job, offset, n);
    LockstepAppend(h.trace, e, from, devices);
    CaughtUpGrows(h.trace, h2.trace, from, devices, LastBarrier(h.trace));
    BarrierIsMultiple(h.trace);
  }

  lemma SendPartStaysInStep(h: Host, offset: nat, job: Job, from: nat, devices: set<string>)
    requires job.Valid() && InStep(h, offset, job, from, devices)
    requires CaughtUp(h.trace, from, devices, LastBarrier(h.trace))
    ensures var (r, h1) := SendPart(h, offset, job);
      && InStep(h1, h1.pos, job, from, devices)
      && (LastBarrier(h1.trace) != h1.pos ==> CaughtUp(h1.trace, from, devices, LastBarrier(h1.trace)))
      && (LastBarrier(h1.trace) == h1.pos ==> h1.pos % BARRIER == 0)
  {
    var (read, h1) := h.Read(job.chunk);
    if read.Data? {
      var (ok, h2) := h1.Publish(Chunk(Encode(job.session, offset, read.chunk)));
      PublishStaysInStep(h, h2, offset, |read.chunk|, ok, job, from, devices);
    } else {
      BarrierIsMultiple(h.trace);
    }
  }

  lemma {:induction false} BarrierIsMultiple(t: seq<Event>)
    ensures LastBarrier(t) % BARRIER == 0 && LastBarrier(t) <= SentBytes(t)
  {
    if t != [] { BarrierIsMultiple(t[..|t| - 1]); }
  }

  lemma CatchUpStaysInStep(h: Host, offset: nat, eof: bool, job: Job, from: nat, devices: set<string>)
    requires job.Valid() && InStep(h, offset, job, from, devices)
    requires LastBarrier(h.trace) != offset ==> CaughtUp(h.trace, from, devices, LastBarrier(h.trace))
    requires LastBarrier(h.trace) == offset ==> offset % BARRIER == 0
    ensures var (r, h1) := CatchUp(h, offset, eof, job, devices);
      && InStep(h1, offset, job, from, devices)
      && (r.Ok? && offset <= job.size ==> CaughtUp(h1.trace, from, devices, LastBarrier(h1.trace)))
      && (r.Ok? && Holds(Min(offset, job.size), job.size) ==>
          forall d :: d in devices ==> Confirmed(h1.trace, from, d, ACK, Min(offset, job.size)))
      && (r.Ok? && eof ==> Holds(Min(offset, job.size), job.size))
  {
    var (r, h1) := CatchUp(h, offset, eof, job, devices);
    ListeningStaysInStep(h, h1, offset, job, from, devices);
    var nextAck := Min(offset, job.size);
    if Holds(nextAck, job.size) && r.Ok? {
      WaitAllConfirms(h, devices, ACK, NACK, nextAck);
      forall d | d in devices ensures Confirmed(h1.trace, from, d, ACK, nextAck) {
        var i :| |h.trace| <= i < |h1.trace| && h1.trace[i].Got? && TrimSpace(h1.trace[i].status.device) == d
          && h1.trace[i].status.status in ACK && h1.trace[i].status.written >= nextAck;
      }
      ListeningKeepsBarrier(h.trace, h1.trace);
    }
  }

  /** How far a broadcast that reports success has really brought every station. */
  ghost predicate Delivered(h: Host, job: Job, from: nat, devices: set<string>) {
    && (forall d :: d in devices ==> Confirmed(h.trace, from, d, {"chunk"}, Min(h.pos, job.size)))
    && (h.pos >= job.size || (h.pos == |h.file| && |h.file| % 0x1_0000 == 0))
  }

  lemma {:induction false} BroadcastIsSafe(h: Host, offset: nat, job: Job, from: nat, devices: set<string>)
    requires job.Valid() && InStep(h, offset, job, from, devices)
    requires CaughtUp(h.trace, from, devices, LastBarrier(h.trace))
    requires offset >= job.size ==> Delivered(h, job, from, devices)
    ensures var (r, h') := Broadcast(h, offset, job, devices);
      && h'.file == h.file && InStep(h', h'.pos, job, from, devices)
      && (r.Ok? ==> Delivered(h', job, from, devices))
    decreases |h.file| - h.pos
  {
    hide SendPart, CatchUp, LastBarrier;
    if offset < job.size {
      SendPartStaysInStep(h, offset, job, from, devices);
      var (sent, h1) := SendPart(h, offset, job);
      if sent.Ok? {
        var (o, eof) := sent.value;
        CatchUpStaysInStep(h1, o, eof, job, from, devices);
        var (held, h2) := CatchUp(h1, o, eof, job, devices);
        if held.Ok? && !eof {
          if o <= job.size {
            BroadcastIsSafe(h2, o, job, from, devices);
          }
        }
      }
    }
  }

  /** In every course of events: the frames are a gapless cut of the firmware's beginning; no
      chunk is published before every station has confirmed the last 64 KiB boundary on which
      the stream stopped; and success means that every station has confirmed everything sent up
      to the announced size — all of it, unless the file ended early on such a boundary. */
  lemma UploadAllIsSafe(h: Host, job: Job, devices: set<string>)
    requires job.Valid() && job.size > 0 && Frames(h.trace) == [] && SentBytes(h.trace) == 0 && LastBarrier(h.trace) == 0
    ensures var (r, h') := UploadAll(h, job, devices);
      && Lockstep(h'.trace, |h.trace|, devices)
      && (h.openable ==> h'.file == h.file && InStep(h', h'.pos, job, |h.trace|, devices))
      && (r.Ok? ==> h.openable && Delivered(h', job, |h.trace|, devices))
  {
    if h.openable { BroadcastIsSafe(h.Open(), 0, job, |h.trace|, devices); }
  }

  // ---- With full reads, nobody is more than 64 KiB behind ------------------------------------

  /** The read buffer of the barcode target: otaBarcodeChunkSize. */
  const BARCODE_CHUNK := 512

  ghost predicate FullReads(h: Host) {
    forall p :: p in h.readPlan ==> !p.Short?
  }

  /** At every chunk of t from `from` on: the last barrier is the last multiple of 64 KiB. */
  ghost predicate OnGrid(t: seq<Event>, from: nat) {
    forall i :: from <= i < |t| && t[i].Sent? ==> LastBarrier(t[..i]) == SentBytes(t[..i]) / BARRIER * BARRIER
  }

  ghost predicate Aligned(h: Host, offset: nat, from: nat) {
    && h.Readable() && offset == h.pos == SentBytes(h.trace) && FullReads(h) && OnGrid(h.trace, from)
    && (h.pos < |h.file| ==> offset % BARCODE_CHUNK == 0 && LastBarrier(h.trace) == offset / BARRIER * BARRIER)
  }

  lemma ListeningStaysOnGrid(t: seq<Event>, t': seq<Event>, from: nat)
    requires OnGrid(t, from) && Listened(t, t')
    ensures OnGrid(t', from) && LastBarrier(t') == LastBarrier(t) && SentBytes(t') == SentBytes(t)
  {
    ListeningKeepsBarrier(t, t');
    ListeningSendsNothing(t, t');
    forall i | from <= i < |t'| && t'[i].Sent? ensures LastBarrier(t'[..i]) == SentBytes(t'[..i]) / BARRIER * BARRIER {
      assert i < |t| && t'[..i] == t[..i];
    }
  }

  lemma PublishStaysOnGrid(t: seq<Event>, e: Event, from: nat)
    requires OnGrid(t, from) && LastBarrier(t) == SentBytes(t) / BARRIER * BARRIER
    ensures OnGrid(t + [e], from)
  {
    var t' := t + [e];
    forall i | from <= i < |t'| && t'[i].Sent? ensures LastBarrier(t'[..i]) == SentBytes(t'[..i]) / BARRIER * BARRIER {
      assert t'[..i] == t[..i];
      if i == |t| { assert t'[..i] == t; }
    }
  }

  /** 512 divides 64 KiB, so a step of 512 from a multiple of 512 never jumps over a boundary. */
  lemma GridStep(offset: nat)
    requires offset % BARCODE_CHUNK == 0
    ensures var next := offset + BARCODE_CHUNK;
      && next % BARCODE_CHUNK == 0
      && next / BARRIER * BARRIER == if next % BARRIER == 0 then next else offset / BARRIER * BARRIER
  {
    var q, r := offset / BARCODE_CHUNK / 128, offset / BARCODE_CHUNK % 128;
    assert offset == BARRIER * q + BARCODE_CHUNK * r;
    assert offset + BARCODE_CHUNK == BARRIER * q + BARCODE_CHUNK * (r + 1);
  }

  lemma ReadKeepsFullReads(h: Host)
    requires FullReads(h) && h.Readable()
    ensures var (r, h1) := h.Read(BARCODE_CHUNK);
      FullReads(h1) && (r.Data? ==> |r.chunk| == BARCODE_CHUNK || h1.pos == |h.file|)
  {
    assert h.readPlan != [] ==> h.readPlan[0] in h.readPlan;
  }

  lemma PublishStaysAligned(h: Host, h2: Host, offset: nat, n: nat, ok: bool, job: Job, from: nat)
    requires job.Valid() && Aligned(h, offset, from) && Tiles(Frames(h.trace), job.session, h.file, job.chunk, offset)
    requires 0 < n <= job.chunk && offset + n <= |h.file| && (n == BARCODE_CHUNK || offset + n == |h.file|)
    requires h2.file == h.file && h2.pos == offset + n && FullReads(h2)
    requires h2.trace == h.trace + [Sent(Chunk(Encode(job.session, offset, h.file[offset..offset + n])), ok)]
    ensures Aligned(h2, h2.pos, from)
  {
    var e := h2.trace[|h.trace|];
    PublishTiles(h.trace, e, h.file, job, offset, n);
    PublishStaysOnGrid(h.trace, e, from);
    GridStep(offset);
  }

  lemma SendPartStaysAligned(h: Host, offset: nat, job: Job, from: nat)
    requires job.Valid() && job.chunk == BARCODE_CHUNK && Aligned(h, offset, from)
    requires Tiles(Frames(h.trace), job.session, h.file, job.chunk, offset)
    ensures var (r, h1) := SendPart(h, offset, job);
      OnGrid(h1.trace, from) && (r.Ok? ==> Aligned(h1, h1.pos, from))
  {
    ReadKeepsFullReads(h);
    var (read, h1) := h.Read(job.chunk);
    if read.Data? {
      var (ok, h2) := h1.Publish(Chunk(Encode(job.session, offset, read.chunk)));
      PublishStaysAligned(h, h2, offset, |read.chunk|, ok, job, from);
    }
  }

  lemma {:induction false} BroadcastStaysAligned(h: Host, offset: nat, job: Job, from: nat, devices: set<string>)
    requires job.Valid() && job.chunk == BARCODE_CHUNK && Aligned(h, offset, from)
    requires InStep(h, offset, job, from, devices) && CaughtUp(h.trace, from, devices, LastBarrier(h.trace))
    ensures OnGrid(Broadcast(h, offset, job, devices).1.trace, from)
    decreases |h.file| - h.pos
  {
    if offset < job.size {
      SendPartStaysAligned(h, offset, job, from);
      SendPartStaysInStep(h, offset, job, from, devices);
      var (sent, h1) := SendPart(h, offset, job);
      if sent.Ok? {
        var (o, eof) := sent.value;
        var (held, h2) := CatchUp(h1, o, eof, job, devices);
        ListeningStaysOnGrid(h1.trace, h2.trace, from);
        CatchUpStaysInStep(h1, o, eof, job, from, devices);
        if held.Ok? && !eof {
          if o <= job.size { BroadcastStaysAligned(h2, o, job, from, devices); }
        }
      }
    }
  }

  /** With full reads no barrier is skipped: whenever a chunk goes out, every station has
      confirmed all but less than the last 64 KiB of what was sent before it. */
  lemma NobodyFallsBehind(h: Host, job: Job, devices: set<string>)
    requires job.Valid() && job.chunk == BARCODE_CHUNK && job.size > 0 && h.openable && FullReads(h)
    requires Frames(h.trace) == [] && SentBytes(h.trace) == 0 && LastBarrier(h.trace) == 0
    ensures var t := UploadAll(h, job, devices).1.trace;
      forall i, d :: |h.trace| <= i < |t| && t[i].Sent? && d in devices && SentBytes(t[..i]) >= 0x1_0000 ==>
        Confirmed(t[..i], |h.trace|, d, {"chunk"}, SentBytes(t[..i]) / 0x1_0000 * 0x1_0000)
  {
    UploadAllIsSafe(h, job, devices);
    BroadcastStaysAligned(h.Open(), 0, job, |h.trace|, devices);
  }

  // ---- A file that has become shorter ----------------------------------------------------------

  /** Every device reports the same, one after the other. */
  function Block(devices: seq<string>, status: string, written: nat): seq<Arrival> {
    if devices == [] then []
    else [Arrive(Status(devices[0], status, written, ""))] + Block(devices[1..], status, written)
  }

  /** Every device reports `written` bytes, n times over. */
  function Blocks(n: nat, devices: seq<string>, written: nat): seq<Arrival> {
    if n == 0 then [] else Block(devices, "chunk", written) + Blocks(n - 1, devices, written)
  }

  ghost predicate ProperNames(devices: seq<string>) {
    Ascending(devices) && forall d :: d in devices ==> TrimSpace(d) == d
  }

  lemma FirstNameLeaves(devices: seq<string>)
    requires Ascending(devices) && devices != []
    ensures devices[0] in Names(devices) && Names(devices) - {devices[0]} == Names(devices[1..])
  {
    LessTotal(devices[0], devices[0]);
    assert devices == [devices[0]] + devices[1..];
  }

  lemma {:induction false} BlockClears(h: Host, devices: seq<string>, status: string, written: nat,
                                       ok: set<string>, fail: set<string>, least: nat, rest: seq<Arrival>)
    requires ProperNames(devices) && least <= written && status in ok && status !in fail
    requires h.arrivals == Block(devices, status, written) + rest
    ensures var (r, h1) := WaitAll(h, Names(devices), ok, fail, least);
      r.Ok? && h1.arrivals == rest
    decreases |devices|
  {
    if devices == [] {
      assert h.arrivals == rest;
    } else {
      var tail := devices[1..];
      assert h.arrivals[0] == Arrive(Status(devices[0], status, written, ""));
      assert h.arrivals[1..] == Block(tail, status, written) + rest;
      FirstNameLeaves(devices);
      BlockClears(h.Receive().1, tail, status, written, ok, fail, least, rest);
    }
  }

  /** A file cut short at a multiple of 64 KiB, with stations that confirm all there is. */
  lemma {:induction false} ShortFileIsAccepted(h: Host, offset: nat, job: Job, devices: seq<string>, n: nat)
    requires job.Valid() && ProperNames(devices) && h.Readable() && h.readPlan == [] && h.publishPlan == []
    requires offset == h.pos && |h.file| < job.size && |h.file| % BARRIER == 0
    requires h.arrivals == Blocks(n, devices, |h.file|) && n > |h.file| - h.pos
    ensures Broadcast(h, offset, job, Names(devices)).0.Ok?
    decreases |h.file| - h.pos
  {
    var (sent, h1) := SendPart(h, offset, job);
    var (o, eof) := sent.value;
    if Holds(Min(o, job.size), job.size) {
      BlockClears(h1, devices, "chunk", |h.file|, ACK, NACK, o, Blocks(n - 1, devices, |h.file|));
      var h2 := CatchUp(h1, o, eof, job, Names(devices)).1;
      if !eof { ShortFileIsAccepted(h2, o, job, devices, n - 1); }
    } else {
      ShortFileIsAccepted(h1, o, job, devices, n);
    }
  }

  /** Success in this course of events means what it says: the whole announced size was
      published and every station confirmed it. */
  ghost predicate KeepsPromise(h: Host, job: Job, devices: set<string>)
    requires job.Valid()
  {
    var (r, h') := UploadAll(h, job, devices);
    r.Ok? ==> SentBytes(h'.trace) >= job.size && forall d :: d in devices ==> Confirmed(h'.trace, 0, d, {"chunk"}, job.size)
  }

  /** That can be relied on for a file exactly if it still has the announced size, or at least
      did not become shorter down to a multiple of 64 KiB. */
  lemma PromiseKeptExactly(file: Bytes, job: Job, devices: seq<string>)
    requires job.Valid() && job.size > 0 && ProperNames(devices)
    ensures (forall h: Host :: h.file == file && h.trace == [] ==> KeepsPromise(h, job, Names(devices)))
       <==> |file| >= job.size || |file| % 0x1_0000 != 0
  {
    if |file| >= job.size || |file| % BARRIER != 0 {
      forall h: Host | h.file == file && h.trace == [] ensures KeepsPromise(h, job, Names(devices)) {
        UploadAllIsSafe(h, job, Names(devices));
      }
    } else {
      var h := Host(file, true, 0, [], [], Blocks(|file| + 1, devices, |file|), []);
      ShortFileIsAccepted(h.Open(), 0, job, devices, |file| + 1);
      UploadAllIsSafe(h, job, Names(devices));
      assert !KeepsPromise(h, job, Names(devices));
    }
  }
}
