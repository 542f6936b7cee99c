/** `uploadOTAChunks`: the sliding-window upload to a single device. */
module OtaWindow {
  import opened OtaFrame
  import opened OtaHost
  import opened OtaWait

  const WINDOW := 8
  const ACK: set<string> := {"chunk"}
  const NACK: set<string> := {"bad_chunk", "chunk_failed"}

  /** What one upload is about: the session name in every frame, the firmware's announced
      size and the size of the read buffer. */
  datatype Job = Job(session: Bytes, size: nat, chunk: nat) {
    predicate Valid() { |session| == SESSION_LENGTH && 0 < chunk < 0x1_0000 }
  }

  datatype Window = Window(offset: nat, acked: nat, pending: nat, eof: bool)

  const START := Window(0, 0, 0, false)

  /** (n + chunk - 1) / chunk */
  function Chunks(n: nat, chunk: nat): nat
    requires chunk > 0
  {
    (n + chunk - 1) / chunk
  }

  /** One turn of the inner loop: read a chunk and publish it, or see the end of the file. */
  function SendNext(h: Host, w: Window, job: Job): (r: (Result<Window>, Host))
    requires h.Readable() && job.Valid()
    ensures r.1.Readable() && r.1.file == h.file && r.1.arrivals == h.arrivals
    ensures r.0.Ok? ==> r.0.value == w.(eof := true) || (r.0.value.eof == w.eof && r.0.value.pending == w.pending + 1)
  {
    var (r, h1) := h.Read(job.chunk);
    match r
    case Failed => (Err(ReadFailed), h1)
    case Eof => (Ok(w.(eof := true)), h1)
    case Data(chunk) =>
      var (ok, h2) := h1.Publish(Chunk(Encode(job.session, w.offset, chunk)));
      (if ok then Ok(w.(offset := w.offset + |chunk|, pending := w.pending + 1)) else Err(PublishFailed), h2)
  }

  /** The inner loop: send until the window is full or the file ends. */
  function Fill(h: Host, w: Window, job: Job): (r: (Result<Window>, Host))
    requires h.Readable() && job.Valid()
    ensures r.1.Readable() && r.1.file == h.file && r.1.arrivals == h.arrivals
    ensures r.0.Ok? ==> r.0.value.acked == w.acked
    decreases !w.eof, WINDOW - w.pending
  {
    if w.eof || w.pending >= WINDOW then (Ok(w), h)
    else
      var (r, h1) := SendNext(h, w, job);
      if r.Err? then (r, h1) else Fill(h1, r.value, job)
  }

  /** What a chunk report does to the window. */
  function TakeAck(w: Window, written: int, job: Job): Result<Window>
    requires job.Valid()
  {
    if written < w.acked then Ok(w)
    else if written > w.offset then Err(AckAboveSent(written, w.offset))
    else Ok(w.(acked := written, pending := Chunks(w.offset - written, job.chunk)))
  }

  /** One turn of the outer loop. */
  function Turn(h: Host, w: Window, job: Job): (r: (Result<Window>, Host))
    requires h.Readable() && job.Valid()
    ensures r.1.Readable() && r.1.file == h.file
    ensures r.0.Ok? ==> |r.1.arrivals| < |h.arrivals|
  {
    var (filled, h1) := Fill(h, w, job);
    if filled.Err? then (filled, h1)
    else
      var (heard, h2) := Wait(h1, ACK, NACK);
      if heard.Err? then (Err(heard.error), h2)
      else (TakeAck(filled.value, heard.value.written, job), h2)
  }

  function Loop(h: Host, w: Window, job: Job): (Result<()>, Host)
    requires h.Readable() && job.Valid()
    decreases |h.arrivals|
  {
    if w.eof && w.pending == 0 then
      (if w.acked == job.size then Ok(()) else Err(FinalAckMismatch(w.acked, job.size)), h)
    else
      var (turned, h1) := Turn(h, w, job);
      if turned.Err? then (Err(turned.error), h1) else Loop(h1, turned.value, job)
  }

  function Upload(h: Host, job: Job): (Result<()>, Host)
    requires job.Valid()
  {
    if h.openable then Loop(h.Open(), START, job) else (Err(OpenFailed), h)
  }

  /** The inner loop of the upload, on the loop variables it shares with the outer one. */
  method FillWindow(link: Link, w: Window, job: Job) returns (r: Result<Window>)
    requires link.host.Readable() && job.Valid()
    modifies link
    ensures (r, link.host) == Fill(old(link.host), w, job)
  {
    var offset: nat, pending: nat, eof := w.offset, w.pending, w.eof;
    while !eof && pending < WINDOW
      invariant link.host.Readable()
      invariant Fill(link.host, Window(offset, w.acked, pending, eof), job) == Fill(old(link.host), w, job)
      decreases !eof, WINDOW - pending
    {
      var read := link.Read(job.chunk);
      match read
      case Eof =>
        eof := true;
      case Failed =>
        return Err(ReadFailed);
      case Data(chunk) =>
        var frame := OtaChunkFrame(job.session, offset, chunk);
        var ok := link.Publish(Chunk(frame));
        if !ok {
          return Err(PublishFailed);
        }
        offset := offset + |chunk|;
        pending := pending + 1;
    }
    return Ok(Window(offset, w.acked, pending, eof));
  }

  /** The body of the outer loop. */
  method TakeTurn(link: Link, w: Window, job: Job) returns (r: Result<Window>)
    requires link.host.Readable() && job.Valid()
    modifies link
    ensures (r, link.host) == Turn(old(link.host), w, job)
  {
    var filled := FillWindow(link, w, job);
    if filled.Err? {
      return Err(filled.error);
    }
    var Window(offset, acked, pending, eof) := filled.value;
    var heard := WaitOTAStatus(link, ACK, NACK);
    if heard.Err? {
      return Err(heard.error);
    }
    var written := heard.value.written;
    if written < acked {
      return filled;
    }
    if written > offset {
      return Err(AckAboveSent(written, offset));
    }
    acked := written;
    pending := (offset - acked + job.chunk - 1) / job.chunk;
    return Ok(Window(offset, acked, pending, eof));
  }

  method UploadOTAChunks(link: Link, job: Job) returns (r: Result<()>)
    requires job.Valid()
    modifies link
    ensures (r, link.host) == Upload(old(link.host), job)
  {
    if !link.host.openable {
      return Err(OpenFailed);
    }
    link.Open();
    var w := START;
    while !w.eof || w.pending > 0
      invariant link.host.Readable()
      invariant Loop(link.host, w, job) == Upload(old(link.host), job)
      decreases |link.host.arrivals|
    {
      var turned := TakeTurn(link, w, job);
      if turned.Err? {
        return Err(turned.error);
      }
      w := turned.value;
    }
    if w.acked != job.size {
      return Err(FinalAckMismatch(w.acked, job.size));
    }
    return Ok(());
  }

  // ---- Safety ------------------------------------------------------------------------------

  /** The bytes that p full chunks hold. */
  function Span(p: nat, chunk: nat): nat {
    if p == 0 then 0 else Span(p - 1, chunk) + chunk
  }

  lemma {:induction false} SpanGrows(p: nat, q: nat, chunk: nat)
    requires p <= q
    ensures Span(p, chunk) <= Span(q, chunk)
    ensures p < q ==> Span(p, chunk) + chunk <= Span(q, chunk)
  {
    if p < q { SpanGrows(p, q - 1, chunk); }
  }

  lemma {:induction false} SpanIsProduct(p: nat, chunk: nat)
    ensures Span(p, chunk) == p * chunk
  {
    if p > 0 {
      SpanIsProduct(p - 1, chunk);
      assert p * chunk == (p - 1) * chunk + chunk;
    }
  }

  /** The count of chunks is the least whose span covers n. */
  lemma ChunksCover(n: nat, chunk: nat)
    requires chunk > 0
    ensures n <= Span(Chunks(n, chunk), chunk)
    ensures n > 0 ==> Chunks(n, chunk) > 0 && Span(Chunks(n, chunk) - 1, chunk) < n
    ensures Chunks(n, chunk) == 0 <==> n == 0
  {
    var q := Chunks(n, chunk);
    assert n + chunk - 1 == q * chunk + (n + chunk - 1) % chunk;
    SpanIsProduct(q, chunk);
  }

  lemma ChunksLeast(n: nat, chunk: nat, p: nat)
    requires chunk > 0 && n <= Span(p, chunk)
    ensures Chunks(n, chunk) <= p
  {
    ChunksCover(n, chunk);
    if Chunks(n, chunk) > p { SpanGrows(p, Chunks(n, chunk) - 1, chunk); }
  }

  /** The bookkeeping of the window over a file of which `pos` bytes of `length` are read: what is
      acknowledged was sent, what was read was sent, and `pending` counts enough chunks for
      everything unacknowledged, at most a window. */
  ghost predicate Sound(w: Window, chunk: nat, pos: nat, length: nat) {
    && w.acked <= w.offset == pos <= length
    && w.offset - w.acked <= Span(w.pending, chunk)
    && (w.pending > 0 <==> w.acked < w.offset)
    && w.pending <= WINDOW
    && (w.eof ==> w.offset == length)
  }

  /** At every moment of t, at most a window of chunks is sent and not acknowledged. */
  ghost predicate Windowed(t: seq<Event>, chunk: nat) {
    forall k :: 0 <= k <= |t| ==> SentBytes(t[..k]) <= AckedBytes(t[..k]) + 8 * chunk
  }

  /** The published frames are a gapless cut of the first `upto` bytes of the file, never
      running more than a window ahead of the acknowledgements. */
  ghost predicate Orderly(t: seq<Event>, file: Bytes, job: Job, upto: nat)
    requires job.Valid()
  {
    && Tiles(Frames(t), job.session, file, job.chunk, upto)
    && SentBytes(t) == upto
    && Windowed(t, job.chunk)
  }

  lemma WindowedAppend(t: seq<Event>, e: Event, chunk: nat)
    requires Windowed(t, chunk) && SentBytes(t + [e]) <= AckedBytes(t + [e]) + WINDOW * chunk
    ensures Windowed(t + [e], chunk)
  {
    var t' := t + [e];
    forall k | 0 <= k <= |t'| ensures SentBytes(t'[..k]) <= AckedBytes(t'[..k]) + WINDOW * chunk {
      if k <= |t| { assert t'[..k] == t[..k]; } else { assert t'[..k] == t'; }
    }
  }

  lemma {:induction false} ListeningStaysWindowed(t: seq<Event>, t': seq<Event>, chunk: nat)
    requires Windowed(t, chunk) && Listened(t, t')
    ensures Windowed(t', chunk)
    decreases |t'|
  {
    if |t'| > |t| {
      var n := |t'| - 1;
      ListeningStaysWindowed(t, t'[..n], chunk);
      assert t'[..n][..n] == t'[..n] && t' == t'[..n] + [t'[n]];
      Append(t'[..n], t'[n]);
      WindowedAppend(t'[..n], t'[n], chunk);
    } else {
      assert t' == t;
    }
  }

  lemma ListeningStaysOrderly(t: seq<Event>, t': seq<Event>, file: Bytes, job: Job, upto: nat)
    requires job.Valid() && Orderly(t, file, job, upto) && Listened(t, t')
    ensures Orderly(t', file, job, upto)
  {
    ListeningStaysWindowed(t, t', job.chunk);
    ListeningSendsNothing(t, t');
  }

  lemma PublishStaysOrderly(t: seq<Event>, e: Event, file: Bytes, job: Job, upto: nat, n: nat)
    requires job.Valid() && Orderly(t, file, job, upto)
    requires 0 < n <= job.chunk && upto + n <= |file|
    requires e.Sent? && e.message == Chunk(Encode(job.session, upto, file[upto..upto + n]))
    requires upto + n <= AckedBytes(t) + WINDOW * job.chunk
    ensures Orderly(t + [e], file, job, upto + n)
    ensures AckedBytes(t + [e]) == AckedBytes(t)
  {
    Append(t, e);
    var frames := Frames(t + [e]);
    assert frames[..|frames| - 1] == Frames(t);
    WindowedAppend(t, e, job.chunk);
  }

  lemma SendIsSound(w: Window, chunk: nat, pos: nat, length: nat, n: nat)
    requires Sound(w, chunk, pos, length) && !w.eof && w.pending < WINDOW
    requires 0 < n <= chunk && pos + n <= length
    ensures Sound(w.(offset := w.offset + n, pending := w.pending + 1), chunk, pos + n, length)
    ensures w.offset + n <= w.acked + WINDOW * chunk
  {
    SpanGrows(w.pending, WINDOW, chunk);
    SpanIsProduct(WINDOW, chunk);
  }

  ghost predicate Healthy(h: Host, w: Window, job: Job)
    requires job.Valid()
  {
    && Sound(w, job.chunk, h.pos, |h.file|)
    && Orderly(h.trace, h.file, job, w.offset)
    && AckedBytes(h.trace) == w.acked
  }

  lemma SendIsHealthy(h: Host, h2: Host, w: Window, job: Job, n: nat, ok: bool)
    requires job.Valid() && Healthy(h, w, job) && !w.eof && w.pending < WINDOW
    requires 0 < n <= job.chunk && h.pos + n <= |h.file|
    requires h2.file == h.file && h2.pos == h.pos + n
    requires h2.trace == h.trace + [Sent(Chunk(Encode(job.session, w.offset, h.file[h.pos..h.pos + n])), ok)]
    ensures Healthy(h2, w.(offset := w.offset + n, pending := w.pending + 1), job)
  {
    SendIsSound(w, job.chunk, h.pos, |h.file|, n);
    PublishStaysOrderly(h.trace, h2.trace[|h.trace|], h.file, job, w.offset, n);
  }

  lemma SendNextIsSafe(h: Host, w: Window, job: Job)
    requires job.Valid() && Healthy(h, w, job) && !w.eof && w.pending < WINDOW
    ensures var (r, h') := SendNext(h, w, job);
      && Orderly(h'.trace, h'.file, job, h'.pos)
      && (r.Ok? ==> Healthy(h', r.value, job) && r.value.acked == w.acked)
  {
    var (read, h1) := h.Read(job.chunk);
    if read.Data? {
      var (ok, h2) := h1.Publish(Chunk(Encode(job.session, w.offset, read.chunk)));
      SendIsHealthy(h, h2, w, job, |read.chunk|, ok);
    }
  }

  lemma {:induction false} FillIsSafe(h: Host, w: Window, job: Job)
    requires job.Valid() && Healthy(h, w, job)
    ensures var (r, h') := Fill(h, w, job);
      && Orderly(h'.trace, h'.file, job, h'.pos)
      && (r.Ok? ==> Healthy(h', r.value, job) && r.value.acked == w.acked)
      && (r.Ok? && !r.value.eof ==> r.value.pending == WINDOW)
    decreases !w.eof, WINDOW - w.pending
  {
    hide Sound, Orderly, SendNext;
    CountFits(h, w, job);
    if !w.eof && w.pending < WINDOW {
      SendNextIsSafe(h, w, job);
      var (r, h1) := SendNext(h, w, job);
      if r.Ok? { FillIsSafe(h1, r.value, job); }
    }
  }

  lemma CountFits(h: Host, w: Window, job: Job)
    requires job.Valid() && Healthy(h, w, job)
    ensures h.Readable() && w.pending <= WINDOW && w.offset == h.pos
  {
  }

  /** An acknowledgement never moves backwards, never passes what was sent, and never makes
      the count of pending chunks grow; the new count is the least that covers the rest. */
  lemma AckIsSafe(w: Window, written: int, job: Job, pos: nat, length: nat)
    requires job.Valid() && Sound(w, job.chunk, pos, length)
    ensures var r := TakeAck(w, written, job);
      && (r.Err? <==> written > w.offset)
      && (r.Ok? ==>
          var w' := r.value;
          && Sound(w', job.chunk, pos, length) && w' == w.(acked := w'.acked, pending := w'.pending)
          && w'.acked == (if written > w.acked then written else w.acked)
          && w'.pending <= w.pending
          && (written >= w.acked ==> w'.pending == Chunks(w.offset - written, job.chunk)))
  {
    if w.acked <= written <= w.offset {
      ChunksCover(w.offset - written, job.chunk);
      ChunksLeast(w.offset - written, job.chunk, w.pending);
    }
  }

  lemma TurnIsSafe(h: Host, w: Window, job: Job)
    requires job.Valid() && Healthy(h, w, job)
    ensures var (r, h') := Turn(h, w, job);
      && Orderly(h'.trace, h'.file, job, h'.pos)
      && (r.Ok? ==> Healthy(h', r.value, job))
  {
    FillIsSafe(h, w, job);
    var (filled, h1) := Fill(h, w, job);
    if filled.Ok? {
      var (heard, h2) := Wait(h1, ACK, NACK);
      ListeningStaysOrderly(h1.trace, h2.trace, h1.file, job, h1.pos);
      WaitMovesAck(h1, ACK, NACK);
      if heard.Ok? {
        AckIsSafe(filled.value, heard.value.written, job, h1.pos, |h1.file|);
      }
    }
  }

  lemma {:induction false} LoopIsSafe(h: Host, w: Window, job: Job)
    requires job.Valid() && Healthy(h, w, job)
    ensures var (r, h') := Loop(h, w, job);
      && h'.file == h.file && h'.Readable() && Orderly(h'.trace, h'.file, job, h'.pos)
      && (r.Ok? ==> AckedBytes(h'.trace) == h'.pos == |h.file| == job.size)
    decreases |h.arrivals|
  {
    if !(w.eof && w.pending == 0) {
      TurnIsSafe(h, w, job);
      var (turned, h1) := Turn(h, w, job);
      if turned.Ok? { LoopIsSafe(h1, turned.value, job); }
    }
  }

  /** Whatever the reads, the publishes and the reports do: the frames sent are a gapless cut
      of the firmware's beginning; never are more than eight chunks' worth of bytes sent and
      unacknowledged; and success means that the file had exactly the announced size, that all
      of it was sent and that all of it was acknowledged. */
  lemma UploadIsSafe(h: Host, job: Job)
    requires job.Valid() && Frames(h.trace) == [] && SentBytes(h.trace) == 0 && Windowed(h.trace, job.chunk)
    ensures var (r, h') := Upload(h, job);
      && Windowed(h'.trace, job.chunk)
      && (h.openable ==> h'.Readable() && h'.file == h.file && Orderly(h'.trace, h'.file, job, h'.pos))
      && (r.Ok? ==> h.openable && AckedBytes(h'.trace) == SentBytes(h'.trace) == h'.pos == |h.file| == job.size)
  {
    if h.openable { LoopIsSafe(h.Open(), START, job); }
  }
}
