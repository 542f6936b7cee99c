/** When the sliding-window upload gets through: a device that acknowledges at a moderate
    pace is always served to the end, and the one way to stall is to acknowledge a whole
    window at once exactly at the end of the file. */
module OtaLiveness {
  import opened OtaFrame
  import opened OtaHost
  import opened OtaWait
  import opened OtaWindow

  /** The sender's own machine plays along: reads fill the buffer, publishes succeed. */
  ghost predicate Smooth(h: Host) {
    && h.Readable()
    && (forall p :: p in h.readPlan ==> p.Full?)
    && false !in h.publishPlan
  }

  /** The chunks counted as pending are full, except perhaps the last one of the file. */
  ghost predicate Tight(w: Window, chunk: nat, pos: nat, length: nat) {
    w.pending >= 1 ==>
      || Span(w.pending - 1, chunk) < w.offset - w.acked
      || (pos == length && (w.pending >= 2 ==> Span(w.pending - 2, chunk) < w.offset - w.acked))
  }

  /** A report may run at most this many chunks ahead of the one before it. */
  const PACE := 6

  ghost predicate Fit(h: Host, w: Window, job: Job)
    requires job.Valid()
  {
    Healthy(h, w, job) && Smooth(h) && Tight(w, job.chunk, h.pos, |h.file|)
  }

  lemma ReadIsFull(h: Host, max: nat)
    requires Smooth(h) && 0 < max
    ensures var (r, h1) := h.Read(max);
      && Smooth(h1) && h1.publishPlan == h.publishPlan && h1.trace == h.trace
      && (h.pos == |h.file| ==> r.Eof?)
      && (h.pos < |h.file| ==> r.Data? && (|r.chunk| == max || h1.pos == |h.file|))
  {
    assert h.readPlan != [] ==> h.readPlan[0] in h.readPlan;
  }

  lemma PublishGoesOut(h: Host, m: Message)
    requires Smooth(h)
    ensures var (ok, h1) := h.Publish(m); ok && Smooth(h1) && h1.pos == h.pos && h1.file == h.file
  {
    assert h.publishPlan != [] ==> h.publishPlan[0] in h.publishPlan;
  }

  /** A full chunk, or the file's last one, keeps the count tight. */
  lemma SendStaysTight(w: Window, chunk: nat, pos: nat, length: nat, n: nat)
    requires Sound(w, chunk, pos, length) && Tight(w, chunk, pos, length) && pos < length
    requires 0 < n <= chunk && pos + n <= length && (n == chunk || pos + n == length)
    ensures Tight(w.(offset := w.offset + n, pending := w.pending + 1), chunk, pos + n, length)
  {
    assert Span(0, chunk) == 0;
    assert w.pending >= 1 ==> Span(w.pending, chunk) == Span(w.pending - 1, chunk) + chunk;
  }

  lemma SendNextFits(h: Host, w: Window, job: Job)
    requires job.Valid() && Fit(h, w, job) && !w.eof && w.pending < WINDOW
    ensures var (r, h1) := SendNext(h, w, job);
      && r.Ok? && Fit(h1, r.value, job) && r.value.acked == w.acked
      && (r.value.eof <==> h.pos == |h.file|)
      && (r.value.eof ==> r.value == w.(eof := true))
  {
    hide Orderly;
    ReadIsFull(h, job.chunk);
    SendNextIsSafe(h, w, job);
    var (r, h1) := h.Read(job.chunk);
    if r.Data? {
      PublishGoesOut(h1, Chunk(Encode(job.session, w.offset, r.chunk)));
      SendStaysTight(w, job.chunk, h.pos, |h.file|, |r.chunk|);
    }
  }

  lemma {:induction false} FillFits(h: Host, w: Window, job: Job)
    requires job.Valid() && Fit(h, w, job)
    ensures var (r, h1) := Fill(h, w, job);
      && r.Ok? && Fit(h1, r.value, job) && r.value.acked == w.acked
      && (!r.value.eof ==> r.value.pending == WINDOW && r.value.acked + PACE * job.chunk < r.value.offset)
      && (w.pending == 0 && !w.eof ==> (r.value.pending == 0 <==> h.pos == |h.file|))
      && (w.pending > 0 ==> r.value.pending > 0)
    decreases !w.eof, WINDOW - w.pending
  {
    if w.eof || w.pending == WINDOW {
      SpanIsProduct(PACE, job.chunk);
      SpanGrows(PACE, WINDOW - 1, job.chunk);
    } else {
      SendNextFits(h, w, job);
      var (r, h1) := SendNext(h, w, job);
      FillFits(h1, r.value, job);
    }
  }

  lemma AckFits(w: Window, written: int, job: Job, pos: nat, length: nat)
    requires job.Valid() && Sound(w, job.chunk, pos, length) && Tight(w, job.chunk, pos, length)
    ensures var r := TakeAck(w, written, job); r.Ok? ==> Tight(r.value, job.chunk, pos, length)
  {
    if w.acked <= written <= w.offset { ChunksCover(w.offset - written, job.chunk); }
  }

  lemma TurnFits(h: Host, w: Window, job: Job)
    requires job.Valid() && Fit(h, w, job)
    ensures var (r, h1) := Turn(h, w, job); r.Ok? ==> Fit(h1, r.value, job)
  {
    FillFits(h, w, job);
    TurnIsSafe(h, w, job);
    var (filled, h1) := Fill(h, w, job);
    var (heard, h2) := Wait(h1, ACK, NACK);
    if heard.Ok? { AckFits(filled.value, heard.value.written, job, h1.pos, |h1.file|); }
  }

  // ---- A device that keeps pace is served -------------------------------------------------

  function Higher(acked: nat, written: int): nat {
    if written > acked then written else acked
  }

  /** The reports run up to `size` without a failure and without ever leaping more than PACE
      chunks past the highest one so far. Other chatter, stale and repeated reports, and
      anything at all after the last report needed, may be mixed in. */
  predicate Paced(arrivals: seq<Arrival>, acked: nat, size: nat, chunk: nat) {
    && arrivals != [] && arrivals[0].Arrive?
    && var s := arrivals[0].status;
    && s.status !in NACK
    && (if s.status !in ACK then Paced(arrivals[1..], acked, size, chunk)
        else
          && s.written <= size && s.written <= acked + PACE * chunk
          && (Higher(acked, s.written) == size || Paced(arrivals[1..], Higher(acked, s.written), size, chunk)))
  }

  /** What arrives behind the report that reaches `size`. */
  function Rest(arrivals: seq<Arrival>, acked: nat, size: nat, chunk: nat): seq<Arrival>
    requires Paced(arrivals, acked, size, chunk)
  {
    var s := arrivals[0].status;
    if s.status !in ACK then Rest(arrivals[1..], acked, size, chunk)
    else if Higher(acked, s.written) == size then arrivals[1..]
    else Rest(arrivals[1..], Higher(acked, s.written), size, chunk)
  }

  lemma {:induction false} PacedReport(h: Host, acked: nat, size: nat, chunk: nat)
    requires Paced(h.arrivals, acked, size, chunk)
    ensures var (r, h1) := Wait(h, ACK, NACK);
      && r.Ok? && r.value.written <= size && r.value.written <= acked + PACE * chunk
      && (if Higher(acked, r.value.written) == size then h1.arrivals == Rest(h.arrivals, acked, size, chunk)
          else (
            && Paced(h1.arrivals, Higher(acked, r.value.written), size, chunk)
            && Rest(h1.arrivals, Higher(acked, r.value.written), size, chunk) == Rest(h.arrivals, acked, size, chunk)))
    decreases |h.arrivals|
  {
    if h.arrivals[0].status.status !in ACK { PacedReport(h.Receive().1, acked, size, chunk); }
  }

  lemma {:induction false} PacedLoopSucceeds(h: Host, w: Window, job: Job)
    requires job.Valid() && Fit(h, w, job) && |h.file| == job.size && w.acked < job.size
    requires Paced(h.arrivals, w.acked, job.size, job.chunk)
    ensures var (r, h') := Loop(h, w, job);
      r == Ok(()) && Smooth(h') && h'.arrivals == Rest(h.arrivals, w.acked, job.size, job.chunk)
    decreases |h.arrivals|
  {
    FillFits(h, w, job);
    var (filled, h1) := Fill(h, w, job);
    PacedReport(h1, w.acked, job.size, job.chunk);
    var (heard, h2) := Wait(h1, ACK, NACK);
    AckIsSafe(filled.value, heard.value.written, job, h1.pos, |h1.file|);
    TurnFits(h, w, job);
    var w2 := Turn(h, w, job).0.value;
    if w2.acked < job.size { PacedLoopSucceeds(h2, w2, job); }
  }

  /** No firmware has gone out yet: an upload may begin. */
  ghost predicate Unsent(t: seq<Event>, chunk: nat) {
    Frames(t) == [] && SentBytes(t) == 0 && Windowed(t, chunk)
  }

  /** A device whose reports keep pace gets its upload completed, and no report behind the last one
      needed is taken from the stream. */
  lemma PacedUploadSucceeds(h: Host, job: Job)
    requires job.Valid() && h.openable && Smooth(h.Open()) && Unsent(h.trace, job.chunk)
    requires |h.file| == job.size > 0 && Paced(h.arrivals, 0, job.size, job.chunk)
    ensures var (r, h') := Upload(h, job);
      r == Ok(()) && Smooth(h') && h'.arrivals == Rest(h.arrivals, 0, job.size, job.chunk)
  {
    PacedLoopSucceeds(h.Open(), START, job);
  }

  /** The reports of a device that acknowledges every chunk as it comes, from chunk k on. */
  function EveryChunk(k: nat, job: Job, device: string): seq<Arrival>
    requires job.Valid()
    decreases job.size - Span(k, job.chunk)
  {
    var end := Span(k + 1, job.chunk);
    if end >= job.size then [Arrive(Status(device, "chunk", job.size, ""))]
    else [Arrive(Status(device, "chunk", end, ""))] + EveryChunk(k + 1, job, device)
  }

  lemma {:induction false} EveryChunkIsPaced(k: nat, job: Job, device: string)
    requires job.Valid() && Span(k, job.chunk) < job.size
    ensures Paced(EveryChunk(k, job, device), Span(k, job.chunk), job.size, job.chunk)
    decreases job.size - Span(k, job.chunk)
  {
    var end := Span(k + 1, job.chunk);
    if end < job.size {
      EveryChunkIsPaced(k + 1, job, device);
      assert EveryChunk(k, job, device)[1..] == EveryChunk(k + 1, job, device);
    }
  }

  lemma EveryChunkAckedSucceeds(h: Host, job: Job, device: string)
    requires job.Valid() && h.openable && Smooth(h.Open()) && Unsent(h.trace, job.chunk)
    requires |h.file| == job.size > 0 && h.arrivals == EveryChunk(0, job, device)
    ensures Upload(h, job).0 == Ok(())
  {
    EveryChunkIsPaced(0, job, device);
    PacedUploadSucceeds(h, job);
  }

  // ---- The stall ---------------------------------------------------------------------------

  /** The state (h', w') is the loop's after n turns from (h, w). */
  ghost predicate Reaches(h: Host, w: Window, job: Job, n: nat, h': Host, w': Window)
    requires job.Valid() && h.Readable()
    decreases n
  {
    if n == 0 then h == h' && w == w'
    else
      && !(w.eof && w.pending == 0)
      && var (r, h1) := Turn(h, w, job);
      && r.Ok? && Reaches(h1, r.value, job, n - 1, h', w')
  }

  /** The last thing heard was one report that acknowledged everything sent, more than PACE
      chunks at once. */
  ghost predicate Drained(t: seq<Event>, sent: nat, chunk: nat) {
    && t != []
    && var last := t[|t| - 1];
    && last.Got? && last.status.status == "chunk" && last.status.written == sent
    && AckedBytes(t[..|t| - 1]) + PACE * chunk < sent
  }

  ghost predicate EmptyOnlyByDrain(h: Host, w: Window, job: Job) {
    w.pending == 0 && !w.eof ==> w == START || Drained(h.trace, w.offset, job.chunk)
  }

  lemma {:induction false} WaitEndsWithReport(h: Host)
    requires Wait(h, ACK, NACK).0.Ok?
    ensures var (r, h1) := Wait(h, ACK, NACK);
      var n := |h1.trace| - 1;
      n >= 0 && h1.trace[n] == Got(r.value) && AckedBytes(h1.trace[..n]) == AckedBytes(h.trace)
    decreases |h.arrivals|
  {
    var (a, h1) := h.Receive();
    assert h1.trace[..|h1.trace| - 1] == h.trace;
    if a.status.status !in ACK { WaitEndsWithReport(h1); }
  }

  /** The pending count of a window with something outstanding drops to none only by a report
      that acknowledges everything sent. */
  lemma AckEmptiesExactly(w: Window, written: int, job: Job, pos: nat, length: nat)
    requires job.Valid() && Sound(w, job.chunk, pos, length) && w.pending > 0
    ensures var r := TakeAck(w, written, job);
      r.Ok? && r.value.pending == 0 ==> written == w.offset && r.value.offset == w.offset && r.value.eof == w.eof
  {
    if w.acked <= written <= w.offset { ChunksCover(w.offset - written, job.chunk); }
  }

  lemma TurnEmptiesOnlyByDrain(h: Host, w: Window, job: Job)
    requires job.Valid() && Fit(h, w, job) && Turn(h, w, job).0.Ok?
    ensures EmptyOnlyByDrain(Turn(h, w, job).1, Turn(h, w, job).0.value, job)
  {
    hide Fill, Orderly, Tight;
    FillFits(h, w, job);
    var (filled, h1) := Fill(h, w, job);
    WaitEndsWithReport(h1);
    var (heard, h2) := Wait(h1, ACK, NACK);
    var w1 := filled.value;
    if !w1.eof {
      AckEmptiesExactly(w1, heard.value.written, job, h1.pos, |h1.file|);
    }
  }

  lemma {:induction false} ReachedStatesFit(h: Host, w: Window, job: Job, n: nat, h': Host, w': Window)
    requires job.Valid() && Fit(h, w, job) && EmptyOnlyByDrain(h, w, job)
    requires Reaches(h, w, job, n, h', w')
    ensures Fit(h', w', job) && EmptyOnlyByDrain(h', w', job) && h'.file == h.file
    decreases n
  {
    hide Healthy, Tight, Turn, Drained;
    if n > 0 {
      TurnFits(h, w, job);
      TurnEmptiesOnlyByDrain(h, w, job);
      var (r, h1) := Turn(h, w, job);
      ReachedStatesFit(h1, r.value, job, n - 1, h', w');
    }
  }

  /** At any turn the upload ever reaches, it goes on to wait with nothing outstanding exactly
      if nothing is pending at the end of a file whose end it has not yet read; and that
      happens only right after one report that drained more than PACE chunks at once. */
  lemma StallsOnlyAfterDrain(h: Host, job: Job, n: nat, h': Host, w': Window)
    requires job.Valid() && h.openable && Smooth(h.Open()) && Unsent(h.trace, job.chunk) && |h.file| > 0
    requires Reaches(h.Open(), START, job, n, h', w') && !(w'.eof && w'.pending == 0)
    ensures h'.Readable()
    ensures var (r, h2) := Fill(h', w', job);
      && r.Ok?
      && (r.value.acked == r.value.offset <==> w'.pending == 0 && w'.offset == |h.file|)
      && (r.value.acked == r.value.offset ==> Drained(h'.trace, |h.file|, job.chunk))
  {
    ReachedStatesFit(h.Open(), START, job, n, h', w');
    FillFits(h', w', job);
  }

  /** In that state everything has been sent and acknowledged, and yet the upload succeeds
      only if the device reports once more, anything but a failure or too much. */
  lemma StallNeedsAnotherReport(h: Host, w: Window, job: Job)
    requires job.Valid() && Fit(h, w, job)
    requires w.pending == 0 && !w.eof && w.offset == |h.file| == job.size
    ensures var (filled, h1) := Fill(h, w, job);
      var (heard, h2) := Wait(h1, ACK, NACK);
      && filled == Ok(w.(eof := true)) && h1.arrivals == h.arrivals
      && (Loop(h, w, job).0.Ok? <==> heard.Ok? && heard.value.written <= job.size)
      && (heard.Err? ==> Loop(h, w, job).0 == Err(heard.error))
  {
    ReadIsFull(h, job.chunk);
    ChunksCover(0, job.chunk);
  }

  /** Once the end of the file has been seen, the window is not full. */
  predicate EofBelow(w: Window) {
    w.eof ==> w.pending < WINDOW
  }

  lemma {:induction false} FillStaysEofBelow(h: Host, w: Window, job: Job)
    requires job.Valid() && Fit(h, w, job) && EofBelow(w)
    ensures Fill(h, w, job).0.Ok? && EofBelow(Fill(h, w, job).0.value)
    decreases !w.eof, WINDOW - w.pending
  {
    if !w.eof && w.pending < WINDOW {
      SendNextFits(h, w, job);
      var (r, h1) := SendNext(h, w, job);
      FillStaysEofBelow(h1, r.value, job);
    }
  }

  lemma TurnStaysEofBelow(h: Host, w: Window, job: Job)
    requires job.Valid() && Fit(h, w, job) && EofBelow(w) && Turn(h, w, job).0.Ok?
    ensures EofBelow(Turn(h, w, job).0.value)
  {
    FillFits(h, w, job);
    FillStaysEofBelow(h, w, job);
    var (filled, h1) := Fill(h, w, job);
    AckIsSafe(filled.value, Wait(h1, ACK, NACK).0.value.written, job, h1.pos, |h1.file|);
  }

  lemma {:induction false} ReachedStatesEofBelow(h: Host, w: Window, job: Job, n: nat, h': Host, w': Window)
    requires job.Valid() && Fit(h, w, job) && EofBelow(w) && Reaches(h, w, job, n, h', w')
    ensures Fit(h', w', job) && EofBelow(w') && h'.file == h.file
    decreases n
  {
    hide Healthy, Tight, Turn;
    if n > 0 {
      TurnFits(h, w, job);
      TurnStaysEofBelow(h, w, job);
      var (r, h1) := Turn(h, w, job);
      ReachedStatesEofBelow(h1, r.value, job, n - 1, h', w');
    }
  }

  /** Nothing is pending at the end of a file whose end has not been read yet. */
  predicate Stalled(w: Window, length: nat) {
    w.pending == 0 && !w.eof && w.offset == length
  }

  lemma AckStallsExactly(w: Window, written: int, job: Job, pos: nat, length: nat)
    requires job.Valid() && Sound(w, job.chunk, pos, length) && EofBelow(w) && (!w.eof ==> w.pending == WINDOW)
    requires TakeAck(w, written, job).Ok?
    ensures Stalled(TakeAck(w, written, job).value, length) <==> w.offset == length == written && w.pending == WINDOW
  {
    if w.acked <= written <= w.offset { ChunksCover(w.offset - written, job.chunk); }
  }

  /** Which reports lead there: at any turn that the upload ever reaches, exactly a report that
      acknowledges a full window at once, when the window ends at the end of the file. */
  lemma StallsExactly(h: Host, job: Job, n: nat, h': Host, w': Window)
    requires job.Valid() && h.openable && Smooth(h.Open()) && Unsent(h.trace, job.chunk)
    requires Reaches(h.Open(), START, job, n, h', w')
    ensures h'.Readable()
    ensures var (filled, h1) := Fill(h', w', job);
      var heard := Wait(h1, ACK, NACK).0;
      Turn(h', w', job).0.Ok? ==>
      && filled.Ok? && heard.Ok?
      && (Stalled(Turn(h', w', job).0.value, |h.file|)
          <==> filled.value.offset == |h.file| == heard.value.written && filled.value.pending == 8)
  {
    ReachedStatesEofBelow(h.Open(), START, job, n, h', w');
    FillFits(h', w', job);
    FillStaysEofBelow(h', w', job);
    var (filled, h1) := Fill(h', w', job);
    FillIsSafe(h', w', job);
    if Turn(h', w', job).0.Ok? { AckStallsExactly(filled.value, Wait(h1, ACK, NACK).0.value.written, job, h1.pos, |h1.file|); }
  }

  /** Nothing has been acknowledged yet, and chunks have been counted one by one. */
  ghost predicate Counting(h: Host, w: Window, job: Job)
    requires job.Valid()
  {
    && Fit(h, w, job) && EofBelow(w)
    && w.acked == 0 && w.pending == Chunks(w.offset, job.chunk)
    && (w.offset == Span(w.pending, job.chunk) || w.offset == |h.file|)
  }

  /** One chunk more, full or the last. */
  lemma OneChunkMore(p: nat, n: nat, chunk: nat)
    requires 0 < n <= chunk
    ensures Chunks(Span(p, chunk) + n, chunk) == p + 1
    ensures n == chunk ==> Span(p, chunk) + n == Span(p + 1, chunk)
  {
    var q := Chunks(Span(p, chunk) + n, chunk);
    ChunksLeast(Span(p, chunk) + n, chunk, p + 1);
    ChunksCover(Span(p, chunk) + n, chunk);
    if q <= p { SpanGrows(q, p, chunk); }
  }

  lemma SendNextCounts(h: Host, w: Window, job: Job)
    requires job.Valid() && Counting(h, w, job) && !w.eof && w.pending < WINDOW
    ensures var (r, h1) := SendNext(h, w, job); r.Ok? && Counting(h1, r.value, job) && h1.file == h.file
  {
    SendNextFits(h, w, job);
    ReadIsFull(h, job.chunk);
    var (r, h1) := h.Read(job.chunk);
    if r.Data? { OneChunkMore(w.pending, |r.chunk|, job.chunk); }
  }

  lemma {:induction false} FillCounts(h: Host, w: Window, job: Job)
    requires job.Valid() && Counting(h, w, job)
    ensures var (r, h1) := Fill(h, w, job); r.Ok? && Counting(h1, r.value, job)
    decreases !w.eof, WINDOW - w.pending
  {
    hide Healthy, Tight, Chunks, SendNext;
    if !w.eof && w.pending < WINDOW {
      SendNextCounts(h, w, job);
      var (r, h1) := SendNext(h, w, job);
      FillCounts(h1, r.value, job);
    }
  }

  /** A firmware of at most one window goes out at once; its end is seen unless it fills the window. */
  lemma FillSendsAll(h: Host, job: Job)
    requires job.Valid() && Fit(h, START, job) && h.pos == 0 && 0 < |h.file| <= Span(WINDOW, job.chunk)
    ensures var n := Chunks(|h.file|, job.chunk);
      n <= WINDOW && Fill(h, START, job).0 == Ok(Window(|h.file|, 0, n, n < WINDOW))
  {
    hide Fill, Orderly, Tight;
    ChunksCover(0, job.chunk);
    FillCounts(h, START, job);
    FillFits(h, START, job);
    FillIsSafe(h, START, job);
  }

  lemma OneReportIsHeard(h: Host, s: Status)
    requires h.arrivals == [Arrive(s)] && s.status in ACK
    ensures var (r, h1) := Wait(h, ACK, NACK); r == Ok(s) && h1.arrivals == []
  {
  }

  /** The one turn it takes. */
  lemma SingleTurn(h: Host, job: Job, device: string)
    requires job.Valid() && Fit(h, START, job) && h.pos == 0 && 0 < |h.file| == job.size <= Span(WINDOW, job.chunk)
    requires h.arrivals == [Arrive(Status(device, "chunk", job.size, ""))]
    ensures var (r, h1) := Turn(h, START, job);
      && r == Ok(Window(job.size, job.size, 0, Chunks(job.size, job.chunk) < WINDOW))
      && h1.arrivals == [] && Fit(h1, r.value, job)
  {
    FillSendsAll(h, job);
    TurnFits(h, START, job);
    ChunksCover(0, job.chunk);
    OneReportIsHeard(Fill(h, START, job).1, Status(device, "chunk", job.size, ""));
  }

  lemma LoopEnds(h: Host, w: Window, job: Job)
    requires job.Valid() && h.Readable() && w.eof && w.pending == 0 && w.acked == job.size
    ensures Loop(h, w, job) == (Ok(()), h)
  {
  }

  /** So by the input alone: a firmware of at most one window, acknowledged by a single report of its
      full size, gets through exactly if it takes fewer chunks than the window holds. Otherwise
      the upload times out with everything acknowledged. */
  lemma SingleReportSuffices(h: Host, job: Job, device: string)
    requires job.Valid() && h.openable && Smooth(h.Open()) && Unsent(h.trace, job.chunk)
    requires 0 < |h.file| == job.size <= Span(8, job.chunk)
    requires h.arrivals == [Arrive(Status(device, "chunk", job.size, ""))]
    ensures var (r, h') := Upload(h, job);
      if Chunks(job.size, job.chunk) < 8 then r == Ok(())
      else r == Err(TimedOut([])) && AckedBytes(h'.trace) == job.size
  {
    var start := h.Open();
    SingleTurn(start, job, device);
    var (r, h1) := Turn(start, START, job);
    if r.value.eof { LoopEnds(h1, r.value, job); } else { StallTimesOut(h1, r.value, job); }
    assert Loop(start, START, job) == Loop(h1, r.value, job);
  }

  lemma StallTimesOut(h: Host, w: Window, job: Job)
    requires job.Valid() && Fit(h, w, job) && Stalled(w, |h.file|) && w.acked == w.offset == job.size && h.arrivals == []
    ensures var (r, h') := Loop(h, w, job); r == Err(TimedOut([])) && AckedBytes(h'.trace) == job.size
  {
    StallNeedsAnotherReport(h, w, job);
    LoopIsSafe(h, w, job);
    FillFits(h, w, job);
    WaitMovesAck(Fill(h, w, job).1, ACK, NACK);
  }
}
