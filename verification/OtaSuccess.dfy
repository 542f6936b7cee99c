/** Sessions that get through: what a terminal has to report for a whole session to succeed. */
module OtaSuccess {
  import opened GoStrings
  import opened OtaFrame
  import opened OtaHost
  import opened OtaWait
  import opened OtaWindow
  import opened OtaLiveness
  import opened OtaBroadcast
  import opened OtaSession

  /** Among these arrivals, one of `ok` comes before any of `fail` and before the timer. */
  predicate Heard(arrivals: seq<Arrival>, ok: set<string>, fail: set<string>) {
    && arrivals != [] && arrivals[0].Arrive?
    && (arrivals[0].status.status in ok || (arrivals[0].status.status !in fail && Heard(arrivals[1..], ok, fail)))
  }

  /** What arrives behind it. */
  function Behind(arrivals: seq<Arrival>, ok: set<string>, fail: set<string>): seq<Arrival>
    requires Heard(arrivals, ok, fail)
  {
    if arrivals[0].status.status in ok then arrivals[1..] else Behind(arrivals[1..], ok, fail)
  }

  lemma {:induction false} HeardEndsWait(h: Host, ok: set<string>, fail: set<string>)
    requires Heard(h.arrivals, ok, fail)
    ensures var (r, h') := Wait(h, ok, fail);
      && r.Ok? && h'.arrivals == Behind(h.arrivals, ok, fail)
      && h' == h.(arrivals := h'.arrivals, trace := h'.trace)
    decreases |h.arrivals|
  {
    if h.arrivals[0].status.status !in ok { HeardEndsWait(h.Receive().1, ok, fail); }
  }

  /** The reports of a terminal that goes along: `started`; then a paced upload; then, behind the
      report that completes it, `done`. Any other chatter may be mixed in. */
  predicate GoesAlong(arrivals: seq<Arrival>, job: Job) {
    && Heard(arrivals, {"started"}, {"bad_begin", "begin_failed"})
    && var upload := Behind(arrivals, {"started"}, {"bad_begin", "begin_failed"});
    && Paced(upload, 0, job.size, job.chunk)
    && Heard(Rest(upload, 0, job.size, job.chunk), {"done"}, {"bad_finish", "finish_failed"})
  }

  lemma BeginIsUnsent(h: Host, job: Job, t: seq<Event>)
    requires h.trace == [] && Listened(h.Publish(Begin(job.size)).1.trace, t)
    ensures Unsent(t, job.chunk)
  {
    var h0 := h.Publish(Begin(job.size)).1;
    assert h0.trace == [h0.trace[0]];
    NoChunksYet(h0.trace);
    NoChunksIsWindowed(h0.trace, job.chunk);
    ListeningSendsNothing(h0.trace, t);
    ListeningStaysWindowed(h0.trace, t, job.chunk);
  }

  /** With a file that can be read and publishes that go out, a terminal that goes along gets its
      firmware, and the session reports success. */
  lemma SessionSucceeds(h: Host, job: Job)
    requires job.Valid() && h.trace == [] && h.openable && Smooth(h)
    requires |h.file| == job.size > 0 && GoesAlong(h.arrivals, job)
    ensures Run(h, job, false).0 == Ok(())
  {
    PublishGoesOut(h, Begin(job.size));
    var h0 := h.Publish(Begin(job.size)).1;
    HeardEndsWait(h0, STARTED, REFUSED);
    var h1 := Wait(h0, STARTED, REFUSED).1;
    BeginIsUnsent(h, job, h1.trace);
    PacedUploadSucceeds(h1, job);
    var h2 := Upload(h1, job).1;
    PublishGoesOut(h2, Finish);
    HeardEndsWait(SendFinish(h2).1, DONE, FINISH_FAILED);
  }

  /** The plainest such terminal: it acknowledges every chunk. */
  function Plain(job: Job, device: string): seq<Arrival>
    requires job.Valid()
  {
    [Arrive(Status(device, "started", 0, ""))] + EveryChunk(0, job, device) + [Arrive(Status(device, "done", job.size, ""))]
  }

  lemma {:induction false} PacedThenMore(arrivals: seq<Arrival>, more: seq<Arrival>, acked: nat, size: nat, chunk: nat)
    requires Paced(arrivals, acked, size, chunk)
    ensures Paced(arrivals + more, acked, size, chunk)
    ensures Rest(arrivals + more, acked, size, chunk) == Rest(arrivals, acked, size, chunk) + more
    decreases |arrivals|
  {
    assert (arrivals + more)[1..] == arrivals[1..] + more;
    var s := arrivals[0].status;
    if s.status !in ACK {
      PacedThenMore(arrivals[1..], more, acked, size, chunk);
    } else if Higher(acked, s.written) != size {
      PacedThenMore(arrivals[1..], more, Higher(acked, s.written), size, chunk);
    }
  }

  lemma {:induction false} EveryChunkLeavesNothing(k: nat, job: Job, device: string)
    requires job.Valid() && Span(k, job.chunk) < job.size
    ensures Paced(EveryChunk(k, job, device), Span(k, job.chunk), job.size, job.chunk)
    ensures Rest(EveryChunk(k, job, device), Span(k, job.chunk), job.size, job.chunk) == []
    decreases job.size - Span(k, job.chunk)
  {
    EveryChunkIsPaced(k, job, device);
    if Span(k + 1, job.chunk) < job.size {
      EveryChunkLeavesNothing(k + 1, job, device);
      assert EveryChunk(k, job, device)[1..] == EveryChunk(k + 1, job, device);
    }
  }

  lemma PlainGoesAlong(job: Job, device: string)
    requires job.Valid() && job.size > 0
    ensures GoesAlong(Plain(job, device), job)
  {
    var done := [Arrive(Status(device, "done", job.size, ""))];
    var chunks := EveryChunk(0, job, device);
    assert Plain(job, device)[1..] == chunks + done;
    EveryChunkLeavesNothing(0, job, device);
    PacedThenMore(chunks, done, 0, job.size, job.chunk);
    assert [] + done == done;
  }

  /** So for every firmware there is a session that succeeds. */
  lemma PlainSessionSucceeds(file: Bytes, session: Bytes, chunk: nat, device: string)
    requires |file| > 0 && |session| == SESSION_LENGTH && 0 < chunk < 0x1_0000
    ensures var job := Job(session, |file|, chunk);
      Run(Host(file, true, 0, [], [], Plain(job, device), []), job, false).0 == Ok(())
  {
    var job := Job(session, |file|, chunk);
    PlainGoesAlong(job, device);
    SessionSucceeds(Host(file, true, 0, [], [], Plain(job, device), []), job);
  }

  // ---- Stations ------------------------------------------------------------------------------------

  lemma OneJoins(h: Host, device: string, found: set<string>, more: seq<Arrival>)
    requires TrimSpace(device) == device != "" && h.arrivals == [Arrive(Status(device, "started", 0, ""))] + more
    ensures Discover(h, found) == Discover(h.Receive().1, found + {device}) && h.Receive().1.arrivals == more
  {
    assert h.arrivals[0] == Arrive(Status(device, "started", 0, ""));
  }

  lemma NamesOfNobody()
    ensures Names([]) == {}
  {
  }

  lemma NamesFrom(devices: seq<string>)
    requires devices != []
    ensures Names(devices) == {devices[0]} + Names(devices[1..])
  {
    assert devices == [devices[0]] + devices[1..];
  }

  lemma {:induction false} AllJoin(h: Host, devices: seq<string>, found: set<string>, rest: seq<Arrival>)
    requires ProperNames(devices) && "" !in devices && found + Names(devices) != {}
    requires h.arrivals == Block(devices, "started", 0) + ([Expire] + rest)
    ensures var (r, h') := Discover(h, found);
      r == Ok(SortedNames(found + Names(devices))) && h'.arrivals == rest
    decreases |devices|
  {
    hide TrimSpace, SortedNames, Names;
    if devices == [] {
      assert h.arrivals == [Expire] + rest;
      assert found + Names(devices) == found by { NamesOfNobody(); }
    } else {
      var device, tail, more := devices[0], devices[1..], Block(devices[1..], "started", 0) + ([Expire] + rest);
      Regroup([Arrive(Status(device, "started", 0, ""))], Block(tail, "started", 0), [Expire] + rest);
      OneJoins(h, device, found, more);
      NamesFrom(devices);
      assert (found + {device}) + Names(tail) == found + Names(devices);
      AllJoin(h.Receive().1, tail, found + {device}, rest);
    }
  }

  lemma {:induction false} EveryoneConfirms(h: Host, offset: nat, job: Job, devices: seq<string>, n: nat, rest: seq<Arrival>)
    returns (m: nat)
    requires job.Valid() && ProperNames(devices) && h.Readable() && h.readPlan == [] && h.publishPlan == []
    requires offset == h.pos && |h.file| == job.size
    requires h.arrivals == Blocks(n, devices, job.size) + rest && n > |h.file| - h.pos
    ensures var (r, h') := Broadcast(h, offset, job, Names(devices));
      r.Ok? && h'.arrivals == Blocks(m, devices, job.size) + rest && h'.publishPlan == []
    decreases |h.file| - h.pos
  {
    hide SendPart, CatchUp, Holds;
    m := n;
    if offset < job.size {
      PartGoesOut(h, job);
      var (sent, h1) := SendPart(h, offset, job);
      m := EveryoneCatchesUp(h1, job, devices, n, rest);
      m := EveryoneConfirms(CatchUp(h1, h1.pos, false, job, Names(devices)).1, h1.pos, job, devices, m, rest);
    }
  }

  lemma PartGoesOut(h: Host, job: Job)
    requires job.Valid() && h.readPlan == [] && h.publishPlan == [] && h.pos < |h.file|
    ensures var (sent, h1) := SendPart(h, h.pos, job);
      && sent == Ok((h1.pos, false)) && h.pos < h1.pos
      && h1.arrivals == h.arrivals && h1.readPlan == [] && h1.publishPlan == []
  {
  }

  /** At a barrier one round of reports is used up, elsewhere none. */
  lemma EveryoneCatchesUp(h: Host, job: Job, devices: seq<string>, n: nat, rest: seq<Arrival>) returns (m: nat)
    requires h.Readable() && ProperNames(devices) && |h.file| == job.size
    requires h.arrivals == Blocks(n, devices, job.size) + rest && n > 0
    ensures n - 1 <= m
    ensures var (held, h1) := CatchUp(h, h.pos, false, job, Names(devices));
      && held.Ok? && h1.arrivals == Blocks(m, devices, job.size) + rest
      && h1.pos == h.pos && h1.file == h.file && h1.readPlan == h.readPlan && h1.publishPlan == h.publishPlan
  {
    m := n;
    if Holds(h.pos, job.size) {
      m := n - 1;
      var more := Blocks(m, devices, job.size) + rest;
      assert h.arrivals == Block(devices, "chunk", job.size) + more;
      BlockClears(h, devices, "chunk", job.size, ACK, NACK, h.pos, more);
    }
  }

  /** Reports of chunks are nothing to those who wait for the end. */
  lemma {:induction false} BlockIsSkipped(h: Host, devices: seq<string>, written: nat, rest: seq<Arrival>, remaining: set<string>, least: nat)
    returns (h': Host)
    requires h.arrivals == Block(devices, "chunk", written) + rest
    ensures h'.arrivals == rest
    ensures WaitAll(h, remaining, DONE, FINISH_FAILED, least).0 == WaitAll(h', remaining, DONE, FINISH_FAILED, least).0
    decreases |devices|
  {
    if devices == [] {
      assert h.arrivals == rest;
      h' := h;
    } else {
      assert h.arrivals[1..] == Block(devices[1..], "chunk", written) + rest;
      h' := BlockIsSkipped(h.Receive().1, devices[1..], written, rest, remaining, least);
    }
  }

  lemma {:induction false} EveryoneIsDone(h: Host, devices: seq<string>, n: nat, size: nat)
    requires ProperNames(devices)
    requires h.arrivals == Blocks(n, devices, size) + Block(devices, "done", size)
    ensures WaitAll(h, Names(devices), DONE, FINISH_FAILED, size).0.Ok?
    decreases n
  {
    if n == 0 {
      assert h.arrivals == Block(devices, "done", size) + [];
      BlockClears(h, devices, "done", size, DONE, FINISH_FAILED, size, []);
    } else {
      var rest := Blocks(n - 1, devices, size) + Block(devices, "done", size);
      assert h.arrivals == Block(devices, "chunk", size) + rest;
      var h' := BlockIsSkipped(h, devices, size, rest, Names(devices), size);
      EveryoneIsDone(h', devices, n - 1, size);
    }
  }

  /** Stations that all join, confirm all chunks often enough, and report `done`. */
  function Obedient(devices: seq<string>, size: nat): seq<Arrival> {
    Block(devices, "started", 0) + ([Expire] + (Blocks(size + 1, devices, size) + Block(devices, "done", size)))
  }

  /** For every firmware and every group of stations there is a session that succeeds. */
  lemma ObedientStationsSucceed(file: Bytes, job: Job, devices: seq<string>)
    requires job.Valid() && |file| == job.size > 0
    requires ProperNames(devices) && "" !in devices && devices != []
    ensures Run(Host(file, true, 0, [], [], Obedient(devices, job.size), []), job, true).0.Ok?
  {
    var h := Host(file, true, 0, [], [], Obedient(devices, job.size), []);
    var h0 := h.Publish(Begin(job.size)).1;
    var rest := Blocks(job.size + 1, devices, job.size) + Block(devices, "done", job.size);
    assert devices[0] in Names(devices);
    assert {} + Names(devices) == Names(devices);
    AllJoin(h0, devices, {}, rest);
    SortingIsUnique(SortedNames(Names(devices)), devices);
    var h1 := Discover(h0, {}).1;
    var m := EveryoneConfirms(h1.Open(), 0, job, devices, job.size + 1, Block(devices, "done", job.size));
    var h2 := UploadAll(h1, job, Names(devices)).1;
    EveryoneIsDone(SendFinish(h2).1, devices, m, job.size);
  }

  // ---- Stations that confirm every boundary --------------------------------------------------------

  /** Where the stream stops next: at the next multiple of 64 KiB, or at the end. */
  function NextStop(offset: nat, size: nat): nat {
    Min((offset / 0x1_0000 + 1) * 0x1_0000, size)
  }

  /** The reports of stations that confirm exactly what has been sent, at every stop. */
  function Punctual(devices: seq<string>, offset: nat, size: nat): seq<Arrival>
    decreases size - offset
  {
    if offset >= size then []
    else Block(devices, "chunk", NextStop(offset, size)) + Punctual(devices, NextStop(offset, size), size)
  }

  lemma StopsMove(offset: nat, size: nat)
    requires offset % BARCODE_CHUNK == 0 && offset < size
    ensures var next := Min(offset + BARCODE_CHUNK, size);
      if Holds(next, size) then next == NextStop(offset, size)
      else next % BARCODE_CHUNK == 0 && next < size && NextStop(next, size) == NextStop(offset, size)
  {
    GridStep(offset);
  }

  /** What a full read makes of the next part. */
  lemma FullPartGoesOut(h: Host, job: Job)
    requires job.Valid() && h.readPlan == [] && h.publishPlan == [] && h.pos < |h.file| == job.size
    ensures SendPart(h, h.pos, job).1.pos == Min(h.pos + job.chunk, job.size)
  {
  }

  lemma {:induction false} PunctualBroadcast(h: Host, job: Job, devices: seq<string>, rest: seq<Arrival>)
    requires job.Valid() && job.chunk == BARCODE_CHUNK && ProperNames(devices) && h.Readable()
    requires h.readPlan == [] && h.publishPlan == [] && |h.file| == job.size
    requires h.pos % BARCODE_CHUNK == 0 || h.pos == job.size
    requires h.arrivals == Punctual(devices, h.pos, job.size) + rest
    ensures var (r, h') := Broadcast(h, h.pos, job, Names(devices)); r.Ok? && h'.arrivals == rest
    decreases |h.file| - h.pos
  {
    hide SendPart, CatchUp, Punctual;
    if h.pos < job.size {
      PartGoesOut(h, job);
      FullPartGoesOut(h, job);
      var h1 := SendPart(h, h.pos, job).1;
      PunctualStop(h.pos, h1, job, devices, rest);
      PunctualBroadcast(CatchUp(h1, h1.pos, false, job, Names(devices)).1, job, devices, rest);
    } else {
      NothingMoreToSay(devices, job.size, rest);
    }
  }

  lemma NothingMoreToSay(devices: seq<string>, size: nat, rest: seq<Arrival>)
    ensures Punctual(devices, size, size) + rest == rest
  {
  }

  /** At a stop one round of reports is used up, elsewhere none. */
  lemma PunctualStop(offset: nat, h: Host, job: Job, devices: seq<string>, rest: seq<Arrival>)
    requires job.Valid() && job.chunk == BARCODE_CHUNK && ProperNames(devices)
    requires offset % BARCODE_CHUNK == 0 && offset < job.size && h.pos == Min(offset + BARCODE_CHUNK, job.size)
    requires h.arrivals == Punctual(devices, offset, job.size) + rest
    ensures h.pos % BARCODE_CHUNK == 0 || h.pos == job.size
    ensures var (held, h1) := CatchUp(h, h.pos, false, job, Names(devices));
      && held.Ok? && h1.arrivals == Punctual(devices, h.pos, job.size) + rest
      && h1.pos == h.pos && h1.file == h.file && h1.readPlan == h.readPlan && h1.publishPlan == h.publishPlan
  {
    hide WaitAll, Block, ProperNames;
    StopsMove(offset, job.size);
    if Holds(h.pos, job.size) {
      Regroup(Block(devices, "chunk", h.pos), Punctual(devices, h.pos, job.size), rest);
      BlockClears(h, devices, "chunk", h.pos, ACK, NACK, h.pos, Punctual(devices, h.pos, job.size) + rest);
    }
  }

  /** With full reads and publishes that succeed, it is enough that every station confirms exactly what
      has been sent, once at every 64 KiB boundary and once at the end. */
  lemma PunctualStationsSucceed(file: Bytes, job: Job, devices: seq<string>, trace: seq<Event>, rest: seq<Arrival>)
    requires job.Valid() && job.chunk == 512 && ProperNames(devices) && |file| == job.size
    ensures var (r, h') := UploadAll(Host(file, true, 0, [], [], Punctual(devices, 0, job.size) + rest, trace), job, Names(devices));
      r.Ok? && h'.arrivals == rest
  {
    PunctualBroadcast(Host(file, true, 0, [], [], Punctual(devices, 0, job.size) + rest, trace), job, devices, rest);
  }

  // ---- Honest devices in these sessions ----------------------------------------------------------------

  /** No report speaks of more than so many bytes. */
  ghost predicate Modest(h: Host, limit: int) {
    && (forall a :: a in h.arrivals && a.Arrive? ==> a.status.written <= limit)
    && (forall e :: e in h.trace && e.Got? ==> e.status.written <= limit)
  }

  lemma PublishStaysModest(h: Host, m: Message, limit: int)
    requires Modest(h, limit)
    ensures Modest(h.Publish(m).1, limit)
  {
  }

  lemma ReceiveStaysModest(h: Host, limit: int)
    requires Modest(h, limit)
    ensures Modest(h.Receive().1, limit)
    ensures h.Receive().0.Arrive? ==> h.Receive().0.status.written <= limit
  {
    if h.arrivals != [] {
      assert h.arrivals[0] in h.arrivals;
      assert forall a :: a in h.arrivals[1..] ==> a in h.arrivals;
    }
  }

  lemma {:induction false} WaitStaysModest(h: Host, ok: set<string>, fail: set<string>, limit: int)
    requires Modest(h, limit)
    ensures Modest(Wait(h, ok, fail).1, limit)
    decreases |h.arrivals|
  {
    ReceiveStaysModest(h, limit);
    var (a, h1) := h.Receive();
    if a.Arrive? && a.status.status !in ok && a.status.status !in fail { WaitStaysModest(h1, ok, fail, limit); }
  }

  lemma {:induction false} FillStaysModest(h: Host, w: Window, job: Job, limit: int)
    requires job.Valid() && h.Readable() && Modest(h, limit)
    ensures Modest(Fill(h, w, job).1, limit)
    decreases !w.eof, WINDOW - w.pending
  {
    if !w.eof && w.pending < WINDOW {
      var (read, h1) := h.Read(job.chunk);
      if read.Data? { PublishStaysModest(h1, Chunk(Encode(job.session, w.offset, read.chunk)), limit); }
      var (r, h2) := SendNext(h, w, job);
      if r.Ok? { FillStaysModest(h2, r.value, job, limit); }
    }
  }

  lemma {:induction false} LoopStaysModest(h: Host, w: Window, job: Job, limit: int)
    requires job.Valid() && h.Readable() && Modest(h, limit)
    ensures Modest(Loop(h, w, job).1, limit)
    decreases |h.arrivals|
  {
    if !(w.eof && w.pending == 0) {
      FillStaysModest(h, w, job, limit);
      WaitStaysModest(Fill(h, w, job).1, ACK, NACK, limit);
      var (turned, h1) := Turn(h, w, job);
      if turned.Ok? { LoopStaysModest(h1, turned.value, job, limit); }
    }
  }

  lemma SingleStaysModest(h: Host, job: Job, limit: int)
    requires job.Valid() && Modest(h, limit)
    ensures Modest(RunSingle(h, job).1, limit)
  {
    WaitStaysModest(h, STARTED, REFUSED, limit);
    var h1 := Wait(h, STARTED, REFUSED).1;
    if h1.openable { LoopStaysModest(h1.Open(), START, job, limit); }
    var h2 := Upload(h1, job).1;
    PublishStaysModest(h2, Abort, limit);
    PublishStaysModest(h2, Finish, limit);
    WaitStaysModest(SendFinish(h2).1, DONE, FINISH_FAILED, limit);
  }

  lemma {:induction false} WaitAllStaysModest(h: Host, remaining: set<string>, ok: set<string>, fail: set<string>, least: int, limit: int)
    requires Modest(h, limit)
    ensures Modest(WaitAll(h, remaining, ok, fail, least).1, limit)
    decreases |h.arrivals|
  {
    if remaining != {} {
      ReceiveStaysModest(h, limit);
      var (a, h1) := h.Receive();
      if a.Arrive? {
        WaitAllStaysModest(h1, remaining, ok, fail, least, limit);
        WaitAllStaysModest(h1, remaining - {TrimSpace(a.status.device)}, ok, fail, least, limit);
      }
    }
  }

  lemma {:induction false} DiscoverStaysModest(h: Host, found: set<string>, limit: int)
    requires Modest(h, limit)
    ensures Modest(Discover(h, found).1, limit)
    decreases |h.arrivals|
  {
    ReceiveStaysModest(h, limit);
    var (a, h1) := h.Receive();
    if a.Arrive? {
      DiscoverStaysModest(h1, found, limit);
      DiscoverStaysModest(h1, found + {TrimSpace(a.status.device)}, limit);
    }
  }

  lemma {:induction false} BroadcastStaysModest(h: Host, offset: nat, job: Job, devices: set<string>, limit: int)
    requires job.Valid() && h.Readable() && Modest(h, limit)
    ensures Modest(Broadcast(h, offset, job, devices).1, limit)
    decreases |h.file| - h.pos
  {
    if offset < job.size {
      var (read, h0) := h.Read(job.chunk);
      if read.Data? { PublishStaysModest(h0, Chunk(Encode(job.session, offset, read.chunk)), limit); }
      var (sent, h1) := SendPart(h, offset, job);
      if sent.Ok? {
        WaitAllStaysModest(h1, devices, ACK, NACK, Min(sent.value.0, job.size), limit);
        var (held, h2) := CatchUp(h1, sent.value.0, sent.value.1, job, devices);
        if held.Ok? && !sent.value.1 { BroadcastStaysModest(h2, sent.value.0, job, devices, limit); }
      }
    }
  }

  lemma StationsStayModest(h: Host, job: Job, limit: int)
    requires job.Valid() && Modest(h, limit)
    ensures Modest(RunStations(h, job).1, limit)
  {
    DiscoverStaysModest(h, {}, limit);
    var (found, h1) := Discover(h, {});
    PublishStaysModest(h1, Abort, limit);
    if found.Ok? {
      if h1.openable { BroadcastStaysModest(h1.Open(), 0, job, Names(found.value), limit); }
      var h2 := UploadAll(h1, job, Names(found.value)).1;
      PublishStaysModest(h2, Abort, limit);
      PublishStaysModest(h2, Finish, limit);
      WaitAllStaysModest(SendFinish(h2).1, Names(found.value), DONE, FINISH_FAILED, job.size, limit);
    }
  }

  lemma SessionStaysModest(h: Host, job: Job, stations: bool, limit: int)
    requires job.Valid() && Modest(h, limit)
    ensures Modest(Run(h, job, stations).1, limit)
  {
    PublishStaysModest(h, Begin(job.size), limit);
    var h1 := h.Publish(Begin(job.size)).1;
    SingleStaysModest(h1, job, limit);
    StationsStayModest(h1, job, limit);
  }

  /** In a successful session whose reports are modest, a terminal that gets every frame is honest:
      what TerminalEndToEnd asks for can be had, and it then holds the file. */
  lemma ModestTerminalIsHonest(h: Host, job: Job)
    requires job.Valid() && h.trace == [] && |h.file| <= 0x1_0000_0000
    requires Modest(h, job.size) && Run(h, job, false).0.Ok?
    ensures var t := Run(h, job, false).1.trace;
      HonestTerminal(t, job.session, Frames(t)) && Assemble(job.session, Frames(t)) == h.file
  {
    hide Run;
    var t := Run(h, job, false).1.trace;
    SingleSession(h, job);
    SessionIsWellFormed(h, job, false);
    SessionStaysModest(h, job, false, job.size);
    var f, d :| 0 <= f < d < |t| && FinishedAt(t, f) && t[d].Got? && t[d].status.status == "done";
    FramesAtFinish(t, f);
    assert FullySent(t[..f], h.file, job);
    TilesAssemble(Frames(t), job.session, h.file, job.chunk, job.size);
    assert h.file[..job.size] == h.file;
  }

  /** The same for stations and EndToEnd. */
  lemma ModestStationsAreHonest(h: Host, job: Job, d: string)
    requires job.Valid() && h.trace == [] && |h.file| == job.size <= 0x1_0000_0000
    requires Modest(h, job.size) && Run(h, job, true).0.Ok?
    ensures var t := Run(h, job, true).1.trace;
      Honest(t, d, job.session, Frames(t)) && Assemble(job.session, Frames(t)) == h.file
  {
    hide Run, TrimSpace, CompletedAt, Discover;
    var t := Run(h, job, true).1.trace;
    StationsSession(h, job);
    SessionStaysModest(h, job, true, job.size);
    TilesAssemble(Frames(t), job.session, h.file, job.chunk, SentBytes(t));
    assert h.file[..SentBytes(t)] == h.file;
  }

  predicate ModestReports(arrivals: seq<Arrival>, limit: int) {
    forall i :: 0 <= i < |arrivals| && arrivals[i].Arrive? ==> arrivals[i].status.written <= limit
  }

  lemma {:induction false} EveryChunkIsModest(k: nat, job: Job, device: string)
    requires job.Valid()
    ensures ModestReports(EveryChunk(k, job, device), job.size)
    decreases job.size - Span(k, job.chunk)
  {
    if Span(k + 1, job.chunk) < job.size { EveryChunkIsModest(k + 1, job, device); }
  }

  lemma {:induction false} BlockIsModest(devices: seq<string>, status: string, written: nat, limit: nat)
    requires written <= limit
    ensures ModestReports(Block(devices, status, written), limit)
  {
    if devices != [] { BlockIsModest(devices[1..], status, written, limit); }
  }

  lemma {:induction false} BlocksAreModest(n: nat, devices: seq<string>, written: nat)
    ensures ModestReports(Blocks(n, devices, written), written)
  {
    if n > 0 {
      BlockIsModest(devices, "chunk", written, written);
      BlocksAreModest(n - 1, devices, written);
    }
  }

  lemma PlainIsModest(job: Job, device: string)
    requires job.Valid()
    ensures ModestReports(Plain(job, device), job.size)
  {
    EveryChunkIsModest(0, job, device);
  }

  lemma ModestStart(h: Host, limit: int)
    requires h.trace == [] && ModestReports(h.arrivals, limit)
    ensures Modest(h, limit)
  {
  }

  /** For every firmware of up to 4 GiB the plain session has an honest terminal, which then holds it. */
  lemma PlainSessionDelivers(file: Bytes, session: Bytes, chunk: nat, device: string)
    requires 0 < |file| <= 0x1_0000_0000 && |session| == SESSION_LENGTH && 0 < chunk < 0x1_0000
    ensures var job := Job(session, |file|, chunk);
      var t := Run(Host(file, true, 0, [], [], Plain(job, device), []), job, false).1.trace;
      HonestTerminal(t, session, Frames(t)) && Assemble(session, Frames(t)) == file
  {
    var job := Job(session, |file|, chunk);
    var h := Host(file, true, 0, [], [], Plain(job, device), []);
    hide Run, Plain, HonestTerminal;
    PlainSessionSucceeds(file, session, chunk, device);
    PlainIsModest(job, device);
    ModestStart(h, job.size);
    ModestTerminalIsHonest(h, job);
  }

  lemma ObedientIsModest(devices: seq<string>, size: nat)
    ensures ModestReports(Obedient(devices, size), size)
  {
    BlockIsModest(devices, "started", 0, size);
    BlocksAreModest(size + 1, devices, size);
    BlockIsModest(devices, "done", size, size);
  }

  /** And the obedient session honest stations. */
  lemma ObedientStationsDeliver(file: Bytes, job: Job, devices: seq<string>, d: string)
    requires job.Valid() && 0 < |file| == job.size <= 0x1_0000_0000
    requires ProperNames(devices) && "" !in devices && devices != []
    ensures var t := Run(Host(file, true, 0, [], [], Obedient(devices, job.size), []), job, true).1.trace;
      Honest(t, d, job.session, Frames(t)) && Assemble(job.session, Frames(t)) == file
  {
    var h := Host(file, true, 0, [], [], Obedient(devices, job.size), []);
    hide Run, Obedient, Honest;
    ObedientStationsSucceed(file, job, devices);
    ObedientIsModest(devices, job.size);
    ModestStart(h, job.size);
    ModestStationsAreHonest(h, job, d);
  }
}
