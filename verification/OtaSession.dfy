/** `runOTA`: one update session from the begin message to the last report, for a single
    terminal or for every barcode station that joins. */
module OtaSession {
  import opened GoStrings
  import opened OtaFrame
  import opened OtaHost
  import opened OtaWait
  import opened OtaWindow
  import opened OtaBroadcast

  const DONE: set<string> := {"done"}
  const FINISH_FAILED: set<string> := {"bad_finish", "finish_failed"}
  const STARTED: set<string> := {"started"}

  /** Finish the session after an upload that succeeded. */
  function SendFinish(h: Host): (Result<()>, Host) {
    var (ok, h1) := h.Publish(Finish);
    (if ok then Ok(()) else Err(PublishFailed), h1)
  }

  /** Give up: the abort message goes out, whether or not that works, and the error stands. */
  function GiveUp(h: Host): Host {
    h.Publish(Abort).1
  }

  function Dismiss<T>(r: Result<T>): Result<()> {
    if r.Ok? then Ok(()) else Err(r.error)
  }

  /** The session with one terminal, after the begin message. */
  function RunSingle(h: Host, job: Job): (Result<()>, Host)
    requires job.Valid()
  {
    var (started, h1) := Wait(h, STARTED, REFUSED);
    if started.Err? then (Dismiss(started), h1)
    else
      var (uploaded, h2) := Upload(h1, job);
      if uploaded.Err? then (uploaded, GiveUp(h2))
      else
        var (finished, h3) := SendFinish(h2);
        if finished.Err? then (finished, h3)
        else
          var (done, h4) := Wait(h3, DONE, FINISH_FAILED);
          (Dismiss(done), h4)
  }

  /** The session with the stations, after the begin message. */
  ghost function RunStations(h: Host, job: Job): (Result<()>, Host)
    requires job.Valid()
  {
    var (found, h1) := Discover(h, {});
    if found.Err? then (Dismiss(found), GiveUp(h1))
    else
      var (uploaded, h2) := UploadAll(h1, job, Names(found.value));
      if uploaded.Err? then (uploaded, GiveUp(h2))
      else
        var (finished, h3) := SendFinish(h2);
        if finished.Err? then (finished, h3)
        else WaitAll(h3, Names(found.value), DONE, FINISH_FAILED, job.size)
  }

  ghost function Run(h: Host, job: Job, stations: bool): (Result<()>, Host)
    requires job.Valid()
  {
    if job.size == 0 then (Err(EmptyFirmware), h)
    else
      var (ok, h1) := h.Publish(Begin(job.size));
      if !ok then (Err(PublishFailed), h1)
      else if stations then RunStations(h1, job)
      else RunSingle(h1, job)
  }

  method RunSingleOTA(link: Link, job: Job) returns (r: Result<()>)
    requires job.Valid()
    modifies link
    ensures (r, link.host) == RunSingle(old(link.host), job)
  {
    var started := WaitOTAStatus(link, STARTED, REFUSED);
    if started.Err? {
      return Err(started.error);
    }
    r := UploadOTAChunks(link, job);
    if r.Err? {
      var _ := link.Publish(Abort);
      return;
    }
    var ok := link.Publish(Finish);
    if !ok {
      return Err(PublishFailed);
    }
    var done := WaitOTAStatus(link, DONE, FINISH_FAILED);
    if done.Err? {
      return Err(done.error);
    }
    return Ok(());
  }

  method RunStationsOTA(link: Link, job: Job) returns (r: Result<()>)
    requires job.Valid()
    modifies link
    ensures (r, link.host) == RunStations(old(link.host), job)
  {
    var found := DiscoverOTADevices(link);
    if found.Err? {
      var _ := link.Publish(Abort);
      return Err(found.error);
    }
    var devices := found.value;
    r := UploadOTAChunksForDevices(link, job, devices);
    if r.Err? {
      var _ := link.Publish(Abort);
      return;
    }
    var ok := link.Publish(Finish);
    if !ok {
      return Err(PublishFailed);
    }
    r := WaitAllOTADevices(link, devices, DONE, FINISH_FAILED, job.size);
  }

  method RunOTA(link: Link, job: Job, discoverDevices: bool) returns (r: Result<()>)
    requires job.Valid()
    modifies link
    ensures (r, link.host) == Run(old(link.host), job, discoverDevices)
  {
    if job.size == 0 {
      return Err(EmptyFirmware);
    }
    var ok := link.Publish(Begin(job.size));
    if !ok {
      return Err(PublishFailed);
    }
    if discoverDevices {
      r := RunStationsOTA(link, job);
    } else {
      r := RunSingleOTA(link, job);
    }
  }

  // ---- The order of messages ---------------------------------------------------------------

  /** Where a session stands: nothing sent, begun, or closed by a finish or an abort. */
  datatype Phase = Idle | Open | Closed | Broken

  function Advance(p: Phase, e: Event): Phase {
    if !e.Sent? then p
    else match e.message
      case Begin(_) => if p == Idle then Open else Broken
      case Chunk(_) => if p == Open then Open else Broken
      case _ => if p == Open then Closed else Broken
  }

  /** Begin, then chunks, then at most one finish or abort; Broken if t is anything else. */
  function PhaseOf(t: seq<Event>): Phase {
    if t == [] then Idle else Advance(PhaseOf(t[..|t| - 1]), t[|t| - 1])
  }

  lemma PhaseAppend(t: seq<Event>, e: Event)
    ensures PhaseOf(t + [e]) == Advance(PhaseOf(t), e)
  {
    assert (t + [e])[..|t|] == t;
  }

  lemma {:induction false} ListeningKeepsPhase(t: seq<Event>, t': seq<Event>)
    requires Listened(t, t')
    ensures PhaseOf(t') == PhaseOf(t)
    decreases |t'|
  {
    if |t'| > |t| { ListeningKeepsPhase(t, t'[..|t'| - 1]); } else { assert t == t'; }
  }

  lemma ChunkKeepsPhase(h: Host, frame: Bytes)
    requires PhaseOf(h.trace) == Open
    ensures PhaseOf(h.Publish(Chunk(frame)).1.trace) == Open
  {
    PhaseAppend(h.trace, Sent(Chunk(frame), h.Publish(Chunk(frame)).0));
  }

  lemma SendNextKeepsPhase(h: Host, w: Window, job: Job)
    requires job.Valid() && h.Readable() && PhaseOf(h.trace) == Open
    ensures PhaseOf(SendNext(h, w, job).1.trace) == Open && h.trace <= SendNext(h, w, job).1.trace
  {
    var (r, h1) := h.Read(job.chunk);
    if r.Data? { ChunkKeepsPhase(h1, Encode(job.session, w.offset, r.chunk)); }
  }

  lemma SendPartKeepsPhase(h: Host, offset: nat, job: Job)
    requires job.Valid() && h.Readable() && PhaseOf(h.trace) == Open
    ensures PhaseOf(SendPart(h, offset, job).1.trace) == Open && h.trace <= SendPart(h, offset, job).1.trace
  {
    var (r, h1) := h.Read(job.chunk);
    if r.Data? { ChunkKeepsPhase(h1, Encode(job.session, offset, r.chunk)); }
  }

  lemma {:induction false} FillKeepsPhase(h: Host, w: Window, job: Job)
    requires job.Valid() && h.Readable() && PhaseOf(h.trace) == Open
    ensures PhaseOf(Fill(h, w, job).1.trace) == Open && h.trace <= Fill(h, w, job).1.trace
    decreases !w.eof, WINDOW - w.pending
  {
    if !w.eof && w.pending < WINDOW {
      SendNextKeepsPhase(h, w, job);
      var (r, h1) := SendNext(h, w, job);
      if r.Ok? { FillKeepsPhase(h1, r.value, job); }
    }
  }

  lemma {:induction false} LoopKeepsPhase(h: Host, w: Window, job: Job)
    requires job.Valid() && h.Readable() && PhaseOf(h.trace) == Open
    ensures PhaseOf(Loop(h, w, job).1.trace) == Open && h.trace <= Loop(h, w, job).1.trace
    decreases |h.arrivals|
  {
    if !(w.eof && w.pending == 0) {
      FillKeepsPhase(h, w, job);
      var (filled, h1) := Fill(h, w, job);
      ListeningKeepsPhase(h1.trace, Wait(h1, ACK, NACK).1.trace);
      var (turned, h2) := Turn(h, w, job);
      if turned.Ok? { LoopKeepsPhase(h2, turned.value, job); }
    }
  }

  lemma {:induction false} BroadcastKeepsPhase(h: Host, offset: nat, job: Job, devices: set<string>)
    requires job.Valid() && h.Readable() && PhaseOf(h.trace) == Open
    ensures PhaseOf(Broadcast(h, offset, job, devices).1.trace) == Open
    ensures h.trace <= Broadcast(h, offset, job, devices).1.trace
    decreases |h.file| - h.pos
  {
    if offset < job.size {
      SendPartKeepsPhase(h, offset, job);
      var (sent, h1) := SendPart(h, offset, job);
      if sent.Ok? {
        var (held, h2) := CatchUp(h1, sent.value.0, sent.value.1, job, devices);
        ListeningKeepsPhase(h1.trace, h2.trace);
        if held.Ok? && !sent.value.1 { BroadcastKeepsPhase(h2, sent.value.0, job, devices); }
      }
    }
  }

  /** What remains to be said of a session once the upload has returned. */
  lemma ClosingKeepsPhase(h: Host, t: seq<Event>)
    requires PhaseOf(h.trace) == Open && (Listened(GiveUp(h).trace, t) || Listened(SendFinish(h).1.trace, t))
    ensures PhaseOf(t) == Closed
  {
    PhaseAppend(h.trace, h.Publish(Abort).1.trace[|h.trace|]);
    PhaseAppend(h.trace, h.Publish(Finish).1.trace[|h.trace|]);
    if Listened(GiveUp(h).trace, t) {
      ListeningKeepsPhase(GiveUp(h).trace, t);
    } else {
      ListeningKeepsPhase(SendFinish(h).1.trace, t);
    }
  }

  lemma RunSingleIsWellFormed(h: Host, job: Job)
    requires job.Valid() && PhaseOf(h.trace) == Open
    ensures PhaseOf(RunSingle(h, job).1.trace) in {Open, Closed}
    ensures RunSingle(h, job).0.Ok? ==> PhaseOf(RunSingle(h, job).1.trace) == Closed
  {
    var (started, h1) := Wait(h, STARTED, REFUSED);
    ListeningKeepsPhase(h.trace, h1.trace);
    if started.Ok? {
      if h1.openable { LoopKeepsPhase(h1.Open(), START, job); }
      ClosingKeepsPhase(Upload(h1, job).1, RunSingle(h, job).1.trace);
    }
  }

  lemma RunStationsIsWellFormed(h: Host, job: Job)
    requires job.Valid() && PhaseOf(h.trace) == Open
    ensures PhaseOf(RunStations(h, job).1.trace) == Closed
  {
    var (found, h1) := Discover(h, {});
    ListeningKeepsPhase(h.trace, h1.trace);
    if found.Err? {
      ClosingKeepsPhase(h1, RunStations(h, job).1.trace);
    } else {
      if h1.openable { BroadcastKeepsPhase(h1.Open(), 0, job, Names(found.value)); }
      ClosingKeepsPhase(UploadAll(h1, job, Names(found.value)).1, RunStations(h, job).1.trace);
    }
  }

  /** Whichever publish or wait fails: a session's messages are a begin, then chunks, then at
      most one finish or abort and nothing after it. A session with stations that got past
      its begin always ends in one of the two; a session that reports success ends in one. */
  lemma SessionIsWellFormed(h: Host, job: Job, stations: bool)
    requires job.Valid() && h.trace == []
    ensures var (r, h') := Run(h, job, stations);
      && PhaseOf(h'.trace) != Broken
      && (PhaseOf(h'.trace) == Idle <==> job.size == 0)
      && (r.Ok? ==> PhaseOf(h'.trace) == Closed)
      && (stations && job.size > 0 && h.Publish(Begin(job.size)).0 ==> PhaseOf(h'.trace) == Closed)
  {
    var h1 := h.Publish(Begin(job.size)).1;
    PhaseAppend([], Sent(Begin(job.size), h.Publish(Begin(job.size)).0));
    assert h1.trace == [] + [Sent(Begin(job.size), h.Publish(Begin(job.size)).0)];
    if job.size > 0 && h.Publish(Begin(job.size)).0 {
      if stations { RunStationsIsWellFormed(h1, job); } else { RunSingleIsWellFormed(h1, job); }
    }
  }

  // ---- What a finish, and what success, stand for --------------------------------------------

  /** An open session has not been closed at any point before. */
  lemma {:induction false} OpenWasNotClosed(t: seq<Event>)
    requires PhaseOf(t) in {Idle, Open}
    ensures forall i :: 0 <= i < |t| && t[i].Sent? ==> !t[i].message.Finish? && !t[i].message.Abort?
  {
    if t != [] { OpenWasNotClosed(t[..|t| - 1]); }
  }

  lemma {:induction false} NoChunksYet(t: seq<Event>)
    requires forall i :: 0 <= i < |t| && t[i].Sent? ==> !t[i].message.Chunk?
    ensures Frames(t) == [] && SentBytes(t) == 0 && LastBarrier(t) == 0
  {
    if t != [] { NoChunksYet(t[..|t| - 1]); }
  }

  lemma NoChunksIsWindowed(t: seq<Event>, chunk: nat)
    requires forall i :: 0 <= i < |t| && t[i].Sent? ==> !t[i].message.Chunk?
    ensures Windowed(t, chunk)
  {
    forall k | 0 <= k <= |t| ensures SentBytes(t[..k]) <= AckedBytes(t[..k]) + WINDOW * chunk {
      NoChunksYet(t[..k]);
    }
  }

  /** At position f of t the sender published its finish, and t before f is an open session. */
  ghost predicate FinishedAt(t: seq<Event>, f: nat) {
    f < |t| && t[f].Sent? && t[f].message.Finish? && PhaseOf(t[..f]) == Open
  }

  lemma NoFinishAfterGivingUp(h: Host, t: seq<Event>)
    requires PhaseOf(h.trace) == Open && Listened(GiveUp(h).trace, t)
    ensures forall i :: 0 <= i < |t| && t[i].Sent? ==> !t[i].message.Finish?
  {
    OpenWasNotClosed(h.trace);
    var closed := GiveUp(h).trace;
    assert forall i :: 0 <= i < |h.trace| ==> t[i] == closed[i] == h.trace[i];
    assert t[|h.trace|] == closed[|h.trace|];
  }

  lemma OneFinish(h: Host, t: seq<Event>)
    requires PhaseOf(h.trace) == Open && Listened(SendFinish(h).1.trace, t)
    ensures FinishedAt(t, |h.trace|) && t[..|h.trace|] == h.trace
    ensures forall i :: 0 <= i < |t| && t[i].Sent? && t[i].message.Finish? ==> i == |h.trace|
  {
    OpenWasNotClosed(h.trace);
    var closed := SendFinish(h).1.trace;
    assert forall i :: 0 <= i < |h.trace| ==> t[i] == closed[i] == h.trace[i];
    assert t[|h.trace|] == closed[|h.trace|];
    assert t[..|h.trace|] == h.trace;
  }

  // ---- One terminal ----------------------------------------------------------------------------

  lemma SingleUploadIsSafe(h: Host, job: Job)
    requires job.Valid() && PhaseOf(h.trace) == Open
    requires forall i :: 0 <= i < |h.trace| && h.trace[i].Sent? ==> !h.trace[i].message.Chunk?
    ensures var (r, h') := Upload(h, job);
      && PhaseOf(h'.trace) == Open && Windowed(h'.trace, job.chunk)
      && (r.Ok? ==> FullySent(h'.trace, h.file, job))
  {
    NoChunksYet(h.trace);
    NoChunksIsWindowed(h.trace, job.chunk);
    UploadIsSafe(h, job);
    if h.openable { LoopKeepsPhase(h.Open(), START, job); }
  }

  /** The file has the announced size, all of it was published and all of it acknowledged. */
  ghost predicate FullySent(t: seq<Event>, file: Bytes, job: Job)
    requires job.Valid()
  {
    && AckedBytes(t) == SentBytes(t) == |file| == job.size
    && Tiles(Frames(t), job.session, file, job.chunk, job.size)
  }

  /** Every finish in t came when the whole firmware had been sent and acknowledged. */
  ghost predicate FinishNeedsAll(t: seq<Event>, file: Bytes, job: Job)
    requires job.Valid()
  {
    forall i :: 0 <= i < |t| && t[i].Sent? && t[i].message.Finish? ==> FullySent(t[..i], file, job)
  }

  /** The session was finished, and the terminal reported `done` after that. */
  ghost predicate FinishedAndDone(t: seq<Event>) {
    exists f, d :: 0 <= f < d < |t| && FinishedAt(t, f) && t[d].Got? && t[d].status.status == "done"
  }

  lemma AfterGivingUp(h: Host, t: seq<Event>, file: Bytes, job: Job)
    requires job.Valid() && PhaseOf(h.trace) == Open && Windowed(h.trace, job.chunk) && Listened(GiveUp(h).trace, t)
    ensures Windowed(t, job.chunk) && FinishNeedsAll(t, file, job)
  {
    NoFinishAfterGivingUp(h, t);
    SingleCloses(h, t, job);
  }

  lemma AfterFinishing(h: Host, t: seq<Event>, file: Bytes, job: Job)
    requires job.Valid() && PhaseOf(h.trace) == Open && Windowed(h.trace, job.chunk) && FullySent(h.trace, file, job)
    requires Listened(SendFinish(h).1.trace, t)
    ensures Windowed(t, job.chunk) && FinishNeedsAll(t, file, job)
  {
    OneFinish(h, t);
    SingleCloses(h, t, job);
  }

  lemma AfterDone(h: Host, job: Job)
    requires PhaseOf(h.trace) == Open && Wait(SendFinish(h).1, DONE, FINISH_FAILED).0.Ok?
    ensures FinishedAndDone(Wait(SendFinish(h).1, DONE, FINISH_FAILED).1.trace)
  {
    var h1 := SendFinish(h).1;
    var t := Wait(h1, DONE, FINISH_FAILED).1.trace;
    OneFinish(h, t);
    LastHeard(h1, DONE, FINISH_FAILED);
    var d := |t| - 1;
    assert 0 <= |h.trace| < d < |t| && FinishedAt(t, |h.trace|) && t[d].Got? && t[d].status.status == "done";
  }

  lemma RunSingleSession(h: Host, job: Job)
    requires job.Valid() && h.trace == [Sent(Begin(job.size), true)] && PhaseOf(h.trace) == Open
    ensures var (r, h') := RunSingle(h, job);
      && Windowed(h'.trace, job.chunk) && FinishNeedsAll(h'.trace, h.file, job)
      && (r.Ok? ==> FinishedAndDone(h'.trace))
  {
    var (started, h1) := Wait(h, STARTED, REFUSED);
    ListeningKeepsPhase(h.trace, h1.trace);
    if started.Err? {
      OpenWasNotClosed(h1.trace);
      NoChunksIsWindowed(h1.trace, job.chunk);
    } else {
      SingleUploadIsSafe(h1, job);
      var (uploaded, h2) := Upload(h1, job);
      if uploaded.Err? {
        AfterGivingUp(h2, GiveUp(h2).trace, h.file, job);
      } else {
        var (finished, h3) := SendFinish(h2);
        AfterFinishing(h2, h3.trace, h.file, job);
        AfterFinishing(h2, Wait(h3, DONE, FINISH_FAILED).1.trace, h.file, job);
        if Wait(h3, DONE, FINISH_FAILED).0.Ok? { AfterDone(h2, job); }
      }
    }
  }

  /** What a session with one terminal has behind it: the window was never exceeded; its finish,
      if there was one, came when the whole firmware had been sent and acknowledged; and it
      reports success only after such a finish, on hearing `done`. */
  lemma SingleSession(h: Host, job: Job)
    requires job.Valid() && h.trace == []
    ensures var (r, h') := Run(h, job, false);
      && Windowed(h'.trace, job.chunk) && FinishNeedsAll(h'.trace, h.file, job)
      && (r.Ok? ==> FinishedAndDone(h'.trace))
  {
    var (begun, h0) := h.Publish(Begin(job.size));
    NoChunksIsWindowed(h0.trace, job.chunk);
    NoChunksIsWindowed([], job.chunk);
    if job.size > 0 && begun {
      PhaseAppend([], Sent(Begin(job.size), true));
      assert h0.trace == [] + [Sent(Begin(job.size), true)];
      RunSingleSession(h0, job);
    }
  }

  lemma {:induction false} AckWasReported(t: seq<Event>)
    requires AckedBytes(t) > 0
    ensures exists i :: 0 <= i < |t| && t[i].Got? && t[i].status.status == "chunk" && t[i].status.written == AckedBytes(t)
  {
    var n := |t| - 1;
    if AckedBytes(t) == AckedBytes(t[..n]) {
      AckWasReported(t[..n]);
      var i :| 0 <= i < n && t[..n][i].Got? && t[..n][i].status.status == "chunk" && t[..n][i].status.written == AckedBytes(t);
      assert t[i] == t[..n][i];
    }
  }

  /** When a terminal that reports a chunk only once its image has that many bytes has had the
      firmware fully sent, it holds exactly the file, whatever the network did to the frames. */
  lemma TerminalHoldsFirmware(t: seq<Event>, file: Bytes, job: Job, deliveries: seq<Bytes>)
    requires job.Valid() && 0 < |file| <= 0x1_0000_0000 && FullySent(t, file, job)
    requires forall f :: f in deliveries ==> f in Frames(t)
    requires forall i :: 0 <= i < |t| && t[i].Got? && t[i].status.status == "chunk" ==>
      t[i].status.written <= |Assemble(job.session, deliveries)|
    ensures Assemble(job.session, deliveries) == file
  {
    AckWasReported(t);
    ImagesArePrefixes(Frames(t), job.session, file, job.chunk, job.size, deliveries);
  }

  /** The assumption about a terminal, whose program is not part of this model: it reports a chunk
      only once its image has that many bytes; and its image is what it assembled from some of the
      published frames, delivered in any order and any number of times. */
  ghost predicate HonestTerminal(t: seq<Event>, session: Bytes, deliveries: seq<Bytes>) {
    && (forall f :: f in deliveries ==> f in Frames(t))
    && (forall i :: 0 <= i < |t| && t[i].Got? && t[i].status.status == "chunk" ==>
        t[i].status.written <= |Assemble(session, deliveries)|)
  }

  /** A finish leaves the frames as they are. */
  lemma FramesAtFinish(t: seq<Event>, f: nat)
    requires FinishedAt(t, f) && PhaseOf(t) == Closed
    ensures Frames(t) == Frames(t[..f])
  {
    assert t[..f + 1] == t[..f] + [t[f]];
    PhaseAppend(t[..f], t[f]);
    Append(t[..f], t[f]);
    ClosedSendsNothing(t, f + 1);
  }

  lemma {:induction false} ClosedSendsNothing(t: seq<Event>, k: nat)
    requires k <= |t| && PhaseOf(t[..k]) == Closed && PhaseOf(t) == Closed
    ensures Frames(t) == Frames(t[..k])
    decreases |t|
  {
    if k == |t| {
      assert t[..k] == t;
    } else {
      var n := |t| - 1;
      assert t[..n][..k] == t[..k];
      assert t == t[..n] + [t[n]];
      PhaseAppend(t[..n], t[n]);
      Append(t[..n], t[n]);
      if PhaseOf(t[..n]) == Closed {
        ClosedSendsNothing(t[..n], k);
      } else {
        NotClosedBefore(t[..n], k);
      }
    }
  }

  /** Once closed, a session stays so or is broken. */
  lemma {:induction false} NotClosedBefore(t: seq<Event>, k: nat)
    requires k <= |t| && PhaseOf(t[..k]) == Closed
    ensures PhaseOf(t) in {Closed, Broken}
    decreases |t|
  {
    if k == |t| {
      assert t[..k] == t;
    } else {
      assert t[..|t| - 1][..k] == t[..k];
      NotClosedBefore(t[..|t| - 1], k);
    }
  }

  /** End to end, for one terminal: after a session that reports success, an honest terminal holds
      exactly the firmware, whatever the network did to frames and reports. */
  lemma TerminalEndToEnd(h: Host, job: Job, deliveries: seq<Bytes>)
    requires job.Valid() && h.trace == [] && |h.file| <= 0x1_0000_0000 && Run(h, job, false).0.Ok?
    requires HonestTerminal(Run(h, job, false).1.trace, job.session, deliveries)
    ensures Assemble(job.session, deliveries) == h.file
  {
    hide Run;
    var t := Run(h, job, false).1.trace;
    SingleSession(h, job);
    SessionIsWellFormed(h, job, false);
    var f, d :| 0 <= f < d < |t| && FinishedAt(t, f) && t[d].Got? && t[d].status.status == "done";
    FramesAtFinish(t, f);
    assert FullySent(t[..f], h.file, job);
    assert forall i :: 0 <= i < f ==> t[..f][i] == t[i];
    TerminalHoldsFirmware(t[..f], h.file, job, deliveries);
  }

  /** Neither the finish nor the abort, nor listening after it, disturbs what was achieved. */
  lemma SingleCloses(h: Host, t: seq<Event>, job: Job)
    requires Windowed(h.trace, job.chunk)
    requires Listened(GiveUp(h).trace, t) || Listened(SendFinish(h).1.trace, t)
    ensures Windowed(t, job.chunk) && Frames(t) == Frames(h.trace)
  {
    var closed := if Listened(GiveUp(h).trace, t) then GiveUp(h).trace else SendFinish(h).1.trace;
    var e := closed[|h.trace|];
    assert closed == h.trace + [e];
    Append(h.trace, e);
    assert h.trace[..|h.trace|] == h.trace;
    WindowedAppend(h.trace, e, job.chunk);
    ListeningStaysWindowed(closed, t, job.chunk);
    ListeningSendsNothing(closed, t);
  }

  lemma {:induction false} LastHeard(h: Host, ok: set<string>, fail: set<string>)
    requires Wait(h, ok, fail).0.Ok?
    ensures var t := Wait(h, ok, fail).1.trace;
      |t| > |h.trace| && t[|t| - 1] == Got(Wait(h, ok, fail).0.value)
    decreases |h.arrivals|
  {
    var (a, h1) := h.Receive();
    if a.status.status !in ok { LastHeard(h1, ok, fail); }
  }

  // ---- Every station ---------------------------------------------------------------------------

  /** The stations that joined the session. */
  ghost function Stations(h: Host, job: Job): seq<string>
    requires Discover(h.Publish(Begin(job.size)).1, {}).0.Ok?
  {
    Discover(h.Publish(Begin(job.size)).1, {}).0.value
  }

  /** At position f the sender published its finish with every device brought up to `level`
      by then, and afterwards every device reported `done` with the full size. */
  ghost predicate CompletedAt(t: seq<Event>, f: nat, devices: seq<string>, level: nat, size: nat) {
    && FinishedAt(t, f)
    && (forall d :: d in devices ==> Confirmed(t[..f], 0, d, {"chunk"}, level))
    && (forall d :: d in devices ==> Confirmed(t, f, d, {"done"}, size))
  }

  /** The finish and what was heard after it, when every station reported `done`. */
  lemma AfterAllDone(h: Host, devices: seq<string>, from: nat, level: nat, size: nat)
    requires PhaseOf(h.trace) == Open && from <= |h.trace|
    requires forall d :: d in devices ==> Confirmed(h.trace, from, d, ACK, level)
    requires WaitAll(SendFinish(h).1, Names(devices), DONE, FINISH_FAILED, size).0.Ok?
    ensures var t := WaitAll(SendFinish(h).1, Names(devices), DONE, FINISH_FAILED, size).1.trace;
      && CompletedAt(t, |h.trace|, devices, level, size)
      && Frames(t) == Frames(h.trace) && SentBytes(t) == SentBytes(h.trace)
  {
    var h1 := SendFinish(h).1;
    var t := WaitAll(h1, Names(devices), DONE, FINISH_FAILED, size).1.trace;
    OneFinish(h, t);
    Append(h.trace, h1.trace[|h.trace|]);
    ListeningSendsNothing(h1.trace, t);
    WaitAllConfirms(h1, Names(devices), DONE, FINISH_FAILED, size);
    forall d | d in devices
      ensures Confirmed(t[..|h.trace|], 0, d, ACK, level) && Confirmed(t, |h.trace|, d, DONE, size)
    {
      Earlier(h.trace, from, d, ACK, level, 0);
      Earlier(t, |h1.trace|, d, DONE, size, |h.trace|);
    }
  }

  lemma StationsUploadIsSafe(h: Host, job: Job, devices: set<string>)
    requires job.Valid() && job.size > 0 && PhaseOf(h.trace) == Open && UploadAll(h, job, devices).0.Ok?
    requires forall i :: 0 <= i < |h.trace| && h.trace[i].Sent? ==> !h.trace[i].message.Chunk?
    ensures var h' := UploadAll(h, job, devices).1;
      && PhaseOf(h'.trace) == Open && |h.trace| <= |h'.trace|
      && Reached(h'.trace, h.file, job)
      && forall d :: d in devices ==> Confirmed(h'.trace, |h.trace|, d, ACK, Min(SentBytes(h'.trace), job.size))
  {
    NoChunksYet(h.trace);
    UploadAllIsSafe(h, job, devices);
    BroadcastKeepsPhase(h.Open(), 0, job, devices);
  }

  /** The frames published are a gapless beginning of the file: up to the announced size at
      least, or else up to an end of file on a 64 KiB boundary. */
  ghost predicate Reached(t: seq<Event>, file: Bytes, job: Job)
    requires job.Valid()
  {
    && Tiles(Frames(t), job.session, file, job.chunk, SentBytes(t))
    && (SentBytes(t) >= job.size || (SentBytes(t) == |file| && |file| % 0x1_0000 == 0))
  }

  lemma RunStationsSession(h: Host, job: Job)
    requires job.Valid() && job.size > 0 && h.trace == [Sent(Begin(job.size), true)] && PhaseOf(h.trace) == Open
    requires RunStations(h, job).0.Ok?
    ensures var t := RunStations(h, job).1.trace;
      && Reached(t, h.file, job)
      && exists f :: CompletedAt(t, f, Discover(h, {}).0.value, Min(SentBytes(t), job.size), job.size)
  {
    var (found, h1) := Discover(h, {});
    ListeningKeepsPhase(h.trace, h1.trace);
    StationsUploadIsSafe(h1, job, Names(found.value));
    var h2 := UploadAll(h1, job, Names(found.value)).1;
    AfterAllDone(h2, found.value, |h1.trace|, Min(SentBytes(h2.trace), job.size), job.size);
  }

  /** Every finish in t came when each station had confirmed everything sent up to the announced
      size, and that was all of it, or all of a file that had become shorter. */
  ghost predicate FinishNeedsEveryone(t: seq<Event>, file: Bytes, job: Job, devices: seq<string>)
    requires job.Valid()
  {
    forall i :: 0 <= i < |t| && t[i].Sent? && t[i].message.Finish? ==>
      && Reached(t[..i], file, job)
      && forall d :: d in devices ==> Confirmed(t[..i], 0, d, {"chunk"}, Min(SentBytes(t[..i]), job.size))
  }

  lemma StationsFinish(h: Host, job: Job)
    requires job.Valid() && job.size > 0 && h.trace == [Sent(Begin(job.size), true)] && PhaseOf(h.trace) == Open
    ensures var t := RunStations(h, job).1.trace;
      var found := Discover(h, {}).0;
      if found.Ok? then FinishNeedsEveryone(t, h.file, job, found.value)
      else forall i :: 0 <= i < |t| && t[i].Sent? ==> !t[i].message.Finish?
  {
    var (found, h1) := Discover(h, {});
    ListeningKeepsPhase(h.trace, h1.trace);
    if found.Err? {
      NoFinishAfterGivingUp(h1, GiveUp(h1).trace);
    } else {
      var (uploaded, h2) := UploadAll(h1, job, Names(found.value));
      if h1.openable { BroadcastKeepsPhase(h1.Open(), 0, job, Names(found.value)); }
      if uploaded.Err? {
        NoFinishAfterGivingUp(h2, GiveUp(h2).trace);
      } else {
        StationsUploadIsSafe(h1, job, Names(found.value));
        var t := RunStations(h, job).1.trace;
        OneFinish(h2, t);
        forall d | d in found.value ensures Confirmed(h2.trace, 0, d, ACK, Min(SentBytes(h2.trace), job.size)) {
          Earlier(h2.trace, |h1.trace|, d, ACK, Min(SentBytes(h2.trace), job.size), 0);
        }
      }
    }
  }

  /** In every session with stations, also one that fails later: if a finish is published at all,
      then after discovery, and when every discovered station had confirmed the chunks. */
  lemma StationsFinishNeedsEveryone(h: Host, job: Job)
    requires job.Valid() && h.trace == []
    ensures var t := Run(h, job, true).1.trace;
      var found := Discover(h.Publish(Begin(job.size)).1, {}).0;
      if found.Ok? then FinishNeedsEveryone(t, h.file, job, found.value)
      else forall i :: 0 <= i < |t| && t[i].Sent? ==> !t[i].message.Finish?
  {
    var (begun, h0) := h.Publish(Begin(job.size));
    if job.size > 0 && begun {
      PhaseAppend([], Sent(Begin(job.size), true));
      assert h0.trace == [] + [Sent(Begin(job.size), true)];
      StationsFinish(h0, job);
    }
  }

  lemma Earlier(t: seq<Event>, from: nat, d: string, ok: set<string>, least: int, earlier: nat)
    requires Confirmed(t, from, d, ok, least) && earlier <= from
    ensures Confirmed(t, earlier, d, ok, least)
  {
    var i :| from <= i < |t| && t[i].Got? && TrimSpace(t[i].status.device) == d
      && t[i].status.status in ok && t[i].status.written >= least;
  }

  /** A session with stations that reports success: at least one station joined; each of them
      confirmed the chunks up to the announced size before the finish went out, and `done` with
      the full size after it — provided the firmware file did not get shorter in between. */
  lemma StationsSession(h: Host, job: Job)
    requires job.Valid() && h.trace == [] && Run(h, job, true).0.Ok?
    ensures Discover(h.Publish(Begin(job.size)).1, {}).0.Ok? && Stations(h, job) != []
    ensures var t := Run(h, job, true).1.trace;
      && Reached(t, h.file, job)
      && (exists f :: CompletedAt(t, f, Stations(h, job), Min(SentBytes(t), job.size), job.size))
      && (|h.file| >= job.size || |h.file| % 0x1_0000 != 0 ==> SentBytes(t) >= job.size)
  {
    var h0 := h.Publish(Begin(job.size)).1;
    PhaseAppend([], Sent(Begin(job.size), true));
    assert h0.trace == [] + [Sent(Begin(job.size), true)];
    RunStationsSession(h0, job);
    DiscoveredNamesMatch(h0, {});
  }

  /** The one assumption about a station, whose program is not part of this model: it reports
      `done` with a number of bytes only if its image has that many; and its image is what it
      assembled from some of the published frames, delivered in any order and any number of times. */
  ghost predicate Honest(t: seq<Event>, d: string, session: Bytes, deliveries: seq<Bytes>) {
    && (forall f :: f in deliveries ==> f in Frames(t))
    && (forall i :: 0 <= i < |t| && t[i].Got? && TrimSpace(t[i].status.device) == d && t[i].status.status == "done" ==>
        t[i].status.written <= |Assemble(session, deliveries)|)
  }

  lemma HonestImage(t: seq<Event>, f: nat, file: Bytes, job: Job, d: string, deliveries: seq<Bytes>)
    requires job.Valid() && |file| <= 0x1_0000_0000 && Reached(t, file, job)
    requires Confirmed(t, f, d, DONE, job.size) && Honest(t, d, job.session, deliveries)
    ensures var image := Assemble(job.session, deliveries);
      job.size <= |image| <= |file| && image == file[..|image|]
  {
    ImagesArePrefixes(Frames(t), job.session, file, job.chunk, SentBytes(t), deliveries);
    var i :| f <= i < |t| && t[i].Got? && TrimSpace(t[i].status.device) == d
      && t[i].status.status in DONE && t[i].status.written >= job.size;
  }

  /** End to end: after a session that reports success, every honest station that joined holds
      the firmware: exactly the file, if the file still has the announced size, and in any
      case the announced number of bytes of it. */
  lemma EndToEnd(h: Host, job: Job, d: string, deliveries: seq<Bytes>)
    requires job.Valid() && h.trace == [] && |h.file| <= 0x1_0000_0000 && Run(h, job, true).0.Ok?
    requires Discover(h.Publish(Begin(job.size)).1, {}).0.Ok? && d in Stations(h, job)
    requires Honest(Run(h, job, true).1.trace, d, job.session, deliveries)
    ensures var image := Assemble(job.session, deliveries);
      && job.size <= |image| <= |h.file| && image == h.file[..|image|]
      && (|h.file| == job.size ==> image == h.file)
  {
    var t := Run(h, job, true).1.trace;
    StationsSession(h, job);
    var f :| CompletedAt(t, f, Stations(h, job), Min(SentBytes(t), job.size), job.size);
    HonestImage(t, f, h.file, job, d, deliveries);
  }
}
