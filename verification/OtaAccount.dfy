/** What becomes of a session in which something goes wrong: whatever is fatal to an upload ends it
    there and then, and every session that has begun is closed the way its course demands. */
module OtaAccount {
  import opened GoStrings
  import opened OtaFrame
  import opened OtaHost
  import opened OtaWait
  import opened OtaWindow
  import opened OtaBroadcast
  import opened OtaSession

  // ---- What is fatal -------------------------------------------------------------------------

  /** Whom an upload is for. */
  datatype Target = Terminal | Stations(devices: set<string>, size: nat)

  /** The position behind the last publish of t. */
  function AfterLastSent(t: seq<Event>): (n: nat)
    ensures n <= |t|
  {
    if t == [] then 0 else if t[|t| - 1].Sent? then |t| else AfterLastSent(t[..|t| - 1])
  }

  predicate IsFailure(s: Status) {
    s.status == "bad_chunk" || s.status == "chunk_failed"
  }

  /** A terminal claims more than it can have. */
  predicate IsTooMuch(t: seq<Event>, i: nat)
    requires i < |t|
  {
    t[i].Got? && t[i].status.status == "chunk" && t[i].status.written > SentBytes(t[..i])
  }

  /** At position i of t the station has not confirmed what was sent, up to the announced size, since
      the last chunk went out. */
  ghost predicate Behind(t: seq<Event>, i: nat, station: string, size: nat)
    requires i <= |t|
  {
    !Confirmed(t[..i], AfterLastSent(t[..i]), station, {"chunk"}, Min(SentBytes(t[..i]), size))
  }

  /** Event i of t cannot be overlooked: a publish that failed, the timer, a failure reported by the
      terminal, or by a station that is still behind, or an acknowledgement of too much. */
  ghost predicate Fatal(who: Target, t: seq<Event>, i: nat)
    requires i < |t|
  {
    match t[i]
    case Sent(_, ok) => !ok
    case Expired => true
    case Got(s) =>
      match who
      case Terminal => IsFailure(s) || IsTooMuch(t, i)
      case Stations(devices, size) => IsFailure(s) && TrimSpace(s.device) in devices && Behind(t, i, TrimSpace(s.device), size)
  }

  /** The error that tells of event i. */
  predicate Tells(who: Target, t: seq<Event>, i: nat, e: Error)
    requires i < |t|
  {
    match t[i]
    case Sent(_, ok) => !ok && e == PublishFailed
    case Expired => if who.Terminal? then e == TimedOut([]) else e.TimedOut?
    case Got(s) =>
      if IsFailure(s) then e == Reported(s) && (who.Stations? ==> TrimSpace(s.device) in who.devices)
      else who.Terminal? && IsTooMuch(t, i) && e == AckAboveSent(s.written, SentBytes(t[..i]))
  }

  /** From h to h' some reads were done, none of which failed. */
  ghost predicate ReadsGo(h: Host, h': Host) {
    && |h'.readPlan| <= |h.readPlan| && h'.readPlan == h.readPlan[|h.readPlan| - |h'.readPlan|..]
    && forall k :: 0 <= k < |h.readPlan| - |h'.readPlan| ==> !h.readPlan[k].Fault?
  }

  /** From h to h' some reads were done, of which the last one failed. */
  ghost predicate ReadsBreak(h: Host, h': Host) {
    && |h'.readPlan| < |h.readPlan| && h'.readPlan == h.readPlan[|h.readPlan| - |h'.readPlan|..]
    && forall k :: 0 <= k < |h.readPlan| - |h'.readPlan| ==> (h.readPlan[k].Fault? <==> k == |h.readPlan| - |h'.readPlan| - 1)
  }

  /** Nothing fatal has happened between positions i and j of t. */
  ghost predicate Calm(who: Target, t: seq<Event>, i: nat, j: nat) {
    j <= |t| && forall k :: i <= k < j ==> !Fatal(who, t, k)
  }

  /** From h to h' nothing has gone wrong. */
  ghost predicate Quiet(who: Target, h: Host, h': Host) {
    h.trace <= h'.trace && ReadsGo(h, h') && Calm(who, h'.trace, |h.trace|, |h'.trace|)
  }

  /** From h to h' nothing has gone wrong but the very last thing, and e tells of that. */
  ghost predicate Broke(who: Target, h: Host, h': Host, e: Error) {
    && h.trace <= h'.trace
    && (if e == ReadFailed then ReadsBreak(h, h') && Calm(who, h'.trace, |h.trace|, |h'.trace|)
        else
          && ReadsGo(h, h') && |h.trace| < |h'.trace|
          && Calm(who, h'.trace, |h.trace|, |h'.trace| - 1) && Tells(who, h'.trace, |h'.trace| - 1, e))
  }

  lemma FatalStays(who: Target, t: seq<Event>, t': seq<Event>, i: nat)
    requires t <= t' && i < |t|
    ensures Fatal(who, t', i) <==> Fatal(who, t, i)
  {
    assert t'[..i] == t[..i];
  }

  lemma CalmGoesOn(who: Target, t: seq<Event>, t': seq<Event>, from: nat, upto: nat)
    requires t <= t' && from <= |t| <= upto && Calm(who, t, from, |t|) && Calm(who, t', |t|, upto)
    ensures Calm(who, t', from, upto)
  {
    forall k | from <= k < upto ensures !Fatal(who, t', k) {
      if k < |t| { FatalStays(who, t, t', k); }
    }
  }

  lemma ReadsGoOn(h: Host, h1: Host, h2: Host)
    requires ReadsGo(h, h1)
    ensures ReadsGo(h1, h2) ==> ReadsGo(h, h2)
    ensures ReadsBreak(h1, h2) ==> ReadsBreak(h, h2)
  {
    var n := |h.readPlan| - |h1.readPlan|;
    assert forall k :: 0 <= k < |h1.readPlan| ==> h1.readPlan[k] == h.readPlan[n + k];
    assert forall k :: n <= k < |h.readPlan| ==> h.readPlan[k] == h1.readPlan[k - n];
  }

  lemma QuietGoesOn(who: Target, h: Host, h1: Host, h2: Host)
    requires Quiet(who, h, h1) && Quiet(who, h1, h2)
    ensures Quiet(who, h, h2)
  {
    CalmGoesOn(who, h1.trace, h2.trace, |h.trace|, |h2.trace|);
    ReadsGoOn(h, h1, h2);
  }

  lemma QuietThenBroke(who: Target, h: Host, h1: Host, h2: Host, e: Error)
    requires Quiet(who, h, h1) && Broke(who, h1, h2, e)
    ensures Broke(who, h, h2, e)
  {
    ReadsGoOn(h, h1, h2);
    CalmGoesOn(who, h1.trace, h2.trace, |h.trace|, if e == ReadFailed then |h2.trace| else |h2.trace| - 1);
  }

  /** What a piece of an upload has come to. */
  ghost predicate Accounted<T>(who: Target, h: Host, r: Result<T>, h': Host) {
    if r.Ok? then Quiet(who, h, h') else Broke(who, h, h', r.error)
  }

  lemma AccountGoesOn<T>(who: Target, h: Host, h1: Host, r: Result<T>, h2: Host)
    requires Quiet(who, h, h1) && Accounted(who, h1, r, h2)
    ensures Accounted(who, h, r, h2)
  {
    if r.Ok? { QuietGoesOn(who, h, h1, h2); } else { QuietThenBroke(who, h, h1, h2, r.error); }
  }

  // ---- Reading and publishing -------------------------------------------------------------------

  lemma ReadIsAccounted(who: Target, h: Host, max: nat)
    requires h.Readable() && 0 < max
    ensures var (r, h1) := h.Read(max);
      && h1.trace == h.trace && h1.publishPlan == h.publishPlan && h1.arrivals == h.arrivals
      && (if r.Failed? then Broke(who, h, h1, ReadFailed) else Quiet(who, h, h1))
  {
  }

  lemma PublishIsAccounted(who: Target, h: Host, m: Message)
    ensures var (ok, h1) := h.Publish(m);
      if ok then Quiet(who, h, h1) else Broke(who, h, h1, PublishFailed)
  {
  }

  lemma SendNextIsAccounted(who: Target, h: Host, w: Window, job: Job)
    requires job.Valid() && h.Readable()
    ensures var (r, h1) := SendNext(h, w, job); Accounted(who, h, r, h1)
  {
    hide Quiet, Broke;
    ReadIsAccounted(who, h, job.chunk);
    var (read, h1) := h.Read(job.chunk);
    if read.Data? {
      var m := Chunk(Encode(job.session, w.offset, read.chunk));
      PublishIsAccounted(who, h1, m);
      var (ok, h2) := h1.Publish(m);
      if ok { QuietGoesOn(who, h, h1, h2); } else { QuietThenBroke(who, h, h1, h2, PublishFailed); }
    }
  }

  lemma SendPartIsAccounted(who: Target, h: Host, offset: nat, job: Job)
    requires job.Valid() && h.Readable()
    ensures var (r, h1) := SendPart(h, offset, job); Accounted(who, h, r, h1)
  {
    hide Quiet, Broke;
    ReadIsAccounted(who, h, job.chunk);
    var (read, h1) := h.Read(job.chunk);
    if read.Data? {
      var m := Chunk(Encode(job.session, offset, read.chunk));
      PublishIsAccounted(who, h1, m);
      var (ok, h2) := h1.Publish(m);
      if ok { QuietGoesOn(who, h, h1, h2); } else { QuietThenBroke(who, h, h1, h2, PublishFailed); }
    }
  }

  lemma NothingIsQuiet(who: Target, h: Host)
    ensures Quiet(who, h, h)
  {
  }

  // ---- The upload to a terminal ---------------------------------------------------------------

  lemma {:induction false} FillIsAccounted(h: Host, w: Window, job: Job)
    requires job.Valid() && h.Readable()
    ensures var (r, h1) := Fill(h, w, job); Accounted(Terminal, h, r, h1)
    decreases !w.eof, WINDOW - w.pending
  {
    hide Quiet, Broke, SendNext;
    NothingIsQuiet(Terminal, h);
    if !w.eof && w.pending < WINDOW {
      SendNextIsAccounted(Terminal, h, w, job);
      var (r, h1) := SendNext(h, w, job);
      if r.Ok? {
        FillIsAccounted(h1, r.value, job);
        AccountGoesOn(Terminal, h, h1, Fill(h1, r.value, job).0, Fill(h1, r.value, job).1);
      }
    }
  }

  /** One event heard. */
  lemma Heard(h: Host)
    ensures var (a, h1) := h.Receive();
      var n := |h.trace|;
      && |h1.trace| == n + 1 && h1.trace[..n] == h.trace && SentBytes(h1.trace) == SentBytes(h.trace)
      && h1.trace[n] == (if a.Arrive? then Got(a.status) else Expired) && h1.readPlan == h.readPlan
  {
    var (a, h1) := h.Receive();
    assert h1.trace[..|h.trace|] == h.trace;
  }

  lemma HeardQuietly(who: Target, h: Host)
    requires !Fatal(who, h.Receive().1.trace, |h.trace|)
    ensures Quiet(who, h, h.Receive().1)
  {
    Heard(h);
  }

  lemma HeardTheEnd(who: Target, h: Host, e: Error)
    requires e != ReadFailed && Tells(who, h.Receive().1.trace, |h.trace|, e)
    ensures Broke(who, h, h.Receive().1, e)
  {
    Heard(h);
  }

  /** Waiting for the terminal's next chunk report. */
  lemma {:induction false} WaitIsAccounted(h: Host)
    ensures var (r, h1) := Wait(h, ACK, NACK);
      if r.Ok? && r.value.written > SentBytes(h.trace)
      then Broke(Terminal, h, h1, AckAboveSent(r.value.written, SentBytes(h.trace)))
      else Accounted(Terminal, h, r, h1)
    decreases |h.arrivals|
  {
    hide Quiet, Broke;
    Heard(h);
    var (a, h1) := h.Receive();
    if a.Expire? {
      HeardTheEnd(Terminal, h, TimedOut([]));
    } else if a.status.status in ACK {
      if a.status.written > SentBytes(h.trace) {
        HeardTheEnd(Terminal, h, AckAboveSent(a.status.written, SentBytes(h.trace)));
      } else {
        HeardQuietly(Terminal, h);
      }
    } else if a.status.status in NACK {
      HeardTheEnd(Terminal, h, Reported(a.status));
    } else {
      HeardQuietly(Terminal, h);
      WaitIsAccounted(h1);
      var (r, h2) := Wait(h1, ACK, NACK);
      if r.Ok? && r.value.written > SentBytes(h.trace) {
        QuietThenBroke(Terminal, h, h1, h2, AckAboveSent(r.value.written, SentBytes(h.trace)));
      } else {
        AccountGoesOn(Terminal, h, h1, r, h2);
      }
    }
  }

  lemma TurnIsAccounted(h: Host, w: Window, job: Job)
    requires job.Valid() && Healthy(h, w, job)
    ensures var (r, h1) := Turn(h, w, job); Accounted(Terminal, h, r, h1)
  {
    hide Quiet, Broke, Fill, Wait;
    FillIsAccounted(h, w, job);
    FillIsSafe(h, w, job);
    var (filled, h1) := Fill(h, w, job);
    if filled.Ok? {
      WaitIsAccounted(h1);
      var (heard, h2) := Wait(h1, ACK, NACK);
      var (r, _) := Turn(h, w, job);
      assert Accounted(Terminal, h1, r, h2);
      AccountGoesOn(Terminal, h, h1, r, h2);
    }
  }

  lemma BreaksAreTold(who: Target, h: Host, h': Host, e: Error)
    requires Broke(who, h, h', e)
    ensures Explained(who, h, h', e) && !e.FinalAckMismatch? && !e.UnexpectedEof?
  {
  }

  /** How the error of an upload that something went wrong with is to be understood. */
  ghost predicate Explained(who: Target, h: Host, h': Host, e: Error) {
    if e == ReadFailed then ReadsBreak(h, h') else |h'.trace| > |h.trace| && Tells(who, h'.trace, |h'.trace| - 1, e)
  }

  /** The one complaint of an upload that nothing went wrong with. */
  ghost predicate Mismatched(h: Host, job: Job, e: Error) {
    && e == FinalAckMismatch(AckedBytes(h.trace), job.size)
    && AckedBytes(h.trace) == SentBytes(h.trace) == |h.file| != job.size
  }

  lemma {:induction false} LoopIsAccounted(h: Host, w: Window, job: Job)
    requires job.Valid() && Healthy(h, w, job)
    ensures var (r, h') := Loop(h, w, job);
      if r.Err? && r.error.FinalAckMismatch? then Quiet(Terminal, h, h') && Mismatched(h', job, r.error)
      else Accounted(Terminal, h, r, h')
    decreases |h.arrivals|
  {
    hide Quiet, Broke, Turn, Wait, Fill;
    NothingIsQuiet(Terminal, h);
    if !(w.eof && w.pending == 0) {
      TurnIsAccounted(h, w, job);
      TurnIsSafe(h, w, job);
      var (turned, h1) := Turn(h, w, job);
      if turned.Err? {
        BreaksAreTold(Terminal, h, h1, turned.error);
      } else {
        LoopIsAccounted(h1, turned.value, job);
        var (r, h') := Loop(h1, turned.value, job);
        if r.Err? && r.error.FinalAckMismatch? {
          QuietGoesOn(Terminal, h, h1, h');
        } else {
          AccountGoesOn(Terminal, h, h1, r, h');
        }
      }
    }
  }

  /** Every fatal event of the upload is its last, and e tells of it. */
  ghost predicate Heeded(who: Target, h: Host, h': Host, e: Error) {
    forall i :: |h.trace| <= i < |h'.trace| && Fatal(who, h'.trace, i) ==> i == |h'.trace| - 1 && Tells(who, h'.trace, i, e)
  }

  lemma BrokeIsHeeded(who: Target, h: Host, h': Host, e: Error)
    requires Broke(who, h, h', e)
    ensures h.trace <= h'.trace && Heeded(who, h, h', e) && Explained(who, h, h', e)
    ensures e != ReadFailed ==> ReadsGo(h, h')
  {
  }

  lemma QuietIsHeeded(who: Target, h: Host, h': Host)
    requires Quiet(who, h, h')
    ensures h.trace <= h'.trace && ReadsGo(h, h')
    ensures forall i :: |h.trace| <= i < |h'.trace| ==> !Fatal(who, h'.trace, i)
  {
  }

  /** No upload to a terminal overlooks anything: a publish that fails, a time-out, a failure that the
      terminal reports or an acknowledgement of more than was sent is the last event of the upload,
      and its result; so is a read that fails. And it fails for no other reason, unless the file
      cannot be opened, or has been sent and acknowledged to its end without having the
      announced size. */
  lemma TerminalUploadHeeds(h: Host, job: Job)
    requires job.Valid() && Frames(h.trace) == [] && SentBytes(h.trace) == 0 && Windowed(h.trace, job.chunk)
    ensures !h.openable ==> Upload(h, job) == (Err(OpenFailed), h)
    ensures h.openable ==>
      var (r, h') := Upload(h, job);
      var t := h'.trace;
      && h.trace <= t
      && (if r.Ok? then forall i :: |h.trace| <= i < |t| ==> !Fatal(Terminal, t, i) else Heeded(Terminal, h, h', r.error))
      && (r.Err? ==> if r.error.FinalAckMismatch? then Mismatched(h', job, r.error) else Explained(Terminal, h, h', r.error))
      && (r.Ok? || r.error != ReadFailed ==> ReadsGo(h, h'))
  {
    if h.openable {
      LoopIsAccounted(h.Open(), START, job);
      var (r, h') := Upload(h, job);
      if r.Ok? || r.error.FinalAckMismatch? {
        QuietIsHeeded(Terminal, h.Open(), h');
      } else {
        BrokeIsHeeded(Terminal, h.Open(), h', r.error);
      }
    }
  }

  // ---- Waiting for the stations ------------------------------------------------------------------

  /** Event i cannot be overlooked by a wait for the devices that began after position `from`. */
  predicate Pressing(t: seq<Event>, i: nat, devices: set<string>, ok: set<string>, fail: set<string>, least: int, from: nat)
    requires i < |t|
  {
    || t[i].Expired?
    || (&& t[i].Got? && t[i].status.status in fail && TrimSpace(t[i].status.device) in devices
        && !Confirmed(t[..i], from, TrimSpace(t[i].status.device), ok, least))
  }

  predicate Answers(t: seq<Event>, i: nat, devices: set<string>, fail: set<string>, e: Error)
    requires i < |t|
  {
    || (t[i].Expired? && e.TimedOut?)
    || (t[i].Got? && t[i].status.status in fail && TrimSpace(t[i].status.device) in devices && e == Reported(t[i].status))
  }

  /** The last event heard from h on is the only one that may be pressing, and answers for an error. */
  ghost predicate WaitHeeded(h: Host, r: Result<()>, h1: Host, devices: set<string>, ok: set<string>, fail: set<string>, least: int, from: nat) {
    var t := h1.trace;
    && (forall i :: |h.trace| <= i < |t| && Pressing(t, i, devices, ok, fail, least, from) ==> i == |t| - 1 && r.Err?)
    && (r.Err? ==> |h.trace| < |t| && Answers(t, |t| - 1, devices, fail, r.error))
  }

  lemma HeededLater(h: Host, h1: Host, r: Result<()>, h2: Host, devices: set<string>, ok: set<string>, fail: set<string>, least: int, from: nat)
    requires |h1.trace| == |h.trace| + 1 && h.trace <= h1.trace <= h2.trace
    requires !Pressing(h1.trace, |h.trace|, devices, ok, fail, least, from)
    requires WaitHeeded(h1, r, h2, devices, ok, fail, least, from)
    ensures WaitHeeded(h, r, h2, devices, ok, fail, least, from)
  {
    assert h2.trace[..|h.trace|] == h1.trace[..|h.trace|];
  }

  lemma {:induction false} WaitAllHeeds(h: Host, remaining: set<string>, devices: set<string>, ok: set<string>, fail: set<string>,
                                        least: int, from: nat)
    requires remaining <= devices && from <= |h.trace|
    requires forall d :: d in devices && d !in remaining ==> Confirmed(h.trace, from, d, ok, least)
    ensures var (r, h1) := WaitAll(h, remaining, ok, fail, least); WaitHeeded(h, r, h1, devices, ok, fail, least, from)
    decreases |h.arrivals|
  {
    hide TrimSpace;
    if remaining != {} {
      Heard(h);
      var (a, h1) := h.Receive();
      if a.Arrive? && !(TrimSpace(a.status.device) in remaining && a.status.status in fail) {
        var d := TrimSpace(a.status.device);
        var rest := if d in remaining && a.status.status in ok && a.status.written >= least then remaining - {d} else remaining;
        forall x | x in devices && x !in rest ensures Confirmed(h1.trace, from, x, ok, least) {
          if x in remaining {
            assert h1.trace[|h.trace|] == Got(a.status);
          } else {
            ConfirmedGrows(h.trace, h1.trace, from, x, ok, least, least);
          }
        }
        WaitAllHeeds(h1, rest, devices, ok, fail, least, from);
        var (r, h2) := WaitAll(h1, rest, ok, fail, least);
        HeededLater(h, h1, r, h2, devices, ok, fail, least, from);
      }
    }
  }

  // ---- The upload to the stations ----------------------------------------------------------------

  lemma {:induction false} ListeningKeepsAfterLastSent(t: seq<Event>, t': seq<Event>)
    requires Listened(t, t')
    ensures AfterLastSent(t') == AfterLastSent(t)
    decreases |t'|
  {
    if |t'| > |t| { ListeningKeepsAfterLastSent(t, t'[..|t'| - 1]); } else { assert t == t'; }
  }

  lemma BehindIs(t: seq<Event>, t': seq<Event>, i: nat, d: string, size: nat)
    requires Listened(t, t') && |t| <= i <= |t'|
    ensures Behind(t', i, d, size) <==> !Confirmed(t'[..i], AfterLastSent(t), d, {"chunk"}, Min(SentBytes(t), size))
  {
    assert t <= t'[..i];
    ListeningKeepsAfterLastSent(t, t'[..i]);
    ListeningSendsNothing(t, t'[..i]);
  }

  lemma CatchingUpIsAccounted(h: Host, devices: set<string>, size: nat)
    ensures var (r, h1) := WaitAll(h, devices, ACK, NACK, Min(SentBytes(h.trace), size));
      Accounted(Stations(devices, size), h, r, h1)
  {
    hide TrimSpace, WaitAll;
    var from, least := AfterLastSent(h.trace), Min(SentBytes(h.trace), size);
    var (r, h1) := WaitAll(h, devices, ACK, NACK, least);
    WaitAllHeeds(h, devices, devices, ACK, NACK, least, from);
    var t := h1.trace;
    forall i | |h.trace| <= i < |t| && Fatal(Stations(devices, size), t, i)
      ensures Pressing(t, i, devices, ACK, NACK, least, from)
    {
      if t[i].Got? { BehindIs(h.trace, t, i, TrimSpace(t[i].status.device), size); }
    }
  }

  /** What else a broadcast may complain of: that the file ended short of the announced size, and not
      at a multiple of 64 KiB. */
  ghost predicate EndedEarly(h: Host, job: Job, e: Error) {
    && e == UnexpectedEof(Min(h.pos, job.size), job.size) && SentBytes(h.trace) == h.pos == |h.file|
    && Min(h.pos, job.size) != job.size && Min(h.pos, job.size) % 0x1_0000 != 0
  }

  lemma SendPartCounts(h: Host, offset: nat, job: Job)
    requires job.Valid() && h.Readable() && SentBytes(h.trace) == offset == h.pos
    ensures var (r, h1) := SendPart(h, offset, job); SentBytes(h1.trace) == h1.pos
  {
    var (read, h1) := h.Read(job.chunk);
    if read.Data? {
      var m := Chunk(Encode(job.session, offset, read.chunk));
      Append(h1.trace, Sent(m, h1.Publish(m).0));
    }
  }

  lemma {:induction false} BroadcastIsAccounted(h: Host, offset: nat, job: Job, devices: set<string>)
    requires job.Valid() && h.Readable() && SentBytes(h.trace) == offset == h.pos
    ensures var (r, h') := Broadcast(h, offset, job, devices);
      if r.Err? && r.error.UnexpectedEof? then Quiet(Stations(devices, job.size), h, h') && EndedEarly(h', job, r.error)
      else Accounted(Stations(devices, job.size), h, r, h')
    decreases |h.file| - h.pos
  {
    hide Quiet, Broke, SendPart, CatchUp, EndedEarly, Explained, SentBytes;
    var who := Stations(devices, job.size);
    NothingIsQuiet(who, h);
    if offset < job.size {
      SendPartIsAccounted(who, h, offset, job);
      SendPartCounts(h, offset, job);
      var (sent, h1) := SendPart(h, offset, job);
      if sent.Err? {
        BreaksAreTold(who, h, h1, sent.error);
      } else {
        CatchUpIsAccounted(h1, sent.value.1, job, devices);
        var (held, h2) := CatchUp(h1, h1.pos, sent.value.1, job, devices);
        ListeningSendsNothing(h1.trace, h2.trace);
        if held.Err? && held.error.UnexpectedEof? {
          QuietGoesOn(who, h, h1, h2);
        } else {
          AccountGoesOn(who, h, h1, held, h2);
          if held.Ok? && !sent.value.1 {
            BroadcastIsAccounted(h2, h2.pos, job, devices);
            var (r, h') := Broadcast(h2, h2.pos, job, devices);
            if r.Err? && r.error.UnexpectedEof? { QuietGoesOn(who, h, h2, h'); } else { AccountGoesOn(who, h, h2, r, h'); }
          }
        }
      }
    }
  }

  lemma CatchUpIsAccounted(h: Host, eof: bool, job: Job, devices: set<string>)
    requires job.Valid() && h.Readable() && SentBytes(h.trace) == h.pos && (eof ==> h.pos == |h.file|)
    ensures var (r, h1) := CatchUp(h, h.pos, eof, job, devices);
      if r.Err? && r.error.UnexpectedEof? then Quiet(Stations(devices, job.size), h, h1) && EndedEarly(h1, job, r.error)
      else Accounted(Stations(devices, job.size), h, r, h1)
  {
    hide Quiet, Broke, WaitAll;
    var who := Stations(devices, job.size);
    NothingIsQuiet(who, h);
    CatchingUpIsAccounted(h, devices, job.size);
    var (r, h1) := WaitAll(h, devices, ACK, NACK, Min(h.pos, job.size));
    if r.Err? { BreaksAreTold(who, h, h1, r.error); }
  }

  /** No upload to stations overlooks anything either: a failure reported by a station that has not yet
      confirmed what was sent, a time-out, or a publish that fails is the last event of the upload,
      and its result, so that no further chunk goes out; so is a read that fails. And it fails for
      no other reason, unless the file cannot be opened or has ended early. */
  lemma StationsUploadHeeds(h: Host, job: Job, devices: set<string>)
    requires job.Valid() && SentBytes(h.trace) == 0
    ensures !h.openable ==> UploadAll(h, job, devices) == (Err(OpenFailed), h)
    ensures h.openable ==>
      var who := Stations(devices, job.size);
      var (r, h') := UploadAll(h, job, devices);
      var t := h'.trace;
      && h.trace <= t
      && (if r.Ok? then forall i :: |h.trace| <= i < |t| ==> !Fatal(who, t, i) else Heeded(who, h, h', r.error))
      && (r.Err? ==> if r.error.UnexpectedEof? then EndedEarly(h', job, r.error) else Explained(who, h, h', r.error))
      && (r.Ok? || r.error != ReadFailed ==> ReadsGo(h, h'))
  {
    if h.openable {
      var who := Stations(devices, job.size);
      BroadcastIsAccounted(h.Open(), 0, job, devices);
      var (r, h') := UploadAll(h, job, devices);
      if r.Ok? || r.error.UnexpectedEof? {
        QuietIsHeeded(who, h.Open(), h');
      } else {
        BrokeIsHeeded(who, h.Open(), h', r.error);
      }
    }
  }

  // ---- How a session is closed ---------------------------------------------------------------------

  /** The one finish or abort of t is at position c. */
  ghost predicate ClosedAt(t: seq<Event>, c: nat) {
    && c < |t| && Closes(t[c]) && PhaseOf(t[..c]) == Open
    && forall i :: 0 <= i < |t| && i != c ==> !Closes(t[i])
  }

  predicate Closes(e: Event) {
    e.Sent? && (e.message.Finish? || e.message.Abort?)
  }

  /** What is heard from position `from` on decides a wait for one of `ok` or `fail`: only the last
      event can, and it gives the result. */
  ghost predicate Decides(t: seq<Event>, from: nat, ok: set<string>, fail: set<string>, r: Result<()>) {
    && from < |t|
    && (forall i :: from <= i < |t| - 1 ==> t[i].Got? && t[i].status.status !in ok && t[i].status.status !in fail)
    && (match t[|t| - 1]
        case Sent(_, _) => false
        case Expired => r == Err(TimedOut([]))
        case Got(s) => if s.status in ok then r == Ok(()) else s.status in fail && r == Err(Reported(s)))
  }

  lemma {:induction false} WaitDecides(h: Host, ok: set<string>, fail: set<string>)
    ensures var (r, h1) := Wait(h, ok, fail); Decides(h1.trace, |h.trace|, ok, fail, Dismiss(r))
    decreases |h.arrivals|
  {
    Heard(h);
    var (a, h1) := h.Receive();
    if a.Arrive? && a.status.status !in ok && a.status.status !in fail {
      WaitDecides(h1, ok, fail);
      var t := Wait(h1, ok, fail).1.trace;
      assert h1.trace <= t && t[|h.trace|] == h1.trace[|h.trace|];
    }
  }

  lemma OnceClosed(h: Host, h1: Host, t: seq<Event>)
    requires PhaseOf(h.trace) == Open && (h1 == GiveUp(h) || h1 == SendFinish(h).1) && Listened(h1.trace, t)
    ensures ClosedAt(t, |h.trace|) && t[..|h.trace|] == h.trace && t[|h.trace|] == h1.trace[|h.trace|]
    ensures t[|h.trace|].message == (if h1 == GiveUp(h) then Abort else Finish)
  {
    OpenWasNotClosed(h.trace);
    assert forall i :: 0 <= i < |h.trace| ==> t[i] == h1.trace[i] == h.trace[i];
    assert t[|h.trace|] == h1.trace[|h.trace|];
    assert t[..|h.trace|] == h.trace;
  }

  /** Begun: the begin message is out, with the size of the firmware. */
  ghost predicate Begun(h: Host, h0: Host, job: Job) {
    h.trace == [] && h0 == h.Publish(Begin(job.size)).1 && h0.trace == [Sent(Begin(job.size), true)]
  }

  /** Before the begin message nothing is sent; an empty firmware, or a begin message that does not go
      out, ends the session there. */
  lemma SessionBegins(h: Host, job: Job, stations: bool)
    requires job.Valid() && h.trace == []
    ensures var (r, h') := Run(h, job, stations);
      var (begun, h0) := h.Publish(Begin(job.size));
      if job.size == 0 then r == Err(EmptyFirmware) && h' == h
      else if !begun then r == Err(PublishFailed) && h'.trace == [Sent(Begin(job.size), false)]
      else Begun(h, h0, job) && PhaseOf(h0.trace) == Open
  {
    var (begun, h0) := h.Publish(Begin(job.size));
    PhaseAppend([], Sent(Begin(job.size), begun));
    assert h0.trace == [] + [Sent(Begin(job.size), begun)];
  }

  lemma TerminalUploadKeepsOpen(h: Host, job: Job)
    requires job.Valid() && PhaseOf(h.trace) == Open
    ensures PhaseOf(Upload(h, job).1.trace) == Open && h.trace <= Upload(h, job).1.trace
  {
    if h.openable { LoopKeepsPhase(h.Open(), START, job); }
  }

  /** A session with a terminal is closed by what its course demands. It stays open only if the wait
      for `started` fails. A failed upload is aborted, and the abort is the last message and the
      upload's error the result. An upload that succeeds is finished; the session then succeeds
      exactly if the finish goes out and `done` is the first answer to it. */
  lemma TerminalSessionCloses(h: Host, h0: Host, job: Job)
    requires job.Valid() && job.size > 0 && Begun(h, h0, job)
    ensures var (r, h') := Run(h, job, false);
      var t := h'.trace;
      var (started, h1) := Wait(h0, {"started"}, {"bad_begin", "begin_failed"});
      var (uploaded, h2) := Upload(h1, job);
      var c := |h2.trace|;
      && t[0] == Sent(Begin(job.size), true)
      && Decides(h1.trace, 1, {"started"}, {"bad_begin", "begin_failed"}, Dismiss(started))
      && h1.trace <= h2.trace
      && (if started.Err? then t == h1.trace && r == Dismiss(started) && PhaseOf(t) == Open
          else
            && ClosedAt(t, c) && t[..c] == h2.trace
            && (if uploaded.Err? then t[c].message.Abort? && |t| == c + 1 && r == uploaded
                else
                  && t[c].message.Finish?
                  && (if t[c].ok then Decides(t, c + 1, {"done"}, {"bad_finish", "finish_failed"}, r)
                      else |t| == c + 1 && r == Err(PublishFailed))))
  {
    hide Wait, Upload, Decides, ClosedAt, PhaseOf;
    SessionBegins(h, job, false);
    var (started, h1) := Wait(h0, STARTED, REFUSED);
    WaitDecides(h0, STARTED, REFUSED);
    ListeningKeepsPhase(h0.trace, h1.trace);
    TerminalUploadKeepsOpen(h1, job);
    var (uploaded, h2) := Upload(h1, job);
    if started.Ok? {
      var t := Run(h, job, false).1.trace;
      if uploaded.Err? {
        OnceClosed(h2, GiveUp(h2), t);
      } else {
        var h3 := SendFinish(h2).1;
        OnceClosed(h2, h3, t);
        WaitDecides(h3, DONE, FINISH_FAILED);
      }
    }
  }

  // ---- The same, read off the trace alone -----------------------------------------------------------

  /** `started` is heard at position k, before any refusal and before the timer. */
  predicate StartedAt(t: seq<Event>, k: nat) {
    && 0 < k < |t| && t[k].Got? && t[k].status.status == "started"
    && forall j :: 0 < j < k ==> t[j].Got? && t[j].status.status !in {"started", "bad_begin", "begin_failed"}
  }

  lemma StartDecides(t: seq<Event>, r: Result<()>)
    requires Decides(t, 1, {"started"}, {"bad_begin", "begin_failed"}, r)
    ensures if r.Ok? then StartedAt(t, |t| - 1) else forall k: nat :: !StartedAt(t, k)
  {
  }

  lemma StartStays(t: seq<Event>, t': seq<Event>, k: nat)
    requires t <= t' && StartedAt(t, k)
    ensures StartedAt(t', k) && forall j: nat :: StartedAt(t', j) ==> j == k
  {
    assert forall j :: 0 <= j < |t| ==> t'[j] == t[j];
  }

  /** The upload's part of a trace that was aborted or finished at c. */
  lemma UploadWasHeeded(h1: Host, h2: Host, t: seq<Event>, c: nat, r: Result<()>, uploaded: Result<()>)
    requires h1.trace <= h2.trace && c == |h2.trace| < |t| && t[..c] == h2.trace
    requires if uploaded.Ok? then forall i :: |h1.trace| <= i < c ==> !Fatal(Terminal, h2.trace, i)
             else r == uploaded && Heeded(Terminal, h1, h2, uploaded.error)
    ensures forall i :: |h1.trace| <= i < c && Fatal(Terminal, t, i) ==>
      i == c - 1 && uploaded.Err? && r.Err? && Tells(Terminal, t, i, r.error)
  {
    forall i | |h1.trace| <= i < c && Fatal(Terminal, t, i)
      ensures i == c - 1 && uploaded.Err? && r.Err? && Tells(Terminal, t, i, r.error)
    {
      FatalStays(Terminal, h2.trace, t, i);
      assert t[..i] == h2.trace[..i];
    }
  }

  /** The upload that began behind position k was closed at c as it should be. */
  ghost predicate ClosedRightly(t: seq<Event>, k: nat, c: nat, r: Result<()>)
    requires ClosedAt(t, c)
  {
    && k < c
    && (t[c].message.Abort? ==> |t| == c + 1 && r.Err?)
    && (forall i :: k < i < c && Fatal(Terminal, t, i) ==> i == c - 1 && t[c].message.Abort? && r.Err? && Tells(Terminal, t, i, r.error))
    && (r.Ok? ==> t[c].message.Finish? && t[c].ok)
  }

  /** Over the trace of a session with a terminal that has begun: it has its one finish or abort
      exactly if a `started` was heard; whatever is fatal to the upload is answered by an abort at
      once, and by the error that tells of it; an abort is the last message, and the session
      failed; and in a session that succeeds every publish went out. */
  lemma TerminalSessionHeeds(h: Host, h0: Host, job: Job)
    requires job.Valid() && job.size > 0 && Begun(h, h0, job)
    ensures var (r, h') := Run(h, job, false);
      var t := h'.trace;
      && ((exists c: nat :: ClosedAt(t, c)) <==> (exists k: nat :: StartedAt(t, k)))
      && ((forall k: nat :: !StartedAt(t, k)) ==> PhaseOf(t) == Open && r.Err?)
      && (forall k: nat, c: nat :: StartedAt(t, k) && ClosedAt(t, c) ==> ClosedRightly(t, k, c, r))
      && (r.Ok? ==> forall i :: 0 <= i < |t| && t[i].Sent? ==> t[i].ok)
  {
    hide Wait, Upload, Run, Decides, Fatal, Heeded, PhaseOf;
    TerminalSessionCloses(h, h0, job);
    var (r, h') := Run(h, job, false);
    var (started, h1) := Wait(h0, {"started"}, {"bad_begin", "begin_failed"});
    var (uploaded, h2) := Upload(h1, job);
    StartDecides(h1.trace, Dismiss(started));
    if started.Err? {
      OpenIsNotClosed(h'.trace);
    } else {
      var k, c := |h1.trace| - 1, |h2.trace|;
      assert ClosedAt(h'.trace, c);
      StartStays(h1.trace, h2.trace, k);
      StartStays(h1.trace, h'.trace, k);
      TerminalUploadIsHeeded(h0, h1, job);
      UploadWasHeeded(h1, h2, h'.trace, c, r, uploaded);
      if r.Ok? { SuccessWasPublished(h1, h2, h'.trace, r); }
    }
  }

  lemma OpenIsNotClosed(t: seq<Event>)
    requires PhaseOf(t) == Open
    ensures forall c: nat :: !ClosedAt(t, c)
  {
    OpenWasNotClosed(t);
  }

  lemma TerminalUploadIsHeeded(h0: Host, h1: Host, job: Job)
    requires job.Valid() && h0.trace == [Sent(Begin(job.size), true)] && Listened(h0.trace, h1.trace)
    ensures var (uploaded, h2) := Upload(h1, job);
      && h1.trace <= h2.trace
      && (if uploaded.Ok? then forall i :: |h1.trace| <= i < |h2.trace| ==> !Fatal(Terminal, h2.trace, i)
          else Heeded(Terminal, h1, h2, uploaded.error))
  {
    NoChunksYet(h1.trace);
    NoChunksIsWindowed(h1.trace, job.chunk);
    TerminalUploadHeeds(h1, job);
  }

  lemma SuccessWasPublished(h1: Host, h2: Host, t: seq<Event>, r: Result<()>)
    requires |h1.trace| > 0 && h1.trace <= h2.trace && |h2.trace| < |t| && t[..|h2.trace|] == h2.trace
    requires t[0] == h1.trace[0] && t[0].Sent? && t[0].ok && Listened([t[0]], h1.trace)
    requires forall i :: |h1.trace| <= i < |h2.trace| ==> !Fatal(Terminal, h2.trace, i)
    requires t[|h2.trace|].Sent? && t[|h2.trace|].ok && Decides(t, |h2.trace| + 1, {"done"}, {"bad_finish", "finish_failed"}, r)
    ensures forall i :: 0 <= i < |t| && t[i].Sent? ==> t[i].ok
  {
    assert forall i :: 0 <= i < |h2.trace| ==> t[i] == h2.trace[i];
    forall i | 0 <= i < |t| && t[i].Sent? ensures t[i].ok {
      if |h1.trace| <= i < |h2.trace| { assert !Fatal(Terminal, h2.trace, i); }
    }
  }

  // ---- A session with stations --------------------------------------------------------------------

  lemma StationsUploadKeepsOpen(h: Host, job: Job, devices: set<string>)
    requires job.Valid() && PhaseOf(h.trace) == Open
    ensures PhaseOf(UploadAll(h, job, devices).1.trace) == Open && h.trace <= UploadAll(h, job, devices).1.trace
  {
    if h.openable { BroadcastKeepsPhase(h.Open(), 0, job, devices); }
  }

  predicate PressesFinish(t: seq<Event>, i: nat, c: nat, devices: set<string>, size: nat)
    requires i < |t|
  {
    Pressing(t, i, devices, {"done"}, {"bad_finish", "finish_failed"}, size, c + 1)
  }

  /** The last wait, for `done` from every station with the full size: a failure to finish reported by
      a station that is not done yet, or the timer, ends it, and is its result. */
  ghost predicate FinishHeeded(t: seq<Event>, c: nat, devices: set<string>, size: nat, r: Result<()>) {
    && (forall i :: c < i < |t| ==> !t[i].Sent?)
    && (forall i :: c < i < |t| && PressesFinish(t, i, c, devices, size) ==> i == |t| - 1 && r.Err?)
    && (r.Err? ==> c + 1 < |t| && Answers(t, |t| - 1, devices, {"bad_finish", "finish_failed"}, r.error))
    && (r.Ok? ==> forall d :: d in devices ==> Confirmed(t, c + 1, d, {"done"}, size))
  }

  lemma FinishIsHeeded(h: Host, devices: set<string>, size: nat)
    requires |h.trace| > 0
    ensures var (r, h1) := WaitAll(h, devices, DONE, FINISH_FAILED, size);
      FinishHeeded(h1.trace, |h.trace| - 1, devices, size, r)
  {
    hide WaitAll, TrimSpace;
    WaitAllHeeds(h, devices, devices, DONE, FINISH_FAILED, size, |h.trace|);
    if WaitAll(h, devices, DONE, FINISH_FAILED, size).0.Ok? { WaitAllConfirms(h, devices, DONE, FINISH_FAILED, size); }
  }

  /** A session with stations is always closed. A discovery or an upload that fails is aborted, and the
      abort is the last message and its error the result. An upload that succeeds is finished; the
      session then succeeds exactly if the finish goes out and every station that joined reports
      `done` with the full size, before the timer and without reporting a failure first. */
  lemma StationsSessionCloses(h: Host, h0: Host, job: Job)
    requires job.Valid() && job.size > 0 && Begun(h, h0, job)
    ensures var (r, h') := Run(h, job, true);
      var t := h'.trace;
      var (found, h1) := Discover(h0, {});
      && t[0] == Sent(Begin(job.size), true)
      && (if found.Err? then
            ClosedAt(t, |h1.trace|) && t == h1.trace + [t[|h1.trace|]] && t[|h1.trace|].message.Abort? && r == Dismiss(found)
          else
            var devices := Names(found.value);
            var (uploaded, h2) := UploadAll(h1, job, devices);
            var c := |h2.trace|;
            && ClosedAt(t, c) && t[..c] == h2.trace
            && (if uploaded.Err? then t[c].message.Abort? && |t| == c + 1 && r == uploaded
                else
                  && t[c].message.Finish?
                  && (if t[c].ok then FinishHeeded(t, c, devices, job.size, r)
                      else |t| == c + 1 && r == Err(PublishFailed))))
  {
    hide Discover, UploadAll, WaitAll, FinishHeeded;
    SessionBegins(h, job, true);
    var (found, h1) := Discover(h0, {});
    ListeningKeepsPhase(h0.trace, h1.trace);
    var t := Run(h, job, true).1.trace;
    if found.Err? {
      OnceClosed(h1, GiveUp(h1), t);
    } else {
      var devices := Names(found.value);
      StationsUploadKeepsOpen(h1, job, devices);
      var (uploaded, h2) := UploadAll(h1, job, devices);
      if uploaded.Err? {
        OnceClosed(h2, GiveUp(h2), t);
      } else {
        var h3 := SendFinish(h2).1;
        OnceClosed(h2, h3, t);
        if SendFinish(h2).0.Ok? { FinishIsHeeded(h3, devices, job.size); }
      }
    }
  }

  /** Over the trace of a session with stations in which discovery found some: whatever is fatal to the
      upload is answered by an abort at once, and by the error that tells of it; and in a session
      that succeeds every publish went out. */
  lemma StationsSessionHeeds(h: Host, h0: Host, job: Job)
    requires job.Valid() && job.size > 0 && Begun(h, h0, job) && Discover(h0, {}).0.Ok?
    ensures var (r, h') := Run(h, job, true);
      var t := h'.trace;
      var (found, h1) := Discover(h0, {});
      var who := Stations(Names(found.value), job.size);
      && h1.trace <= t
      && (forall i, c: nat :: ClosedAt(t, c) && |h1.trace| <= i < c && Fatal(who, t, i) ==>
          i == c - 1 && |t| == c + 1 && t[c].message.Abort? && r.Err? && Tells(who, t, i, r.error))
      && (r.Ok? ==> forall i :: 0 <= i < |t| && t[i].Sent? ==> t[i].ok)
  {
    hide Discover, UploadAll, WaitAll, Run, Fatal, Tells;
    StationsSessionCloses(h, h0, job);
    var (r, h') := Run(h, job, true);
    var t := h'.trace;
    var (found, h1) := Discover(h0, {});
    var devices := Names(found.value);
    var who := Stations(devices, job.size);
    var (uploaded, h2) := UploadAll(h1, job, devices);
    StationsUploadIsHeeded(h0, h1, job, devices);
    assert h2.trace <= t;
    forall i, c: nat | ClosedAt(t, c) && |h1.trace| <= i < c && Fatal(who, t, i)
      ensures i == c - 1 && |t| == c + 1 && t[c].message.Abort? && r.Err? && Tells(who, t, i, r.error)
    {
      assert c == |h2.trace|;
      FatalStays(who, h2.trace, t, i);
      TellsStays(who, h2.trace, t, i, if uploaded.Err? then uploaded.error else ReadFailed);
    }
    if r.Ok? {
      assert h0.trace == [t[0]];
      StationsSuccessWasPublished(who, h1, h2, t);
    }
  }

  lemma TellsStays(who: Target, t: seq<Event>, t': seq<Event>, i: nat, e: Error)
    requires t <= t' && i < |t|
    ensures Tells(who, t', i, e) <==> Tells(who, t, i, e)
  {
    assert t'[..i] == t[..i];
  }

  lemma StationsUploadIsHeeded(h0: Host, h1: Host, job: Job, devices: set<string>)
    requires job.Valid() && h0.trace == [Sent(Begin(job.size), true)] && Listened(h0.trace, h1.trace)
    ensures var (uploaded, h2) := UploadAll(h1, job, devices);
      var who := Stations(devices, job.size);
      && h1.trace <= h2.trace
      && (if uploaded.Ok? then forall i :: |h1.trace| <= i < |h2.trace| ==> !Fatal(who, h2.trace, i)
          else Heeded(who, h1, h2, uploaded.error))
  {
    NoChunksYet(h1.trace);
    StationsUploadHeeds(h1, job, devices);
  }

  lemma StationsSuccessWasPublished(who: Target, h1: Host, h2: Host, t: seq<Event>)
    requires |h1.trace| > 0 && h1.trace <= h2.trace && |h2.trace| < |t| && t[..|h2.trace|] == h2.trace
    requires t[0].Sent? && t[0].ok && Listened([t[0]], h1.trace)
    requires forall i :: |h1.trace| <= i < |h2.trace| ==> !Fatal(who, h2.trace, i)
    requires t[|h2.trace|].Sent? && t[|h2.trace|].ok && Listened(t[..|h2.trace| + 1], t)
    ensures forall i :: 0 <= i < |t| && t[i].Sent? ==> t[i].ok
  {
    assert forall i :: 0 <= i < |h2.trace| ==> t[i] == h2.trace[i];
    forall i | 0 <= i < |t| && t[i].Sent? ensures t[i].ok {
      if |h1.trace| <= i < |h2.trace| { assert !Fatal(who, h2.trace, i); }
    }
  }

  // ---- Chunks are as large as they can be -----------------------------------------------------------

  /** All frames but the last one carry a full chunk, and so does that one before the file has ended. */
  ghost predicate Filled(h: Host, chunk: nat) {
    var frames := Frames(h.trace);
    && FullReads(h)
    && (forall i :: 0 <= i < |frames| - 1 ==> |frames[i]| == 42 + chunk)
    && (frames != [] && |frames[|frames| - 1]| != 42 + chunk ==> h.pos == |h.file|)
  }

  lemma FullRead(h: Host, max: nat)
    requires FullReads(h) && h.Readable() && 0 < max
    ensures var (r, h1) := h.Read(max);
      FullReads(h1) && h1.trace == h.trace && (r.Data? ==> h.pos < |h.file| && (|r.chunk| == max || h1.pos == |h1.file|))
  {
    assert h.readPlan != [] ==> h.readPlan[0] in h.readPlan;
  }

  lemma PublishStaysFilled(h: Host, h1: Host, job: Job, offset: nat, chunk: Bytes)
    requires job.Valid() && Filled(h, job.chunk) && h.pos < |h.file| && h1.trace == h.trace && FullReads(h1)
    requires |chunk| == job.chunk || h1.pos == |h1.file|
    ensures Filled(h1.Publish(Chunk(Encode(job.session, offset, chunk))).1, job.chunk)
  {
    var m := Chunk(Encode(job.session, offset, chunk));
    Append(h.trace, Sent(m, h1.Publish(m).0));
  }

  lemma SendNextStaysFilled(h: Host, w: Window, job: Job)
    requires job.Valid() && h.Readable() && Filled(h, job.chunk)
    ensures Filled(SendNext(h, w, job).1, job.chunk)
  {
    FullRead(h, job.chunk);
    var (r, h1) := h.Read(job.chunk);
    if r.Data? { PublishStaysFilled(h, h1, job, w.offset, r.chunk); }
  }

  lemma SendPartStaysFilled(h: Host, offset: nat, job: Job)
    requires job.Valid() && h.Readable() && Filled(h, job.chunk)
    ensures Filled(SendPart(h, offset, job).1, job.chunk)
  {
    FullRead(h, job.chunk);
    var (r, h1) := h.Read(job.chunk);
    if r.Data? { PublishStaysFilled(h, h1, job, offset, r.chunk); }
  }

  lemma {:induction false} FillStaysFilled(h: Host, w: Window, job: Job)
    requires job.Valid() && h.Readable() && Filled(h, job.chunk)
    ensures Filled(Fill(h, w, job).1, job.chunk)
    decreases !w.eof, WINDOW - w.pending
  {
    hide Filled, SendNext;
    if !w.eof && w.pending < WINDOW {
      SendNextStaysFilled(h, w, job);
      var (r, h1) := SendNext(h, w, job);
      if r.Ok? { FillStaysFilled(h1, r.value, job); }
    }
  }

  lemma ListeningStaysFilled(h: Host, h': Host, chunk: nat)
    requires Filled(h, chunk) && After(h, h')
    ensures Filled(h', chunk)
  {
    ListeningSendsNothing(h.trace, h'.trace);
  }

  lemma {:induction false} LoopStaysFilled(h: Host, w: Window, job: Job)
    requires job.Valid() && h.Readable() && Filled(h, job.chunk)
    ensures Filled(Loop(h, w, job).1, job.chunk)
    decreases |h.arrivals|
  {
    hide Filled, Fill, Wait;
    if !(w.eof && w.pending == 0) {
      FillStaysFilled(h, w, job);
      var h1 := Fill(h, w, job).1;
      ListeningStaysFilled(h1, Wait(h1, ACK, NACK).1, job.chunk);
      var (turned, h2) := Turn(h, w, job);
      if turned.Ok? { LoopStaysFilled(h2, turned.value, job); }
    }
  }

  lemma {:induction false} BroadcastStaysFilled(h: Host, offset: nat, job: Job, devices: set<string>)
    requires job.Valid() && h.Readable() && Filled(h, job.chunk)
    ensures Filled(Broadcast(h, offset, job, devices).1, job.chunk)
    decreases |h.file| - h.pos
  {
    hide Filled, SendPart, CatchUp;
    if offset < job.size {
      SendPartStaysFilled(h, offset, job);
      var (sent, h1) := SendPart(h, offset, job);
      if sent.Ok? {
        var (held, h2) := CatchUp(h1, sent.value.0, sent.value.1, job, devices);
        ListeningStaysFilled(h1, h2, job.chunk);
        if held.Ok? && !sent.value.1 { BroadcastStaysFilled(h2, sent.value.0, job, devices); }
      }
    }
  }

  /** As long as reads fill the buffer, every chunk but the last one is full, in both kinds of upload. */
  lemma ChunksAreFull(h: Host, job: Job, devices: set<string>)
    requires job.Valid() && FullReads(h) && Frames(h.trace) == []
    ensures var frames := Frames(Upload(h, job).1.trace); forall i :: 0 <= i < |frames| - 1 ==> |frames[i]| == 42 + job.chunk
    ensures var frames := Frames(UploadAll(h, job, devices).1.trace); forall i :: 0 <= i < |frames| - 1 ==> |frames[i]| == 42 + job.chunk
  {
    if h.openable {
      LoopStaysFilled(h.Open(), START, job);
      BroadcastStaysFilled(h.Open(), 0, job, devices);
    }
  }
}
