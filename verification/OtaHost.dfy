/** What the update sender talks to: the firmware file, the MQTT client and the status
    channel, with everything they may do to it.

    The sender has no control over how much a read returns, which publishes fail, which
    statuses arrive and when a timer fires. A `Host` holds one complete course of those
    events in advance, so a statement about every Host is a statement about every course:
    statuses lost, repeated, delayed or forged, short reads, failed calls, timeouts. */
module OtaHost {
  import opened OtaFrame

  datatype Status = Status(device: string, status: string, written: int, err: string)

  /** What the next receive finds: a status from the channel, or the timer. */
  datatype Arrival = Arrive(status: Status) | Expire

  /** How a read behaves where there are bytes left to read. */
  datatype ReadPlan = Full | Short(n: nat) | Fault

  datatype ReadResult = Data(chunk: Bytes) | Eof | Failed

  datatype Message = Begin(size: nat) | Chunk(frame: Bytes) | Finish | Abort

  /** The trace of a session: every publish attempted, and whatever the sender took in. */
  datatype Event = Sent(message: Message, ok: bool) | Got(status: Status) | Expired

  datatype Error =
    | EmptyFirmware
    | OpenFailed
    | ReadFailed
    | PublishFailed
    | TimedOut(outstanding: seq<string>)
    | Reported(status: Status)
    | AckAboveSent(written: int, offset: nat)
    | FinalAckMismatch(acked: nat, size: nat)
    | UnexpectedEof(at: nat, size: nat)
    | StartedWithoutDevice
    | NoStations

  datatype Result<+T> = Ok(value: T) | Err(error: Error)

  datatype Host = Host(
    file: Bytes, openable: bool, pos: nat,
    readPlan: seq<ReadPlan>, publishPlan: seq<bool>, arrivals: seq<Arrival>,
    trace: seq<Event>)
  {
    predicate Readable() { pos <= |file| }

    /** os.Open, once it is known to succeed: reading starts at the first byte. */
    function Open(): (h: Host)
      ensures h.Readable()
    {
      this.(pos := 0)
    }

    /** The bytes the next read returns, when it returns bytes. */
    function NextRead(max: nat): (n: nat)
      requires 0 < max && pos < |file|
      ensures 0 < n <= max && pos + n <= |file|
    {
      var most := if max <= |file| - pos then max else |file| - pos;
      if readPlan != [] && readPlan[0].Short? && 0 < readPlan[0].n < most then readPlan[0].n else most
    }

    /** (*os.File).Read: at least one byte, or io.EOF at the end of the file, or an error. */
    function Read(max: nat): (r: (ReadResult, Host))
      requires Readable() && 0 < max
      ensures r.1.Readable() && r.1.file == file && r.1.pos == pos + (if r.0.Data? then |r.0.chunk| else 0)
      ensures r.0.Data? ==> 0 < |r.0.chunk| <= max && r.0.chunk == file[pos..r.1.pos]
      ensures r.0.Eof? ==> pos == |file|
    {
      var rest := if readPlan == [] then [] else readPlan[1..];
      if readPlan != [] && readPlan[0].Fault? then (Failed, this.(readPlan := rest))
      else if pos == |file| then (Eof, this.(readPlan := rest))
      else
        var n := NextRead(max);
        (Data(file[pos..pos + n]), this.(pos := pos + n, readPlan := rest))
    }

    /** publishMQTTBytes at QoS 0: an attempt that is on record whether it failed or not. */
    function Publish(m: Message): (r: (bool, Host)) {
      var ok := publishPlan == [] || publishPlan[0];
      (ok, this.(publishPlan := if publishPlan == [] then [] else publishPlan[1..], trace := trace + [Sent(m, ok)]))
    }

    /** One round of `select { case <-statusCh ... case <-timer }`. */
    function Receive(): (r: (Arrival, Host))
      ensures r.0.Arrive? ==> |r.1.arrivals| < |arrivals|
    {
      if arrivals == [] then (Expire, this.(trace := trace + [Expired]))
      else
        (arrivals[0],
         this.(arrivals := arrivals[1..],
               trace := trace + [if arrivals[0].Arrive? then Got(arrivals[0].status) else Expired]))
    }
  }

  /** The sender's handles on the outside world, whose use moves it on. */
  class Link {
    var host: Host

    constructor (h: Host)
      ensures host == h
    {
      host := h;
    }

    method Open()
      modifies this
      ensures host == old(host).Open()
    {
      host := host.Open();
    }

    method Read(max: nat) returns (r: ReadResult)
      requires host.Readable() && 0 < max
      modifies this
      ensures (r, host) == old(host).Read(max)
    {
      var next := host.Read(max);
      r, host := next.0, next.1;
    }

    method Publish(m: Message) returns (ok: bool)
      modifies this
      ensures (ok, host) == old(host).Publish(m)
    {
      var next := host.Publish(m);
      ok, host := next.0, next.1;
    }

    method Receive() returns (a: Arrival)
      modifies this
      ensures (a, host) == old(host).Receive()
    {
      var next := host.Receive();
      a, host := next.0, next.1;
    }
  }

  // ---- What an onlooker can read off a trace -------------------------------------------

  /** The chunk frames handed to the broker, in order. */
  function Frames(t: seq<Event>): seq<Bytes> {
    if t == [] then []
    else
      var e := t[|t| - 1];
      Frames(t[..|t| - 1]) + (if e.Sent? && e.message.Chunk? then [e.message.frame] else [])
  }

  /** How many firmware bytes those frames carry. */
  function SentBytes(t: seq<Event>): nat {
    if t == [] then 0
    else
      var e := t[|t| - 1];
      SentBytes(t[..|t| - 1]) +
      (if e.Sent? && e.message.Chunk? && |e.message.frame| > HEADER_LENGTH then |e.message.frame| - HEADER_LENGTH else 0)
  }

  /** The cumulative acknowledgement: the highest plausible `chunk` report so far, where a
      report above what was sent is not plausible. */
  function AckedBytes(t: seq<Event>): (a: nat)
    ensures a <= SentBytes(t)
  {
    if t == [] then 0
    else
      var e, before := t[|t| - 1], AckedBytes(t[..|t| - 1]);
      if e.Got? && e.status.status == "chunk" && before <= e.status.written <= SentBytes(t) then e.status.written
      else before
  }

  /** One more event at the end of a trace. */
  lemma Append(t: seq<Event>, e: Event)
    ensures Frames(t + [e]) == Frames(t) + (if e.Sent? && e.message.Chunk? then [e.message.frame] else [])
    ensures SentBytes(t + [e]) == SentBytes(t) +
      (if e.Sent? && e.message.Chunk? && |e.message.frame| > HEADER_LENGTH then |e.message.frame| - HEADER_LENGTH else 0)
    ensures AckedBytes(t + [e]) ==
      (if e.Got? && e.status.status == "chunk" && AckedBytes(t) <= e.status.written <= SentBytes(t)
       then e.status.written else AckedBytes(t))
  {
    assert (t + [e])[..|t|] == t;
  }

  /** From t to t' the sender only listened. */
  ghost predicate Listened(t: seq<Event>, t': seq<Event>) {
    t <= t' && forall i :: |t| <= i < |t'| ==> !t'[i].Sent?
  }

  lemma {:induction false} ListeningSendsNothing(t: seq<Event>, t': seq<Event>)
    requires Listened(t, t')
    ensures Frames(t') == Frames(t) && SentBytes(t') == SentBytes(t)
    ensures AckedBytes(t) <= AckedBytes(t')
    decreases |t'|
  {
    if |t'| > |t| {
      ListeningSendsNothing(t, t'[..|t'| - 1]);
    } else {
      assert t == t';
    }
  }
}
