/** The three places where the sender listens: `waitOTAStatus`, `waitAllOTADevices` and
    `discoverOTADevices`. */
module OtaWait {
  import opened GoStrings
  import opened OtaHost

  /** h' is h after nothing but listening. */
  ghost predicate After(h: Host, h': Host) {
    h' == h.(arrivals := h'.arrivals, trace := h'.trace) && Listened(h.trace, h'.trace)
  }

  /** The names in the order in which the program reports them. */
  ghost function SortedNames(names: set<string>): (out: seq<string>)
    ensures SortsTo(names, out)
  {
    SortingExists(names);
    var out :| SortsTo(names, out);
    out
  }

  lemma {:induction false} SortingExists(names: set<string>)
    ensures exists out :: SortsTo(names, out)
  {
    if names == {} {
      assert SortsTo(names, []);
    } else {
      var n :| n in names;
      SortingExists(names - {n});
      var rest :| SortsTo(names - {n}, rest);
      assert SortsTo(names, Insert(n, rest));
    }
  }

  /** sort.Strings */
  function SortStrings(s: seq<string>): (out: seq<string>)
    ensures Ascending(out)
    ensures forall n :: n in out <==> n in s
  {
    if s == [] then [] else Insert(s[0], SortStrings(s[1..]))
  }

  /** Collects the keys of a map of names, in whatever order iteration gives them, and sorts. */
  method SortedKeys(names: set<string>) returns (out: seq<string>)
    ensures out == SortedNames(names)
  {
    out := [];
    var rest := names;
    while rest != {}
      invariant rest <= names
      invariant forall n :: n in out <==> n in names - rest
    {
      var n :| n in rest;
      out := out + [n];
      rest := rest - {n};
    }
    out := SortStrings(out);
    SortingIsUnique(out, SortedNames(names));
  }

  // ---- waitOTAStatus ---------------------------------------------------------------------

  function Wait(h: Host, ok: set<string>, fail: set<string>): (r: (Result<Status>, Host))
    ensures After(h, r.1)
    ensures r.0.Ok? ==> r.0.value.status in ok && |r.1.arrivals| < |h.arrivals|
    decreases |h.arrivals|
  {
    var (a, h1) := h.Receive();
    match a
    case Expire => (Err(TimedOut([])), h1)
    case Arrive(s) =>
      if s.status in ok then (Ok(s), h1)
      else if s.status in fail then (Err(Reported(s)), h1)
      else Wait(h1, ok, fail)
  }

  method WaitOTAStatus(link: Link, ok: set<string>, fail: set<string>) returns (r: Result<Status>)
    modifies link
    ensures (r, link.host) == Wait(old(link.host), ok, fail)
  {
    while true
      invariant Wait(link.host, ok, fail) == Wait(old(link.host), ok, fail)
      decreases |link.host.arrivals|
    {
      var a := link.Receive();
      match a
      case Arrive(status) =>
        if status.status in ok {
          return Ok(status);
        }
        if status.status in fail {
          return Err(Reported(status));
        }
      case Expire =>
        return Err(TimedOut([]));
    }
  }

  /** The wait is over at arrival k, by a status it knows or by the timer. */
  predicate Settles(arrivals: seq<Arrival>, known: set<string>, k: nat) {
    k <= |arrivals| && (k == |arrivals| || arrivals[k].Expire? || arrivals[k].status.status in known)
  }

  /** The answer of the wait is decided by the first arrival that can decide it, and
      everything up to it is consumed. */
  lemma {:induction false} WaitTakesFirst(h: Host, ok: set<string>, fail: set<string>, k: nat)
    requires Settles(h.arrivals, ok + fail, k) && forall j | 0 <= j < k :: !Settles(h.arrivals, ok + fail, j)
    ensures var (r, h') := Wait(h, ok, fail);
      && h'.arrivals == (if k < |h.arrivals| then h.arrivals[k + 1..] else [])
      && (r.Ok? <==> k < |h.arrivals| && h.arrivals[k].Arrive? && h.arrivals[k].status.status in ok)
      && (r.Ok? ==> r.value == h.arrivals[k].status)
      && (r == Err(TimedOut([])) <==> k == |h.arrivals| || h.arrivals[k].Expire?)
      && (r.Err? && r.error.Reported? ==> r.error.status == h.arrivals[k].status && r.error.status.status in fail)
    decreases k
  {
    if k > 0 {
      assert !Settles(h.arrivals, ok + fail, 0);
      var h1 := h.Receive().1;
      forall j | 0 <= j < k - 1 ensures !Settles(h1.arrivals, ok + fail, j) {
        assert !Settles(h.arrivals, ok + fail, j + 1);
      }
      WaitTakesFirst(h1, ok, fail, k - 1);
    }
  }

  /** Waiting for a chunk report moves the observer's cumulative acknowledgement by that
      report and by nothing else. */
  lemma {:induction false} WaitMovesAck(h: Host, ok: set<string>, fail: set<string>)
    requires "chunk" in ok
    ensures var (r, h') := Wait(h, ok, fail);
      AckedBytes(h'.trace) ==
      if r.Ok? && r.value.status == "chunk" && AckedBytes(h.trace) <= r.value.written <= SentBytes(h.trace)
      then r.value.written else AckedBytes(h.trace)
    decreases |h.arrivals|
  {
    var (a, h1) := h.Receive();
    assert h1.trace[..|h1.trace| - 1] == h.trace;
    if a.Arrive? && a.status.status !in ok && a.status.status !in fail {
      WaitMovesAck(h1, ok, fail);
    }
  }

  // ---- waitAllOTADevices -----------------------------------------------------------------

  ghost function WaitAll(h: Host, remaining: set<string>, ok: set<string>, fail: set<string>, least: int)
    : (r: (Result<()>, Host))
    ensures After(h, r.1)
    decreases |h.arrivals|
  {
    if remaining == {} then (Ok(()), h)
    else
      var (a, h1) := h.Receive();
      match a
      case Expire => (Err(TimedOut(SortedNames(remaining))), h1)
      case Arrive(s) =>
        var device := TrimSpace(s.device);
        if device !in remaining then WaitAll(h1, remaining, ok, fail, least)
        else if s.status in fail then (Err(Reported(s)), h1)
        else if s.status in ok && s.written >= least then WaitAll(h1, remaining - {device}, ok, fail, least)
        else WaitAll(h1, remaining, ok, fail, least)
  }

  function Names(devices: seq<string>): set<string> {
    set d | d in devices
  }

  method WaitAllOTADevices(link: Link, devices: seq<string>, ok: set<string>, fail: set<string>, least: int)
    returns (r: Result<()>)
    modifies link
    ensures (r, link.host) == WaitAll(old(link.host), Names(devices), ok, fail, least)
  {
    var remaining := {};
    for i := 0 to |devices|
      invariant remaining == Names(devices[..i])
    {
      remaining := remaining + {devices[i]};
    }
    assert devices[..|devices|] == devices;
    while remaining != {}
      invariant WaitAll(link.host, remaining, ok, fail, least)
             == WaitAll(old(link.host), Names(devices), ok, fail, least)
      decreases |link.host.arrivals|
    {
      var a := link.Receive();
      match a
      case Arrive(status) =>
        var device := TrimSpace(status.device);
        if device !in remaining {
          continue;
        }
        if status.status in fail {
          return Err(Reported(status));
        }
        if status.status in ok && status.written >= least {
          remaining := remaining - {device};
        }
      case Expire =>
        var pending := SortedKeys(remaining);
        return Err(TimedOut(pending));
    }
    return Ok(());
  }

  /** The arrival clears device d from the list. */
  predicate Clears(a: Arrival, d: string, ok: set<string>, fail: set<string>, least: int) {
    && a.Arrive? && TrimSpace(a.status.device) == d
    && a.status.status !in fail && a.status.status in ok && a.status.written >= least
  }

  predicate ClearedBefore(arrivals: seq<Arrival>, k: nat, d: string, ok: set<string>, fail: set<string>, least: int)
    requires k <= |arrivals|
  {
    exists i :: 0 <= i < k && Clears(arrivals[i], d, ok, fail, least)
  }

  /** The devices that the first k arrivals have not cleared. */
  ghost function Outstanding(arrivals: seq<Arrival>, k: nat, devices: set<string>, ok: set<string>, fail: set<string>, least: int)
    : set<string>
    requires k <= |arrivals|
  {
    set d | d in devices && !ClearedBefore(arrivals, k, d, ok, fail, least)
  }

  /** Every device has been cleared by the first k arrivals. */
  predicate AllCleared(arrivals: seq<Arrival>, k: nat, devices: set<string>, ok: set<string>, fail: set<string>, least: int)
    requires k <= |arrivals|
  {
    forall d :: d in devices ==> ClearedBefore(arrivals, k, d, ok, fail, least)
  }

  /** Arrival k is the timer, or a failure report from a device not yet cleared. A failure
      report from a device already cleared is not one. */
  predicate Breaks(arrivals: seq<Arrival>, k: nat, devices: set<string>, ok: set<string>, fail: set<string>, least: int)
    requires k <= |arrivals|
  {
    || k == |arrivals|
    || arrivals[k].Expire?
    || (var d := TrimSpace(arrivals[k].status.device);
        d in devices && arrivals[k].status.status in fail && !ClearedBefore(arrivals, k, d, ok, fail, least))
  }

  predicate Decided(arrivals: seq<Arrival>, k: nat, devices: set<string>, ok: set<string>, fail: set<string>, least: int) {
    k <= |arrivals| && (AllCleared(arrivals, k, devices, ok, fail, least) || Breaks(arrivals, k, devices, ok, fail, least))
  }

  lemma ClearedTail(arrivals: seq<Arrival>, k: nat, d: string, ok: set<string>, fail: set<string>, least: int)
    requires 0 < k <= |arrivals|
    ensures ClearedBefore(arrivals, k, d, ok, fail, least)
       <==> Clears(arrivals[0], d, ok, fail, least) || ClearedBefore(arrivals[1..], k - 1, d, ok, fail, least)
  {
    if ClearedBefore(arrivals, k, d, ok, fail, least) {
      var i :| 0 <= i < k && Clears(arrivals[i], d, ok, fail, least);
      if i > 0 { assert Clears(arrivals[1..][i - 1], d, ok, fail, least); }
    }
    if ClearedBefore(arrivals[1..], k - 1, d, ok, fail, least) {
      var i :| 0 <= i < k - 1 && Clears(arrivals[1..][i], d, ok, fail, least);
      assert Clears(arrivals[i + 1], d, ok, fail, least);
    }
  }

  /** Taking the first arrival off the stream and clearing its device leaves the same question. */
  lemma DecidedTail(arrivals: seq<Arrival>, k: nat, devices: set<string>, rest: set<string>,
                    ok: set<string>, fail: set<string>, least: int)
    requires 0 < k <= |arrivals|
    requires rest == set d | d in devices && !Clears(arrivals[0], d, ok, fail, least)
    ensures AllCleared(arrivals, k, devices, ok, fail, least) <==> AllCleared(arrivals[1..], k - 1, rest, ok, fail, least)
    ensures Breaks(arrivals, k, devices, ok, fail, least) <==> Breaks(arrivals[1..], k - 1, rest, ok, fail, least)
    ensures Outstanding(arrivals, k, devices, ok, fail, least) == Outstanding(arrivals[1..], k - 1, rest, ok, fail, least)
  {
    forall d ensures ClearedBefore(arrivals, k, d, ok, fail, least)
                <==> Clears(arrivals[0], d, ok, fail, least) || ClearedBefore(arrivals[1..], k - 1, d, ok, fail, least)
    {
      ClearedTail(arrivals, k, d, ok, fail, least);
    }
  }

  /** An arrival that decides nothing only takes its device, if it clears one, off the list. */
  lemma WaitAllSkips(h: Host, devices: set<string>, rest: set<string>, ok: set<string>, fail: set<string>, least: int)
    requires h.arrivals != [] && !Decided(h.arrivals, 0, devices, ok, fail, least)
    requires rest == set d | d in devices && !Clears(h.arrivals[0], d, ok, fail, least)
    ensures h.arrivals[0].Arrive?
    ensures WaitAll(h, devices, ok, fail, least) == WaitAll(h.Receive().1, rest, ok, fail, least)
  {
    assert !ClearedBefore(h.arrivals, 0, TrimSpace(h.arrivals[0].status.device), ok, fail, least);
    assert devices != {};
    var device := TrimSpace(h.arrivals[0].status.device);
    assert rest == devices || rest == devices - {device};
  }

  /** There is always a first arrival that decides. */
  lemma SomethingDecides(arrivals: seq<Arrival>, devices: set<string>, ok: set<string>, fail: set<string>, least: int)
    returns (k: nat)
    ensures Decided(arrivals, k, devices, ok, fail, least)
    ensures forall j :: 0 <= j < k ==> !Decided(arrivals, j, devices, ok, fail, least)
  {
    k := 0;
    while !Decided(arrivals, k, devices, ok, fail, least)
      invariant k <= |arrivals|
      invariant forall j :: 0 <= j < k ==> !Decided(arrivals, j, devices, ok, fail, least)
      decreases |arrivals| - k
    {
      k := k + 1;
    }
  }

  /** The wait over a list of devices ends at the first point k that decides it: with
      success exactly when by then every device has been cleared; otherwise by the timer,
      naming exactly the devices not cleared, in order; or by the failure report that broke it. */
  lemma {:induction false} WaitAllExact(h: Host, devices: set<string>, ok: set<string>, fail: set<string>, least: int, k: nat)
    requires Decided(h.arrivals, k, devices, ok, fail, least)
    requires forall j :: 0 <= j < k ==> !Decided(h.arrivals, j, devices, ok, fail, least)
    ensures var (r, h') := WaitAll(h, devices, ok, fail, least);
      && (r.Ok? <==> AllCleared(h.arrivals, k, devices, ok, fail, least))
      && (r.Ok? ==> h'.arrivals == h.arrivals[k..])
      && (r.Err? ==>
          if k == |h.arrivals| || h.arrivals[k].Expire?
          then r.error.TimedOut? &&
               SortsTo(Outstanding(h.arrivals, k, devices, ok, fail, least), r.error.outstanding)
          else r.error == Reported(h.arrivals[k].status))
    decreases k
  {
    if k == 0 {
      assert Outstanding(h.arrivals, 0, devices, ok, fail, least) == devices;
      assert forall d :: d in devices ==> !ClearedBefore(h.arrivals, 0, d, ok, fail, least);
    } else {
      assert !Decided(h.arrivals, 0, devices, ok, fail, least);
      var (a, h1) := h.Receive();
      var rest := set d | d in devices && !Clears(a, d, ok, fail, least);
      WaitAllSkips(h, devices, rest, ok, fail, least);
      forall j | 0 <= j < k - 1 ensures !Decided(h1.arrivals, j, rest, ok, fail, least) {
        assert !Decided(h.arrivals, j + 1, devices, ok, fail, least);
        DecidedTail(h.arrivals, j + 1, devices, rest, ok, fail, least);
      }
      DecidedTail(h.arrivals, k, devices, rest, ok, fail, least);
      WaitAllExact(h1, rest, ok, fail, least, k - 1);
      assert h.arrivals[1..][k - 1..] == h.arrivals[k..];
    }
  }

  /** Somewhere in t from position `from` on, device d reported one of `ok` with at least `least` bytes. */
  predicate Confirmed(t: seq<Event>, from: nat, d: string, ok: set<string>, least: int) {
    exists i :: from <= i < |t| && t[i].Got? && TrimSpace(t[i].status.device) == d
      && t[i].status.status in ok && t[i].status.written >= least
  }

  lemma ConfirmedGrows(t: seq<Event>, t': seq<Event>, from: nat, d: string, ok: set<string>, least: int, lower: int)
    requires t <= t' && lower <= least && Confirmed(t, from, d, ok, least)
    ensures Confirmed(t', from, d, ok, lower)
  {
    var i :| from <= i < |t| && t[i].Got? && TrimSpace(t[i].status.device) == d
      && t[i].status.status in ok && t[i].status.written >= least;
    assert t'[i] == t[i];
  }

  /** A wait that succeeds leaves a confirmation by every device in what was heard since. */
  lemma {:induction false} WaitAllConfirms(h: Host, remaining: set<string>, ok: set<string>, fail: set<string>, least: int)
    requires WaitAll(h, remaining, ok, fail, least).0.Ok?
    ensures forall d :: d in remaining ==>
      Confirmed(WaitAll(h, remaining, ok, fail, least).1.trace, |h.trace|, d, ok, least)
    decreases |h.arrivals|
  {
    if remaining != {} {
      var (a, h1) := h.Receive();
      var device := TrimSpace(a.status.device);
      var rest := if device in remaining && a.status.status in ok && a.status.written >= least
                  then remaining - {device} else remaining;
      WaitAllConfirms(h1, rest, ok, fail, least);
      var t := WaitAll(h1, rest, ok, fail, least).1.trace;
      assert h1.trace <= t && t[|h.trace|] == Got(a.status);
      forall d | d in remaining ensures Confirmed(t, |h.trace|, d, ok, least) {
        if d in rest { assert Confirmed(t, |h1.trace|, d, ok, least); }
      }
    }
  }

  // ---- discoverOTADevices ----------------------------------------------------------------

  const REFUSED: set<string> := {"bad_begin", "begin_failed"}

  ghost function Discover(h: Host, found: set<string>): (r: (Result<seq<string>>, Host))
    ensures After(h, r.1)
    decreases |h.arrivals|
  {
    var (a, h1) := h.Receive();
    match a
    case Expire => (if found == {} then Err(NoStations) else Ok(SortedNames(found)), h1)
    case Arrive(s) =>
      if s.status in REFUSED then (Err(Reported(s)), h1)
      else if s.status == "started" then
        var device := TrimSpace(s.device);
        if device == "" then (Err(StartedWithoutDevice), h1) else Discover(h1, found + {device})
      else Discover(h1, found)
  }

  method DiscoverOTADevices(link: Link) returns (r: Result<seq<string>>)
    modifies link
    ensures (r, link.host) == Discover(old(link.host), {})
  {
    var devices := {};
    while true
      invariant Discover(link.host, devices) == Discover(old(link.host), {})
      decreases |link.host.arrivals|
    {
      var a := link.Receive();
      match a
      case Arrive(status) =>
        if status.status == "bad_begin" || status.status == "begin_failed" {
          return Err(Reported(status));
        }
        if status.status == "started" {
          var device := TrimSpace(status.device);
          if device == "" {
            return Err(StartedWithoutDevice);
          }
          devices := devices + {device};
        }
      case Expire =>
        if |devices| == 0 {
          return Err(NoStations);
        }
        var out := SortedKeys(devices);
        return Ok(out);
    }
  }

  /** A device has turned the session down. */
  predicate Refuses(a: Arrival) {
    a.Arrive? && (a.status.status == "bad_begin" || a.status.status == "begin_failed")
  }

  predicate Joins(a: Arrival) {
    a.Arrive? && a.status.status == "started" && TrimSpace(a.status.device) != ""
  }

  /** The window closes at arrival k: the timer, a refusal, or a station without a name. */
  predicate Closes(arrivals: seq<Arrival>, k: nat) {
    k <= |arrivals| &&
    (|| k == |arrivals|
     || arrivals[k].Expire?
     || Refuses(arrivals[k])
     || (arrivals[k].status.status == "started" && !Joins(arrivals[k])))
  }

  ghost function Joined(arrivals: seq<Arrival>, k: nat): set<string>
    requires k <= |arrivals|
  {
    set i | 0 <= i < k && Joins(arrivals[i]) :: TrimSpace(arrivals[i].status.device)
  }

  lemma JoinedTail(arrivals: seq<Arrival>, k: nat)
    requires 0 < k <= |arrivals|
    ensures Joined(arrivals, k)
         == (if Joins(arrivals[0]) then {TrimSpace(arrivals[0].status.device)} else {}) + Joined(arrivals[1..], k - 1)
  {
    forall n | n in Joined(arrivals, k) && !(Joins(arrivals[0]) && n == TrimSpace(arrivals[0].status.device))
      ensures n in Joined(arrivals[1..], k - 1)
    {
      var i :| 0 <= i < k && Joins(arrivals[i]) && n == TrimSpace(arrivals[i].status.device);
      assert arrivals[1..][i - 1] == arrivals[i];
    }
    forall n | n in Joined(arrivals[1..], k - 1) ensures n in Joined(arrivals, k) {
      var i :| 0 <= i < k - 1 && Joins(arrivals[1..][i]) && n == TrimSpace(arrivals[1..][i].status.device);
      assert arrivals[i + 1] == arrivals[1..][i];
    }
  }

  /** Discovery succeeds exactly when the window closes by the timer with someone in it; it
      then yields the trimmed names of the stations that reported `started` before that and
      no others, each once, in order. */
  lemma {:induction false} DiscoverExact(h: Host, found: set<string>, k: nat)
    requires Closes(h.arrivals, k) && forall j :: 0 <= j < k ==> !Closes(h.arrivals, j)
    ensures var (r, h') := Discover(h, found);
      var names := found + Joined(h.arrivals, k);
      var expired := k == |h.arrivals| || h.arrivals[k].Expire?;
      && (r.Ok? <==> expired && names != {})
      && (r.Ok? ==> SortsTo(names, r.value))
      && (r == Err(NoStations) <==> expired && names == {})
      && (!expired ==> r == Err(if Refuses(h.arrivals[k]) then Reported(h.arrivals[k].status) else StartedWithoutDevice))
      && h'.arrivals == (if k < |h.arrivals| then h.arrivals[k + 1..] else [])
    decreases k
  {
    hide TrimSpace;
    if k == 0 {
      assert found + Joined(h.arrivals, 0) == found;
    } else {
      var arrivals := h.arrivals;
      assert !Closes(arrivals, 0);
      var (a, h1) := h.Receive();
      var found' := if Joins(a) then found + {TrimSpace(a.status.device)} else found;
      forall j | 0 <= j < k - 1 ensures !Closes(h1.arrivals, j) { assert !Closes(arrivals, j + 1); }
      DiscoverExact(h1, found', k - 1);
      JoinedTail(arrivals, k);
      assert found' + Joined(h1.arrivals, k - 1) == found + Joined(arrivals, k);
    }
  }

  /** The names discovery hands on are the ones later waits can recognise: trimming them,
      as the waits trim the sender of a status, changes nothing. */
  lemma {:induction false} DiscoveredNamesMatch(h: Host, found: set<string>)
    requires forall d :: d in found ==> d != "" && TrimSpace(d) == d
    requires Discover(h, found).0.Ok?
    ensures var devices := Discover(h, found).0.value;
      && devices != [] && Ascending(devices)
      && forall d :: d in devices ==> d != "" && TrimSpace(d) == d
    decreases |h.arrivals|
  {
    var (a, h1) := h.Receive();
    if a.Expire? {
      var d :| d in found;
      assert d in SortedNames(found);
    } else if Joins(a) {
      TrimSpaceTrims(a.status.device);
      DiscoveredNamesMatch(h1, found + {TrimSpace(a.status.device)});
    } else {
      DiscoveredNamesMatch(h1, found);
    }
  }
}
