/** Product lookups over MQTT: the subscribe callback with its bounded queue, and the lookup
    workers that drain it (`startProductLookupSubscriber`, `lookupWorker`). */
module LookupQueue {
  import opened GoStrings
  import opened Wrappers
  import opened CatalogStore

  // ---- Topics ------------------------------------------------------------------------------------

  datatype Request = Request(station: string, barcode: string)

  /** What the callback makes of a topic; None if it ignores the message as malformed. */
  function ParseTopic(topic: string): Option<Request> {
    var parts := Split(topic, '/');
    if |parts| != 3 || parts[0] != "product" || parts[1] == "" || parts[2] == "" then None
    else Some(Request(parts[1], parts[2]))
  }

  function ResponseTopic(r: Request): string {
    "product/" + r.station
  }

  predicate IsLevel(s: string) {
    '/' !in s
  }

  /** A lookup is taken from exactly the topics product/station/barcode with both levels there. */
  lemma TopicsExact(topic: string, r: Request)
    ensures ParseTopic(topic) == Some(r) <==>
      && topic == "product" + "/" + (r.station + "/" + r.barcode)
      && r.station != "" && r.barcode != "" && IsLevel(r.station) && IsLevel(r.barcode)
  {
    if ParseTopic(topic) == Some(r) {
      var parts := Split(topic, '/');
      SplitJoins(topic, '/');
      assert parts == ["product", r.station, r.barcode];
      assert parts[1..] == [r.station, r.barcode] && parts[1..][1..] == [r.barcode];
      assert Join([r.station, r.barcode], '/') == r.station + "/" + r.barcode;
      assert Join(parts, '/') == "product" + "/" + Join([r.station, r.barcode], '/');
      assert IsLevel(parts[1]) && IsLevel(parts[2]);
    }
    if IsLevel(r.station) && IsLevel(r.barcode) {
      SplitFirst("product", r.station + "/" + r.barcode, '/');
      SplitFirst(r.station, r.barcode, '/');
      SplitOne(r.barcode, '/');
      assert Split("product" + "/" + (r.station + "/" + r.barcode), '/') == ["product", r.station, r.barcode];
    }
  }

  /** A reply's own topic is never taken for a lookup. */
  lemma RepliesAreNotLookups(topic: string, r: Request)
    requires ParseTopic(topic) == Some(r)
    ensures ParseTopic(ResponseTopic(r)) == None
  {
    TopicsExact(topic, r);
    SplitFirst("product", r.station, '/');
    SplitOne(r.station, '/');
    assert ResponseTopic(r) == "product" + "/" + r.station;
    assert |Split(ResponseTopic(r), '/')| == 2;
  }

  // ---- The queue and its workers -----------------------------------------------------------------

  /** A lookup worker: before and after it has read the database. `taken` and `read` are the numbers
      of imports that had been committed by those moments; `failed` says that the read failed. */
  datatype Worker =
    | Idle
    | Looking(request: Request, taken: nat)
    | Answering(request: Request, taken: nat, read: nat, product: Product, failed: bool)
    | Stopped

  /** How a worker's work on one request ended: an answer that could not be encoded, or one
      that was handed to the broker, whatever became of it there. */
  datatype Ending = NotEncoded | Published(topic: string, product: Product)

  datatype Done = Done(request: Request, taken: nat, read: nat, failed: bool, ending: Ending)

  /** `accepted` and `taken` record the requests put into the queue and taken from it, in order. */
  datatype State = State(
    arrived: nat, malformed: nat, dropped: nat,
    accepted: seq<Request>, taken: seq<Request>, queue: seq<Request>, workers: seq<Worker>, done: seq<Done>)

  function Start(workers: nat): State {
    State(0, 0, 0, [], [], [], seq(workers, _ => Idle), [])
  }

  /** What a worker finds is up to the database; `commits` is the number of imports committed. */
  datatype Action =
    | Deliver(topic: string)
    | Take(worker: nat, commits: nat)
    | Read(worker: nat, committed: Schema, commits: nat, fails: bool)
    | Finish(worker: nat, encodes: bool)
    | Stop(worker: nat)

  /** The product a worker answers with: what the lookup found, or on an error only the barcode. */
  function Found(committed: Schema, barcode: string, fails: bool): Product {
    var found := Lookup(committed, barcode);
    if fails || found.None? then Product("", barcode, "", "", "", "", false) else found.value
  }

  /** normalizeProductResponse, for whatever the diacritics library makes of a text. */
  function Normalize(p: Product, plain: string -> string): Product {
    if p.valid then p.(name := plain(p.name), price := plain(p.price)) else p
  }

  /** What a published answer says, field by field: with the barcode in the catalogue and a read that
      did not fail, that row, name and price made plain; otherwise the barcode alone, not valid. */
  lemma AnswerShows(committed: Schema, barcode: string, fails: bool, plain: string -> string)
    requires "products" in committed.tables
    ensures var table, p := committed.tables["products"], Normalize(Found(committed, barcode, fails), plain);
      if !fails && barcode in table then
        p == Product(name := plain(table[barcode].name), barcode := barcode, price := plain(table[barcode].price),
                     stock := table[barcode].stock, unit := table[barcode].unit, coef := table[barcode].coef, valid := true)
      else p == Product("", barcode, "", "", "", "", false)
  {
  }

  /** The state after an action; None where it is not possible. */
  function Next(s: State, a: Action, plain: string -> string): Option<State> {
    match a
    case Deliver(topic) =>
      var s1 := s.(arrived := s.arrived + 1);
      var r := ParseTopic(topic);
      Some(if r.None? then s1.(malformed := s.malformed + 1)
           else if |s.queue| < 4 * |s.workers| then s1.(queue := s.queue + [r.value], accepted := s.accepted + [r.value])
           else s1.(dropped := s.dropped + 1))
    case Take(w, commits) =>
      if w < |s.workers| && s.workers[w].Idle? && s.queue != [] then
        Some(s.(queue := s.queue[1..], taken := s.taken + [s.queue[0]], workers := s.workers[w := Looking(s.queue[0], commits)]))
      else None
    case Read(w, committed, commits, fails) =>
      if w < |s.workers| && s.workers[w].Looking? then
        var Looking(r, taken) := s.workers[w];
        Some(s.(workers := s.workers[w := Answering(r, taken, commits, Found(committed, r.barcode, fails), fails)]))
      else None
    case Finish(w, encodes) =>
      if w < |s.workers| && s.workers[w].Answering? then
        var Answering(r, taken, read, product, failed) := s.workers[w];
        var ending := if encodes then Published(ResponseTopic(r), Normalize(product, plain)) else NotEncoded;
        Some(s.(workers := s.workers[w := Idle], done := s.done + [Done(r, taken, read, failed, ending)]))
      else None
    case Stop(w) =>
      if w < |s.workers| && s.workers[w].Idle? then Some(s.(workers := s.workers[w := Stopped])) else None
  }

  function Run(workers: nat, schedule: seq<Action>, plain: string -> string): State {
    if schedule == [] then Start(workers)
    else
      var before := Run(workers, schedule[..|schedule| - 1], plain);
      var after := Next(before, schedule[|schedule| - 1], plain);
      if after.Some? then after.value else before
  }

  /** The worker has request r in hand. */
  predicate Has(w: Worker, r: Request) {
    (w.Looking? || w.Answering?) && w.request == r
  }

  /** How many workers have request r in hand. */
  function InHand(workers: seq<Worker>, r: Request): nat {
    if workers == [] then 0
    else InHand(workers[..|workers| - 1], r) + (if Has(workers[|workers| - 1], r) then 1 else 0)
  }

  /** How many times request r has been finished. */
  function Served(done: seq<Done>, r: Request): nat {
    if done == [] then 0 else Served(done[..|done| - 1], r) + (if done[|done| - 1].request == r then 1 else 0)
  }

  /** How many times request r occurs. */
  function Count(requests: seq<Request>, r: Request): nat {
    if requests == [] then 0 else Count(requests[..|requests| - 1], r) + (if requests[|requests| - 1] == r then 1 else 0)
  }

  lemma CountAppend(requests: seq<Request>, q: Request, r: Request)
    ensures Count(requests + [q], r) == Count(requests, r) + (if q == r then 1 else 0)
  {
    assert (requests + [q])[..|requests|] == requests;
  }

  lemma {:induction false} InHandUpdate(workers: seq<Worker>, w: nat, to: Worker, r: Request)
    requires w < |workers|
    ensures InHand(workers[w := to], r) + (if Has(workers[w], r) then 1 else 0)
         == InHand(workers, r) + (if Has(to, r) then 1 else 0)
  {
    var n := |workers| - 1;
    if w < n {
      InHandUpdate(workers[..n], w, to, r);
      assert workers[w := to][..n] == workers[..n][w := to];
    } else {
      assert workers[w := to][..n] == workers[..n];
    }
  }

  /** A request that is taken is in hand, ... */
  lemma TakeCounts(workers: seq<Worker>, w: nat, taken: seq<Request>, q: Request, commits: nat, r: Request)
    requires w < |workers| && workers[w].Idle?
    ensures Count(taken + [q], r) - InHand(workers[w := Looking(q, commits)], r) == Count(taken, r) - InHand(workers, r)
  {
    InHandUpdate(workers, w, Looking(q, commits), r);
    CountAppend(taken, q, r);
  }

  /** ... and one that is out of hand again has been finished. */
  lemma FinishCounts(workers: seq<Worker>, w: nat, done: seq<Done>, d: Done, r: Request)
    requires w < |workers| && workers[w].Answering? && workers[w].request == d.request
    ensures InHand(workers[w := Idle], r) + Served(done + [d], r) == InHand(workers, r) + Served(done, r)
  {
    InHandUpdate(workers, w, Idle, r);
    assert (done + [d])[..|done|] == done;
  }

  /** A finished request was answered on its own station's topic, about its own barcode. */
  predicate Proper(d: Done) {
    d.ending.Published? ==> d.ending.topic == "product/" + d.request.station && d.ending.product.barcode == d.request.barcode
  }

  ghost predicate Inv(s: State, workers: nat, r: Request) {
    && |s.workers| == workers && |s.queue| <= 4 * workers
    && s.arrived == s.malformed + s.dropped + |s.accepted|
    && s.accepted == s.taken + s.queue
    && Count(s.taken, r) == InHand(s.workers, r) + Served(s.done, r)
    && (forall i :: 0 <= i < |s.done| ==> Proper(s.done[i]))
    && (forall w :: 0 <= w < |s.workers| && s.workers[w].Answering? ==> s.workers[w].product.barcode == s.workers[w].request.barcode)
  }

  lemma DeliverKeepsInv(s: State, workers: nat, topic: string, plain: string -> string, r: Request)
    requires Inv(s, workers, r)
    ensures Inv(Next(s, Deliver(topic), plain).value, workers, r)
  {
    var q := ParseTopic(topic);
    if q.Some? { assert s.taken + (s.queue + [q.value]) == s.accepted + [q.value]; }
  }

  lemma TakeKeepsInv(s: State, workers: nat, a: Action, plain: string -> string, r: Request)
    requires Inv(s, workers, r) && a.Take? && Next(s, a, plain).Some?
    ensures Inv(Next(s, a, plain).value, workers, r)
  {
    hide InHand, Count, Lookup, ResponseTopic;
    var q := s.queue[0];
    TakeCounts(s.workers, a.worker, s.taken, q, a.commits, r);
    assert s.taken + s.queue == (s.taken + [q]) + s.queue[1..];
  }

  lemma ReadKeepsInv(s: State, workers: nat, a: Action, plain: string -> string, r: Request)
    requires Inv(s, workers, r) && a.Read? && Next(s, a, plain).Some?
    ensures Inv(Next(s, a, plain).value, workers, r)
  {
    InHandUpdate(s.workers, a.worker, Next(s, a, plain).value.workers[a.worker], r);
  }

  lemma FinishKeepsInv(s: State, workers: nat, a: Action, plain: string -> string, r: Request)
    requires Inv(s, workers, r) && a.Finish? && Next(s, a, plain).Some?
    ensures Inv(Next(s, a, plain).value, workers, r)
  {
    hide InHand, Served, Lookup;
    var d := Next(s, a, plain).value.done[|s.done|];
    FinishCounts(s.workers, a.worker, s.done, d, r);
    assert Proper(d);
  }

  lemma StopKeepsInv(s: State, workers: nat, w: nat, plain: string -> string, r: Request)
    requires Inv(s, workers, r) && Next(s, Stop(w), plain).Some?
    ensures Inv(Next(s, Stop(w), plain).value, workers, r)
  {
    InHandUpdate(s.workers, w, Stopped, r);
  }

  lemma {:induction false} RunKeepsInv(workers: nat, schedule: seq<Action>, plain: string -> string, r: Request)
    ensures Inv(Run(workers, schedule, plain), workers, r)
  {
    if schedule == [] {
      NobodyBusyAtFirst(workers, r);
    } else {
      var n := |schedule| - 1;
      RunKeepsInv(workers, schedule[..n], plain, r);
      var s, a := Run(workers, schedule[..n], plain), schedule[n];
      if Next(s, a, plain).Some? {
        match a
        case Deliver(topic) => DeliverKeepsInv(s, workers, topic, plain, r);
        case Take(_, _) => TakeKeepsInv(s, workers, a, plain, r);
        case Read(_, _, _, _) => ReadKeepsInv(s, workers, a, plain, r);
        case Finish(_, _) => FinishKeepsInv(s, workers, a, plain, r);
        case Stop(w) => StopKeepsInv(s, workers, w, plain, r);
      }
    }
  }

  /** What a message does: one that is not on a lookup topic is ignored; a request is dropped only if
      four others for every worker are waiting, and is otherwise queued behind them. */
  lemma DeliveryExact(s: State, topic: string, plain: string -> string)
    ensures var s' := Next(s, Deliver(topic), plain);
      && s'.Some? && s'.value.arrived == s.arrived + 1
      && s'.value.workers == s.workers && s'.value.done == s.done && s'.value.taken == s.taken
      && (if ParseTopic(topic).None? then
            s'.value == s.(arrived := s.arrived + 1, malformed := s.malformed + 1)
          else if |s.queue| >= 4 * |s.workers| then
            s'.value == s.(arrived := s.arrived + 1, dropped := s.dropped + 1)
          else
            && s'.value.queue == s.queue + [ParseTopic(topic).value]
            && s'.value.accepted == s.accepted + [ParseTopic(topic).value]
            && s'.value.dropped == s.dropped && s'.value.malformed == s.malformed)
  {
  }

  // ---- Every request can be answered -------------------------------------------------------------

  lemma RunOn(workers: nat, schedule: seq<Action>, a: Action, plain: string -> string)
    ensures var s := Run(workers, schedule, plain);
      Run(workers, schedule + [a], plain) == if Next(s, a, plain).Some? then Next(s, a, plain).value else s
  {
    assert (schedule + [a])[..|schedule|] == schedule;
  }

  /** The first n workers have nothing to do. */
  predicate Free(s: State, n: nat) {
    n <= |s.workers| && forall w :: 0 <= w < n ==> s.workers[w].Idle?
  }

  predicate NobodyStopped(s: State) {
    forall w :: 0 <= w < |s.workers| ==> !s.workers[w].Stopped?
  }

  /** From s to s' no message has come in, and no worker has stopped. */
  predicate Onward(s: State, s': State) {
    s'.accepted == s.accepted && |s'.workers| == |s.workers| && (NobodyStopped(s) ==> NobodyStopped(s'))
  }

  /** One worker gets to the end of what it has in hand. */
  lemma FinishOne(workers: nat, schedule: seq<Action>, plain: string -> string, committed: Schema, w: nat) returns (longer: seq<Action>)
    requires var s := Run(workers, schedule, plain); w < |s.workers| && NobodyStopped(s)
    ensures var s, s' := Run(workers, schedule, plain), Run(workers, longer, plain);
      && Onward(s, s') && s'.queue == s.queue
      && s'.workers == s.workers[w := Idle]
  {
    hide Run;
    var s := Run(workers, schedule, plain);
    longer := schedule;
    if s.workers[w].Looking? {
      ReadGoes(s, w, committed, plain);
      RunOn(workers, longer, Read(w, committed, 0, false), plain);
      longer := longer + [Read(w, committed, 0, false)];
    }
    if !s.workers[w].Idle? {
      FinishGoes(Run(workers, longer, plain), w, plain);
      RunOn(workers, longer, Finish(w, true), plain);
      longer := longer + [Finish(w, true)];
    }
    assert s.workers[w := Idle] == Run(workers, longer, plain).workers;
  }

  lemma ReadGoes(s: State, w: nat, committed: Schema, plain: string -> string)
    requires w < |s.workers| && s.workers[w].Looking?
    ensures var s' := Next(s, Read(w, committed, 0, false), plain);
      && s'.Some? && s'.value == s.(workers := s'.value.workers)
      && |s'.value.workers| == |s.workers| && s'.value.workers[w].Answering?
      && forall v :: 0 <= v < |s.workers| && v != w ==> s'.value.workers[v] == s.workers[v]
  {
  }

  lemma FinishGoes(s: State, w: nat, plain: string -> string)
    requires w < |s.workers| && s.workers[w].Answering?
    ensures var s' := Next(s, Finish(w, true), plain);
      && s'.Some? && s'.value == s.(workers := s.workers[w := Idle], done := s'.value.done)
  {
  }

  lemma {:induction false} FinishAll(workers: nat, schedule: seq<Action>, plain: string -> string, committed: Schema, n: nat)
    returns (longer: seq<Action>)
    requires var s := Run(workers, schedule, plain); n <= |s.workers| && NobodyStopped(s)
    ensures var s, s' := Run(workers, schedule, plain), Run(workers, longer, plain);
      Onward(s, s') && s'.queue == s.queue && Free(s', n)
  {
    if n == 0 {
      longer := schedule;
    } else {
      var before := FinishAll(workers, schedule, plain, committed, n - 1);
      longer := FinishOne(workers, before, plain, committed, n - 1);
    }
  }

  lemma {:induction false} ServeQueue(workers: nat, schedule: seq<Action>, plain: string -> string, committed: Schema)
    returns (longer: seq<Action>)
    requires workers > 0
    requires var s := Run(workers, schedule, plain); NobodyStopped(s) && Free(s, workers)
    ensures var s, s' := Run(workers, schedule, plain), Run(workers, longer, plain);
      Onward(s, s') && s'.queue == [] && Free(s', workers)
    decreases |Run(workers, schedule, plain).queue|
  {
    var s := Run(workers, schedule, plain);
    if s.queue == [] {
      longer := schedule;
    } else {
      RunOn(workers, schedule, Take(0, 0), plain);
      var taken := FinishOne(workers, schedule + [Take(0, 0)], plain, committed, 0);
      longer := ServeQueue(workers, taken, plain, committed);
    }
  }

  /** From any point of any run in which no worker has stopped, and without another message coming in,
      things can go on until every request accepted has been finished. */
  lemma EveryRequestCanBeServed(workers: nat, schedule: seq<Action>, plain: string -> string, committed: Schema, r: Request)
    returns (longer: seq<Action>)
    requires workers > 0 && NobodyStopped(Run(workers, schedule, plain))
    ensures var s, s' := Run(workers, schedule, plain), Run(workers, longer, plain);
      s'.accepted == s.accepted && Served(s'.done, r) == Count(s.accepted, r)
  {
    RunKeepsInv(workers, schedule, plain, r);
    var finished := FinishAll(workers, schedule, plain, committed, workers);
    longer := ServeQueue(workers, finished, plain, committed);
    RunKeepsInv(workers, longer, plain, r);
    var s' := Run(workers, longer, plain);
    NobodyHasIt(s'.workers, r);
    assert s'.taken + [] == s'.taken;
  }

  lemma {:induction false} NobodyHasIt(workers: seq<Worker>, r: Request)
    requires forall w :: 0 <= w < |workers| ==> workers[w].Idle?
    ensures InHand(workers, r) == 0
  {
    if workers != [] { NobodyHasIt(workers[..|workers| - 1], r); }
  }

  lemma {:induction false} NobodyBusyAtFirst(n: nat, r: Request)
    ensures InHand(seq(n, _ => Idle), r) == 0
  {
    if n > 0 {
      assert seq(n, _ => Idle)[..n - 1] == seq(n - 1, _ => Idle);
      NobodyBusyAtFirst(n - 1, r);
    }
  }

  /** No message is lost track of and none is served twice: every message was malformed, dropped
      or accepted; what was accepted is, in order, what workers have taken and what is still
      queued; and every request was taken exactly as often as workers have it in hand or have
      finished it. The queue never exceeds four requests a worker. */
  lemma NothingLostNothingTwice(workers: nat, schedule: seq<Action>, plain: string -> string, r: Request)
    ensures var s := Run(workers, schedule, plain);
      && s.arrived == s.malformed + s.dropped + |s.accepted|
      && s.accepted == s.taken + s.queue && |s.queue| <= 4 * workers
      && Count(s.taken, r) == InHand(s.workers, r) + Served(s.done, r)
  {
    RunKeepsInv(workers, schedule, plain, r);
  }

  /** Every reply goes to the station that asked, about the barcode it asked for, whether the
      product was found, was missing, or the lookup failed. */
  lemma RepliesFitRequests(workers: nat, schedule: seq<Action>, plain: string -> string, i: nat)
    requires i < |Run(workers, schedule, plain).done|
    ensures var s := Run(workers, schedule, plain);
      Proper(s.done[i]) && s.done[i].request in s.accepted
  {
    var s := Run(workers, schedule, plain);
    var r := s.done[i].request;
    RunKeepsInv(workers, schedule, plain, r);
    ServedHas(s.done, i);
    CountedIsThere(s.taken, r);
  }

  lemma {:induction false} ServedHas(done: seq<Done>, i: nat)
    requires i < |done|
    ensures Served(done, done[i].request) > 0
  {
    if i < |done| - 1 { ServedHas(done[..|done| - 1], i); }
  }

  lemma {:induction false} CountedIsThere(requests: seq<Request>, r: Request)
    requires Count(requests, r) > 0
    ensures r in requests
  {
    if requests[|requests| - 1] != r { CountedIsThere(requests[..|requests| - 1], r); }
  }
}
