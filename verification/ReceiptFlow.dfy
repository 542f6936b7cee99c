/** The receipt proxy as a process: receipts on their way from the socket through two bounded
    channels to the printer, and how a restart or a shutdown cuts that way short
    (`runSocketListener`, the loop of `main`, `runPrinter`). */
module ReceiptFlow {
  import opened Wrappers
  import opened GoStrings
  import opened QrProxy

  const INBOX := 16  // receiptCh
  const QUEUE := 8   // printerCh

  datatype Ending = Running | Restarted | ShutDown

  /** `coming` are the receipts yet to be read from connections, `inbox` and `queue` the two
      channels, `current` what main still has to do for the receipt in hand, `printing` the text
      at the printer. `accepted`, `taken`, `done` and `relayed` record what has come how far. */
  datatype Flow = Flow(
    coming: seq<string>, accepted: seq<string>, inbox: seq<string>, taken: seq<string>,
    done: seq<Effect>, current: seq<Effect>, queue: seq<string>, printing: Option<string>, relayed: seq<string>,
    contextDone: bool, printerGone: bool, ending: Ending)

  function Start(receipts: seq<string>): Flow {
    Flow(receipts, [], [], [], [], [], [], None, [], false, false, Running)
  }

  datatype Mover =
    | Listen   // the listener puts a receipt into receiptCh
    | Signal   // SIGINT or SIGTERM: the context is done
    | Take     // main takes a receipt
    | Act      // main does the next thing for it
    | Leave    // main sees that the context is done and returns: the process ends
    | Fetch    // the printer goroutine takes a text
    | Relay    // the printer goroutine is done with it
    | Quit     // the printer goroutine sees that the context is done and returns

  /** What main does next for the receipt in hand. A full channel blocks it. */
  function ActStep(f: Flow): Option<Flow>
    requires f.current != []
  {
    var e := f.current[0];
    var f1 := f.(done := f.done + [e], current := f.current[1..]);
    match e
    case Print(text) => if |f.queue| < QUEUE then Some(f1.(queue := f.queue + [text])) else None
    case Publish(_, _, _) => Some(f1)
    case Exit => Some(f1.(ending := Restarted))
  }

  /** The state after a move; None where it is not possible. */
  function Move(f: Flow, who: Mover): Option<Flow> {
    if !f.ending.Running? then None
    else match who
      case Listen =>
        if f.coming != [] && |f.inbox| < INBOX
        then Some(f.(coming := f.coming[1..], accepted := f.accepted + [f.coming[0]], inbox := f.inbox + [f.coming[0]])) else None
      case Signal => if f.contextDone then None else Some(f.(contextDone := true))
      case Take =>
        if f.current == [] && f.inbox != []
        then Some(f.(inbox := f.inbox[1..], taken := f.taken + [f.inbox[0]], current := Handle(f.inbox[0]))) else None
      case Act => if f.current == [] then None else ActStep(f)
      case Leave => if f.current == [] && f.contextDone then Some(f.(ending := ShutDown)) else None
      case Fetch =>
        if !f.printerGone && f.printing.None? && f.queue != []
        then Some(f.(printing := Some(f.queue[0]), queue := f.queue[1..])) else None
      case Relay => if f.printing.Some? then Some(f.(printing := None, relayed := f.relayed + [f.printing.value])) else None
      case Quit => if !f.printerGone && f.printing.None? && f.contextDone then Some(f.(printerGone := true)) else None
  }

  function Run(receipts: seq<string>, schedule: seq<Mover>): Flow {
    if schedule == [] then Start(receipts)
    else
      var before := Run(receipts, schedule[..|schedule| - 1]);
      var after := Move(before, schedule[|schedule| - 1]);
      if after.Some? then after.value else before
  }

  // ---- What every run keeps ------------------------------------------------------------------------

  /** All that main does for the receipts, if nothing stops it. */
  function HandleAll(receipts: seq<string>): seq<Effect> {
    if receipts == [] then [] else HandleAll(receipts[..|receipts| - 1]) + Handle(receipts[|receipts| - 1])
  }

  lemma {:induction false} HandleAllPrints(receipts: seq<string>)
    ensures Printouts(HandleAll(receipts)) == Stripped(receipts)
  {
    if receipts != [] {
      var n := |receipts| - 1;
      HandleAllPrints(receipts[..n]);
      HandlePrints(receipts[n]);
      PrintoutsAppend(HandleAll(receipts[..n]), Handle(receipts[n]));
    }
  }

  /** What main has handed over and the printer is not done with. */
  function Waiting(f: Flow): seq<string> {
    Behind(f.printing, f.queue)
  }

  function Behind(printing: Option<string>, queue: seq<string>): seq<string> {
    if printing.Some? then [printing.value] + queue else queue
  }

  /** Where the receipts are, in front of main, ... */
  ghost predicate ReceiptsKept(f: Flow, receipts: seq<string>) {
    f.accepted + f.coming == receipts && f.taken + f.inbox == f.accepted
  }

  /** ... with main, ... */
  ghost predicate WorkKept(f: Flow) {
    f.done + f.current == HandleAll(f.taken)
  }

  /** ... and behind it. */
  ghost predicate PrintsKept(f: Flow) {
    Printouts(f.done) == f.relayed + Waiting(f)
  }

  /** How the three goroutines stand. */
  ghost predicate ProcessKept(f: Flow) {
    && |f.inbox| <= INBOX && |f.queue| <= QUEUE
    && (Exit in f.done <==> f.ending.Restarted?)
    && (Exit in f.current ==> f.current == [Exit])
    && (!f.ending.Running? ==> f.current == [])
    && (f.ending.ShutDown? || f.printerGone ==> f.contextDone)
    && (f.printerGone ==> f.printing.None?)
  }

  ghost predicate Kept(f: Flow, receipts: seq<string>) {
    ReceiptsKept(f, receipts) && WorkKept(f) && PrintsKept(f) && ProcessKept(f)
  }

  lemma MoveKeepsReceipts(f: Flow, receipts: seq<string>, who: Mover)
    requires ReceiptsKept(f, receipts) && Move(f, who).Some?
    ensures ReceiptsKept(Move(f, who).value, receipts)
  {
    match who
    case Listen =>
      assert f.accepted + f.coming == (f.accepted + [f.coming[0]]) + f.coming[1..];
      Regroup(f.taken, f.inbox, [f.coming[0]]);
    case Take =>
      assert f.taken + f.inbox == (f.taken + [f.inbox[0]]) + f.inbox[1..];
    case _ =>
  }

  lemma EffectMoves(done: seq<Effect>, todo: seq<Effect>)
    requires todo != []
    ensures done + todo == (done + [todo[0]]) + todo[1..]
    ensures Printouts(done + [todo[0]]) == Printouts(done) + (if todo[0].Print? then [todo[0].text] else [])
  {
    PrintoutsAppend(done, [todo[0]]);
  }

  lemma HandleAllLast(taken: seq<string>, raw: string)
    ensures HandleAll(taken + [raw]) == HandleAll(taken) + Handle(raw)
  {
    assert (taken + [raw])[..|taken|] == taken;
  }

  lemma MoveKeepsWork(f: Flow, who: Mover)
    requires WorkKept(f) && Move(f, who).Some?
    ensures WorkKept(Move(f, who).value)
  {
    match who
    case Take =>
      HandleAllLast(f.taken, f.inbox[0]);
      assert f.done + [] == f.done;
    case Act => EffectMoves(f.done, f.current);
    case _ =>
  }

  lemma BehindGrows(relayed: seq<string>, printing: Option<string>, queue: seq<string>, text: string)
    ensures relayed + Behind(printing, queue) + [text] == relayed + Behind(printing, queue + [text])
  {
  }

  lemma BehindMoves(relayed: seq<string>, queue: seq<string>, text: string)
    ensures relayed + Behind(Some(text), queue) == (relayed + [text]) + Behind(None, queue)
    ensures queue != [] ==> Behind(Some(queue[0]), queue[1..]) == Behind(None, queue)
  {
  }

  lemma ActKeepsPrints(f: Flow)
    requires PrintsKept(f) && Move(f, Act).Some?
    ensures PrintsKept(Move(f, Act).value)
  {
    hide Handle;
    EffectMoves(f.done, f.current);
    if f.current[0].Print? {
      BehindGrows(f.relayed, f.printing, f.queue, f.current[0].text);
    } else {
      assert Printouts(f.done) + [] == Printouts(f.done);
    }
  }

  lemma MoveKeepsPrints(f: Flow, who: Mover)
    requires PrintsKept(f) && Move(f, who).Some?
    ensures PrintsKept(Move(f, who).value)
  {
    match who
    case Act => ActKeepsPrints(f);
    case Fetch => BehindMoves(f.relayed, f.queue, "");
    case Relay => BehindMoves(f.relayed, f.queue, f.printing.value);
    case _ =>
  }

  lemma ExitAlone(raw: string)
    ensures Exit in Handle(raw) ==> Handle(raw) == [Exit]
    ensures Exit in Handle(raw) <==> IsRestart(raw)
  {
  }

  lemma ExitMoves(done: seq<Effect>, current: seq<Effect>)
    requires current != []
    ensures Exit in done + [current[0]] <==> Exit in done || current[0] == Exit
    ensures Exit in current[1..] ==> Exit in current
    ensures current == [Exit] ==> current[1..] == []
  {
  }

  lemma MoveKeepsProcess(f: Flow, who: Mover)
    requires ProcessKept(f) && Move(f, who).Some?
    ensures ProcessKept(Move(f, who).value)
  {
    match who
    case Take => ExitAlone(f.inbox[0]);
    case Act =>
      assert Exit == f.current[0] ==> Exit in f.current;
      ExitMoves(f.done, f.current);
    case _ =>
  }

  lemma MoveKeeps(f: Flow, receipts: seq<string>, who: Mover)
    requires Kept(f, receipts) && Move(f, who).Some?
    ensures Kept(Move(f, who).value, receipts)
  {
    MoveKeepsReceipts(f, receipts, who);
    MoveKeepsWork(f, who);
    MoveKeepsPrints(f, who);
    MoveKeepsProcess(f, who);
  }

  lemma {:induction false} RunKeeps(receipts: seq<string>, schedule: seq<Mover>)
    ensures Kept(Run(receipts, schedule), receipts)
  {
    if schedule != [] {
      var n := |schedule| - 1;
      RunKeeps(receipts, schedule[..n]);
      var before := Run(receipts, schedule[..n]);
      if Move(before, schedule[n]).Some? { MoveKeeps(before, receipts, schedule[n]); }
    }
  }

  /** No receipt but the last is a restart. */
  predicate RestartOnlyLast(receipts: seq<string>) {
    forall i :: 0 <= i < |receipts| - 1 ==> !IsRestart(receipts[i])
  }

  lemma MoveKeepsRestartLast(f: Flow, who: Mover)
    requires WorkKept(f) && ProcessKept(f) && RestartOnlyLast(f.taken) && Move(f, who).Some?
    ensures RestartOnlyLast(Move(f, who).value.taken)
  {
    OnlyTakeTakes(f, who);
    if who.Take? { NoneTakenYet(f); }
  }

  /** Nothing is taken after a restart. */
  lemma {:induction false} RestartIsLast(receipts: seq<string>, schedule: seq<Mover>)
    ensures RestartOnlyLast(Run(receipts, schedule).taken)
  {
    if schedule != [] {
      hide RestartOnlyLast, WorkKept, ProcessKept;
      var n := |schedule| - 1;
      RestartIsLast(receipts, schedule[..n]);
      RunKeeps(receipts, schedule[..n]);
      var before := Run(receipts, schedule[..n]);
      if Move(before, schedule[n]).Some? { MoveKeepsRestartLast(before, schedule[n]); }
    }
  }

  lemma OnlyTakeTakes(f: Flow, who: Mover)
    requires Move(f, who).Some?
    ensures Move(f, who).value.taken == if who.Take? then f.taken + [f.inbox[0]] else f.taken
  {
  }

  lemma NoneTakenYet(f: Flow)
    requires WorkKept(f) && ProcessKept(f) && Move(f, Take).Some?
    ensures forall i :: 0 <= i < |f.taken| ==> !IsRestart(f.taken[i])
  {
    hide IsRestart, Handle;
    assert f.done + [] == f.done;
    forall i | 0 <= i < |f.taken| && IsRestart(f.taken[i]) ensures false { RestartExits(f.taken, i); }
  }

  lemma {:induction false} HandleAllIsServe(receipts: seq<string>)
    requires RestartOnlyLast(receipts)
    ensures HandleAll(receipts) == Serve(receipts)
  {
    if receipts != [] {
      var n := |receipts| - 1;
      HandleAllIsServe(receipts[..n]);
      NoneServedAway(receipts, n);
      ServedInPlace(receipts, n);
      ExitAlone(receipts[n]);
      hide IsRestart, Handle;
      assert receipts[n..] == [receipts[n]] && receipts[n..][1..] == [];
      assert Handle(receipts[n]) + [] == Handle(receipts[n]);
    }
  }

  lemma {:induction false} NoneServedAway(receipts: seq<string>, n: nat)
    requires n <= |receipts| && forall i :: 0 <= i < n ==> !IsRestart(receipts[i])
    ensures n <= Served(receipts)
  {
    hide IsRestart;
    if n > 0 {
      assert forall i :: 0 <= i < n - 1 ==> receipts[1..][i] == receipts[i + 1];
      NoneServedAway(receipts[1..], n - 1);
    }
  }

  // ---- What is lost -------------------------------------------------------------------------------

  /** In every interleaving: main does for the receipts it has taken what they ask for, in order, up to
      a restart, payments included; and what the printer is done with is, in order, what was to be printed of the
      receipts accepted, except what is still on its way — at most nine texts behind main, the
      receipt in hand, and at most sixteen receipts in front of it. When a restart or a shutdown
      has ended the process, that is what is lost, and there is no receipt in hand. */
  lemma LostOnTheWay(receipts: seq<string>, schedule: seq<Mover>)
    ensures var f := Run(receipts, schedule);
      && f.taken + f.inbox == f.accepted <= receipts
      && f.done + f.current == Serve(f.taken) && Printouts(f.done) == f.relayed + Waiting(f)
      && Stripped(f.accepted) == f.relayed + Waiting(f) + Printouts(f.current) + Stripped(f.inbox)
      && |Waiting(f)| <= 9 && |f.inbox| <= 16
      && (!f.ending.Running? ==> f.current == [])
      && (f.ending.Restarted? <==> Exit in f.done)
      && (f.ending.ShutDown? ==> f.contextDone)
  {
    RunKeeps(receipts, schedule);
    var f := Run(receipts, schedule);
    HandleAllPrints(f.taken);
    RestartIsLast(receipts, schedule);
    HandleAllIsServe(f.taken);
    PrintoutsAppend(f.done, f.current);
    StrippedAppend(f.taken, f.inbox);
  }

  /** Nobody can move, except that a signal may still come, and that a listener whose context is
      done may or may not go on. */
  ghost predicate Still(f: Flow) {
    forall who: Mover :: who != Signal && (who.Listen? ==> !f.contextDone) ==> Move(f, who).None?
  }

  /** Main is blocked on a full queue that nobody empties any more. */
  predicate Hung(f: Flow) {
    && f.ending.Running? && f.contextDone && f.printerGone
    && |f.queue| == QUEUE && f.current != [] && f.current[0].Print?
  }

  /** Before any signal the process comes to rest only when everything has been printed. */
  lemma NothingLostBefore(f: Flow)
    requires ProcessKept(f) && f.ending.Running? && !f.contextDone
    requires Move(f, Listen).None? && Move(f, Take).None? && Move(f, Act).None? && Move(f, Fetch).None? && Move(f, Relay).None?
    ensures f.coming == [] && f.inbox == [] && f.current == [] && f.queue == [] && f.printing.None?
  {
    assert f.printing.None?;
    assert f.queue == [];
    assert f.current == [];
  }

  /** After one it comes to rest only by hanging. */
  lemma RestIsHanging(f: Flow)
    requires ProcessKept(f) && f.ending.Running? && f.contextDone
    requires Move(f, Act).None? && Move(f, Leave).None? && Move(f, Fetch).None? && Move(f, Relay).None? && Move(f, Quit).None?
    ensures Hung(f)
  {
    assert f.current != [];
    assert f.printing.None?;
    assert f.printerGone;
    assert f.current[0].Print? && |f.queue| >= QUEUE;
  }

  /** However it came about, when nobody can move: without restart and signal everything has been done
      for every receipt, and every text printed; a restart or a shutdown has ended the process; or a shutdown hangs, because the
      printer goroutine has left before main was rid of its last text. */
  lemma AtRest(receipts: seq<string>, schedule: seq<Mover>)
    requires Still(Run(receipts, schedule))
    ensures var f := Run(receipts, schedule);
      && (f.ending.Running? && !f.contextDone ==> f.relayed == Stripped(receipts) && f.done == Serve(receipts))
      && (f.ending.Running? && f.contextDone ==> Hung(f))
  {
    var f := Run(receipts, schedule);
    RunKeeps(receipts, schedule);
    LostOnTheWay(receipts, schedule);
    if f.ending.Running? {
      if f.contextDone {
        RestIsHanging(f);
      } else {
        NothingLostBefore(f);
        assert f.accepted == receipts;
        assert f.taken + [] == f.taken && f.done + [] == f.done;
        assert f.relayed + [] + [] + [] == f.relayed;
      }
    }
  }

  /** A process that hangs hangs for good. */
  lemma HungStays(f: Flow, who: Mover)
    requires ProcessKept(f) && Hung(f)
    ensures Move(f, who).Some? ==> who == Listen && Hung(Move(f, who).value)
  {
  }

  // ---- It always comes to rest --------------------------------------------------------------------

  function EffectWeight(effects: seq<Effect>): nat {
    if effects == [] then 0 else EffectWeight(effects[1..]) + (if effects[0].Print? then 3 else 1)
  }

  /** How many moves are left at most. */
  function Left(f: Flow): nat {
    8 * |f.coming| + 7 * |f.inbox| + EffectWeight(f.current) + 2 * |f.queue| + (if f.printing.Some? then 1 else 0)
    + (if f.contextDone then 0 else 1) + (if f.printerGone then 0 else 1) + (if f.ending.Running? then 1 else 0)
  }

  lemma HandleWeight(raw: string)
    ensures EffectWeight(Handle(raw)) <= 4
  {
    var c := Parse(raw);
    PublishWeight(c.arg, BANK_POLL);
    PublishWeight(c.arg, NONE);
    assert ([Print(c.stripped)] + PublishPayment(c.arg, NONE))[1..] == PublishPayment(c.arg, NONE);
  }

  lemma PublishWeight(arg: string, confirmation: string)
    ensures EffectWeight(PublishPayment(arg, confirmation)) <= 1
  {
  }

  /** Every move uses one up. */
  lemma MovesRunOut(f: Flow, who: Mover)
    requires Move(f, who).Some?
    ensures Left(Move(f, who).value) < Left(f)
  {
    if who.Take? { HandleWeight(f.inbox[0]); }
  }

  // ---- Runs in which receipts are lost ---------------------------------------------------------------

  lemma RunOn(receipts: seq<string>, schedule: seq<Mover>, who: Mover)
    ensures var f := Run(receipts, schedule);
      Run(receipts, schedule + [who]) == if Move(f, who).Some? then Move(f, who).value else f
  {
    assert (schedule + [who])[..|schedule|] == schedule;
  }

  /** From f to f' only main has moved, and the listener for it. */
  predicate Beside(f: Flow, f': Flow) {
    f'.printing == f.printing && f'.relayed == f.relayed && f'.contextDone == f.contextDone && f'.printerGone == f.printerGone
  }

  /** Main is at its select, with nothing to take. */
  predicate Idle(f: Flow) {
    f.ending.Running? && f.current == [] && f.inbox == []
  }

  lemma ActOnce(f: Flow)
    requires f.ending.Running? && f.current != [] && Exit !in f.current && |f.queue| + |Printouts(f.current)| <= QUEUE
    ensures Move(f, Act).Some?
    ensures var f' := Move(f, Act).value;
      && f'.ending.Running? && f'.current == f.current[1..] && Exit !in f'.current
      && f'.queue + Printouts(f'.current) == f.queue + Printouts(f.current)
      && f'.coming == f.coming && f'.accepted == f.accepted && f'.inbox == f.inbox && Beside(f, f')
  {
    hide Handle;
    if f.current[0].Print? { Regroup(f.queue, [f.current[0].text], Printouts(f.current[1..])); }
  }

  lemma {:induction false} ActAll(receipts: seq<string>, schedule: seq<Mover>) returns (longer: seq<Mover>)
    requires var f := Run(receipts, schedule);
      f.ending.Running? && Exit !in f.current && |f.queue| + |Printouts(f.current)| <= QUEUE
    ensures var f, f' := Run(receipts, schedule), Run(receipts, longer);
      && f'.ending.Running? && f'.current == [] && f'.queue == f.queue + Printouts(f.current)
      && f'.coming == f.coming && f'.accepted == f.accepted && f'.inbox == f.inbox && Beside(f, f')
    decreases |Run(receipts, schedule).current|
  {
    var f := Run(receipts, schedule);
    if f.current == [] {
      longer := schedule;
      assert f.queue + [] == f.queue;
    } else {
      ActOnce(f);
      RunOn(receipts, schedule, Act);
      longer := ActAll(receipts, schedule + [Act]);
    }
  }

  /** Main takes the next receipt that comes. */
  lemma TakeNext(f: Flow)
    requires Idle(f) && f.coming != []
    ensures Move(f, Listen).Some? && Move(Move(f, Listen).value, Take).Some?
    ensures var f' := Move(Move(f, Listen).value, Take).value;
      f' == f.(coming := f.coming[1..], accepted := f.accepted + [f.coming[0]],
               taken := f.taken + [f.coming[0]], current := Handle(f.coming[0]))
  {
    assert (f.inbox + [f.coming[0]])[1..] == [];
  }

  /** Main has worked off n of the receipts that were to come. */
  predicate Advanced(f: Flow, f': Flow, n: nat)
    requires n <= |f.coming|
  {
    && Idle(f') && f'.queue == f.queue + Stripped(f.coming[..n])
    && f'.coming == f.coming[n..] && f'.accepted == f.accepted + f.coming[..n] && Beside(f, f')
  }

  lemma OneReceipt(receipts: seq<string>, schedule: seq<Mover>) returns (longer: seq<Mover>)
    requires var f := Run(receipts, schedule);
      Idle(f) && f.coming != [] && !IsRestart(f.coming[0]) && |f.queue| + |Wanted(f.coming[0])| <= QUEUE
    ensures Advanced(Run(receipts, schedule), Run(receipts, longer), 1)
  {
    var f := Run(receipts, schedule);
    TakeNext(f);
    RunOn(receipts, schedule, Listen);
    RunOn(receipts, schedule + [Listen], Take);
    HandlePrints(f.coming[0]);
    ExitAlone(f.coming[0]);
    longer := ActAll(receipts, schedule + [Listen] + [Take]);
    assert f.coming[..1] == [f.coming[0]];
    StrippedOne(f.coming[0]);
  }

  lemma AdvanceOne(f: Flow, f1: Flow, f2: Flow, n: nat)
    requires n < |f.coming| && Advanced(f, f1, n) && Advanced(f1, f2, 1)
    ensures Advanced(f, f2, n + 1)
  {
    assert f.coming[n..][..1] == [f.coming[n]] && f.coming[n..][1..] == f.coming[n + 1..];
    assert f.coming[..n + 1] == f.coming[..n] + [f.coming[n]];
    StrippedAppend(f.coming[..n], [f.coming[n]]);
    Regroup(f.queue, Stripped(f.coming[..n]), Stripped([f.coming[n]]));
    Regroup(f.accepted, f.coming[..n], [f.coming[n]]);
  }

  lemma RoomForNext(f: Flow, f1: Flow, n: nat)
    requires n < |f.coming| && Advanced(f, f1, n) && |f.queue| + |Stripped(f.coming[..n + 1])| <= QUEUE
    ensures f1.coming != [] && f1.coming[0] == f.coming[n]
    ensures |f1.queue| + |Wanted(f1.coming[0])| <= QUEUE
  {
    StrippedLast(f.coming, n);
  }

  /** Main works off n receipts while the printer does nothing. */
  lemma {:induction false} MainAlone(receipts: seq<string>, schedule: seq<Mover>, n: nat) returns (longer: seq<Mover>)
    requires var f := Run(receipts, schedule);
      && Idle(f) && n <= |f.coming| && |f.queue| + |Stripped(f.coming[..n])| <= QUEUE
      && forall i :: 0 <= i < n ==> !IsRestart(f.coming[i])
    ensures Advanced(Run(receipts, schedule), Run(receipts, longer), n)
  {
    hide Wanted, IsRestart;
    var f := Run(receipts, schedule);
    if n == 0 {
      longer := schedule;
      assert f.queue + [] == f.queue && f.accepted + [] == f.accepted;
    } else {
      StrippedLast(f.coming, n - 1);
      var before := MainAlone(receipts, schedule, n - 1);
      var f1 := Run(receipts, before);
      RoomForNext(f, f1, n - 1);
      longer := OneReceipt(receipts, before);
      AdvanceOne(f, f1, Run(receipts, longer), n - 1);
    }
  }

  lemma StrippedLast(receipts: seq<string>, n: nat)
    requires n < |receipts|
    ensures Stripped(receipts[..n + 1]) == Stripped(receipts[..n]) + Wanted(receipts[n])
  {
    assert receipts[..n + 1][..n] == receipts[..n];
  }

  /** The listener fills the inbox. */
  lemma {:induction false} ListenMany(receipts: seq<string>, schedule: seq<Mover>, n: nat) returns (longer: seq<Mover>)
    requires var f := Run(receipts, schedule); f.ending.Running? && n <= |f.coming| && |f.inbox| + n <= INBOX
    ensures var f := Run(receipts, schedule);
      Run(receipts, longer) == f.(coming := f.coming[n..], accepted := f.accepted + f.coming[..n], inbox := f.inbox + f.coming[..n])
  {
    var f := Run(receipts, schedule);
    if n == 0 {
      longer := schedule;
      assert f.accepted + [] == f.accepted && f.inbox + [] == f.inbox;
    } else {
      var before := ListenMany(receipts, schedule, n - 1);
      RunOn(receipts, before, Listen);
      longer := before + [Listen];
      assert f.coming[..n] == f.coming[..n - 1] + [f.coming[n - 1]];
      Regroup(f.accepted, f.coming[..n - 1], [f.coming[n - 1]]);
      Regroup(f.inbox, f.coming[..n - 1], [f.coming[n - 1]]);
    }
  }

  lemma ServedGoOn(receipts: seq<string>)
    ensures forall i :: 0 <= i < Served(receipts) ==> !IsRestart(receipts[i])
    ensures Served(receipts) < |receipts| ==> IsRestart(receipts[Served(receipts)])
  {
    hide IsRestart;
    if receipts != [] && !IsRestart(receipts[0]) {
      ServedGoOn(receipts[1..]);
      forall i | 0 < i < Served(receipts) ensures !IsRestart(receipts[i]) {
        assert receipts[1..][i - 1] == receipts[i];
      }
    }
  }

  lemma WorkedOff(receipts: seq<string>, n: nat) returns (schedule: seq<Mover>)
    requires n <= Served(receipts) && |Stripped(receipts[..n])| <= QUEUE
    ensures var f := Run(receipts, schedule);
      && Idle(f) && f.queue == Stripped(receipts[..n]) && f.coming == receipts[n..] && f.accepted == receipts[..n]
      && f.relayed == [] && !f.contextDone && !f.printerGone
  {
    ServedGoOn(receipts);
    schedule := MainAlone(receipts, [], n);
    assert [] + Stripped(receipts[..n]) == Stripped(receipts[..n]) && [] + receipts[..n] == receipts[..n];
  }

  /** A shutdown may lose them all: those in the printer's queue, and up to sixteen that main has not
      even looked at. */
  lemma ShutdownMayLoseAll(receipts: seq<string>, n: nat, more: nat) returns (schedule: seq<Mover>)
    requires n <= Served(receipts) && |Stripped(receipts[..n])| <= 8 && more <= 16 && n + more <= |receipts|
    ensures var f := Run(receipts, schedule);
      f.ending.ShutDown? && f.accepted == receipts[..n + more] && f.relayed == []
  {
    hide Stripped, Handle, IsRestart;
    var worked := WorkedOff(receipts, n);
    var filled := ListenMany(receipts, worked, more);
    RunOn(receipts, filled, Signal);
    RunOn(receipts, filled + [Signal], Leave);
    schedule := filled + [Signal] + [Leave];
    assert receipts[..n] + receipts[n..][..more] == receipts[..n + more];
  }

  lemma ExitEnds(f: Flow)
    requires f.ending.Running? && f.current == [Exit]
    ensures Move(f, Act).Some?
    ensures var f' := Move(f, Act).value; f'.ending.Restarted? && f'.accepted == f.accepted && f'.relayed == f.relayed
  {
  }

  /** Main takes a restart, and before it acts on it the inbox fills up. */
  lemma RestartRun(receipts: seq<string>, schedule: seq<Mover>, more: nat) returns (longer: seq<Mover>)
    requires var f := Run(receipts, schedule);
      Idle(f) && f.coming != [] && IsRestart(f.coming[0]) && 1 + more <= |f.coming| && more <= INBOX
    ensures var f, f' := Run(receipts, schedule), Run(receipts, longer);
      f'.ending.Restarted? && f'.relayed == f.relayed && f'.accepted == f.accepted + f.coming[..1 + more]
  {
    hide Handle, IsRestart;
    var f := Run(receipts, schedule);
    TakeNext(f);
    RunOn(receipts, schedule, Listen);
    RunOn(receipts, schedule + [Listen], Take);
    ExitAlone(f.coming[0]);
    var filled := ListenMany(receipts, schedule + [Listen] + [Take], more);
    ExitEnds(Run(receipts, filled));
    RunOn(receipts, filled, Act);
    longer := filled + [Act];
    assert f.coming[..1 + more] == [f.coming[0]] + f.coming[1..][..more];
    Regroup(f.accepted, [f.coming[0]], f.coming[1..][..more]);
  }

  lemma NextIsRestart(receipts: seq<string>, n: nat)
    requires n < |receipts| && n == Served(receipts)
    ensures receipts[n..] != [] && IsRestart(receipts[n..][0])
  {
    ServedGoOn(receipts);
  }

  /** So may a restart, if it is receipt n. */
  lemma RestartMayLoseAll(receipts: seq<string>, n: nat, more: nat) returns (schedule: seq<Mover>)
    requires n + 1 + more <= |receipts| && more <= 16 && n == Served(receipts) && |Stripped(receipts[..n])| <= 8
    ensures var f := Run(receipts, schedule);
      f.ending.Restarted? && f.accepted == receipts[..n + 1 + more] && f.relayed == []
  {
    hide IsRestart, Stripped, Handle;
    NextIsRestart(receipts, n);
    var worked := WorkedOff(receipts, n);
    schedule := RestartRun(receipts, worked, more);
    TwoSlices(receipts, n, 1 + more);
  }

  lemma TwoSlices(receipts: seq<string>, n: nat, m: nat)
    requires n + m <= |receipts|
    ensures receipts[..n] + receipts[n..][..m] == receipts[..n + m]
  {
  }

  // ---- When a shutdown can hang ----------------------------------------------------------------------

  lemma HungNeedsNine(receipts: seq<string>, schedule: seq<Mover>)
    requires Hung(Run(receipts, schedule))
    ensures |Stripped(receipts[..Served(receipts)])| > QUEUE
  {
    RunKeeps(receipts, schedule);
    var f := Run(receipts, schedule);
    HungHasNine(f);
    NoRestartYet(f);
    assert f.taken <= f.accepted <= receipts;
    NoneServedAway(receipts, |f.taken|);
    MoreToPrint(f.taken, receipts[..Served(receipts)]);
  }

  lemma HungHasNine(f: Flow)
    requires WorkKept(f) && PrintsKept(f) && Hung(f)
    ensures |Stripped(f.taken)| > QUEUE
  {
    hide Handle, Wanted;
    HandleAllPrints(f.taken);
    PrintoutsAppend(f.done, f.current);
    assert |Printouts(f.current)| > 0;
  }

  lemma MoreToPrint(taken: seq<string>, receipts: seq<string>)
    requires taken <= receipts
    ensures |Stripped(taken)| <= |Stripped(receipts)|
  {
    assert receipts == taken + receipts[|taken|..];
    StrippedAppend(taken, receipts[|taken|..]);
  }

  lemma NoRestartYet(f: Flow)
    requires WorkKept(f) && ProcessKept(f) && Hung(f)
    ensures forall i :: 0 <= i < |f.taken| ==> !IsRestart(f.taken[i])
  {
    assert Exit !in f.done && Exit !in f.current;
    assert Exit !in f.done + f.current;
    forall i | 0 <= i < |f.taken| && IsRestart(f.taken[i]) ensures false {
      RestartExits(f.taken, i);
    }
  }

  lemma {:induction false} RestartExits(receipts: seq<string>, i: nat)
    requires i < |receipts| && IsRestart(receipts[i])
    ensures Exit in HandleAll(receipts)
  {
    var n := |receipts| - 1;
    if i == n {
      ExitAlone(receipts[n]);
    } else {
      RestartExits(receipts[..n], i);
    }
  }

  /** Among receipts that want more than eight texts printed there is one that wants the ninth. */
  lemma {:induction false} TheNinth(receipts: seq<string>) returns (k: nat)
    requires |Stripped(receipts)| > QUEUE
    ensures k < |receipts| && |Stripped(receipts[..k])| == QUEUE && Wanted(receipts[k]) != []
  {
    var n := |receipts| - 1;
    if |Stripped(receipts[..n])| > QUEUE {
      k := TheNinth(receipts[..n]);
      assert receipts[..n][..k] == receipts[..k];
    } else {
      k := n;
    }
  }

  lemma HangingRun(receipts: seq<string>) returns (schedule: seq<Mover>)
    requires |Stripped(receipts[..Served(receipts)])| > QUEUE
    ensures Hung(Run(receipts, schedule))
  {
    hide Handle, IsRestart, Wanted;
    ServedGoOn(receipts);
    var k := TheNinth(receipts[..Served(receipts)]);
    assert receipts[..Served(receipts)][..k] == receipts[..k];
    RunOn(receipts, [], Signal);
    RunOn(receipts, [] + [Signal], Quit);
    var worked := MainAlone(receipts, [] + [Signal] + [Quit], k);
    TakeNext(Run(receipts, worked));
    RunOn(receipts, worked, Listen);
    RunOn(receipts, worked + [Listen], Take);
    schedule := worked + [Listen] + [Take];
    WantedFirst(receipts[k]);
  }

  lemma WantedFirst(raw: string)
    requires Wanted(raw) != []
    ensures Handle(raw) != [] && Handle(raw)[0].Print?
  {
  }

  /** Some run of the process, on these receipts, ends up hanging. */
  ghost predicate CanHang(receipts: seq<string>) {
    exists schedule :: Hung(Run(receipts, schedule))
  }

  /** How many texts are to be printed before any restart. */
  function Printable(receipts: seq<string>): nat {
    |Stripped(receipts[..Served(receipts)])|
  }

  lemma CanHangNeedsNine(receipts: seq<string>)
    requires CanHang(receipts)
    ensures Printable(receipts) > QUEUE
  {
    var schedule :| Hung(Run(receipts, schedule));
    HungNeedsNine(receipts, schedule);
  }

  lemma NineCanHang(receipts: seq<string>)
    requires Printable(receipts) > QUEUE
    ensures CanHang(receipts)
  {
    var schedule := HangingRun(receipts);
    assert Hung(Run(receipts, schedule));
  }

  /** A shutdown can hang exactly if more than eight texts are to be printed before any restart: then
      the printer goroutine may leave first, and the ninth text finds the queue full. */
  lemma ShutdownCanHangExactly(receipts: seq<string>)
    ensures CanHang(receipts) <==> Printable(receipts) > 8
  {
    if CanHang(receipts) { CanHangNeedsNine(receipts); }
    if Printable(receipts) > QUEUE { NineCanHang(receipts); }
  }
}
