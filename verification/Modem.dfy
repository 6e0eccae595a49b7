/**
 The LoRa modem ownership protocol of the SX12xx driver as interleaved steps.

 Each party (a client task inside an API call, or a radio event handler) has a program
 counter; one Go event is one shared access of that party, so any number of parties
 interleave freely. (rx_done reads async_rx_cb together with what it does about it.)
 usage is the atomic word changed by compare-and-swap. cleaner, acquires, releases, holder,
 faulted and the record kept per blocking call are history: they steer nothing. faulted says
 that rx_done has used a NULL signal or a NULL rx_params.
 */
module Modem {
  import opened Text

  datatype Usage = Free | Busy | Cleanup

  /** Armed by Radio.Rx or Radio.Send, disarmed by Radio.Sleep. */
  datatype Radio = Asleep | Receiving | Sending

  /** A k_poll_signal: the one on the stack of blocking call number call, or one owned by a send_async caller. */
  datatype Signal = Done(call: nat) | User(id: nat)

  /** Who took the modem from BUSY to CLEANUP. */
  datatype Ending = Open | ByRxDone | ByTxDone | ByTxTimeout | ByRelease

  datatype Result = Got(size: nat) | Expired

  /**
   One lora_recv or lora_send: its buffer before and now, its local size, and how it went. ending is who
   ended the session that this call acquired; cut is who took the modem while operation_done was its signal.
   */
  datatype Call = Call(
    receive: bool, original: seq<char>, buffer: seq<char>, size: nat,
    packet: Option<seq<char>>, ending: Ending, cut: Ending, result: Option<Result>)

  /**
   What follows modem_release: return, give up with a timeout, or (in a handler) raise a signal.
   tx_done raises nothing when there is no signal; rx_done then passes NULL to k_poll_signal_raise.
   */
  datatype Then = Return | GiveUp(call: nat) | RaiseNext(sig: Option<Signal>) | RaiseNull

  datatype Pc =
    | Idle
    // lora_config
    | Configure | ConfigRelease
    // lora_send, lora_send_async
    | StoreSignal(sig: Option<Signal>, wait: Option<nat>) | StartSend(wait: Option<nat>)
    // lora_recv
    | ClearCallback(call: nat) | StoreDone(call: nat) | StoreParams(call: nat) | StartReceive(call: nat)
    // lora_recv_async, lora_test_cw
    | StoreCallback | StartAsyncReceive | StartWave
    // waiting for the signal
    | Polling(call: nat) | PollExpired(call: nat) | PollForever(call: nat)
    // the CLEANUP section
    | Sleeping(next: Then) | Forgetting(next: Then) | Clearing(next: Then)
    | RxStoreSize(sig: Option<Signal>, packet: seq<char>) | RxCopy(sig: Option<Signal>, packet: seq<char>)
    // handlers outside it
    | RxEntered(sig: Option<Signal>, packet: seq<char>) | TxEntered(sig: Option<Signal>) | Raising(signal: Signal)

  /** What every party can see: the driver's static data, the radio, the signals and the callers' memory. */
  datatype Shared = Shared(
    usage: Usage, opDone: Option<Signal>, asyncCb: bool, rxParams: Option<nat>, radio: Radio,
    raised: set<Signal>, calls: seq<Call>, cleaner: Option<nat>, acquires: nat, releases: nat,
    holder: Option<nat>, faulted: bool)

  datatype Modem = Modem(sh: Shared, pcs: map<nat, Pc>)

  /** The result of one step of one party. */
  datatype Move = Stuck | Move(sh: Shared, pc: Pc)

  datatype Event =
    | BeginRecv(party: nat, buffer: seq<char>)
    | BeginSend(party: nat)
    | BeginSendAsync(party: nat, async: Option<nat>)
    | BeginRecvAsync(party: nat)
    | CancelRecvAsync(party: nat)
    | BeginConfig(party: nat)
    | BeginWave(party: nat)
    | Expire(party: nat)
    | RxDone(party: nat, packet: seq<char>)
    | TxDone(party: nat)
    | TxTimedOut(party: nat)
    | Go(party: nat)

  const INIT: Modem := Modem(Shared(Free, None, false, None, Asleep, {}, [], None, 0, 0, None, false), map[])

  function PcOf(m: Modem, p: nat): Pc {
    if p in m.pcs then m.pcs[p] else Idle
  }

  /** The blocking call a party is inside. */
  function Live(c: Pc): Option<nat> {
    match c
    case ClearCallback(k) => Some(k)
    case StoreDone(k) => Some(k)
    case StoreParams(k) => Some(k)
    case StartReceive(k) => Some(k)
    case StoreSignal(_, wait) => wait
    case StartSend(wait) => wait
    case Polling(k) => Some(k)
    case PollExpired(k) => Some(k)
    case PollForever(k) => Some(k)
    case Sleeping(GiveUp(k)) => Some(k)
    case Forgetting(GiveUp(k)) => Some(k)
    case Clearing(GiveUp(k)) => Some(k)
    case _ => None
  }

  /** The signal a handler past its compare-and-swap is going to raise. */
  function Holds(h: Pc): Option<Signal> {
    match h
    case RxStoreSize(sig, _) => sig
    case RxCopy(sig, _) => sig
    case Sleeping(RaiseNext(sig)) => sig
    case Forgetting(RaiseNext(sig)) => sig
    case Clearing(RaiseNext(sig)) => sig
    case Raising(sig) => Some(sig)
    case _ => None
  }

  function SetCall(sh: Shared, c: nat, k: Call): Shared {
    if c < |sh.calls| then sh.(calls := sh.calls[c := k]) else sh
  }

  /** The word becomes BUSY for a new session, held by that blocking call if it belongs to one. */
  function Taken(sh: Shared, call: Option<nat>): Shared {
    sh.(usage := Busy, acquires := sh.acquires + 1, holder := call)
  }

  /** modem_acquire: BUSY if it was FREE, else -EBUSY and nothing changes. */
  function Acquire(sh: Shared, pc: Pc): Move {
    if sh.usage == Free then Move(Taken(sh, None), pc) else Move(sh, Idle)
  }

  /** The same for a blocking call, whose stack frame becomes call number |calls|. */
  function AcquireFor(sh: Shared, pc: Pc, k: Call): Move {
    if sh.usage == Free then Move(Taken(sh.(calls := sh.calls + [k]), Some(|sh.calls|)), pc) else Move(sh, Idle)
  }

  /** Call c once the modem has been taken to CLEANUP. */
  function EndedCall(sh: Shared, why: Ending, c: nat): Call
    requires c < |sh.calls|
  {
    sh.calls[c].(
      ending := if sh.holder == Some(c) then why else sh.calls[c].ending,
      cut := if sh.opDone == Some(Done(c)) then why else sh.calls[c].cut)
  }

  /** All calls then: the session's holder and the one whose signal is operation_done, if any, learn of it. */
  function EndedCalls(sh: Shared, why: Ending): (calls: seq<Call>)
    ensures |calls| == |sh.calls|
    ensures forall c :: 0 <= c < |calls| ==> calls[c] == EndedCall(sh, why, c)
  {
    seq(|sh.calls|, c requires 0 <= c < |sh.calls| => EndedCall(sh, why, c))
  }

  /** The compare-and-swap from BUSY to CLEANUP by party p; the pc is the one after a success or a failure. */
  function Release(sh: Shared, p: nat, yes: Pc, no: Pc, why: Ending): Move {
    if sh.usage != Busy then Move(sh, no)
    else Move(sh.(usage := Cleanup, cleaner := Some(p), calls := EndedCalls(sh, why), holder := None), yes)
  }

  function NewCall(receive: bool, buffer: seq<char>): Call {
    Call(receive, buffer, buffer, |buffer|, None, Open, Open, None)
  }

  /** memcpy of the first n bytes of packet into buffer. */
  function Copied(buffer: seq<char>, packet: seq<char>, n: nat): seq<char> {
    if n <= |buffer| && n <= |packet| then packet[..n] + buffer[n..] else buffer
  }

  /** A blocking call returns r. */
  function Finish(sh: Shared, c: nat, r: Result): Move {
    Move(if c < |sh.calls| then SetCall(sh, c, sh.calls[c].(result := Some(r))) else sh, Idle)
  }

  /** The next shared access of party p at pc; Stuck while it waits or is idle. */
  function Advance(sh: Shared, p: nat, pc: Pc): Move {
    match pc
    case Idle => Stuck
    case Configure => Move(sh, ConfigRelease)
    case ConfigRelease => Release(sh, p, Sleeping(Return), Idle, ByRelease)
    case StoreSignal(sig, wait) => Move(sh.(opDone := sig), StartSend(wait))
    case StartSend(wait) => Move(sh.(radio := Sending), if wait.Some? then Polling(wait.value) else Idle)
    case ClearCallback(c) => Move(sh.(asyncCb := false), StoreDone(c))
    case StoreDone(c) => Move(sh.(opDone := Some(Done(c))), StoreParams(c))
    case StoreParams(c) => Move(sh.(rxParams := Some(c)), StartReceive(c))
    case StartReceive(c) => Move(sh.(radio := Receiving), Polling(c))
    case StoreCallback => Move(sh.(asyncCb := true), StartAsyncReceive)
    case StartAsyncReceive => Move(sh.(radio := Receiving), Idle)
    case StartWave => Move(sh.(radio := Sending), Idle)
    case Polling(c) =>
      if Done(c) in sh.raised && c < |sh.calls| then Finish(sh, c, Got(sh.calls[c].size)) else Stuck
    case PollExpired(c) => Release(sh, p, Sleeping(GiveUp(c)), PollForever(c), ByRelease)
    case PollForever(c) =>
      if Done(c) in sh.raised && c < |sh.calls| then
        Finish(sh, c, if sh.calls[c].receive then Got(sh.calls[c].size) else Expired)
      else Stuck
    case Sleeping(next) => Move(sh.(radio := Asleep), Forgetting(next))
    case Forgetting(next) => Move(sh.(opDone := None), Clearing(next))
    case Clearing(next) =>
      var free := sh.(usage := Free, cleaner := None, releases := sh.releases + 1);
      (match next
       case Return => Move(free, Idle)
       case GiveUp(c) => Finish(free, c, Expired)
       case RaiseNext(sig) => Move(free, if sig.Some? then Raising(sig.value) else Idle)
       case RaiseNull => Move(free.(faulted := true), Idle))
    case RxEntered(sig, packet) =>
      if sh.asyncCb then Move(sh.(radio := Receiving), Idle)
      else Release(sh, p, RxStoreSize(sig, packet), Idle, ByRxDone)
    case RxStoreSize(sig, packet) =>
      if sh.rxParams.Some? && sh.rxParams.value < |sh.calls| then
        var k := sh.calls[sh.rxParams.value];
        var k' := k.(size := Min(|packet|, k.size), packet := Some(packet));
        Move(SetCall(sh, sh.rxParams.value, k'), RxCopy(sig, packet))
      else Move(sh.(faulted := true), RxCopy(sig, packet))
    case RxCopy(sig, packet) =>
      var next := Sleeping(if sig.Some? then RaiseNext(sig) else RaiseNull);
      if sh.rxParams.Some? && sh.rxParams.value < |sh.calls| then
        var k := sh.calls[sh.rxParams.value];
        Move(SetCall(sh, sh.rxParams.value, k.(buffer := Copied(k.buffer, packet, k.size))), next)
      else Move(sh, next)
    case TxEntered(sig) => Release(sh, p, Sleeping(RaiseNext(sig)), Idle, ByTxDone)
    case Raising(sig) => Move(sh.(raised := sh.raised + {sig}), Idle)
  }

  /** An API call or a radio event arrives at an idle party. */
  function Arrive(sh: Shared, e: Event): Move {
    match e
    case BeginRecv(_, buffer) => AcquireFor(sh, ClearCallback(|sh.calls|), NewCall(true, buffer))
    case BeginSend(_) =>
      AcquireFor(sh, StoreSignal(Some(Done(|sh.calls|)), Some(|sh.calls|)), NewCall(false, []))
    case BeginSendAsync(_, async) =>
      Acquire(sh, StoreSignal(if async.Some? then Some(User(async.value)) else None, None))
    case BeginRecvAsync(_) => Acquire(sh, StoreCallback)
    case CancelRecvAsync(p) => Release(sh, p, Sleeping(Return), Idle, ByRelease)
    case BeginConfig(_) => Acquire(sh, Configure)
    case BeginWave(_) => Acquire(sh, StartWave)
    case RxDone(_, packet) => Move(sh, RxEntered(sh.opDone, packet))
    case TxDone(_) => Move(sh, TxEntered(sh.opDone))
    case TxTimedOut(p) => Release(sh, p, Sleeping(Return), Idle, ByTxTimeout)
    case Expire(_) | Go(_) => Stuck
  }

  function MoveOf(m: Modem, e: Event): Move {
    var pc := PcOf(m, e.party);
    if e.Go? then Advance(m.sh, e.party, pc)
    else if e.Expire? then (if pc.Polling? then Move(m.sh, PollExpired(pc.call)) else Stuck)
    else if pc == Idle then Arrive(m.sh, e)
    else Stuck
  }

  function Step(m: Modem, e: Event): Option<Modem> {
    match MoveOf(m, e)
    case Stuck => None
    case Move(sh, pc) => Some(Modem(sh, m.pcs[e.party := pc]))
  }

  function Run(m: Modem, es: seq<Event>): Option<Modem>
    decreases es
  {
    if es == [] then Some(m)
    else
      match Step(m, es[0])
      case Some(m') => Run(m', es[1..])
      case None => None
  }

  // ---- Any parties, any interleaving ------------------------------------

  predicate InSection(pc: Pc) {
    pc.Sleeping? || pc.Forgetting? || pc.Clearing? || pc.RxStoreSize? || pc.RxCopy?
  }

  /** The section is occupied exactly while the word says CLEANUP, and every acquire is matched by one release. */
  ghost predicate Exclusive(m: Modem) {
    && (forall p: nat :: InSection(PcOf(m, p)) <==> m.sh.cleaner == Some(p))
    && (m.sh.usage == Cleanup <==> m.sh.cleaner.Some?)
    && m.sh.acquires == m.sh.releases + if m.sh.usage == Free then 0 else 1
  }

  /** What one step of party p does to the word, seen from p alone. */
  predicate OwnMove(sh: Shared, was: bool, sh': Shared, now: bool, p: nat) {
    && sh'.acquires - sh.acquires == (if sh.usage == Free && sh'.usage == Busy then 1 else 0)
    && sh'.releases - sh.releases == (if was && !now then 1 else 0)
    && (was == now ==> sh'.cleaner == sh.cleaner && (sh'.usage == sh.usage || (sh.usage == Free && sh'.usage == Busy)))
    && (was && !now ==> sh'.cleaner == None && sh'.usage == Free)
    && (!was && now ==> sh.usage == Busy && sh'.usage == Cleanup && sh'.cleaner == Some(p))
  }

  lemma SectionMoves(sh: Shared, p: nat, pc: Pc)
    requires InSection(pc)
    ensures var mv := Advance(sh, p, pc); mv.Move? && OwnMove(sh, true, mv.sh, InSection(mv.pc), p)
  {
  }

  lemma AdvanceMoves(sh: Shared, p: nat, pc: Pc)
    requires Advance(sh, p, pc).Move?
    ensures var mv := Advance(sh, p, pc); OwnMove(sh, InSection(pc), mv.sh, InSection(mv.pc), p)
  {
    if InSection(pc) {
      SectionMoves(sh, p, pc);
    }
  }

  lemma ArriveMoves(sh: Shared, e: Event)
    requires Arrive(sh, e).Move?
    ensures var mv := Arrive(sh, e); OwnMove(sh, false, mv.sh, InSection(mv.pc), e.party)
  {
  }

  lemma StepKeepsExclusive(m: Modem, e: Event)
    requires Exclusive(m) && Step(m, e).Some?
    ensures Exclusive(Step(m, e).value)
    ensures m.sh.usage != Free && Step(m, e).value.sh.usage == Free ==> e.Go? && InSection(PcOf(m, e.party))
  {
    var m', pc := Step(m, e).value, PcOf(m, e.party);
    if e.Go? {
      AdvanceMoves(m.sh, e.party, pc);
    } else if !e.Expire? {
      ArriveMoves(m.sh, e);
    }
    forall q: nat
      ensures InSection(PcOf(m', q)) <==> m'.sh.cleaner == Some(q)
    {
      assert InSection(PcOf(m, q)) <==> m.sh.cleaner == Some(q);
    }
  }

  lemma {:induction false} RunKeepsExclusive(m: Modem, es: seq<Event>)
    requires Exclusive(m) && Run(m, es).Some?
    ensures Exclusive(Run(m, es).value)
    decreases es
  {
    if es != [] {
      StepKeepsExclusive(m, es[0]);
      RunKeepsExclusive(Step(m, es[0]).value, es[1..]);
    }
  }

  /** Any clients, events and interleaving: one party at most cleans up, and acquires and releases balance. */
  lemma Exclusivity(es: seq<Event>, m: Modem, p: nat, q: nat)
    requires Run(INIT, es) == Some(m)
    ensures InSection(PcOf(m, p)) && InSection(PcOf(m, q)) ==> p == q
    ensures InSection(PcOf(m, p)) ==> m.sh.usage == Cleanup
    ensures m.sh.usage == Cleanup ==> m.sh.cleaner.Some? && InSection(PcOf(m, m.sh.cleaner.value))
    ensures m.sh.acquires == m.sh.releases + if m.sh.usage == Free then 0 else 1
  {
    RunKeepsExclusive(INIT, es);
  }

  /** The word leaves CLEANUP or BUSY for FREE only by the last step of the one party that cleans up. */
  lemma OnlyCleanerFrees(es: seq<Event>, m: Modem, e: Event)
    requires Run(INIT, es) == Some(m) && Step(m, e).Some?
    requires m.sh.usage != Free && Step(m, e).value.sh.usage == Free
    ensures e.Go? && m.sh.usage == Cleanup && m.sh.cleaner == Some(e.party) && InSection(PcOf(m, e.party))
    ensures forall q: nat :: !InSection(PcOf(Step(m, e).value, q))
  {
    RunKeepsExclusive(INIT, es);
    StepKeepsExclusive(m, e);
  }
}
