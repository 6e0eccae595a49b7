/**
 One client task against the radio's event handlers: a blocking receive is all or
 nothing, handlers only touch calls still in progress, and of the ways to lose a
 wake-up (module ModemWakeUp) only the transmit timeout is left.

 Assumed of the environment (Calm): API calls come from party 0 and radio events run
 one at a time in party 1; rx_done arrives only while the radio is armed by Rx, tx_done
 and tx_timed_out only while it is armed by Send; a handler is not preempted between
 its first shared access and its compare-and-swap.
 */
module ModemSolo {
  import opened Text
  import opened Modem
  import opened ModemWakeUp
  import opened ModemSession
  import opened ModemTiming

  predicate Calm(m: Modem, e: Event) {
    var h := PcOf(m, 1);
    && (h.RxEntered? || h.TxEntered? ==> e == Go(1))
    && (e.Go? ==> e.party == 0 || e.party == 1)
    && (e.RxDone? ==> e.party == 1 && m.sh.radio == Receiving)
    && (e.TxDone? || e.TxTimedOut? ==> e.party == 1 && m.sh.radio == Sending)
    && (!e.Go? && !e.RxDone? && !e.TxDone? && !e.TxTimedOut? ==> e.party == 0)
  }

  function CalmRun(m: Modem, es: seq<Event>): Option<Modem>
    decreases es
  {
    if es == [] then Some(m)
    else if !Calm(m, es[0]) then None
    else
      match Step(m, es[0])
      case Some(m') => CalmRun(m', es[1..])
      case None => None
  }

  // ---- What a call's memory looks like ----------------------------------

  predicate Untouched(k: Call) {
    k.buffer == k.original && k.size == |k.original| && k.packet == None
  }

  predicate Filled(k: Call) {
    && k.packet.Some?
    && k.size == Min(|k.packet.value|, |k.original|)
    && k.buffer == k.packet.value[..k.size] + k.original[k.size..]
  }

  /**
   A returned lora_recv either timed out with its buffer untouched, or got the prefix of one
   packet that fits. A returned lora_send succeeded only through tx_done.
   */
  predicate Returned(k: Call) {
    match k.result
    case None => false
    case Some(Expired) =>
      if k.receive then k.cut == ByRelease && Untouched(k) else k.cut == ByRelease || k.cut == ByTxDone
    case Some(Got(n)) =>
      if k.receive then k.cut == ByRxDone && Filled(k) && n == k.size else k.cut == ByTxDone
  }

  // ---- The invariant ----------------------------------------------------

  predicate Leaving(pc: Pc) {
    pc.Sleeping? || pc.Forgetting? || pc.Clearing?
  }

  predicate SetUp(c: Pc) {
    || c.Configure? || c.ConfigRelease? || c.StoreSignal? || c.StartSend? || c.ClearCallback? || c.StoreDone?
    || c.StoreParams? || c.StartReceive? || c.StoreCallback? || c.StartAsyncReceive? || c.StartWave?
  }

  predicate Waits(c: Pc) {
    c.Polling? || c.PollExpired? || c.PollForever?
  }

  predicate Roles(c: Pc, h: Pc) {
    && (c.Idle? || SetUp(c) || Waits(c) || (Leaving(c) && !c.next.RaiseNext? && !c.next.RaiseNull?))
    && (h.Idle? || h.RxEntered? || h.TxEntered? || h.RxStoreSize? || h.RxCopy? || h.Raising?
        || (Leaving(h) && !h.next.GiveUp? && !h.next.RaiseNull?))
  }

  predicate Quiet(sh: Shared, c: Pc, h: Pc) {
    && !sh.faulted && (sh.holder.Some? ==> sh.usage == Busy && Live(c) == sh.holder)
    && (sh.usage == Cleanup <==> InSection(c) || InSection(h))
    && !(InSection(c) && InSection(h))
    && (sh.usage == Free ==> sh.radio == Asleep && sh.opDone == None)
    && (c.Forgetting? || c.Clearing? || h.Forgetting? || h.Clearing? ==> sh.radio == Asleep)
    && (c.Clearing? || h.Clearing? ==> sh.opDone == None)
    && (h.RxEntered? ==> sh.radio == Receiving && h.sig == sh.opDone)
    && (h.TxEntered? ==> sh.radio == Sending && h.sig == sh.opDone)
    && (sh.opDone.Some? && sh.opDone.value.Done? ==> Live(c) == Some(sh.opDone.value.call))
    && (sh.usage == Busy && sh.radio == Receiving ==> sh.asyncCb || Waits(c))
  }

  predicate Preparing(sh: Shared, c: Pc, h: Pc) {
    && sh.usage == Busy && sh.radio == Asleep && (h.Idle? || h.Raising?)
    && (c.StoreDone? || c.StoreParams? || c.StartReceive? ==> !sh.asyncCb)
    && (c.StartAsyncReceive? ==> sh.asyncCb)
    && (c.StoreParams? || c.StartReceive? ==> sh.opDone == Some(Done(c.call)))
    && (c.StartReceive? ==> sh.rxParams == Some(c.call))
    && (c.StoreSignal? ==>
          if c.wait.Some? then c.sig == Some(Done(c.wait.value)) else c.sig.Some? ==> c.sig.value.User?)
    && (c.StartSend? && c.wait.Some? ==> sh.opDone == Some(Done(c.wait.value)))
  }

  predicate Receiver(c: Pc) {
    c.ClearCallback? || c.StoreDone? || c.StoreParams? || c.StartReceive?
  }

  /** A blocking call that waits: still open, held by a handler, woken, or lost to tx_timed_out. */
  predicate WaitsWell(sh: Shared, c: Pc, h: Pc, x: nat, k: Call) {
    var s := Done(x);
    match k.cut
    case Open =>
      && sh.usage == Busy && sh.opDone == Some(s) && s !in sh.raised && !c.PollForever? && Untouched(k)
      && (if k.receive then sh.radio == Receiving && !sh.asyncCb && sh.rxParams == Some(x) else sh.radio == Sending)
    case ByRxDone =>
      && k.receive
      && (if s in sh.raised then sh.usage == Free && Filled(k)
          else
            || (h.RxStoreSize? && h.sig == Some(s) && Untouched(k) && sh.rxParams == Some(x))
            || (h.RxCopy? && h.sig == Some(s) && sh.rxParams == Some(x) && k.packet == Some(h.packet)
                && k.buffer == k.original && k.size == Min(|h.packet|, |k.original|))
            || (Leaving(h) && h.next == RaiseNext(Some(s)) && Filled(k))
            || (h == Raising(s) && sh.usage == Free && Filled(k)))
    case ByTxDone =>
      && !k.receive
      && (if s in sh.raised then sh.usage == Free
          else (Leaving(h) && h.next == RaiseNext(Some(s))) || (h == Raising(s) && sh.usage == Free))
    case ByTxTimeout =>
      !k.receive && s !in sh.raised && ((Leaving(h) && h.next == Return) || sh.usage == Free)
    case ByRelease => false
  }

  /** The call in progress, wherever the client is inside it. */
  predicate LiveWell(sh: Shared, c: Pc, h: Pc, x: nat, k: Call) {
    && k.result == None
    && (SetUp(c) ==> k.cut == Open && Untouched(k) && Done(x) !in sh.raised && k.receive == Receiver(c))
    && (Leaving(c) ==> k.cut == ByRelease && Untouched(k) && Done(x) !in sh.raised)
    && (Waits(c) ==> WaitsWell(sh, c, h, x, k))
  }

  predicate Calls(sh: Shared, c: Pc, h: Pc) {
    && (Live(c).Some? ==> Live(c).value + 1 == |sh.calls| && LiveWell(sh, c, h, Live(c).value, sh.calls[Live(c).value]))
    && (forall x :: 0 <= x < |sh.calls| && Live(c) != Some(x) ==> Returned(sh.calls[x]))
    && (forall s :: s in sh.raised && s.Done? ==> s.call < |sh.calls|)
    && (Holds(h).Some? && Holds(h).value.Done? ==>
          && Waits(c) && Done(c.call) == Holds(h).value && Holds(h).value !in sh.raised
          && (sh.calls[c.call].cut == ByRxDone || sh.calls[c.call].cut == ByTxDone))
    && (h.RxStoreSize? || h.RxCopy? ==> Waits(c) && h.sig == Some(Done(c.call)) && sh.calls[c.call].cut == ByRxDone)
  }

  predicate Inv(sh: Shared, c: Pc, h: Pc) {
    && Roles(c, h)
    && Quiet(sh, c, h)
    && (SetUp(c) ==> Preparing(sh, c, h))
    && Calls(sh, c, h)
  }

  lemma ClientStoresSendSignal(sh: Shared, c: Pc, h: Pc)
    requires Inv(sh, c, h) && !h.RxEntered? && !h.TxEntered? && c.StoreSignal?
    ensures var mv := Advance(sh, 0, c); mv.Move? ==> Inv(mv.sh, mv.pc, h)
  {
  }

  lemma ClientSends(sh: Shared, c: Pc, h: Pc)
    requires Inv(sh, c, h) && !h.RxEntered? && !h.TxEntered? && c.StartSend?
    ensures var mv := Advance(sh, 0, c); mv.Move? ==> Inv(mv.sh, mv.pc, h)
  {
  }

  lemma ClientConfigures(sh: Shared, c: Pc, h: Pc)
    requires Inv(sh, c, h) && !h.RxEntered? && !h.TxEntered? && (c.Configure? || c.ConfigRelease?)
    ensures var mv := Advance(sh, 0, c); mv.Move? ==> Inv(mv.sh, mv.pc, h)
  {
  }

  lemma ClientPrepares(sh: Shared, c: Pc, h: Pc)
    requires Inv(sh, c, h) && !h.RxEntered? && !h.TxEntered?
    requires SetUp(c) && !Receiver(c) && !c.StoreSignal? && !c.StartSend? && !c.Configure? && !c.ConfigRelease?
    ensures var mv := Advance(sh, 0, c); mv.Move? ==> Inv(mv.sh, mv.pc, h)
  {
  }

  lemma ClientStoresSignal(sh: Shared, c: Pc, h: Pc)
    requires Inv(sh, c, h) && !h.RxEntered? && !h.TxEntered? && (c.ClearCallback? || c.StoreDone?)
    ensures var mv := Advance(sh, 0, c); mv.Move? ==> Inv(mv.sh, mv.pc, h)
  {
  }

  lemma ClientListens(sh: Shared, c: Pc, h: Pc)
    requires Inv(sh, c, h) && !h.RxEntered? && !h.TxEntered? && (c.StoreParams? || c.StartReceive?)
    ensures var mv := Advance(sh, 0, c); mv.Move? ==> Inv(mv.sh, mv.pc, h)
  {
  }

  lemma ClientWakes(sh: Shared, c: Pc, h: Pc)
    requires Inv(sh, c, h) && !h.RxEntered? && !h.TxEntered? && (c.Polling? || c.PollForever?)
    ensures var mv := Advance(sh, 0, c); mv.Move? ==> Inv(mv.sh, mv.pc, h)
  {
  }

  lemma ClientReleases(sh: Shared, c: Pc, h: Pc)
    requires Inv(sh, c, h) && !h.RxEntered? && !h.TxEntered? && c.PollExpired? && sh.usage == Busy
    ensures var mv := Advance(sh, 0, c); mv.Move? && Inv(mv.sh, mv.pc, h)
  {
    var x := c.call;
    var k := sh.calls[x];
    assert k.cut == Open && sh.opDone == Some(Done(x));
    var sh' := sh.(usage := Cleanup, cleaner := Some(0), calls := EndedCalls(sh, ByRelease), holder := None);
    assert Advance(sh, 0, c) == Move(sh', Sleeping(GiveUp(x)));
    assert LiveWell(sh', Sleeping(GiveUp(x)), h, x, sh'.calls[x]);
  }

  lemma ClientFailsToRelease(sh: Shared, c: Pc, h: Pc)
    requires Inv(sh, c, h) && !h.RxEntered? && !h.TxEntered? && c.PollExpired? && sh.usage != Busy
    ensures var mv := Advance(sh, 0, c); mv.Move? && Inv(mv.sh, mv.pc, h)
  {
    assert Advance(sh, 0, c) == Move(sh, PollForever(c.call));
  }

  lemma ClientSleeps(sh: Shared, c: Pc, h: Pc)
    requires Inv(sh, c, h) && !h.RxEntered? && !h.TxEntered? && (c.Sleeping? || c.Forgetting?)
    ensures var mv := Advance(sh, 0, c); mv.Move? ==> Inv(mv.sh, mv.pc, h)
  {
  }

  lemma ClientClears(sh: Shared, c: Pc, h: Pc)
    requires Inv(sh, c, h) && !h.RxEntered? && !h.TxEntered? && c.Clearing?
    ensures var mv := Advance(sh, 0, c); mv.Move? ==> Inv(mv.sh, mv.pc, h)
  {
  }

  predicate Blocking(e: Event) {
    e.BeginRecv? || e.BeginSend?
  }

  lemma BlockingCallArrives(sh: Shared, c: Pc, h: Pc, e: Event)
    requires Inv(sh, c, h) && !h.RxEntered? && !h.TxEntered? && c.Idle? && e.party == 0 && Blocking(e)
    ensures var mv := Arrive(sh, e); mv.Move? && Inv(mv.sh, mv.pc, h)
  {
  }

  lemma ClientArrives(sh: Shared, c: Pc, h: Pc, e: Event)
    requires Inv(sh, c, h) && !h.RxEntered? && !h.TxEntered? && c.Idle? && e.party == 0
    requires !e.RxDone? && !e.TxDone? && !e.TxTimedOut? && !Blocking(e) && Arrive(sh, e).Move?
    ensures var mv := Arrive(sh, e); Inv(mv.sh, mv.pc, h)
  {
  }

  lemma HandlerArrives(sh: Shared, c: Pc, h: Pc, e: Event)
    requires Inv(sh, c, h) && h.Idle? && e.party == 1
    requires (e.RxDone? && sh.radio == Receiving) || ((e.TxDone? || e.TxTimedOut?) && sh.radio == Sending)
    ensures var mv := Arrive(sh, e); mv.Move? && Inv(mv.sh, c, mv.pc)
  {
  }

  lemma RxHandlerEnters(sh: Shared, c: Pc, h: Pc)
    requires Inv(sh, c, h) && h.RxEntered?
    ensures var mv := Advance(sh, 1, h); mv.Move? ==> Inv(mv.sh, c, mv.pc)
  {
  }

  lemma TxHandlerEnters(sh: Shared, c: Pc, h: Pc)
    requires Inv(sh, c, h) && h.TxEntered? && sh.usage == Busy
    ensures var mv := Advance(sh, 1, h); mv.Move? && Inv(mv.sh, c, mv.pc)
  {
  }

  lemma TxHandlerTurnsBack(sh: Shared, c: Pc, h: Pc)
    requires Inv(sh, c, h) && h.TxEntered? && sh.usage != Busy
    ensures var mv := Advance(sh, 1, h); mv.Move? && Inv(mv.sh, c, mv.pc)
  {
    assert Advance(sh, 1, h) == Move(sh, Idle);
  }

  lemma HandlerStoresSize(sh: Shared, c: Pc, h: Pc)
    requires Inv(sh, c, h) && h.RxStoreSize?
    ensures var mv := Advance(sh, 1, h); mv.Move? ==> Inv(mv.sh, c, mv.pc)
  {
  }

  lemma HandlerCopies(sh: Shared, c: Pc, h: Pc)
    requires Inv(sh, c, h) && h.RxCopy?
    ensures var mv := Advance(sh, 1, h); mv.Move? ==> Inv(mv.sh, c, mv.pc)
  {
  }

  lemma HandlerSleeps(sh: Shared, c: Pc, h: Pc)
    requires Inv(sh, c, h) && h.Sleeping?
    ensures var mv := Advance(sh, 1, h); mv.Move? ==> Inv(mv.sh, c, mv.pc)
  {
  }

  lemma HandlerForgets(sh: Shared, c: Pc, h: Pc)
    requires Inv(sh, c, h) && h.Forgetting?
    ensures var mv := Advance(sh, 1, h); mv.Move? ==> Inv(mv.sh, c, mv.pc)
  {
  }

  lemma HandlerClears(sh: Shared, c: Pc, h: Pc)
    requires Inv(sh, c, h) && h.Clearing?
    ensures var mv := Advance(sh, 1, h); mv.Move? ==> Inv(mv.sh, c, mv.pc)
  {
  }

  lemma HandlerRaisesUser(sh: Shared, c: Pc, h: Pc)
    requires Inv(sh, c, h) && h.Raising? && h.signal.User?
    ensures var mv := Advance(sh, 1, h); mv.Move? && Inv(mv.sh, c, mv.pc)
  {
    var raised := sh.raised + {h.signal};
    assert Advance(sh, 1, h) == Move(sh.(raised := raised), Idle);
    assert forall x: nat :: Done(x) in raised <==> Done(x) in sh.raised;
  }

  lemma HandlerRaisesDone(sh: Shared, c: Pc, h: Pc)
    requires Inv(sh, c, h) && h.Raising? && h.signal.Done?
    ensures var mv := Advance(sh, 1, h); mv.Move? && Inv(mv.sh, c, mv.pc)
  {
    assert Waits(c) && h.signal == Done(c.call);
  }

  lemma ClientGoes(sh: Shared, c: Pc, h: Pc)
    requires Inv(sh, c, h) && !h.RxEntered? && !h.TxEntered? && Advance(sh, 0, c).Move?
    ensures var mv := Advance(sh, 0, c); Inv(mv.sh, mv.pc, h)
  {
    if c.StoreSignal? { ClientStoresSendSignal(sh, c, h); }
    else if c.StartSend? { ClientSends(sh, c, h); }
    else if c.ClearCallback? || c.StoreDone? { ClientStoresSignal(sh, c, h); }
    else if Receiver(c) { ClientListens(sh, c, h); }
    else if c.Configure? || c.ConfigRelease? { ClientConfigures(sh, c, h); }
    else if SetUp(c) { ClientPrepares(sh, c, h); }
    else if c.PollExpired? {
      if sh.usage == Busy { ClientReleases(sh, c, h); } else { ClientFailsToRelease(sh, c, h); }
    }
    else if Waits(c) { ClientWakes(sh, c, h); }
    else if c.Clearing? { ClientClears(sh, c, h); }
    else { ClientSleeps(sh, c, h); }
  }

  lemma HandlerGoes(sh: Shared, c: Pc, h: Pc)
    requires Inv(sh, c, h) && Advance(sh, 1, h).Move?
    ensures var mv := Advance(sh, 1, h); Inv(mv.sh, c, mv.pc)
  {
    match h
    case RxEntered(_, _) => RxHandlerEnters(sh, c, h);
    case TxEntered(_) => if sh.usage == Busy { TxHandlerEnters(sh, c, h); } else { TxHandlerTurnsBack(sh, c, h); }
    case RxStoreSize(_, _) => HandlerStoresSize(sh, c, h);
    case RxCopy(_, _) => HandlerCopies(sh, c, h);
    case Clearing(_) => HandlerClears(sh, c, h);
    case Raising(s) => if s.User? { HandlerRaisesUser(sh, c, h); } else { HandlerRaisesDone(sh, c, h); }
    case Forgetting(_) => HandlerForgets(sh, c, h);
    case _ => HandlerSleeps(sh, c, h);
  }

  lemma StepKeepsInv(m: Modem, e: Event)
    requires Inv(m.sh, PcOf(m, 0), PcOf(m, 1)) && Calm(m, e) && Step(m, e).Some?
    ensures var m' := Step(m, e).value; Inv(m'.sh, PcOf(m', 0), PcOf(m', 1))
  {
    var sh, c, h := m.sh, PcOf(m, 0), PcOf(m, 1);
    if e == Go(0) { ClientGoes(sh, c, h); }
    else if e == Go(1) { HandlerGoes(sh, c, h); }
    else if e.RxDone? || e.TxDone? || e.TxTimedOut? { HandlerArrives(sh, c, h, e); }
    else if e.Expire? { ClientExpires(sh, c, h); }
    else if Blocking(e) { BlockingCallArrives(sh, c, h, e); }
    else { ClientArrives(sh, c, h, e); }
  }

  lemma ClientExpires(sh: Shared, c: Pc, h: Pc)
    requires Inv(sh, c, h) && c.Polling?
    ensures Inv(sh, PollExpired(c.call), h)
  {
  }

  lemma {:induction false} RunKeepsInv(m: Modem, es: seq<Event>)
    requires Inv(m.sh, PcOf(m, 0), PcOf(m, 1)) && CalmRun(m, es).Some?
    ensures var m' := CalmRun(m, es).value; Inv(m'.sh, PcOf(m', 0), PcOf(m', 1))
    decreases es
  {
    if es != [] {
      StepKeepsInv(m, es[0]);
      RunKeepsInv(Step(m, es[0]).value, es[1..]);
    }
  }

  // ---- Main results -----------------------------------------------------

  /** In every race of timeout against rx_done, a lora_recv that has returned is all or nothing. */
  lemma ReceiveAllOrNothing(es: seq<Event>, m: Modem, x: nat)
    requires CalmRun(INIT, es) == Some(m) && x < |m.sh.calls|
    requires m.sh.calls[x].receive && m.sh.calls[x].result.Some?
    ensures var k := m.sh.calls[x];
            match k.result.value
            case Expired => k.buffer == k.original
            case Got(n) =>
              && k.packet.Some?
              && n == Min(|k.packet.value|, |k.original|)
              && k.buffer == k.packet.value[..n] + k.original[n..]
  {
    RunKeepsInv(INIT, es);
  }

  /** Nobody but the client and the handler task ever moves. */
  ghost predicate OnlyTwo(m: Modem) {
    forall p: nat :: p >= 2 ==> PcOf(m, p) == Idle
  }

  lemma CalmIsUndisturbed(m: Modem, e: Event)
    requires Inv(m.sh, PcOf(m, 0), PcOf(m, 1)) && OnlyTwo(m) && Calm(m, e) && Step(m, e).Some?
    ensures Undisturbed(m, e) && OnlyTwo(Step(m, e).value)
  {
    forall p: nat | p >= 2
      ensures PcOf(Step(m, e).value, p) == Idle
    {
      assert e.party < 2 && PcOf(m, p) == Idle;
    }
    forall p: nat | Storing(PcOf(m, p))
      ensures !Cuts(m.sh, Step(m, e).value.sh)
    {
      assert p == 0;
      StorerIsSpared(m, e);
    }
  }

  /** Nothing releases the modem while the client is before its store: the radio sleeps and no handler runs. */
  lemma StorerIsSpared(m: Modem, e: Event)
    requires Inv(m.sh, PcOf(m, 0), PcOf(m, 1)) && Calm(m, e) && Step(m, e).Some? && Storing(PcOf(m, 0))
    ensures !Cuts(m.sh, Step(m, e).value.sh)
  {
    assert Preparing(m.sh, PcOf(m, 0), PcOf(m, 1));
  }

  lemma {:induction false} CalmRunIsUndisturbed(m: Modem, es: seq<Event>)
    requires Inv(m.sh, PcOf(m, 0), PcOf(m, 1)) && OnlyTwo(m) && CalmRun(m, es).Some?
    ensures UndisturbedRun(m, es) == CalmRun(m, es)
    decreases es
  {
    if es != [] {
      CalmIsUndisturbed(m, es[0]);
      StepKeepsInv(m, es[0]);
      CalmRunIsUndisturbed(Step(m, es[0]).value, es[1..]);
    }
  }

  /** With one client task, who ended a call's session is who took the modem while operation_done was its signal. */
  lemma SoloAgrees(es: seq<Event>, m: Modem, x: nat)
    requires CalmRun(INIT, es) == Some(m) && x < |m.sh.calls|
    ensures m.sh.calls[x].ending == m.sh.calls[x].cut
  {
    CalmRunIsUndisturbed(INIT, es);
    SessionsAgree(es, m, x);
  }

  lemma {:induction false} CalmIsRun(m: Modem, es: seq<Event>)
    requires CalmRun(m, es).Some?
    ensures Run(m, es) == CalmRun(m, es)
    decreases es
  {
    if es != [] {
      CalmIsRun(Step(m, es[0]).value, es[1..]);
    }
  }

  /**
   A returned lora_send reports success exactly when tx_done ended its session and its wait did not expire.
   Otherwise its wait expired, and it released the modem itself or tx_done took it all the same; never tx_timed_out.
   */
  lemma SendOutcome(es: seq<Event>, m: Modem, x: nat)
    requires CalmRun(INIT, es) == Some(m) && x < |m.sh.calls|
    requires !m.sh.calls[x].receive && m.sh.calls[x].result.Some?
    ensures m.sh.calls[x].result.value.Got? <==> m.sh.calls[x].ending == ByTxDone && x !in TimedOut(INIT, es)
    ensures m.sh.calls[x].result.value.Expired? ==>
              x in TimedOut(INIT, es) && (m.sh.calls[x].ending == ByRelease || m.sh.calls[x].ending == ByTxDone)
  {
    RunKeepsInv(INIT, es);
    SoloAgrees(es, m, x);
    CalmIsRun(INIT, es);
    ReportedExactly(es, m, x);
  }

  /** A returned lora_recv reports a timeout exactly when it released the modem itself, after its wait expired. */
  lemma ReceiveOutcome(es: seq<Event>, m: Modem, x: nat)
    requires CalmRun(INIT, es) == Some(m) && x < |m.sh.calls|
    requires m.sh.calls[x].receive && m.sh.calls[x].result.Some?
    ensures m.sh.calls[x].result.value.Got? <==> m.sh.calls[x].ending == ByRxDone
    ensures m.sh.calls[x].result.value.Expired? <==> m.sh.calls[x].ending == ByRelease
    ensures m.sh.calls[x].result.value.Expired? ==> x in TimedOut(INIT, es)
  {
    RunKeepsInv(INIT, es);
    SoloAgrees(es, m, x);
    CalmIsRun(INIT, es);
    ReportedExactly(es, m, x);
  }

  /** With one client task rx_done never uses a NULL signal or a NULL rx_params. */
  lemma NeverFaults(es: seq<Event>, m: Modem)
    requires CalmRun(INIT, es) == Some(m)
    ensures !m.sh.faulted
  {
    RunKeepsInv(INIT, es);
  }

  /** An asynchronous reception or a test wave is going on. */
  predicate OnAir(sh: Shared, c: Pc, h: Pc, radio: Radio) {
    && sh.usage == Busy && sh.radio == radio && c.Idle?
    && (if radio == Receiving then sh.asyncCb && (h.Idle? || h.RxEntered? || h.Raising?) else h.Idle? || h.Raising?)
  }

  /** What may end it: a cancel, or an event of the transmission. */
  predicate MayEnd(e: Event, radio: Radio) {
    e.CancelRecvAsync? || (radio == Sending && (e.TxDone? || e.TxTimedOut?))
  }

  lemma {:induction false} GoesOnAir(m: Modem, es: seq<Event>, radio: Radio)
    requires OnAir(m.sh, PcOf(m, 0), PcOf(m, 1), radio) && radio != Asleep && CalmRun(m, es).Some?
    requires forall i :: 0 <= i < |es| ==> !MayEnd(es[i], radio)
    ensures var m' := CalmRun(m, es).value; OnAir(m'.sh, PcOf(m', 0), PcOf(m', 1), radio)
    decreases es
  {
    if es != [] {
      assert !MayEnd(es[0], radio);
      GoesOnAir(Step(m, es[0]).value, es[1..], radio);
    }
  }

  lemma ComesOnAir(sh: Shared, c: Pc, h: Pc, radio: Radio)
    requires Inv(sh, c, h) && if radio == Receiving then c == StartAsyncReceive else c == StartWave && radio == Sending
    ensures var mv := Advance(sh, 0, c); mv.Move? && OnAir(mv.sh, mv.pc, h, radio)
  {
  }

  lemma StepsOnAir(m: Modem, m1: Modem, radio: Radio)
    requires Inv(m.sh, PcOf(m, 0), PcOf(m, 1)) && Step(m, Go(0)) == Some(m1)
    requires if radio == Receiving then PcOf(m, 0) == StartAsyncReceive else PcOf(m, 0) == StartWave && radio == Sending
    ensures OnAir(m1.sh, PcOf(m1, 0), PcOf(m1, 1), radio)
  {
    ComesOnAir(m.sh, PcOf(m, 0), PcOf(m, 1), radio);
  }

  /**
   Once started, an asynchronous reception goes on whatever packets come and calls are made, until it is cancelled;
   a test wave until a cancel, tx_done or tx_timed_out. The modem stays taken meanwhile.
   */
  lemma StaysOnAir(es: seq<Event>, m: Modem, m1: Modem, fs: seq<Event>, m': Modem, radio: Radio)
    requires CalmRun(INIT, es) == Some(m) && Step(m, Go(0)) == Some(m1) && CalmRun(m1, fs) == Some(m')
    requires if radio == Receiving then PcOf(m, 0) == StartAsyncReceive else PcOf(m, 0) == StartWave && radio == Sending
    requires forall i :: 0 <= i < |fs| ==> !MayEnd(fs[i], radio)
    ensures m'.sh.usage == Busy && m'.sh.radio == radio && (radio == Receiving ==> m'.sh.asyncCb)
  {
    RunKeepsInv(INIT, es);
    StepsOnAir(m, m1, radio);
    GoesOnAir(m1, fs, radio);
  }

  /** The move leaves call x and its signal alone. */
  predicate Spares(sh: Shared, mv: Move, x: nat)
    requires x < |sh.calls|
  {
    mv.Move? ==>
      && x < |mv.sh.calls| && mv.sh.calls[x] == sh.calls[x]
      && (Done(x) in mv.sh.raised <==> Done(x) in sh.raised)
  }

  lemma ClientSpares(sh: Shared, c: Pc, h: Pc, x: nat)
    requires Inv(sh, c, h) && x < |sh.calls| && Live(c) != Some(x)
    ensures Spares(sh, Advance(sh, 0, c), x)
  {
    if c.PollExpired? || c.ConfigRelease? {
      ReleaserSpares(sh, c, h, x);
    } else {
      WorkerSpares(sh, c, x);
    }
  }

  lemma ReleaserSpares(sh: Shared, c: Pc, h: Pc, x: nat)
    requires Inv(sh, c, h) && x < |sh.calls| && Live(c) != Some(x) && (c.PollExpired? || c.ConfigRelease?)
    ensures Spares(sh, Advance(sh, 0, c), x)
  {
    assert sh.opDone != Some(Done(x));
  }

  lemma WorkerSpares(sh: Shared, c: Pc, x: nat)
    requires Roles(c, Idle) && !c.PollExpired? && !c.ConfigRelease?
    requires x < |sh.calls| && Live(c) != Some(x)
    ensures Spares(sh, Advance(sh, 0, c), x)
  {
  }

  lemma HandlerSpares(sh: Shared, c: Pc, h: Pc, x: nat)
    requires Inv(sh, c, h) && x < |sh.calls| && Live(c) != Some(x)
    ensures Spares(sh, Advance(sh, 1, h), x)
  {
    if h.RxStoreSize? || h.RxCopy? {
      CopierSpares(sh, c, h, x);
    } else if h.RxEntered? || h.TxEntered? {
      EntrantSpares(sh, c, h, x);
    }
  }

  lemma CopierSpares(sh: Shared, c: Pc, h: Pc, x: nat)
    requires Inv(sh, c, h) && x < |sh.calls| && Live(c) != Some(x) && (h.RxStoreSize? || h.RxCopy?)
    ensures Spares(sh, Advance(sh, 1, h), x)
  {
    assert sh.rxParams == Some(c.call) && c.call != x;
  }

  lemma EntrantSpares(sh: Shared, c: Pc, h: Pc, x: nat)
    requires Inv(sh, c, h) && x < |sh.calls| && Live(c) != Some(x) && (h.RxEntered? || h.TxEntered?)
    ensures Spares(sh, Advance(sh, 1, h), x)
  {
    assert sh.opDone != Some(Done(x));
  }

  lemma ArrivalSpares(sh: Shared, c: Pc, h: Pc, e: Event, x: nat)
    requires Inv(sh, c, h) && x < |sh.calls| && Live(c) != Some(x)
    ensures Spares(sh, Arrive(sh, e), x)
  {
  }

  /** Once a blocking call has returned, no step of anyone touches its buffer, its size or its signal. */
  lemma NothingAfterReturn(es: seq<Event>, m: Modem, e: Event, x: nat)
    requires CalmRun(INIT, es) == Some(m) && Calm(m, e) && Step(m, e).Some?
    requires x < |m.sh.calls| && m.sh.calls[x].result.Some?
    ensures var m' := Step(m, e).value;
            && x < |m'.sh.calls| && m'.sh.calls[x] == m.sh.calls[x]
            && (Done(x) in m'.sh.raised <==> Done(x) in m.sh.raised)
  {
    RunKeepsInv(INIT, es);
    var sh, c, h := m.sh, PcOf(m, 0), PcOf(m, 1);
    if e == Go(0) { ClientSpares(sh, c, h, x); }
    else if e == Go(1) { HandlerSpares(sh, c, h, x); }
    else if !e.Expire? { ArrivalSpares(sh, c, h, e, x); }
  }

  // ---- Wake-ups, as the one-task case of module ModemWakeUp --------------

  /**
   With one client task the transmit timeout is the only loss: unless tx_timed_out ended its session,
   the signal of a client that waits forever has been raised or is held by the one handler.
   */
  lemma OnlyTxTimeoutLoses(es: seq<Event>, m: Modem, c: nat)
    requires CalmRun(INIT, es) == Some(m) && PcOf(m, 0) == PollForever(c)
    ensures c < |m.sh.calls|
    ensures m.sh.calls[c].ending != ByTxTimeout <==> Done(c) in m.sh.raised || Holds(PcOf(m, 1)) == Some(Done(c))
    ensures m.sh.calls[c].ending == ByTxTimeout <==> Lost(m, 0, c)
  {
    RunKeepsInv(INIT, es);
    assert WaitsWell(m.sh, PcOf(m, 0), PcOf(m, 1), c, m.sh.calls[c]);
    SoloAgrees(es, m, c);
  }
}
