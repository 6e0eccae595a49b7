/**
 Which blocked clients are woken, for any number of client tasks and handlers in any interleaving.

 Assumed of the environment (Orderly): a handler is not preempted between its first shared
 access and its compare-and-swap. Nothing is assumed about the radio or about the clients.
 */
module ModemWakeUp {
  import opened Text
  import opened Modem

  /** A handler that has read operation_done and not yet tried its compare-and-swap. */
  predicate Entered(pc: Pc) {
    pc.RxEntered? || pc.TxEntered?
  }

  ghost predicate Orderly(m: Modem, e: Event) {
    forall p: nat :: Entered(PcOf(m, p)) ==> e == Go(p)
  }

  ghost function OrderlyRun(m: Modem, es: seq<Event>): Option<Modem>
    decreases es
  {
    if es == [] then Some(m)
    else if !Orderly(m, es[0]) then None
    else
      match Step(m, es[0])
      case Some(m') => OrderlyRun(m', es[1..])
      case None => None
  }

  /** rx_done or tx_done took the modem away while operation_done was this call's signal. */
  predicate ByHandler(k: Call) {
    k.cut == ByRxDone || k.cut == ByTxDone
  }

  // ---- The invariant ----------------------------------------------------

  /** The call whose signal the party has still to store in operation_done. */
  function WillStore(pc: Pc): Option<nat> {
    match pc
    case ClearCallback(c) => Some(c)
    case StoreDone(c) => Some(c)
    case StoreSignal(Some(Done(c)), _) => Some(c)
    case _ => None
  }

  predicate StillOpen(sh: Shared, c: nat) {
    c < |sh.calls| && sh.calls[c].cut == Open
  }

  predicate Served(sh: Shared, c: nat) {
    c < |sh.calls| && ByHandler(sh.calls[c])
  }

  /** operation_done is the signal of a call whose session has been ended. */
  predicate Spent(sh: Shared) {
    sh.opDone.Some? && sh.opDone.value.Done? && !StillOpen(sh, sh.opDone.value.call)
  }

  predicate Sound(sh: Shared) {
    && (sh.opDone.Some? && sh.opDone.value.Done? ==> sh.opDone.value.call < |sh.calls|)
    && (Spent(sh) ==> sh.usage == Cleanup)
    && (forall s :: s in sh.raised && s.Done? ==> Served(sh, s.call))
  }

  /** What is known about one party. */
  predicate Local(sh: Shared, pc: Pc) {
    && (InSection(pc) ==> sh.usage == Cleanup)
    && (Entered(pc) ==> pc.sig == sh.opDone)
    && (pc.Clearing? ==> !Spent(sh))
    && (WillStore(pc).Some? ==> StillOpen(sh, WillStore(pc).value) && sh.opDone != Some(Done(WillStore(pc).value)))
    && (Holds(pc).Some? && Holds(pc).value.Done? ==> Served(sh, Holds(pc).value.call))
    && (Live(pc).Some? ==> Live(pc).value < |sh.calls|)
    && (WillStore(pc).Some? ==> Live(pc) == WillStore(pc))
  }

  /** Only the call whose signal is operation_done can be cut, and a handler that does so holds that signal. */
  predicate OwnCut(sh: Shared, calls: seq<Call>, held: Option<Signal>)
    requires |sh.calls| <= |calls|
  {
    forall c :: 0 <= c < |sh.calls| && calls[c].cut != sh.calls[c].cut ==>
      && sh.opDone == Some(Done(c)) && sh.usage == Busy
      && (ByHandler(calls[c]) ==> held == Some(Done(c)))
  }

  /** What the others see of a party: the call it lives in, the signal it will store, the one it will raise. */
  datatype Face = Face(live: Option<nat>, store: Option<nat>, held: Option<Signal>)

  function FaceOf(pc: Pc): Face {
    Face(Live(pc), WillStore(pc), Holds(pc))
  }

  /** How one move treats calls and signals. */
  predicate CarefulMove(sh: Shared, f: Face, sh': Shared, f': Face) {
    && |sh.calls| <= |sh'.calls| && sh.raised <= sh'.raised
    && (f'.live.Some? ==> f'.live == f.live || f'.live.value == |sh.calls|)
    && (sh'.opDone == sh.opDone || sh'.opDone == None || sh'.opDone.value.User?
        || f.store == Some(sh'.opDone.value.call))
    && (f.held.Some? ==> f'.held == f.held || f.held.value in sh'.raised)
    && OwnCut(sh, sh'.calls, f'.held)
    && (forall c :: |sh.calls| <= c < |sh'.calls| ==> sh'.calls[c].cut == Open)
  }

  predicate Careful(sh: Shared, pc: Pc, sh': Shared, pc': Pc) {
    CarefulMove(sh, FaceOf(pc), sh', FaceOf(pc'))
  }

  predicate Releases(pc: Pc) {
    pc.ConfigRelease? || pc.PollExpired? || pc.TxEntered? || pc.RxEntered?
  }

  predicate Copies(pc: Pc) {
    pc.RxStoreSize? || pc.RxCopy?
  }

  /** Ending the session of operation_done's call, which is still open, leaves all others as they were. */
  lemma EndingSpares(sh: Shared, why: Ending, c: nat)
    requires Sound(sh) && sh.usage == Busy && Served(sh, c)
    ensures EndedCalls(sh, why)[c].cut == sh.calls[c].cut
  {
    assert !Spent(sh);
  }

  /** A compare-and-swap to CLEANUP; only a handler that read operation_done goes on to raise a signal. */
  lemma ReleaseSound(sh: Shared, p: nat, yes: Pc, no: Pc, why: Ending)
    requires Sound(sh) && !yes.Clearing? && WillStore(yes) == None && Local(sh, no) && !InSection(no)
    requires !Entered(yes) && (Live(yes).Some? ==> Live(yes).value < |sh.calls|)
    requires Holds(yes).Some? ==> Holds(yes) == sh.opDone && (why == ByRxDone || why == ByTxDone)
    ensures var mv := Release(sh, p, yes, no, why); Sound(mv.sh) && Local(mv.sh, mv.pc)
  {
    if sh.usage == Busy {
      var sh' := Release(sh, p, yes, no, why).sh;
      forall s | s in sh'.raised && s.Done?
        ensures Served(sh', s.call)
      {
        EndingSpares(sh, why, s.call);
      }
    }
  }

  lemma EndedOwnCut(sh: Shared, why: Ending, held: Option<Signal>)
    requires sh.usage == Busy && (why == ByRxDone || why == ByTxDone ==> held == sh.opDone)
    ensures OwnCut(sh, EndedCalls(sh, why), held)
  {
    var calls := EndedCalls(sh, why);
    forall c | 0 <= c < |sh.calls| && calls[c].cut != sh.calls[c].cut
      ensures sh.opDone == Some(Done(c)) && (ByHandler(calls[c]) ==> held == Some(Done(c)))
    {
      assert calls[c] == EndedCall(sh, why, c);
    }
  }

  /** The compare-and-swap, successful or not, seen from outside. */
  lemma SwapCareful(sh: Shared, p: nat, f: Face, yes: Face, no: Face, why: Ending)
    requires f.held == None && (yes.live.Some? ==> yes.live == f.live) && (no.live.Some? ==> no.live == f.live)
    requires why == ByRxDone || why == ByTxDone ==> yes.held == sh.opDone
    ensures sh.usage != Busy ==> CarefulMove(sh, f, sh, no)
    ensures sh.usage == Busy ==>
              var calls := EndedCalls(sh, why);
              CarefulMove(sh, f, sh.(usage := Cleanup, cleaner := Some(p), calls := calls, holder := None), yes)
  {
    if sh.usage == Busy {
      EndedOwnCut(sh, why, yes.held);
    }
  }

  lemma ReleaserSound(sh: Shared, p: nat, pc: Pc)
    requires Sound(sh) && Local(sh, pc) && Releases(pc)
    ensures var mv := Advance(sh, p, pc); mv.Move? && Sound(mv.sh) && Local(mv.sh, mv.pc)
  {
    match pc
    case ConfigRelease => ReleaseSound(sh, p, Sleeping(Return), Idle, ByRelease);
    case PollExpired(c) => ReleaseSound(sh, p, Sleeping(GiveUp(c)), PollForever(c), ByRelease);
    case TxEntered(sig) => ReleaseSound(sh, p, Sleeping(RaiseNext(sig)), Idle, ByTxDone);
    case RxEntered(sig, packet) => if !sh.asyncCb { ReleaseSound(sh, p, RxStoreSize(sig, packet), Idle, ByRxDone); }
    case _ =>
  }

  lemma SizeStorerSound(sh: Shared, p: nat, pc: Pc)
    requires Sound(sh) && Local(sh, pc) && pc.RxStoreSize?
    ensures var mv := Advance(sh, p, pc); mv.Move? && Sound(mv.sh) && Local(mv.sh, mv.pc)
  {
  }

  lemma CopierSound(sh: Shared, p: nat, pc: Pc)
    requires Sound(sh) && Local(sh, pc) && pc.RxCopy?
    ensures var mv := Advance(sh, p, pc); mv.Move? && Sound(mv.sh) && Local(mv.sh, mv.pc)
  {
  }

  lemma LeaverSound(sh: Shared, p: nat, pc: Pc)
    requires Sound(sh) && Local(sh, pc) && (pc.Sleeping? || pc.Forgetting?)
    ensures var mv := Advance(sh, p, pc); mv.Move? && Sound(mv.sh) && Local(mv.sh, mv.pc)
  {
  }

  lemma ClearerSound(sh: Shared, p: nat, pc: Pc)
    requires Sound(sh) && Local(sh, pc) && pc.Clearing?
    ensures var mv := Advance(sh, p, pc); mv.Move? && Sound(mv.sh) && Local(mv.sh, mv.pc)
  {
  }

  /** A blocked client that returns, or a handler that raises its signal. */
  predicate Concludes(pc: Pc) {
    pc.Polling? || pc.PollForever? || pc.Raising?
  }

  lemma ConcluderSound(sh: Shared, p: nat, pc: Pc)
    requires Sound(sh) && Local(sh, pc) && Concludes(pc) && Advance(sh, p, pc).Move?
    ensures var mv := Advance(sh, p, pc); Sound(mv.sh) && Local(mv.sh, mv.pc)
  {
  }

  lemma WorkerSound(sh: Shared, p: nat, pc: Pc)
    requires Sound(sh) && Local(sh, pc) && !Releases(pc) && !InSection(pc) && !Concludes(pc) && Advance(sh, p, pc).Move?
    ensures var mv := Advance(sh, p, pc); Sound(mv.sh) && Local(mv.sh, mv.pc)
  {
  }

  lemma AdvanceSound(sh: Shared, p: nat, pc: Pc)
    requires Sound(sh) && Local(sh, pc) && Advance(sh, p, pc).Move?
    ensures var mv := Advance(sh, p, pc); Sound(mv.sh) && Local(mv.sh, mv.pc)
  {
    if Releases(pc) { ReleaserSound(sh, p, pc); }
    else if pc.RxStoreSize? { SizeStorerSound(sh, p, pc); }
    else if pc.RxCopy? { CopierSound(sh, p, pc); }
    else if pc.Clearing? { ClearerSound(sh, p, pc); }
    else if InSection(pc) { LeaverSound(sh, p, pc); }
    else if Concludes(pc) { ConcluderSound(sh, p, pc); }
    else { WorkerSound(sh, p, pc); }
  }

  lemma ReleaserCareful(sh: Shared, p: nat, pc: Pc)
    requires Sound(sh) && Local(sh, pc) && Releases(pc)
    ensures var mv := Advance(sh, p, pc); mv.Move? && Careful(sh, pc, mv.sh, mv.pc)
  {
    match pc
    case ConfigRelease => SwapCareful(sh, p, FaceOf(pc), FaceOf(Sleeping(Return)), FaceOf(Idle), ByRelease);
    case PollExpired(c) =>
      SwapCareful(sh, p, FaceOf(pc), FaceOf(Sleeping(GiveUp(c))), FaceOf(PollForever(c)), ByRelease);
    case TxEntered(sig) => SwapCareful(sh, p, FaceOf(pc), FaceOf(Sleeping(RaiseNext(sig))), FaceOf(Idle), ByTxDone);
    case RxEntered(sig, packet) =>
      if !sh.asyncCb {
        SwapCareful(sh, p, FaceOf(pc), FaceOf(RxStoreSize(sig, packet)), FaceOf(Idle), ByRxDone);
      }
    case _ =>
  }

  lemma AdvanceCareful(sh: Shared, p: nat, pc: Pc)
    requires Sound(sh) && Local(sh, pc) && Advance(sh, p, pc).Move?
    ensures var mv := Advance(sh, p, pc); Careful(sh, pc, mv.sh, mv.pc)
  {
    if Releases(pc) {
      ReleaserCareful(sh, p, pc);
    } else {
      WorkerCareful(sh, p, pc);
    }
  }

  lemma WorkerCareful(sh: Shared, p: nat, pc: Pc)
    requires Local(sh, pc) && !Releases(pc) && Advance(sh, p, pc).Move?
    ensures var mv := Advance(sh, p, pc); Careful(sh, pc, mv.sh, mv.pc)
  {
    if Copies(pc) {
      CopierCareful(sh, p, pc);
    } else if pc.Clearing? {
      ClearerCareful(sh, p, pc);
    }
  }

  lemma CopierCareful(sh: Shared, p: nat, pc: Pc)
    requires Copies(pc)
    ensures var mv := Advance(sh, p, pc); mv.Move? && Careful(sh, pc, mv.sh, mv.pc)
  {
  }

  lemma ClearerCareful(sh: Shared, p: nat, pc: Pc)
    requires pc.Clearing?
    ensures var mv := Advance(sh, p, pc); mv.Move? && Careful(sh, pc, mv.sh, mv.pc)
  {
  }

  lemma AcquireForSound(sh: Shared, pc: Pc, k: Call)
    requires Sound(sh) && k.cut == Open && WillStore(pc) == Some(|sh.calls|) && Live(pc) == Some(|sh.calls|)
    requires Holds(pc) == None
    ensures var mv := AcquireFor(sh, pc, k); mv.Move? && Sound(mv.sh) && Local(mv.sh, mv.pc)
  {
  }

  lemma OtherArriveSound(sh: Shared, e: Event)
    requires Sound(sh) && Arrive(sh, e).Move?
    requires !e.CancelRecvAsync? && !e.TxTimedOut? && !e.BeginRecv? && !e.BeginSend?
    ensures var mv := Arrive(sh, e); Sound(mv.sh) && Local(mv.sh, mv.pc)
  {
  }

  lemma ArriveSound(sh: Shared, e: Event)
    requires Sound(sh) && Arrive(sh, e).Move?
    ensures var mv := Arrive(sh, e); Sound(mv.sh) && Local(mv.sh, mv.pc)
  {
    match e
    case CancelRecvAsync(p) => ReleaseSound(sh, p, Sleeping(Return), Idle, ByRelease);
    case TxTimedOut(p) => ReleaseSound(sh, p, Sleeping(Return), Idle, ByTxTimeout);
    case BeginRecv(_, buffer) => AcquireForSound(sh, ClearCallback(|sh.calls|), NewCall(true, buffer));
    case BeginSend(_) =>
      AcquireForSound(sh, StoreSignal(Some(Done(|sh.calls|)), Some(|sh.calls|)), NewCall(false, []));
    case _ => OtherArriveSound(sh, e);
  }

  lemma ArriveCareful(sh: Shared, e: Event)
    requires Sound(sh) && Arrive(sh, e).Move?
    ensures var mv := Arrive(sh, e); Careful(sh, Idle, mv.sh, mv.pc)
  {
    match e
    case CancelRecvAsync(p) => SwapCareful(sh, p, FaceOf(Idle), FaceOf(Sleeping(Return)), FaceOf(Idle), ByRelease);
    case TxTimedOut(p) => SwapCareful(sh, p, FaceOf(Idle), FaceOf(Sleeping(Return)), FaceOf(Idle), ByTxTimeout);
    case _ =>
  }

  /** A move of one party leaves what is known about another one true. */
  lemma OtherKept(sh: Shared, pc: Pc, sh': Shared, pc': Pc, other: Pc)
    requires Sound(sh) && Sound(sh') && Careful(sh, pc, sh', pc') && Local(sh, other) && !Entered(other)
    requires Local(sh, pc) && (Live(other).Some? ==> Live(other) != Live(pc))
    requires InSection(other) ==> sh'.usage == Cleanup
    ensures Local(sh', other)
    ensures Live(other).Some? ==> Live(other) != Live(pc')
  {
  }

  /** The signal of call c has been raised, or a handler is on its way to raise it. */
  ghost predicate Answered(m: Modem, c: nat) {
    Done(c) in m.sh.raised || exists q: nat :: Holds(PcOf(m, q)) == Some(Done(c))
  }

  ghost predicate Tracked(m: Modem) {
    && Exclusive(m) && Sound(m.sh)
    && (forall p: nat :: Local(m.sh, PcOf(m, p)))
    && (forall p: nat, q: nat :: Live(PcOf(m, p)).Some? && Live(PcOf(m, p)) == Live(PcOf(m, q)) ==> p == q)
    && (forall c: nat :: Served(m.sh, c) ==> Answered(m, c))
  }

  /** The moving party and the shared state. */
  lemma MoverKept(m: Modem, e: Event)
    requires Tracked(m) && Step(m, e).Some?
    ensures var pc, m' := PcOf(m, e.party), Step(m, e).value;
            && Sound(m'.sh) && Local(m'.sh, PcOf(m', e.party))
            && Careful(m.sh, pc, m'.sh, PcOf(m', e.party))
  {
    var sh, p, pc := m.sh, e.party, PcOf(m, e.party);
    if e.Go? {
      AdvanceSound(sh, p, pc);
      AdvanceCareful(sh, p, pc);
    } else if !e.Expire? {
      ArriveSound(sh, e);
      ArriveCareful(sh, e);
    }
  }

  lemma OthersKept(m: Modem, e: Event, q: nat)
    requires Tracked(m) && Orderly(m, e) && Step(m, e).Some? && q != e.party
    ensures var m' := Step(m, e).value;
            && PcOf(m', q) == PcOf(m, q) && Local(m'.sh, PcOf(m', q))
            && (Live(PcOf(m', q)).Some? ==> Live(PcOf(m', q)) != Live(PcOf(m', e.party)))
  {
    var m', pc, other := Step(m, e).value, PcOf(m, e.party), PcOf(m, q);
    MoverKept(m, e);
    StepKeepsExclusive(m, e);
    assert Local(m.sh, pc) && Local(m.sh, other) && !Entered(other);
    assert InSection(other) ==> m'.sh.cleaner == Some(q) by { assert PcOf(m', q) == other; }
    OtherKept(m.sh, pc, m'.sh, PcOf(m', e.party), other);
  }

  lemma AnswersKept(m: Modem, e: Event, c: nat)
    requires Tracked(m) && Step(m, e).Some? && Served(Step(m, e).value.sh, c)
    ensures Answered(Step(m, e).value, c)
  {
    var m', pc := Step(m, e).value, PcOf(m, e.party);
    MoverKept(m, e);
    if c < |m.sh.calls| && m'.sh.calls[c].cut == m.sh.calls[c].cut && Done(c) !in m'.sh.raised {
      assert Served(m.sh, c) && Answered(m, c);
      var q: nat :| Holds(PcOf(m, q)) == Some(Done(c));
      assert Holds(PcOf(m', q)) == Some(Done(c));
    } else if c < |m.sh.calls| && m'.sh.calls[c].cut != m.sh.calls[c].cut {
      assert Holds(PcOf(m', e.party)) == Some(Done(c));
    }
  }

  lemma StepKeepsTracked(m: Modem, e: Event)
    requires Tracked(m) && Orderly(m, e) && Step(m, e).Some?
    ensures Tracked(Step(m, e).value)
  {
    var m' := Step(m, e).value;
    StepKeepsExclusive(m, e);
    MoverKept(m, e);
    forall q: nat ensures Local(m'.sh, PcOf(m', q)) {
      if q != e.party { OthersKept(m, e, q); }
    }
    forall p: nat, q: nat | Live(PcOf(m', p)).Some? && Live(PcOf(m', p)) == Live(PcOf(m', q))
      ensures p == q
    {
      if p != e.party { OthersKept(m, e, p); }
      if q != e.party { OthersKept(m, e, q); }
    }
    forall c: nat | Served(m'.sh, c) ensures Answered(m', c) {
      AnswersKept(m, e, c);
    }
  }

  lemma {:induction false} RunKeepsTracked(m: Modem, es: seq<Event>)
    requires Tracked(m) && OrderlyRun(m, es).Some?
    ensures Tracked(OrderlyRun(m, es).value)
    decreases es
  {
    if es != [] {
      StepKeepsTracked(m, es[0]);
      RunKeepsTracked(Step(m, es[0]).value, es[1..]);
    }
  }

  lemma AnsweredMeansServed(m: Modem, c: nat)
    requires Tracked(m)
    ensures Answered(m, c) <==> Served(m.sh, c)
  {
    if exists q: nat :: Holds(PcOf(m, q)) == Some(Done(c)) {
      var q: nat :| Holds(PcOf(m, q)) == Some(Done(c));
      assert Local(m.sh, PcOf(m, q));
    }
  }

  // ---- Main results -----------------------------------------------------

  /**
   A client that failed to release and waits forever has been woken, or a handler is on its way
   to wake it, exactly when rx_done or tx_done took the modem while operation_done was its signal.
   (Module ModemSession says when that is the same as ending its session.)
   */
  lemma NoLostWakeUp(es: seq<Event>, m: Modem, p: nat, c: nat)
    requires OrderlyRun(INIT, es) == Some(m) && PcOf(m, p) == PollForever(c)
    ensures c < |m.sh.calls|
    ensures ByHandler(m.sh.calls[c]) <==> Answered(m, c)
  {
    RunKeepsTracked(INIT, es);
    assert Local(m.sh, PcOf(m, p));
    AnsweredMeansServed(m, c);
  }

  /** How many steps party p takes. */
  function StepsOf(es: seq<Event>, p: nat): nat {
    if es == [] then 0 else (if es[0] == Go(p) then 1 else 0) + StepsOf(es[1..], p)
  }

  /** Steps a handler past its compare-and-swap still takes before its signal is raised. */
  function StepsToRaise(pc: Pc): (n: nat)
    ensures n <= 6
  {
    match pc
    case RxStoreSize(_, _) => 6
    case RxCopy(_, _) => 5
    case Sleeping(_) => 4
    case Forgetting(_) => 3
    case Clearing(_) => 2
    case Raising(_) => 1
    case _ => 0
  }

  /** The party holds s and raises it at the latest with its n-th step. */
  predicate RaisesWithin(m: Modem, q: nat, s: Signal, n: nat) {
    s in m.sh.raised || (Holds(PcOf(m, q)) == Some(s) && n >= StepsToRaise(PcOf(m, q)))
  }

  lemma HandlerAdvances(sh: Shared, p: nat, pc: Pc, s: Signal)
    requires Holds(pc) == Some(s) && Advance(sh, p, pc).Move?
    ensures var mv := Advance(sh, p, pc);
            s in mv.sh.raised || (Holds(mv.pc) == Some(s) && StepsToRaise(mv.pc) == StepsToRaise(pc) - 1)
  {
  }

  lemma RaisedStays(m: Modem, e: Event, s: Signal)
    requires s in m.sh.raised && Step(m, e).Some?
    ensures s in Step(m, e).value.sh.raised
  {
  }

  lemma StepRaisesWithin(m: Modem, e: Event, q: nat, s: Signal, n: nat)
    requires RaisesWithin(m, q, s, n) && Step(m, e).Some?
    ensures RaisesWithin(Step(m, e).value, q, s, if e == Go(q) && n > 0 then n - 1 else n)
  {
    if s in m.sh.raised {
      RaisedStays(m, e, s);
    } else if e.party == q {
      assert e == Go(q);
      HandlerAdvances(m.sh, q, PcOf(m, q), s);
    } else {
      assert PcOf(Step(m, e).value, q) == PcOf(m, q);
    }
  }

  /** In whatever interleaving, a handler that holds a signal has raised it after that many steps of its own. */
  lemma {:induction false} HandlerRaises(m: Modem, fs: seq<Event>, q: nat, s: Signal)
    requires Run(m, fs).Some? && RaisesWithin(m, q, s, StepsOf(fs, q))
    ensures s in Run(m, fs).value.sh.raised
    decreases fs
  {
    if fs != [] {
      StepRaisesWithin(m, fs[0], q, s, StepsOf(fs, q));
      HandlerRaises(Step(m, fs[0]).value, fs[1..], q, s);
    }
  }

  /** The client of call c still waits for its signal, or has its result. */
  predicate WaitsFor(m: Modem, p: nat, c: nat) {
    c < |m.sh.calls| && (PcOf(m, p) == PollForever(c) || m.sh.calls[c].result.Some?)
  }

  /** Calls are never forgotten, and a result once given stays. */
  predicate KeepsResults(sh: Shared, sh': Shared) {
    && |sh.calls| <= |sh'.calls|
    && forall c :: 0 <= c < |sh.calls| && sh.calls[c].result.Some? ==> sh'.calls[c].result.Some?
  }

  lemma AdvanceKeepsResults(sh: Shared, p: nat, pc: Pc)
    requires Advance(sh, p, pc).Move?
    ensures KeepsResults(sh, Advance(sh, p, pc).sh)
  {
  }

  lemma ArriveKeepsResults(sh: Shared, e: Event)
    requires Arrive(sh, e).Move?
    ensures KeepsResults(sh, Arrive(sh, e).sh)
  {
  }

  lemma StepKeepsWaiter(m: Modem, e: Event, p: nat, c: nat)
    requires Step(m, e).Some? && WaitsFor(m, p, c)
    ensures WaitsFor(Step(m, e).value, p, c)
  {
    if e.Go? {
      AdvanceKeepsResults(m.sh, e.party, PcOf(m, e.party));
    } else if !e.Expire? {
      ArriveKeepsResults(m.sh, e);
    }
  }

  lemma {:induction false} WaiterKept(m: Modem, fs: seq<Event>, p: nat, c: nat)
    requires Run(m, fs).Some? && WaitsFor(m, p, c)
    ensures WaitsFor(Run(m, fs).value, p, c)
    decreases fs
  {
    if fs != [] {
      StepKeepsWaiter(m, fs[0], p, c);
      WaiterKept(Step(m, fs[0]).value, fs[1..], p, c);
    }
  }

  /** Six steps of the handler that beat the client wake it, whatever everybody else does in between. */
  lemma WokenWithinSixSteps(m: Modem, p: nat, c: nat, q: nat, fs: seq<Event>, m': Modem)
    requires c < |m.sh.calls| && PcOf(m, p) == PollForever(c)
    requires Done(c) in m.sh.raised || (Holds(PcOf(m, q)) == Some(Done(c)) && StepsOf(fs, q) >= 6)
    requires Run(m, fs) == Some(m')
    ensures Done(c) in m'.sh.raised && c < |m'.sh.calls|
    ensures m'.sh.calls[c].result.Some? || (PcOf(m', p) == PollForever(c) && Step(m', Go(p)).Some?)
  {
    HandlerRaises(m, fs, q, Done(c));
    WaiterKept(m, fs, p, c);
  }

  /**
   Somebody else took the modem while operation_done was the client's signal (tx_timed_out, a NULL-callback
   cancel or another party's late release), or operation_done is no longer its signal without anybody having done so.
   */
  predicate Lost(m: Modem, p: nat, c: nat) {
    && c < |m.sh.calls| && PcOf(m, p) == PollForever(c) && !ByHandler(m.sh.calls[c])
    && (m.sh.calls[c].cut != Open || m.sh.opDone != Some(Done(c)))
  }

  /** Nobody has taken the modem while operation_done was the client's signal, and it still is. */
  predicate Undecided(m: Modem, p: nat, c: nat) {
    c < |m.sh.calls| && PcOf(m, p) == PollForever(c) && m.sh.calls[c].cut == Open && m.sh.opDone == Some(Done(c))
  }

  /** A client that waits forever is answered, lost or undecided, and only one of these. */
  lemma WaiterFates(es: seq<Event>, m: Modem, p: nat, c: nat)
    requires OrderlyRun(INIT, es) == Some(m) && PcOf(m, p) == PollForever(c)
    ensures Answered(m, c) || Lost(m, p, c) || Undecided(m, p, c)
    ensures !(Answered(m, c) && Lost(m, p, c)) && !(Answered(m, c) && Undecided(m, p, c))
    ensures !(Lost(m, p, c) && Undecided(m, p, c))
  {
    NoLostWakeUp(es, m, p, c);
  }

  lemma StepKeepsLost(m: Modem, e: Event, p: nat, c: nat)
    requires Tracked(m) && Lost(m, p, c) && Step(m, e).Some?
    ensures Lost(Step(m, e).value, p, c)
  {
    MoverKept(m, e);
    assert Local(m.sh, PcOf(m, e.party));
    assert WillStore(PcOf(m, e.party)) != Some(c);
  }

  lemma {:induction false} RunKeepsLost(m: Modem, fs: seq<Event>, p: nat, c: nat)
    requires Tracked(m) && Lost(m, p, c) && OrderlyRun(m, fs).Some?
    ensures Tracked(OrderlyRun(m, fs).value) && Lost(OrderlyRun(m, fs).value, p, c)
    decreases fs
  {
    if fs != [] {
      StepKeepsLost(m, fs[0], p, c);
      StepKeepsTracked(m, fs[0]);
      RunKeepsLost(Step(m, fs[0]).value, fs[1..], p, c);
    }
  }

  lemma LostIsUnanswered(m: Modem, p: nat, c: nat)
    requires Tracked(m) && Lost(m, p, c)
    ensures !Answered(m, c) && Step(m, Go(p)).None?
  {
    forall q: nat ensures Holds(PcOf(m, q)) != Some(Done(c)) {
      assert Local(m.sh, PcOf(m, q));
    }
  }

  /** The client stays blocked in every continuation. */
  ghost predicate BlockedForever(m: Modem, p: nat, c: nat) {
    forall fs :: OrderlyRun(m, fs).Some? ==>
      var m' := OrderlyRun(m, fs).value; PcOf(m', p) == PollForever(c) && Step(m', Go(p)).None? && !Answered(m', c)
  }

  /** A lost client stays blocked in every continuation. */
  lemma LostForever(es: seq<Event>, m: Modem, p: nat, c: nat)
    requires OrderlyRun(INIT, es) == Some(m) && Lost(m, p, c)
    ensures BlockedForever(m, p, c)
  {
    RunKeepsTracked(INIT, es);
    forall fs | OrderlyRun(m, fs).Some?
      ensures var m' := OrderlyRun(m, fs).value;
              PcOf(m', p) == PollForever(c) && Step(m', Go(p)).None? && !Answered(m', c)
    {
      RunKeepsLost(m, fs, p, c);
      LostIsUnanswered(OrderlyRun(m, fs).value, p, c);
    }
  }

  /** The next step of the party takes the modem as rx_done or tx_done. */
  predicate HandlerTakes(sh: Shared, e: Event, pc: Pc) {
    e.Go? && sh.usage == Busy && (pc.TxEntered? || (pc.RxEntered? && !sh.asyncCb))
  }

  /** An undecided client is answered by the first handler that takes the modem, whosever session that ends, only. */
  lemma UndecidedStep(es: seq<Event>, m: Modem, e: Event, p: nat, c: nat)
    requires OrderlyRun(INIT, es) == Some(m) && Undecided(m, p, c) && Orderly(m, e) && Step(m, e).Some?
    ensures var m' := Step(m, e).value;
            && PcOf(m', p) == PollForever(c)
            && (Answered(m', c) <==> HandlerTakes(m.sh, e, PcOf(m, e.party)))
            && (!Answered(m', c) ==> Lost(m', p, c) || Undecided(m', p, c))
  {
    var m' := Step(m, e).value;
    RunKeepsTracked(INIT, es);
    StepKeepsTracked(m, e);
    WaiterStays(m, e, p, c);
    CutBy(m, e, c);
    AnsweredMeansServed(m', c);
  }

  lemma WaiterStays(m: Modem, e: Event, p: nat, c: nat)
    requires Tracked(m) && Undecided(m, p, c) && Step(m, e).Some?
    ensures c < |Step(m, e).value.sh.calls| && PcOf(Step(m, e).value, p) == PollForever(c)
  {
    MoverKept(m, e);
  }

  lemma CutByAdvance(sh: Shared, p: nat, pc: Pc, c: nat)
    requires Sound(sh) && StillOpen(sh, c) && sh.opDone == Some(Done(c)) && Advance(sh, p, pc).Move?
    ensures Served(Advance(sh, p, pc).sh, c) <==> HandlerTakes(sh, Go(p), pc)
  {
    if Releases(pc) {
      assert sh.usage == Busy ==> forall why :: EndedCalls(sh, why)[c].cut == why;
    }
  }

  lemma CutByArrive(sh: Shared, e: Event, c: nat)
    requires StillOpen(sh, c) && Arrive(sh, e).Move?
    ensures !Served(Arrive(sh, e).sh, c)
  {
  }

  lemma CutBy(m: Modem, e: Event, c: nat)
    requires Tracked(m) && Step(m, e).Some? && StillOpen(m.sh, c) && m.sh.opDone == Some(Done(c))
    ensures Served(Step(m, e).value.sh, c) <==> HandlerTakes(m.sh, e, PcOf(m, e.party))
  {
    if e.Go? {
      CutByAdvance(m.sh, e.party, PcOf(m, e.party), c);
    } else if !e.Expire? {
      CutByArrive(m.sh, e, c);
    }
  }
}
