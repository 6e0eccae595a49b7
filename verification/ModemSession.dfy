/**
 Who ended the session a blocking call acquired, and when that is who took the modem while
 operation_done was its signal.

 The two are the same in every run in which no compare-and-swap to CLEANUP hits a party between its
 acquire and its store of operation_done (Undisturbed), for any number of parties.
 */
module ModemSession {
  import opened Text
  import opened Modem
  import opened ModemWakeUp

  /** rx_done or tx_done ended the session the call acquired. */
  predicate EndedByHandler(k: Call) {
    k.ending == ByRxDone || k.ending == ByTxDone
  }

  /** A session is open exactly while its call holds the word. */
  predicate Sessions(sh: Shared) {
    && (sh.holder.Some? ==> sh.usage == Busy && sh.holder.value < |sh.calls|)
    && (forall c :: 0 <= c < |sh.calls| ==> (sh.calls[c].ending == Open <==> sh.holder == Some(c)))
  }

  /** A call that waits forever has lost its session. */
  predicate WaitsWithout(sh: Shared, pc: Pc) {
    pc.PollForever? ==> pc.call < |sh.calls| && sh.calls[pc.call].ending != Open
  }

  /** Ended sessions stay ended. */
  predicate EndingsStay(sh: Shared, sh': Shared) {
    && |sh.calls| <= |sh'.calls|
    && forall c :: 0 <= c < |sh.calls| && sh.calls[c].ending != Open ==> sh'.calls[c].ending == sh.calls[c].ending
  }

  lemma ReleaseSessions(sh: Shared, p: nat, yes: Pc, no: Pc, why: Ending)
    requires Sessions(sh) && why != Open
    ensures var mv := Release(sh, p, yes, no, why); Sessions(mv.sh) && EndingsStay(sh, mv.sh)
  {
  }

  lemma ReleaserSessions(sh: Shared, p: nat, pc: Pc)
    requires Sessions(sh) && Releases(pc)
    ensures var mv := Advance(sh, p, pc); mv.Move? && Sessions(mv.sh) && EndingsStay(sh, mv.sh)
  {
    match pc
    case ConfigRelease => ReleaseSessions(sh, p, Sleeping(Return), Idle, ByRelease);
    case PollExpired(c) => ReleaseSessions(sh, p, Sleeping(GiveUp(c)), PollForever(c), ByRelease);
    case TxEntered(sig) => ReleaseSessions(sh, p, Sleeping(RaiseNext(sig)), Idle, ByTxDone);
    case RxEntered(sig, packet) => if !sh.asyncCb { ReleaseSessions(sh, p, RxStoreSize(sig, packet), Idle, ByRxDone); }
    case _ =>
  }

  lemma SectionSessions(sh: Shared, p: nat, pc: Pc)
    requires Sessions(sh) && InSection(pc) && sh.usage == Cleanup
    ensures var mv := Advance(sh, p, pc); mv.Move? && Sessions(mv.sh) && EndingsStay(sh, mv.sh)
  {
  }

  lemma AdvanceSessions(sh: Shared, p: nat, pc: Pc)
    requires Sessions(sh) && Advance(sh, p, pc).Move? && (InSection(pc) ==> sh.usage == Cleanup)
    ensures var mv := Advance(sh, p, pc); Sessions(mv.sh) && EndingsStay(sh, mv.sh)
  {
    if Releases(pc) {
      ReleaserSessions(sh, p, pc);
    } else if InSection(pc) {
      SectionSessions(sh, p, pc);
    }
  }

  lemma ArriveSessions(sh: Shared, e: Event)
    requires Sessions(sh) && Arrive(sh, e).Move?
    ensures var mv := Arrive(sh, e); Sessions(mv.sh) && EndingsStay(sh, mv.sh)
  {
    match e
    case CancelRecvAsync(p) => ReleaseSessions(sh, p, Sleeping(Return), Idle, ByRelease);
    case TxTimedOut(p) => ReleaseSessions(sh, p, Sleeping(Return), Idle, ByTxTimeout);
    case _ =>
  }

  lemma StepSessions(m: Modem, e: Event)
    requires Exclusive(m) && Sessions(m.sh) && Step(m, e).Some?
    ensures Sessions(Step(m, e).value.sh) && EndingsStay(m.sh, Step(m, e).value.sh)
  {
    if e.Go? {
      assert InSection(PcOf(m, e.party)) <==> m.sh.cleaner == Some(e.party);
      AdvanceSessions(m.sh, e.party, PcOf(m, e.party));
    } else if !e.Expire? {
      ArriveSessions(m.sh, e);
    }
  }

  lemma {:induction false} RunSessions(m: Modem, es: seq<Event>)
    requires Exclusive(m) && Sessions(m.sh) && Run(m, es).Some?
    ensures Exclusive(Run(m, es).value) && Sessions(Run(m, es).value.sh)
    decreases es
  {
    if es != [] {
      StepKeepsExclusive(m, es[0]);
      StepSessions(m, es[0]);
      RunSessions(Step(m, es[0]).value, es[1..]);
    }
  }

  /** In every run of any parties the calls whose session is open are the one that holds the word, if any. */
  lemma OneOpenSession(es: seq<Event>, m: Modem, c: nat)
    requires Run(INIT, es) == Some(m) && c < |m.sh.calls|
    ensures m.sh.calls[c].ending == Open <==> m.sh.holder == Some(c)
    ensures m.sh.holder == Some(c) ==> m.sh.usage == Busy
  {
    RunSessions(INIT, es);
  }

  /** A party's call exists, and has lost its session if the party waits forever. */
  predicate Placed(sh: Shared, pc: Pc) {
    (Live(pc).Some? ==> Live(pc).value < |sh.calls|) && WaitsWithout(sh, pc)
  }

  lemma AdvancePlaced(sh: Shared, p: nat, pc: Pc)
    requires Sessions(sh) && Placed(sh, pc) && Advance(sh, p, pc).Move?
    ensures var mv := Advance(sh, p, pc); Placed(mv.sh, mv.pc)
  {
  }

  lemma ArrivePlaced(sh: Shared, e: Event)
    requires Arrive(sh, e).Move?
    ensures var mv := Arrive(sh, e); Placed(mv.sh, mv.pc)
  {
  }

  lemma StepPlaced(m: Modem, e: Event)
    requires Exclusive(m) && Sessions(m.sh) && Step(m, e).Some? && forall p: nat :: Placed(m.sh, PcOf(m, p))
    ensures var m' := Step(m, e).value; forall p: nat :: Placed(m'.sh, PcOf(m', p))
  {
    var m', pc := Step(m, e).value, PcOf(m, e.party);
    StepSessions(m, e);
    assert Placed(m.sh, pc);
    if e.Go? {
      AdvancePlaced(m.sh, e.party, pc);
    } else if !e.Expire? {
      ArrivePlaced(m.sh, e);
    }
    forall p: nat ensures Placed(m'.sh, PcOf(m', p)) {
      assert p == e.party || (PcOf(m', p) == PcOf(m, p) && Placed(m.sh, PcOf(m, p)));
    }
  }

  lemma {:induction false} RunPlaced(m: Modem, es: seq<Event>)
    requires Exclusive(m) && Sessions(m.sh) && Run(m, es).Some? && forall p: nat :: Placed(m.sh, PcOf(m, p))
    ensures var m' := Run(m, es).value; forall p: nat :: Placed(m'.sh, PcOf(m', p))
    decreases es
  {
    if es != [] {
      StepKeepsExclusive(m, es[0]);
      StepSessions(m, es[0]);
      StepPlaced(m, es[0]);
      RunPlaced(Step(m, es[0]).value, es[1..]);
    }
  }

  /** In every run of any parties, the session of a client that waits forever has been ended. */
  lemma WaiterSessionEnded(es: seq<Event>, m: Modem, p: nat, c: nat)
    requires Run(INIT, es) == Some(m) && PcOf(m, p) == PollForever(c)
    ensures c < |m.sh.calls| && m.sh.calls[c].ending != Open
  {
    RunPlaced(INIT, es);
    assert Placed(m.sh, PcOf(m, p));
  }

  lemma {:induction false} OrderlyIsRun(m: Modem, es: seq<Event>)
    requires OrderlyRun(m, es).Some?
    ensures Run(m, es) == OrderlyRun(m, es)
    decreases es
  {
    if es != [] {
      OrderlyIsRun(Step(m, es[0]).value, es[1..]);
    }
  }

  // ---- Runs in which nobody is hit before its store ----------------------

  /** Between its acquire and its store of operation_done. */
  predicate Storing(pc: Pc) {
    pc.ClearCallback? || pc.StoreDone? || pc.StoreSignal?
  }

  /** The event is not a compare-and-swap to CLEANUP that hits a party before its store. */
  ghost predicate Undisturbed(m: Modem, e: Event) {
    m.sh.usage == Busy && Step(m, e).Some? && Step(m, e).value.sh.usage == Cleanup ==>
      forall p: nat :: !Storing(PcOf(m, p))
  }

  ghost function UndisturbedRun(m: Modem, es: seq<Event>): Option<Modem>
    decreases es
  {
    if es == [] then Some(m)
    else if !Undisturbed(m, es[0]) then None
    else
      match Step(m, es[0])
      case Some(m') => UndisturbedRun(m', es[1..])
      case None => None
  }

  /** operation_done is the signal of the call that holds the word. */
  predicate Matched(sh: Shared) {
    && (sh.holder.Some? ==> sh.opDone == Some(Done(sh.holder.value)))
    && (sh.opDone.Some? && sh.opDone.value.Done? ==> sh.holder == Some(sh.opDone.value.call))
  }

  predicate AgreedShared(sh: Shared) {
    && (sh.usage == Free ==> sh.opDone == None)
    && (forall c :: 0 <= c < |sh.calls| ==> sh.calls[c].cut == sh.calls[c].ending)
  }

  predicate AgreedLocal(sh: Shared, pc: Pc) {
    && (InSection(pc) ==> sh.usage == Cleanup)
    && (pc.Clearing? ==> sh.opDone == None)
    && (Storing(pc) ==> sh.usage == Busy && sh.opDone == None && WillStore(pc) == sh.holder)
  }

  ghost predicate Agreed(m: Modem) {
    && Exclusive(m) && Sessions(m.sh) && AgreedShared(m.sh)
    && (forall p: nat :: AgreedLocal(m.sh, PcOf(m, p)))
    && (forall p: nat, q: nat :: Storing(PcOf(m, p)) && Storing(PcOf(m, q)) ==> p == q)
    && (m.sh.usage == Busy && (forall p: nat :: !Storing(PcOf(m, p))) ==> Matched(m.sh))
  }

  /** The word, operation_done and the holder are left alone. */
  predicate Quiet(sh: Shared, sh': Shared) {
    sh'.usage == sh.usage && sh'.opDone == sh.opDone && sh'.holder == sh.holder
  }

  predicate Cuts(sh: Shared, sh': Shared) {
    sh.usage == Busy && sh'.usage == Cleanup
  }

  /** What one move does to the word, operation_done and the holder. */
  predicate Effect(sh: Shared, pc: Pc, sh': Shared, pc': Pc) {
    && (Storing(pc') && !Storing(pc) ==> sh.usage == Free)
    && (if Storing(pc) then
          sh'.usage == Busy && sh'.holder == sh.holder && (if Storing(pc') then Quiet(sh, sh') else Matched(sh'))
        else if InSection(pc) then
          sh'.usage != Busy
        else
          || Quiet(sh, sh') || Cuts(sh, sh')
          || (sh.usage == Free && sh'.usage == Busy && (Storing(pc') || Matched(sh'))))
  }

  lemma ReleaseAgrees(sh: Shared, p: nat, pc: Pc, yes: Pc, no: Pc, why: Ending)
    requires AgreedShared(sh) && (sh.usage == Busy ==> Matched(sh)) && !Storing(pc) && !InSection(pc)
    requires !Storing(yes) && !yes.Clearing? && !Storing(no) && !InSection(no)
    ensures var mv := Release(sh, p, yes, no, why);
            AgreedShared(mv.sh) && AgreedLocal(mv.sh, mv.pc) && Effect(sh, pc, mv.sh, mv.pc)
  {
  }

  lemma ReleaserAgrees(sh: Shared, p: nat, pc: Pc)
    requires AgreedShared(sh) && (sh.usage == Busy ==> Matched(sh) || (pc.RxEntered? && sh.asyncCb)) && Releases(pc)
    ensures var mv := Advance(sh, p, pc);
            mv.Move? && AgreedShared(mv.sh) && AgreedLocal(mv.sh, mv.pc) && Effect(sh, pc, mv.sh, mv.pc)
  {
    match pc
    case ConfigRelease => ReleaseAgrees(sh, p, pc, Sleeping(Return), Idle, ByRelease);
    case PollExpired(c) => ReleaseAgrees(sh, p, pc, Sleeping(GiveUp(c)), PollForever(c), ByRelease);
    case TxEntered(sig) => ReleaseAgrees(sh, p, pc, Sleeping(RaiseNext(sig)), Idle, ByTxDone);
    case RxEntered(sig, packet) =>
      if !sh.asyncCb {
        ReleaseAgrees(sh, p, pc, RxStoreSize(sig, packet), Idle, ByRxDone);
      }
    case _ =>
  }

  lemma SectionAgrees(sh: Shared, p: nat, pc: Pc)
    requires AgreedShared(sh) && AgreedLocal(sh, pc) && InSection(pc)
    ensures var mv := Advance(sh, p, pc);
            mv.Move? && AgreedShared(mv.sh) && AgreedLocal(mv.sh, mv.pc) && Effect(sh, pc, mv.sh, mv.pc)
  {
  }

  lemma StorerAgrees(sh: Shared, p: nat, pc: Pc)
    requires AgreedShared(sh) && AgreedLocal(sh, pc) && Storing(pc)
    ensures var mv := Advance(sh, p, pc);
            mv.Move? && AgreedShared(mv.sh) && AgreedLocal(mv.sh, mv.pc) && Effect(sh, pc, mv.sh, mv.pc)
  {
  }

  lemma WorkerAgrees(sh: Shared, p: nat, pc: Pc)
    requires AgreedShared(sh) && !Storing(pc) && !InSection(pc) && !Releases(pc) && Advance(sh, p, pc).Move?
    ensures var mv := Advance(sh, p, pc);
            AgreedShared(mv.sh) && AgreedLocal(mv.sh, mv.pc) && Effect(sh, pc, mv.sh, mv.pc)
  {
  }

  lemma AdvanceAgrees(sh: Shared, p: nat, pc: Pc)
    requires AgreedShared(sh) && AgreedLocal(sh, pc) && Advance(sh, p, pc).Move?
    requires Cuts(sh, Advance(sh, p, pc).sh) ==> Matched(sh)
    ensures var mv := Advance(sh, p, pc);
            AgreedShared(mv.sh) && AgreedLocal(mv.sh, mv.pc) && Effect(sh, pc, mv.sh, mv.pc)
  {
    if Storing(pc) { StorerAgrees(sh, p, pc); }
    else if InSection(pc) { SectionAgrees(sh, p, pc); }
    else if Releases(pc) { ReleaserAgrees(sh, p, pc); }
    else { WorkerAgrees(sh, p, pc); }
  }

  lemma ArriveAgrees(sh: Shared, e: Event)
    requires AgreedShared(sh) && Sessions(sh) && Arrive(sh, e).Move?
    requires Cuts(sh, Arrive(sh, e).sh) ==> Matched(sh)
    ensures var mv := Arrive(sh, e);
            AgreedShared(mv.sh) && AgreedLocal(mv.sh, mv.pc) && Effect(sh, Idle, mv.sh, mv.pc)
  {
    match e
    case CancelRecvAsync(p) => ReleaseAgrees(sh, p, Idle, Sleeping(Return), Idle, ByRelease);
    case TxTimedOut(p) => ReleaseAgrees(sh, p, Idle, Sleeping(Return), Idle, ByTxTimeout);
    case _ =>
  }

  lemma MoverAgrees(m: Modem, e: Event)
    requires Agreed(m) && Undisturbed(m, e) && Step(m, e).Some?
    ensures var m' := Step(m, e).value;
            && AgreedShared(m'.sh) && AgreedLocal(m'.sh, PcOf(m', e.party))
            && Effect(m.sh, PcOf(m, e.party), m'.sh, PcOf(m', e.party))
  {
    assert AgreedLocal(m.sh, PcOf(m, e.party));
    if e.Go? {
      AdvanceAgrees(m.sh, e.party, PcOf(m, e.party));
    } else if !e.Expire? {
      ArriveAgrees(m.sh, e);
    }
  }

  lemma OtherAgrees(m: Modem, e: Event, q: nat)
    requires Agreed(m) && Undisturbed(m, e) && Step(m, e).Some? && q != e.party
    ensures var m' := Step(m, e).value;
            && PcOf(m', q) == PcOf(m, q) && AgreedLocal(m'.sh, PcOf(m', q))
            && !(Storing(PcOf(m', q)) && Storing(PcOf(m', e.party)))
  {
    var m', pc, other := Step(m, e).value, PcOf(m, e.party), PcOf(m, q);
    MoverAgrees(m, e);
    StepKeepsExclusive(m, e);
    assert AgreedLocal(m.sh, pc) && AgreedLocal(m.sh, other);
    assert InSection(other) ==> m'.sh.cleaner == Some(q) && m.sh.cleaner == Some(q) by { assert PcOf(m', q) == other; }
    assert InSection(pc) ==> m.sh.cleaner == Some(e.party);
  }

  /** If nobody is before its store afterwards and the word is BUSY, the holder and operation_done match. */
  lemma StepMatches(m: Modem, e: Event)
    requires Agreed(m) && Undisturbed(m, e) && Step(m, e).Some?
    requires Step(m, e).value.sh.usage == Busy && forall p: nat :: !Storing(PcOf(Step(m, e).value, p))
    ensures Matched(Step(m, e).value.sh)
  {
    var m' := Step(m, e).value;
    MoverAgrees(m, e);
    if !Storing(PcOf(m, e.party)) && m.sh.usage == Busy {
      forall p: nat ensures !Storing(PcOf(m, p)) {
        assert p == e.party || PcOf(m', p) == PcOf(m, p);
      }
    }
  }

  lemma StepKeepsAgreed(m: Modem, e: Event)
    requires Agreed(m) && Undisturbed(m, e) && Step(m, e).Some?
    ensures Agreed(Step(m, e).value)
  {
    var m' := Step(m, e).value;
    StepKeepsExclusive(m, e);
    StepSessions(m, e);
    MoverAgrees(m, e);
    forall q: nat ensures AgreedLocal(m'.sh, PcOf(m', q)) {
      if q != e.party { OtherAgrees(m, e, q); }
    }
    forall p: nat, q: nat | Storing(PcOf(m', p)) && Storing(PcOf(m', q))
      ensures p == q
    {
      if p != e.party { OtherAgrees(m, e, p); }
      if q != e.party { OtherAgrees(m, e, q); }
    }
    if m'.sh.usage == Busy && forall p: nat :: !Storing(PcOf(m', p)) {
      StepMatches(m, e);
    }
  }

  lemma {:induction false} RunKeepsAgreed(m: Modem, es: seq<Event>)
    requires Agreed(m) && UndisturbedRun(m, es).Some?
    ensures Agreed(UndisturbedRun(m, es).value)
    decreases es
  {
    if es != [] {
      StepKeepsAgreed(m, es[0]);
      RunKeepsAgreed(Step(m, es[0]).value, es[1..]);
    }
  }

  // ---- Main results -----------------------------------------------------

  /** In an undisturbed run, who ended a call's session is who took the modem while operation_done was its signal. */
  lemma SessionsAgree(es: seq<Event>, m: Modem, c: nat)
    requires UndisturbedRun(INIT, es) == Some(m) && c < |m.sh.calls|
    ensures m.sh.calls[c].ending == m.sh.calls[c].cut
  {
    RunKeepsAgreed(INIT, es);
  }

  /**
   So in an undisturbed run a client that failed to release and waits forever is woken exactly when rx_done or
   tx_done ended its session, and otherwise stays blocked in every continuation.
   */
  lemma WokenBySession(es: seq<Event>, m: Modem, p: nat, c: nat)
    requires OrderlyRun(INIT, es) == Some(m) && UndisturbedRun(INIT, es) == Some(m)
    requires PcOf(m, p) == PollForever(c)
    ensures c < |m.sh.calls| && m.sh.calls[c].ending != Open
    ensures EndedByHandler(m.sh.calls[c]) <==> Answered(m, c)
    ensures !EndedByHandler(m.sh.calls[c]) ==> BlockedForever(m, p, c)
  {
    NoLostWakeUp(es, m, p, c);
    SessionsAgree(es, m, c);
    OrderlyIsRun(INIT, es);
    WaiterSessionEnded(es, m, p, c);
    if !EndedByHandler(m.sh.calls[c]) {
      LostForever(es, m, p, c);
    }
  }
}
