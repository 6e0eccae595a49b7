/**
 What lora_send and lora_recv return, that they return, and what a release and the start of each call leave behind:
 for any parties and interleaving.

 Nothing is assumed. Whether a call's wait has expired is taken from the events of the run.
 */
module ModemTiming {
  import opened Text
  import opened Modem
  import opened ModemWakeUp

  /** The calls whose wait expires in the run. */
  function TimedOut(m: Modem, es: seq<Event>): set<nat>
    decreases es
  {
    if es == [] || Step(m, es[0]).None? then {}
    else
      (if es[0].Expire? then {PcOf(m, es[0].party).call} else {}) + TimedOut(Step(m, es[0]).value, es[1..])
  }

  /** The party is inside call x and its wait has expired. */
  predicate PastWait(pc: Pc) {
    || pc.PollExpired? || pc.PollForever?
    || ((pc.Sleeping? || pc.Forgetting? || pc.Clearing?) && pc.next.GiveUp?)
  }

  /** The call a party lives in has not returned, and has timed out exactly if the party is past its wait. */
  predicate Timely(sh: Shared, pc: Pc, late: set<nat>) {
    Live(pc).Some? ==>
      var x := Live(pc).value;
      x < |sh.calls| && sh.calls[x].result == None && (PastWait(pc) <==> x in late)
  }

  /** What calls that have returned reported. */
  predicate Reported(sh: Shared, late: set<nat>) {
    && (forall x :: x in late ==> x < |sh.calls|)
    && (forall x :: 0 <= x < |sh.calls| && sh.calls[x].result.Some? ==> ReportsRight(sh.calls[x], x in late))
  }

  predicate ReportsRight(k: Call, late: bool) {
    && (k.result == Some(Expired) ==> late)
    && (k.result.Some? && k.result.value.Got? && !k.receive ==> !late)
  }

  /** A move of a party that lives in some call touches the results of no other. */
  predicate OwnResult(sh: Shared, pc: Pc, sh': Shared, pc': Pc) {
    && |sh.calls| <= |sh'.calls|
    && (forall x :: 0 <= x < |sh.calls| && Live(pc) != Some(x) ==> sh'.calls[x].result == sh.calls[x].result)
    && (Live(pc').Some? ==> Live(pc') == Live(pc) || Live(pc').value == |sh.calls|)
  }

  predicate Working(pc: Pc) {
    !Releases(pc) && !InSection(pc)
  }

  lemma WorkerTimely(sh: Shared, p: nat, pc: Pc, late: set<nat>)
    requires Timely(sh, pc, late) && Reported(sh, late) && Advance(sh, p, pc).Move? && Working(pc)
    ensures var mv := Advance(sh, p, pc);
            Timely(mv.sh, mv.pc, late) && Reported(mv.sh, late) && OwnResult(sh, pc, mv.sh, mv.pc)
  {
  }

  lemma CopierTimely(sh: Shared, p: nat, pc: Pc, late: set<nat>)
    requires Timely(sh, pc, late) && Reported(sh, late) && Copies(pc)
    ensures var mv := Advance(sh, p, pc);
            mv.Move? && Timely(mv.sh, mv.pc, late) && Reported(mv.sh, late) && OwnResult(sh, pc, mv.sh, mv.pc)
  {
  }

  lemma ClearerTimely(sh: Shared, p: nat, pc: Pc, late: set<nat>)
    requires Timely(sh, pc, late) && Reported(sh, late) && pc.Clearing?
    ensures var mv := Advance(sh, p, pc);
            mv.Move? && Timely(mv.sh, mv.pc, late) && Reported(mv.sh, late) && OwnResult(sh, pc, mv.sh, mv.pc)
  {
  }

  lemma SectionTimely(sh: Shared, p: nat, pc: Pc, late: set<nat>)
    requires Timely(sh, pc, late) && Reported(sh, late) && InSection(pc)
    ensures var mv := Advance(sh, p, pc);
            mv.Move? && Timely(mv.sh, mv.pc, late) && Reported(mv.sh, late) && OwnResult(sh, pc, mv.sh, mv.pc)
  {
    if Copies(pc) {
      CopierTimely(sh, p, pc, late);
    } else if pc.Clearing? {
      ClearerTimely(sh, p, pc, late);
    }
  }

  lemma ReleaserTimely(sh: Shared, p: nat, pc: Pc, late: set<nat>)
    requires Timely(sh, pc, late) && Reported(sh, late) && Releases(pc)
    ensures var mv := Advance(sh, p, pc);
            mv.Move? && Timely(mv.sh, mv.pc, late) && Reported(mv.sh, late) && OwnResult(sh, pc, mv.sh, mv.pc)
  {
  }

  lemma ArriveTimely(sh: Shared, e: Event, late: set<nat>)
    requires Reported(sh, late) && Arrive(sh, e).Move?
    ensures var mv := Arrive(sh, e);
            Timely(mv.sh, mv.pc, late) && Reported(mv.sh, late) && OwnResult(sh, Idle, mv.sh, mv.pc)
  {
  }

  ghost predicate Timed(m: Modem, late: set<nat>) {
    && Reported(m.sh, late)
    && (forall p: nat :: Timely(m.sh, PcOf(m, p), late))
    && (forall p: nat, q: nat :: Live(PcOf(m, p)).Some? && Live(PcOf(m, p)) == Live(PcOf(m, q)) ==> p == q)
  }

  /** The calls that time out in one event. */
  function NowLate(m: Modem, e: Event): set<nat>
    requires Step(m, e).Some?
  {
    if e.Expire? then {PcOf(m, e.party).call} else {}
  }

  lemma MoverTimed(m: Modem, e: Event, late: set<nat>)
    requires Timed(m, late) && Step(m, e).Some?
    ensures var m', pc := Step(m, e).value, PcOf(m, e.party);
            && Timely(m'.sh, PcOf(m', e.party), late + NowLate(m, e)) && Reported(m'.sh, late + NowLate(m, e))
            && OwnResult(m.sh, pc, m'.sh, PcOf(m', e.party))
  {
    var sh, p, pc := m.sh, e.party, PcOf(m, e.party);
    assert Timely(sh, pc, late);
    if e.Go? {
      if Releases(pc) { ReleaserTimely(sh, p, pc, late); }
      else if InSection(pc) { SectionTimely(sh, p, pc, late); }
      else { WorkerTimely(sh, p, pc, late); }
    } else if !e.Expire? {
      ArriveTimely(sh, e, late);
    }
    assert !e.Expire? ==> late + NowLate(m, e) == late;
  }

  lemma OtherTimed(m: Modem, e: Event, late: set<nat>, q: nat)
    requires Timed(m, late) && Step(m, e).Some? && q != e.party
    ensures var m' := Step(m, e).value;
            && PcOf(m', q) == PcOf(m, q) && Timely(m'.sh, PcOf(m', q), late + NowLate(m, e))
            && (Live(PcOf(m', q)).Some? ==> Live(PcOf(m', q)) != Live(PcOf(m', e.party)))
  {
    MoverTimed(m, e, late);
    assert Timely(m.sh, PcOf(m, q), late) && Timely(m.sh, PcOf(m, e.party), late);
  }

  lemma StepKeepsTimed(m: Modem, e: Event, late: set<nat>)
    requires Timed(m, late) && Step(m, e).Some?
    ensures Timed(Step(m, e).value, late + NowLate(m, e))
  {
    var m', late' := Step(m, e).value, late + NowLate(m, e);
    MoverTimed(m, e, late);
    forall q: nat ensures Timely(m'.sh, PcOf(m', q), late') {
      if q != e.party { OtherTimed(m, e, late, q); }
    }
    forall p: nat, q: nat | Live(PcOf(m', p)).Some? && Live(PcOf(m', p)) == Live(PcOf(m', q))
      ensures p == q
    {
      if p != e.party { OtherTimed(m, e, late, p); }
      if q != e.party { OtherTimed(m, e, late, q); }
    }
  }

  lemma {:induction false} RunKeepsTimed(m: Modem, es: seq<Event>, late: set<nat>)
    requires Timed(m, late) && Run(m, es).Some?
    ensures Timed(Run(m, es).value, late + TimedOut(m, es))
    decreases es
  {
    if es == [] {
      assert late + {} == late;
    } else {
      var now, m' := NowLate(m, es[0]), Step(m, es[0]).value;
      StepKeepsTimed(m, es[0], late);
      RunKeepsTimed(m', es[1..], late + now);
      assert late + now + TimedOut(m', es[1..]) == late + TimedOut(m, es);
    }
  }

  /** TimedOut are the calls in whose wait an Expire event falls. */
  lemma {:induction false} TimedOutExactly(m: Modem, es: seq<Event>, x: nat)
    requires Run(m, es).Some?
    ensures x in TimedOut(m, es) <==>
              exists i :: 0 <= i < |es| && es[i].Expire? && Run(m, es[..i]).Some?
                          && PcOf(Run(m, es[..i]).value, es[i].party) == Polling(x)
    decreases es
  {
    if es != [] {
      var m', rest := Step(m, es[0]).value, es[1..];
      TimedOutExactly(m', rest, x);
      assert es[..0] == [];
      forall i | 0 <= i < |rest|
        ensures Run(m, es[..i + 1]) == Run(m', rest[..i]) && rest[i] == es[i + 1]
      {
        assert es[..i + 1][1..] == rest[..i];
      }
      TimedOutShifts(m, es, x);
    }
  }

  lemma TimedOutShifts(m: Modem, es: seq<Event>, x: nat)
    requires es != [] && Run(m, es).Some?
    requires forall i :: 0 <= i < |es| - 1 ==> Run(m, es[..i + 1]) == Run(Step(m, es[0]).value, es[1..][..i])
    requires x in TimedOut(Step(m, es[0]).value, es[1..]) <==>
               exists i :: 0 <= i < |es| - 1 && es[1..][i].Expire? && Run(Step(m, es[0]).value, es[1..][..i]).Some?
                           && PcOf(Run(Step(m, es[0]).value, es[1..][..i]).value, es[1..][i].party) == Polling(x)
    ensures x in TimedOut(m, es) <==>
              exists i :: 0 <= i < |es| && es[i].Expire? && Run(m, es[..i]).Some?
                          && PcOf(Run(m, es[..i]).value, es[i].party) == Polling(x)
  {
  }

  // ---- Main results -----------------------------------------------------

  /**
   A returned lora_send reports success exactly when its wait has not expired, whatever it learnt afterwards;
   a lora_recv reports a timeout only if its wait has.
   */
  lemma ReportedExactly(es: seq<Event>, m: Modem, x: nat)
    requires Run(INIT, es) == Some(m) && x < |m.sh.calls| && m.sh.calls[x].result.Some?
    ensures !m.sh.calls[x].receive ==> (m.sh.calls[x].result.value.Got? <==> x !in TimedOut(INIT, es))
    ensures m.sh.calls[x].receive && m.sh.calls[x].result.value.Expired? ==> x in TimedOut(INIT, es)
  {
    RunKeepsTimed(INIT, es, {});
    assert {} + TimedOut(INIT, es) == TimedOut(INIT, es);
    assert ReportsRight(m.sh.calls[x], x in TimedOut(INIT, es));
  }

  /** A client whose signal has been raised returns with its next step. */
  lemma RaisedReturns(m: Modem, p: nat, c: nat)
    requires c < |m.sh.calls| && Done(c) in m.sh.raised && (PcOf(m, p) == Polling(c) || PcOf(m, p) == PollForever(c))
    ensures Step(m, Go(p)).Some?
    ensures var m' := Step(m, Go(p)).value; m'.sh.calls[c].result.Some? && PcOf(m', p) == Idle
  {
  }

  // ---- Giving the modem back ---------------------------------------------

  /** Steps a party in the CLEANUP section still takes before it clears the word. */
  function StepsToFree(pc: Pc): nat {
    match pc
    case RxStoreSize(_, _) => 5
    case RxCopy(_, _) => 4
    case Sleeping(_) => 3
    case Forgetting(_) => 2
    case Clearing(_) => 1
    case _ => 0
  }

  /** The party has freed the modem since the count was below, or does so at the latest with its n-th step. */
  predicate FreesWithin(m: Modem, q: nat, below: nat, n: nat) {
    m.sh.releases >= below && (m.sh.releases > below || (InSection(PcOf(m, q)) && n >= StepsToFree(PcOf(m, q))))
  }

  lemma SectionAdvances(sh: Shared, p: nat, pc: Pc)
    requires InSection(pc)
    ensures var mv := Advance(sh, p, pc);
            && mv.Move?
            && (if InSection(mv.pc) then mv.sh.releases == sh.releases && StepsToFree(mv.pc) == StepsToFree(pc) - 1
                else mv.sh.releases == sh.releases + 1 && mv.sh.usage == Free)
  {
  }

  lemma AdvanceGrows(sh: Shared, p: nat, pc: Pc)
    requires Advance(sh, p, pc).Move?
    ensures Advance(sh, p, pc).sh.releases >= sh.releases
  {
  }

  lemma ReleasesGrow(m: Modem, e: Event)
    requires Step(m, e).Some?
    ensures Step(m, e).value.sh.releases >= m.sh.releases
  {
    if e.Go? {
      AdvanceGrows(m.sh, e.party, PcOf(m, e.party));
    }
  }

  lemma StepFreesWithin(m: Modem, e: Event, q: nat, below: nat, n: nat)
    requires FreesWithin(m, q, below, n) && Step(m, e).Some?
    ensures FreesWithin(Step(m, e).value, q, below, if e == Go(q) && n > 0 then n - 1 else n)
  {
    ReleasesGrow(m, e);
    if m.sh.releases == below {
      if e.party == q {
        assert e == Go(q);
        SectionAdvances(m.sh, q, PcOf(m, q));
      } else {
        assert PcOf(Step(m, e).value, q) == PcOf(m, q);
      }
    }
  }

  lemma {:induction false} SectionFrees(m: Modem, fs: seq<Event>, q: nat, below: nat)
    requires Run(m, fs).Some? && FreesWithin(m, q, below, StepsOf(fs, q))
    ensures Run(m, fs).value.sh.releases > below
    decreases fs
  {
    if fs != [] {
      StepFreesWithin(m, fs[0], q, below, StepsOf(fs, q));
      SectionFrees(Step(m, fs[0]).value, fs[1..], q, below);
    }
  }

  /**
   A client, handler or lora_config that comes to its compare-and-swap while the word is BUSY frees the modem
   within five steps of its own after it, whatever everybody else does in between.
   */
  lemma ReleaseFrees(m: Modem, p: nat, fs: seq<Event>, m': Modem)
    requires m.sh.usage == Busy && Releases(PcOf(m, p)) && (PcOf(m, p).RxEntered? ==> !m.sh.asyncCb)
    requires Run(m, [Go(p)] + fs) == Some(m') && StepsOf(fs, p) >= 5
    ensures m'.sh.releases > m.sh.releases
  {
    assert ([Go(p)] + fs)[1..] == fs;
    var m1 := Step(m, Go(p)).value;
    assert InSection(PcOf(m1, p));
    SectionFrees(m1, fs, p, m.sh.releases);
  }

  /** rx_done or tx_done that takes the modem raises the signal it has read, that of a send_async included. */
  lemma TakerRaises(m: Modem, p: nat, s: Signal, fs: seq<Event>, m': Modem)
    requires Entered(PcOf(m, p)) && PcOf(m, p).sig == Some(s) && HandlerTakes(m.sh, Go(p), PcOf(m, p))
    requires Run(m, [Go(p)] + fs) == Some(m') && StepsOf(fs, p) >= 6
    ensures s in m'.sh.raised
  {
    assert ([Go(p)] + fs)[1..] == fs;
    var m1 := Step(m, Go(p)).value;
    assert Holds(PcOf(m1, p)) == Some(s);
    HandlerRaises(m1, fs, p, s);
  }

  /** lora_config on a free modem comes to its compare-and-swap with its next step. */
  lemma ConfigReleases(m: Modem, p: nat)
    requires m.sh.usage == Free && PcOf(m, p) == Idle
    ensures var m1 := Run(m, [BeginConfig(p), Go(p)]);
            m1.Some? && m1.value.sh.usage == Busy && Releases(PcOf(m1.value, p))
  {
    var es := [BeginConfig(p), Go(p)];
    var m1 := Step(m, es[0]).value;
    assert es[1..] == [Go(p)] && es[1..][1..] == [];
    assert Run(m1, es[1..]) == Step(m1, Go(p));
  }

  /** A packet during an asynchronous reception arms the radio again and does nothing else to the modem. */
  lemma AsyncPacketRearms(m: Modem, p: nat, packet: seq<char>)
    requires m.sh.asyncCb && PcOf(m, p) == Idle
    ensures var m' := Run(m, [RxDone(p, packet), Go(p)]);
            m'.Some? && m'.value.sh == m.sh.(radio := Receiving) && PcOf(m'.value, p) == Idle
  {
    var es := [RxDone(p, packet), Go(p)];
    var m1 := Step(m, es[0]).value;
    assert es[1..] == [Go(p)] && es[1..][1..] == [];
    assert Run(m1, es[1..]) == Step(m1, Go(p));
  }

  /** An rx_done that took the modem while rx_params are unset, or for a NULL signal, is recorded as a fault. */
  lemma FaultMeans(m: Modem, p: nat, fs: seq<Event>, m': Modem)
    requires PcOf(m, p).RxStoreSize? && (m.sh.rxParams == None || PcOf(m, p).sig == None)
    requires Run(m, fs) == Some(m') && StepsOf(fs, p) >= 5 && forall i :: 0 <= i < |fs| ==> fs[i] == Go(p)
    ensures m'.sh.faulted
  {
    FaultsWithin(m, p, fs);
  }

  /** Party p has faulted, or is going to with the next steps of its own. */
  predicate Faulting(sh: Shared, pc: Pc) {
    || sh.faulted
    || (pc.RxStoreSize? && (sh.rxParams == None || pc.sig == None))
    || (pc.RxCopy? && pc.sig == None)
    || (pc.Sleeping? && pc.next == RaiseNull) || (pc.Forgetting? && pc.next == RaiseNull)
    || (pc.Clearing? && pc.next == RaiseNull)
  }

  lemma {:induction false} FaultsWithin(m: Modem, p: nat, fs: seq<Event>)
    requires Faulting(m.sh, PcOf(m, p)) && Run(m, fs).Some?
    requires m.sh.faulted || StepsOf(fs, p) >= StepsToFree(PcOf(m, p))
    requires forall i :: 0 <= i < |fs| ==> fs[i] == Go(p)
    ensures Run(m, fs).value.sh.faulted
    decreases fs
  {
    if fs != [] {
      assert fs[0] == Go(p);
      FaultsWithin(Step(m, Go(p)).value, p, fs[1..]);
    }
  }

  // ---- What a release is -------------------------------------------------

  /** Who takes the modem to CLEANUP with event e. */
  function Taker(m: Modem, e: Event): Ending {
    var pc := PcOf(m, e.party);
    if e.TxTimedOut? then ByTxTimeout
    else if e.Go? && pc.RxEntered? then ByRxDone
    else if e.Go? && pc.TxEntered? then ByTxDone
    else ByRelease
  }

  /** The event takes the word from BUSY to CLEANUP. */
  predicate Takes(m: Modem, e: Event) {
    Step(m, e).Some? && m.sh.usage == Busy && Step(m, e).value.sh.usage == Cleanup
  }

  /** What the move to sh' records about call c, when it takes the modem for why (or not at all). */
  predicate Records(sh: Shared, c: nat, sh': Shared, takes: bool, why: Ending)
    requires c < |sh.calls|
  {
    && c < |sh'.calls|
    && sh'.calls[c].ending == (if takes && sh.holder == Some(c) then why else sh.calls[c].ending)
    && sh'.calls[c].cut == (if takes && sh.opDone == Some(Done(c)) then why else sh.calls[c].cut)
  }

  lemma WorkerRecordsNothing(sh: Shared, p: nat, pc: Pc, c: nat)
    requires !Releases(pc) && Advance(sh, p, pc).Move? && c < |sh.calls|
    ensures var sh' := Advance(sh, p, pc).sh;
            Records(sh, c, sh', false, Open) && !(sh.usage == Busy && sh'.usage == Cleanup)
  {
  }

  lemma ArrivalRecords(sh: Shared, e: Event, c: nat)
    requires Arrive(sh, e).Move? && c < |sh.calls|
    ensures var sh' := Arrive(sh, e).sh;
            Records(sh, c, sh', sh.usage == Busy && sh'.usage == Cleanup,
                    if e.TxTimedOut? then ByTxTimeout else ByRelease)
  {
  }

  lemma ReleaserRecords(sh: Shared, p: nat, pc: Pc, c: nat)
    requires Releases(pc) && c < |sh.calls|
    ensures var mv := Advance(sh, p, pc);
            && mv.Move?
            && Records(sh, c, mv.sh, sh.usage == Busy && mv.sh.usage == Cleanup,
                       if pc.RxEntered? then ByRxDone else if pc.TxEntered? then ByTxDone else ByRelease)
  {
  }

  /**
   The records of a call say who took the modem: the one of its session while it held the word, the other while
   operation_done was its signal. No other step writes them.
   */
  lemma EndingMeans(m: Modem, e: Event, c: nat)
    requires Step(m, e).Some? && c < |m.sh.calls|
    ensures c < |Step(m, e).value.sh.calls|
    ensures var k, k' := m.sh.calls[c], Step(m, e).value.sh.calls[c];
            && k'.ending == (if Takes(m, e) && m.sh.holder == Some(c) then Taker(m, e) else k.ending)
            && k'.cut == (if Takes(m, e) && m.sh.opDone == Some(Done(c)) then Taker(m, e) else k.cut)
  {
    var pc := PcOf(m, e.party);
    if e.Go? && Releases(pc) {
      ReleaserRecords(m.sh, e.party, pc, c);
    } else if e.Go? {
      WorkerRecordsNothing(m.sh, e.party, pc, c);
    } else if !e.Expire? {
      ArrivalRecords(m.sh, e, c);
    }
  }

  /** How far a party in the section is with what a release does. */
  predicate Undone(sh: Shared, pc: Pc) {
    && (pc.Forgetting? || pc.Clearing? ==> sh.radio == Asleep)
    && (pc.Clearing? ==> sh.opDone == None)
  }

  lemma SectionUndoes(sh: Shared, p: nat, pc: Pc)
    requires InSection(pc) && Undone(sh, pc)
    ensures var mv := Advance(sh, p, pc);
            mv.Move? && if InSection(mv.pc) then Undone(mv.sh, mv.pc)
                        else mv.sh.usage == Free && mv.sh.radio == Asleep && mv.sh.opDone == None
  {
  }

  lemma {:induction false} SectionEnds(m: Modem, p: nat, fs: seq<Event>)
    requires InSection(PcOf(m, p)) && Undone(m.sh, PcOf(m, p))
    requires |fs| == StepsToFree(PcOf(m, p)) && forall i :: 0 <= i < |fs| ==> fs[i] == Go(p)
    ensures var m' := Run(m, fs);
            m'.Some? && m'.value.sh.usage == Free && m'.value.sh.radio == Asleep && m'.value.sh.opDone == None
    decreases fs
  {
    SectionAdvances(m.sh, p, PcOf(m, p));
    SectionUndoes(m.sh, p, PcOf(m, p));
    assert fs[0] == Go(p);
    var m1 := Step(m, Go(p)).value;
    if InSection(PcOf(m1, p)) {
      SectionEnds(m1, p, fs[1..]);
    } else {
      assert fs[1..] == [];
    }
  }

  /**
   A release that finds the word BUSY, with nobody in between, leaves the radio asleep, no operation_done, and the
   word FREE. One that finds it otherwise changes nothing: a client waits on for its signal, anybody else is done.
   */
  lemma ReleaseExactly(m: Modem, p: nat, fs: seq<Event>)
    requires Releases(PcOf(m, p)) && (PcOf(m, p).RxEntered? ==> !m.sh.asyncCb)
    requires |fs| == (if PcOf(m, p).RxEntered? then 5 else 3) && forall i :: 0 <= i < |fs| ==> fs[i] == Go(p)
    ensures Step(m, Go(p)).Some?
    ensures var m1 := Step(m, Go(p)).value;
            if m.sh.usage == Busy then
              var m' := Run(m1, fs);
              m'.Some? && m'.value.sh.usage == Free && m'.value.sh.radio == Asleep && m'.value.sh.opDone == None
            else
              m1.sh == m.sh && PcOf(m1, p) == if PcOf(m, p).PollExpired? then PollForever(PcOf(m, p).call) else Idle
  {
    if m.sh.usage == Busy {
      SectionEnds(Step(m, Go(p)).value, p, fs);
    }
  }

  // ---- What each call sets up ----------------------------------------------

  /** Party p begins with e and takes n steps, with nobody in between. */
  function Alone(m: Modem, p: nat, e: Event, n: nat): Option<Modem> {
    match Step(m, e)
    case Some(m1) => Goes(m1, p, n)
    case None => None
  }

  function Goes(m: Modem, p: nat, n: nat): Option<Modem>
    decreases n
  {
    if n == 0 then Some(m)
    else
      match Step(m, Go(p))
      case Some(m1) => Goes(m1, p, n - 1)
      case None => None
  }

  /** m' is m with the modem taken and radio, signal and callback as given. */
  predicate Started(m: Modem, m': Option<Modem>, radio: Radio, opDone: Option<Signal>, asyncCb: bool) {
    && m'.Some? && m'.value.sh.usage == Busy && m'.value.sh.radio == radio
    && m'.value.sh.opDone == opDone && m'.value.sh.asyncCb == asyncCb
    && m'.value.sh.acquires == m.sh.acquires + 1 && m'.value.sh.releases == m.sh.releases
  }

  /** The calls that return at once: reception with a callback, transmission with or without a signal, test wave. */
  lemma AsyncCallsStart(m: Modem, p: nat, async: Option<nat>)
    requires m.sh.usage == Free && PcOf(m, p) == Idle
    ensures var m' := Alone(m, p, BeginRecvAsync(p), 2);
            Started(m, m', Receiving, m.sh.opDone, true) && PcOf(m'.value, p) == Idle
    ensures var m' := Alone(m, p, BeginSendAsync(p, async), 2);
            && Started(m, m', Sending, if async.Some? then Some(User(async.value)) else None, m.sh.asyncCb)
            && PcOf(m'.value, p) == Idle
    ensures var m' := Alone(m, p, BeginWave(p), 1);
            Started(m, m', Sending, m.sh.opDone, m.sh.asyncCb) && PcOf(m'.value, p) == Idle
  {
    RecvAsyncStarts(m, p);
    SendAsyncStarts(m, p, async);
    WaveStarts(m, p);
  }

  lemma RecvAsyncStarts(m: Modem, p: nat)
    requires m.sh.usage == Free && PcOf(m, p) == Idle
    ensures var m' := Alone(m, p, BeginRecvAsync(p), 2);
            Started(m, m', Receiving, m.sh.opDone, true) && PcOf(m'.value, p) == Idle
  {
    var m1 := Step(m, BeginRecvAsync(p)).value;
    var m2 := Step(m1, Go(p)).value;
    assert Goes(m1, p, 2) == Goes(m2, p, 1);
    var m3 := Step(m2, Go(p)).value;
    assert Goes(m2, p, 1) == Goes(m3, p, 0);
  }

  lemma SendAsyncStarts(m: Modem, p: nat, async: Option<nat>)
    requires m.sh.usage == Free && PcOf(m, p) == Idle
    ensures var m' := Alone(m, p, BeginSendAsync(p, async), 2);
            && Started(m, m', Sending, if async.Some? then Some(User(async.value)) else None, m.sh.asyncCb)
            && PcOf(m'.value, p) == Idle
  {
    var m1 := Step(m, BeginSendAsync(p, async)).value;
    var m2 := Step(m1, Go(p)).value;
    assert Goes(m1, p, 2) == Goes(m2, p, 1);
    var m3 := Step(m2, Go(p)).value;
    assert Goes(m2, p, 1) == Goes(m3, p, 0);
  }

  lemma WaveStarts(m: Modem, p: nat)
    requires m.sh.usage == Free && PcOf(m, p) == Idle
    ensures var m' := Alone(m, p, BeginWave(p), 1);
            Started(m, m', Sending, m.sh.opDone, m.sh.asyncCb) && PcOf(m'.value, p) == Idle
  {
    var m1 := Step(m, BeginWave(p)).value;
    var m2 := Step(m1, Go(p)).value;
    assert Goes(m1, p, 1) == Goes(m2, p, 0);
  }

  /** m' has the one call more, with its own buffer, at whose wait party p is. */
  predicate Waiting(m: Modem, m': Modem, p: nat, receive: bool, buffer: seq<char>) {
    var c := |m.sh.calls|;
    && |m'.sh.calls| == c + 1 && m'.sh.calls[..c] == m.sh.calls && PcOf(m', p) == Polling(c)
    && var k := m'.sh.calls[c];
       k.receive == receive && k.buffer == buffer && k.original == buffer && k.size == |buffer| && k.result == None
  }

  /** The calls that wait: for the signal they have stored, over their own buffer. */
  lemma BlockingCallsStart(m: Modem, p: nat, buffer: seq<char>)
    requires m.sh.usage == Free && PcOf(m, p) == Idle
    ensures var m' := Alone(m, p, BeginRecv(p, buffer), 4);
            && Started(m, m', Receiving, Some(Done(|m.sh.calls|)), false)
            && m'.value.sh.rxParams == Some(|m.sh.calls|) && Waiting(m, m'.value, p, true, buffer)
    ensures var m' := Alone(m, p, BeginSend(p), 2);
            && Started(m, m', Sending, Some(Done(|m.sh.calls|)), m.sh.asyncCb)
            && Waiting(m, m'.value, p, false, [])
  {
    RecvStarts(m, p, buffer);
    SendStarts(m, p);
  }

  lemma SendStarts(m: Modem, p: nat)
    requires m.sh.usage == Free && PcOf(m, p) == Idle
    ensures var m' := Alone(m, p, BeginSend(p), 2);
            && Started(m, m', Sending, Some(Done(|m.sh.calls|)), m.sh.asyncCb)
            && Waiting(m, m'.value, p, false, [])
  {
    var m1 := Step(m, BeginSend(p)).value;
    var m2 := Step(m1, Go(p)).value;
    assert Goes(m1, p, 2) == Goes(m2, p, 1);
    var m3 := Step(m2, Go(p)).value;
    assert Goes(m2, p, 1) == Goes(m3, p, 0);
  }

  lemma RecvStarts(m: Modem, p: nat, buffer: seq<char>)
    requires m.sh.usage == Free && PcOf(m, p) == Idle
    ensures var m' := Alone(m, p, BeginRecv(p, buffer), 4);
            && Started(m, m', Receiving, Some(Done(|m.sh.calls|)), false)
            && m'.value.sh.rxParams == Some(|m.sh.calls|) && Waiting(m, m'.value, p, true, buffer)
  {
    var m1 := Step(m, BeginRecv(p, buffer)).value;
    var m2 := Step(m1, Go(p)).value;
    assert Goes(m1, p, 4) == Goes(m2, p, 3);
    var m3 := Step(m2, Go(p)).value;
    assert Goes(m2, p, 3) == Goes(m3, p, 2);
    var m4 := Step(m3, Go(p)).value;
    assert Goes(m3, p, 2) == Goes(m4, p, 1);
    var m5 := Step(m4, Go(p)).value;
    assert Goes(m4, p, 1) == Goes(m5, p, 0);
  }
}
