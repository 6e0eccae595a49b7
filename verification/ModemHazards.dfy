/**
 What a second client task and the transmit timeout break: concrete runs, and the exact number
 of client tasks up to which a blocking receive is all or nothing.

 The runs obey the assumptions of module ModemSolo except for the number of tasks.
 */
module ModemHazards {
  import opened Text
  import opened Modem
  import opened ModemWakeUp
  import opened ModemSession
  import opened ModemSolo

  /** Party 1 handles the radio's events; the client tasks are 0, 2, 3, ... */
  predicate IsTask(tasks: nat, p: nat) {
    p == 0 || 2 <= p <= tasks
  }

  /** The environment of module ModemSolo with that many client tasks. */
  predicate CalmWith(tasks: nat, m: Modem, e: Event) {
    var h := PcOf(m, 1);
    && (Entered(h) ==> e == Go(1))
    && (e.Go? ==> e.party == 1 || IsTask(tasks, e.party))
    && (e.RxDone? ==> e.party == 1 && m.sh.radio == Receiving)
    && (e.TxDone? || e.TxTimedOut? ==> e.party == 1 && m.sh.radio == Sending)
    && (!e.Go? && !e.RxDone? && !e.TxDone? && !e.TxTimedOut? ==> IsTask(tasks, e.party))
  }

  function CalmRunWith(tasks: nat, m: Modem, es: seq<Event>): Option<Modem>
    decreases es
  {
    if es == [] then Some(m)
    else if !CalmWith(tasks, m, es[0]) then None
    else
      match Step(m, es[0])
      case Some(m') => CalmRunWith(tasks, m', es[1..])
      case None => None
  }

  lemma {:induction false} OneTaskIsSolo(tasks: nat, m: Modem, es: seq<Event>)
    requires tasks <= 1
    ensures CalmRunWith(tasks, m, es) == CalmRun(m, es)
    decreases es
  {
    if es != [] && Step(m, es[0]).Some? {
      OneTaskIsSolo(tasks, Step(m, es[0]).value, es[1..]);
    }
  }

  /** Only party 1 is ever between its first access and its compare-and-swap. */
  ghost predicate OneHandler(m: Modem) {
    forall p: nat :: Entered(PcOf(m, p)) ==> p == 1
  }

  lemma StepKeepsOneHandler(tasks: nat, m: Modem, e: Event)
    requires OneHandler(m) && CalmWith(tasks, m, e) && Step(m, e).Some?
    ensures Orderly(m, e) && OneHandler(Step(m, e).value)
  {
    var m' := Step(m, e).value;
    forall p: nat | Entered(PcOf(m', p))
      ensures p == 1
    {
      assert p == e.party || Entered(PcOf(m, p));
    }
  }

  /** So what module ModemWakeUp proves of orderly runs holds of these. */
  lemma {:induction false} CalmIsOrderly(tasks: nat, m: Modem, es: seq<Event>)
    requires OneHandler(m) && CalmRunWith(tasks, m, es).Some?
    ensures OrderlyRun(m, es) == CalmRunWith(tasks, m, es)
    decreases es
  {
    if es != [] {
      StepKeepsOneHandler(tasks, m, es[0]);
      CalmIsOrderly(tasks, Step(m, es[0]).value, es[1..]);
    }
  }

  lemma {:induction false} CalmSnoc(tasks: nat, m: Modem, es: seq<Event>, e: Event)
    requires CalmRunWith(tasks, m, es).Some?
    ensures CalmRunWith(tasks, m, es + [e])
         == var n := CalmRunWith(tasks, m, es).value; if CalmWith(tasks, n, e) then Step(n, e) else None
    decreases es
  {
    if es == [] {
      assert [e][1..] == [];
    } else {
      assert (es + [e])[1..] == es[1..] + [e];
      CalmSnoc(tasks, Step(m, es[0]).value, es[1..], e);
    }
  }

  /** Some run with that many tasks ends in m. */
  ghost predicate Reachable(tasks: nat, m: Modem) {
    exists es :: CalmRunWith(tasks, INIT, es) == Some(m)
  }

  lemma InitIsReachable(tasks: nat)
    ensures Reachable(tasks, INIT)
  {
    assert CalmRunWith(tasks, INIT, []) == Some(INIT);
  }

  lemma StepIsReachable(tasks: nat, m: Modem, e: Event)
    requires Reachable(tasks, m) && CalmWith(tasks, m, e) && Step(m, e).Some?
    ensures Reachable(tasks, Step(m, e).value)
  {
    var es :| CalmRunWith(tasks, INIT, es) == Some(m);
    CalmSnoc(tasks, INIT, es, e);
    assert CalmRunWith(tasks, INIT, es + [e]) == Some(Step(m, e).value);
  }

  /** The other parties stay where they are. */
  ghost predicate OnlyMoves(m: Modem, m': Modem, p: nat) {
    forall q: nat :: q != p ==> PcOf(m', q) == PcOf(m, q)
  }

  /** One more event of a run; only the moving party's program counter changes. */
  lemma Calmly(tasks: nat, m: Modem, e: Event, pc: Pc, mv: Move) returns (m': Modem)
    requires Reachable(tasks, m) && PcOf(m, e.party) == pc
    requires CalmWith(tasks, m, e) && MoveOf(m, e) == mv && mv.Move?
    ensures Reachable(tasks, m') && m'.sh == mv.sh && PcOf(m', e.party) == mv.pc
    ensures OnlyMoves(m, m', e.party)
  {
    StepIsReachable(tasks, m, e);
    m' := Step(m, e).value;
  }

  /** atomic_clear(&modem_usage) */
  function Freed(sh: Shared): Shared {
    sh.(usage := Free, cleaner := None, releases := sh.releases + 1)
  }

  /** Party p puts the radio to sleep. */
  lemma GoesToSleep(tasks: nat, m0: Modem, p: nat, next: Then) returns (m: Modem)
    requires Reachable(tasks, m0) && PcOf(m0, p) == Sleeping(next)
    requires (p == 1 || IsTask(tasks, p)) && !Entered(PcOf(m0, 1))
    ensures Reachable(tasks, m) && PcOf(m, p) == Forgetting(next) && OnlyMoves(m0, m, p)
    ensures m.sh == m0.sh.(radio := Asleep)
  {
    m := Calmly(tasks, m0, Go(p), Sleeping(next), Move(m0.sh.(radio := Asleep), Forgetting(next)));
  }

  /** Party p clears operation_done. */
  lemma Forgets(tasks: nat, m0: Modem, p: nat, next: Then) returns (m: Modem)
    requires Reachable(tasks, m0) && PcOf(m0, p) == Forgetting(next)
    requires (p == 1 || IsTask(tasks, p)) && !Entered(PcOf(m0, 1))
    ensures Reachable(tasks, m) && PcOf(m, p) == Clearing(next) && m.sh == m0.sh.(opDone := None) && OnlyMoves(m0, m, p)
  {
    m := Calmly(tasks, m0, Go(p), Forgetting(next), Move(m0.sh.(opDone := None), Clearing(next)));
  }

  lemma MovesCompose(m0: Modem, m1: Modem, m2: Modem, p: nat)
    requires OnlyMoves(m0, m1, p) && OnlyMoves(m1, m2, p)
    ensures OnlyMoves(m0, m2, p)
  {
    forall q: nat | q != p
      ensures PcOf(m2, q) == PcOf(m0, q)
    {
      assert PcOf(m1, q) == PcOf(m0, q);
    }
  }

  /** Party p lets go of the modem: the rest of modem_release from Sleeping on. */
  lemma LetsGo(tasks: nat, m0: Modem, p: nat, next: Then) returns (m: Modem)
    requires Reachable(tasks, m0) && PcOf(m0, p) == Sleeping(next)
    requires (p == 1 || IsTask(tasks, p)) && !Entered(PcOf(m0, 1))
    ensures Reachable(tasks, m) && PcOf(m, p) == Clearing(next)
    ensures m.sh == m0.sh.(radio := Asleep, opDone := None)
    ensures OnlyMoves(m0, m, p)
  {
    var m1 := GoesToSleep(tasks, m0, p, next);
    m := Forgets(tasks, m1, p, next);
    MovesCompose(m0, m1, m, p);
  }

  /** The wait of client p expires while its session is already taken: it waits forever. */
  lemma WaitsForever(tasks: nat, m0: Modem, p: nat, c: nat) returns (m: Modem)
    requires Reachable(tasks, m0) && IsTask(tasks, p) && PcOf(m0, p) == Polling(c)
    requires !Entered(PcOf(m0, 1)) && m0.sh.usage != Busy
    ensures Reachable(tasks, m) && PcOf(m, p) == PollForever(c) && m.sh == m0.sh && OnlyMoves(m0, m, p)
  {
    var m1 := Calmly(tasks, m0, Expire(p), Polling(c), Move(m0.sh, PollExpired(c)));
    assert PcOf(m1, 1) == PcOf(m0, 1);
    m := Calmly(tasks, m1, Go(p), PollExpired(c), Move(m0.sh, PollForever(c)));
    MovesCompose(m0, m1, m, p);
  }

  /** A client that has lost its wake-up by such a run stays blocked in every continuation. */
  lemma StaysLost(tasks: nat, m: Modem, p: nat, c: nat)
    requires Reachable(tasks, m) && Lost(m, p, c)
    ensures BlockedForever(m, p, c)
  {
    var es :| CalmRunWith(tasks, INIT, es) == Some(m);
    CalmIsOrderly(tasks, INIT, es);
    LostForever(es, m, p, c);
  }

  // ---- tx_timed_out -----------------------------------------------------

  const SEND_ACQUIRED: Shared := Taken(INIT.sh.(calls := [NewCall(false, [])]), Some(0))

  /** The shared state while one lora_send is on air. */
  const ON_AIR: Shared :=
    SEND_ACQUIRED.(opDone := Some(Done(0)), radio := Sending)

  lemma SendStarts(tasks: nat) returns (m: Modem)
    ensures Reachable(tasks, m) && m.sh == ON_AIR && PcOf(m, 0) == Polling(0) && PcOf(m, 1) == Idle
  {
    m := INIT;
    InitIsReachable(tasks);
    var s, s1 := Some(Done(0)), SEND_ACQUIRED;
    m := Calmly(tasks, m, BeginSend(0), Idle, Move(s1, StoreSignal(s, Some(0))));
    var s2 := s1.(opDone := s);
    m := Calmly(tasks, m, Go(0), StoreSignal(s, Some(0)), Move(s2, StartSend(Some(0))));
    m := Calmly(tasks, m, Go(0), StartSend(Some(0)), Move(ON_AIR, Polling(0)));
  }

  const STRANDED: Call := NewCall(false, []).(ending := ByTxTimeout, cut := ByTxTimeout)

  /** tx_timed_out takes the session. */
  lemma TimeoutEnters(tasks: nat) returns (m: Modem)
    ensures Reachable(tasks, m) && PcOf(m, 0) == Polling(0) && PcOf(m, 1) == Sleeping(Return)
    ensures m.sh.calls == [STRANDED] && m.sh.usage == Cleanup
  {
    m := SendStarts(tasks);
    var s4 := ON_AIR.(usage := Cleanup, cleaner := Some(1), calls := [STRANDED], holder := None);
    assert EndedCalls(ON_AIR, ByTxTimeout) == [STRANDED];
    m := Calmly(tasks, m, TxTimedOut(1), Idle, Move(s4, Sleeping(Return)));
  }

  /** A party that has nobody to wake clears the word. */
  lemma ClearsWord(tasks: nat, m0: Modem, p: nat) returns (m: Modem)
    requires Reachable(tasks, m0) && PcOf(m0, p) == Clearing(Return) && CalmWith(tasks, m0, Go(p))
    ensures Reachable(tasks, m) && m.sh == Freed(m0.sh) && PcOf(m, p) == Idle && OnlyMoves(m0, m, p)
  {
    m := Calmly(tasks, m0, Go(p), Clearing(Return), Move(Freed(m0.sh), Idle));
  }

  /** It lets the session go without raising anything. */
  lemma TimesOutOnAir(tasks: nat) returns (m: Modem)
    ensures Reachable(tasks, m) && PcOf(m, 0) == Polling(0) && PcOf(m, 1) == Idle
    ensures m.sh.calls == [STRANDED] && m.sh.usage == Free
  {
    m := TimeoutEnters(tasks);
    m := LetsGo(tasks, m, 1, Return);
    m := ClearsWord(tasks, m, 1);
  }

  /** lora_send whose tx_timed_out beats its own timeout, with any number of client tasks. */
  lemma TxTimeoutStrandsSender(tasks: nat) returns (m: Modem)
    ensures Reachable(tasks, m) && Lost(m, 0, 0) && BlockedForever(m, 0, 0)
  {
    m := TimesOutOnAir(tasks);
    m := WaitsForever(tasks, m, 0, 0);
    StaysLost(tasks, m, 0, 0);
  }

  // ---- A second client task ---------------------------------------------

  /** The shared state while one lora_recv of two bytes is armed. */
  const ARMED: Shared :=
    ACQUIRED.(opDone := Some(Done(0)), rxParams := Some(0), radio := Receiving)

  const ACQUIRED: Shared := Taken(INIT.sh.(calls := [NewCall(true, "ab")]), Some(0))

  lemma ReceiveAcquires(tasks: nat) returns (m: Modem)
    ensures Reachable(tasks, m) && m.sh == ACQUIRED
    ensures PcOf(m, 0) == StoreDone(0) && forall q: nat :: q >= 1 ==> PcOf(m, q) == Idle
  {
    m := INIT;
    InitIsReachable(tasks);
    m := Calmly(tasks, m, BeginRecv(0, "ab"), Idle, Move(ACQUIRED, ClearCallback(0)));
    m := Calmly(tasks, m, Go(0), ClearCallback(0), Move(ACQUIRED, StoreDone(0)));
  }

  lemma ReceiveStarts(tasks: nat) returns (m: Modem)
    ensures Reachable(tasks, m) && m.sh == ARMED
    ensures PcOf(m, 0) == Polling(0) && forall q: nat :: q >= 1 ==> PcOf(m, q) == Idle
  {
    m := ReceiveAcquires(tasks);
    var s2 := ACQUIRED.(opDone := Some(Done(0)));
    m := Calmly(tasks, m, Go(0), StoreDone(0), Move(s2, StoreParams(0)));
    var s3 := s2.(rxParams := Some(0));
    m := Calmly(tasks, m, Go(0), StoreParams(0), Move(s3, StartReceive(0)));
    m := Calmly(tasks, m, Go(0), StartReceive(0), Move(ARMED, Polling(0)));
  }

  /** A NULL-callback cancel by a second task takes a blocked receive's session. */
  lemma CancelEnters(tasks: nat) returns (m: Modem)
    requires tasks >= 2
    ensures Reachable(tasks, m) && PcOf(m, 0) == Polling(0) && PcOf(m, 1) == Idle
    ensures m.sh.usage == Cleanup && m.sh.calls == [NewCall(true, "ab").(ending := ByRelease, cut := ByRelease)]
  {
    m := ReceiveStarts(tasks);
    var k := NewCall(true, "ab").(ending := ByRelease, cut := ByRelease);
    var s4 := ARMED.(usage := Cleanup, cleaner := Some(2), calls := [k], holder := None);
    assert EndedCalls(ARMED, ByRelease) == [k];
    m := Calmly(tasks, m, CancelRecvAsync(2), Idle, Move(s4, Sleeping(Return)));
  }

  /** Its client then waits forever. */
  lemma CancelStrandsReceiver(tasks: nat) returns (m: Modem)
    requires tasks >= 2
    ensures Reachable(tasks, m) && Lost(m, 0, 0) && BlockedForever(m, 0, 0)
  {
    m := CancelEnters(tasks);
    m := WaitsForever(tasks, m, 0, 0);
    StaysLost(tasks, m, 0, 0);
  }

  /** rx_done arrives just after the client's wait has expired. */
  lemma PacketComes(tasks: nat) returns (m: Modem)
    ensures Reachable(tasks, m) && m.sh == ARMED
    ensures PcOf(m, 0) == PollExpired(0) && PcOf(m, 1) == RxEntered(Some(Done(0)), "xy") && PcOf(m, 2) == Idle
  {
    m := ReceiveStarts(tasks);
    m := Calmly(tasks, m, Expire(0), Polling(0), Move(ARMED, PollExpired(0)));
    var entered := RxEntered(Some(Done(0)), "xy");
    m := Calmly(tasks, m, RxDone(1, "xy"), Idle, Move(ARMED, entered));
  }

  /** Then it takes the session. */
  lemma PacketEnters(tasks: nat) returns (m: Modem)
    ensures Reachable(tasks, m)
    ensures m.sh == ARMED.(usage := Cleanup, cleaner := Some(1), holder := None,
                           calls := [NewCall(true, "ab").(ending := ByRxDone, cut := ByRxDone)])
    ensures PcOf(m, 0) == PollExpired(0) && PcOf(m, 1) == RxStoreSize(Some(Done(0)), "xy") && PcOf(m, 2) == Idle
  {
    m := PacketComes(tasks);
    var k, d := NewCall(true, "ab").(ending := ByRxDone, cut := ByRxDone), Some(Done(0));
    var s5 := ARMED.(usage := Cleanup, cleaner := Some(1), calls := [k], holder := None);
    assert EndedCalls(ARMED, ByRxDone) == [k];
    m := Calmly(tasks, m, Go(1), RxEntered(d, "xy"), Move(s5, RxStoreSize(d, "xy")));
  }

  const PACKED: Call := Call(true, "ab", "xy", 2, Some("xy"), ByRxDone, ByRxDone, None)

  /** Then it fills the buffer. */
  lemma PacketArrives(tasks: nat) returns (m: Modem)
    ensures Reachable(tasks, m)
    ensures m.sh == ARMED.(usage := Cleanup, cleaner := Some(1), calls := [PACKED], holder := None)
    ensures PcOf(m, 0) == PollExpired(0) && PcOf(m, 1) == Sleeping(RaiseNext(Some(Done(0)))) && PcOf(m, 2) == Idle
  {
    m := PacketEnters(tasks);
    var d, k := Some(Done(0)), NewCall(true, "ab").(ending := ByRxDone, cut := ByRxDone, packet := Some("xy"));
    var s6 := m.sh.(calls := [k]);
    m := Calmly(tasks, m, Go(1), RxStoreSize(d, "xy"), Move(s6, RxCopy(d, "xy")));
    assert Copied("ab", "xy", 2) == "xy";
    var s7 := s6.(calls := [PACKED]);
    m := Calmly(tasks, m, Go(1), RxCopy(d, "xy"), Move(s7, Sleeping(RaiseNext(d))));
  }

  /** Then it lets go of the modem. */
  lemma PacketBeatsTimeout(tasks: nat) returns (m: Modem)
    ensures Reachable(tasks, m)
    ensures PcOf(m, 0) == PollExpired(0) && PcOf(m, 1) == Raising(Done(0)) && PcOf(m, 2) == Idle
    ensures m.sh.usage == Free && m.sh.opDone == None && m.sh.calls == [PACKED]
  {
    m := PacketArrives(tasks);
    var r := RaiseNext(Some(Done(0)));
    m := LetsGo(tasks, m, 1, r);
    m := Calmly(tasks, m, Go(1), Clearing(r), Move(Freed(m.sh), Raising(Done(0))));
  }

  /** A second task acquires the modem, and the first one's late release takes it away again. */
  lemma LateReleaseSteals(tasks: nat) returns (m: Modem)
    requires tasks >= 2
    ensures Reachable(tasks, m) && m.sh.calls == [PACKED]
    ensures PcOf(m, 0) == Sleeping(GiveUp(0)) && PcOf(m, 1) == Raising(Done(0)) && PcOf(m, 2) == Configure
  {
    m := PacketBeatsTimeout(tasks);
    var s1 := Taken(m.sh, None);
    m := Calmly(tasks, m, BeginConfig(2), Idle, Move(s1, Configure));
    var s2 := s1.(usage := Cleanup, cleaner := Some(0));
    assert EndedCalls(s1, ByRelease) == [PACKED];
    m := Calmly(tasks, m, Go(0), PollExpired(0), Move(s2, Sleeping(GiveUp(0))));
  }

  /** With a second task a late timeout releases that task's session and reports Expired over a filled buffer. */
  lemma SecondClientBreaksReceive(tasks: nat) returns (m: Modem)
    requires tasks >= 2
    ensures Reachable(tasks, m) && |m.sh.calls| == 1 && m.sh.calls[0].receive
    ensures m.sh.calls[0].result == Some(Expired) && m.sh.calls[0].buffer != m.sh.calls[0].original
    ensures PcOf(m, 2) == Configure && m.sh.usage == Free
  {
    m := LateReleaseSteals(tasks);
    m := LetsGo(tasks, m, 0, GiveUp(0));
    var k := PACKED.(result := Some(Expired));
    m := GivesUp(tasks, m, PACKED, k);
    assert k.buffer[0] != k.original[0];
  }

  /** Client 0 clears the word and reports that its only call has expired. */
  lemma GivesUp(tasks: nat, m0: Modem, k0: Call, k: Call) returns (m: Modem)
    requires Reachable(tasks, m0) && PcOf(m0, 0) == Clearing(GiveUp(0)) && !Entered(PcOf(m0, 1))
    requires m0.sh.calls == [k0] && k == k0.(result := Some(Expired))
    ensures Reachable(tasks, m) && m.sh.calls == [k] && m.sh.usage == Free && OnlyMoves(m0, m, 0)
  {
    var end := Freed(m0.sh).(calls := [k]);
    assert Finish(Freed(m0.sh), 0, Expired) == Move(end, Idle);
    m := Calmly(tasks, m0, Go(0), Clearing(GiveUp(0)), Move(end, Idle));
  }

  // ---- A cancel that comes before the store ------------------------------

  const NEVER_HELD: Call := NewCall(false, []).(ending := ByRelease)

  /** A lora_send acquires, and a second task's cancel takes the modem before it stores its signal. */
  lemma CancelComesEarly(tasks: nat) returns (m: Modem)
    requires tasks >= 2
    ensures Reachable(tasks, m) && m.sh.calls == [NEVER_HELD] && m.sh.holder == None && m.sh.raised == {}
    ensures PcOf(m, 0) == StoreSignal(Some(Done(0)), Some(0)) && PcOf(m, 1) == Idle && PcOf(m, 2) == Sleeping(Return)
  {
    InitIsReachable(tasks);
    var storing := StoreSignal(Some(Done(0)), Some(0));
    m := Calmly(tasks, INIT, BeginSend(0), Idle, Move(SEND_ACQUIRED, storing));
    var s2 := SEND_ACQUIRED.(usage := Cleanup, cleaner := Some(2), calls := [NEVER_HELD], holder := None);
    assert EndedCalls(SEND_ACQUIRED, ByRelease) == [NEVER_HELD];
    m := Calmly(tasks, m, CancelRecvAsync(2), Idle, Move(s2, Sleeping(Return)));
  }

  /** The cancel completes. */
  lemma CancelCompletes(tasks: nat) returns (m: Modem)
    requires tasks >= 2
    ensures Reachable(tasks, m) && m.sh.calls == [NEVER_HELD] && m.sh.holder == None && m.sh.raised == {}
    ensures m.sh.usage == Free
    ensures PcOf(m, 0) == StoreSignal(Some(Done(0)), Some(0)) && PcOf(m, 1) == Idle && PcOf(m, 2) == Idle
  {
    m := CancelComesEarly(tasks);
    m := LetsGo(tasks, m, 2, Return);
    m := ClearsWord(tasks, m, 2);
  }

  /** The send goes on air without owning the modem. */
  lemma SendsUnowned(tasks: nat) returns (m: Modem)
    requires tasks >= 2
    ensures Reachable(tasks, m) && m.sh.calls == [NEVER_HELD] && m.sh.holder == None && m.sh.raised == {}
    ensures m.sh.usage == Free && m.sh.opDone == Some(Done(0)) && m.sh.radio == Sending
    ensures PcOf(m, 0) == Polling(0) && PcOf(m, 1) == Idle && PcOf(m, 2) == Idle
  {
    m := CancelCompletes(tasks);
    var s := Some(Done(0));
    var s1 := m.sh.(opDone := s);
    m := Calmly(tasks, m, Go(0), StoreSignal(s, Some(0)), Move(s1, StartSend(Some(0))));
    m := Calmly(tasks, m, Go(0), StartSend(Some(0)), Move(s1.(radio := Sending), Polling(0)));
  }

  /** Its wait expires: it waits forever for a session that the cancel has ended, and nobody has decided about it. */
  lemma WaitsUndecided(tasks: nat) returns (m: Modem)
    requires tasks >= 2
    ensures Reachable(tasks, m) && m.sh.calls == [NEVER_HELD] && m.sh.usage == Free && m.sh.radio == Sending
    ensures Undecided(m, 0, 0) && m.sh.holder == None && PcOf(m, 1) == Idle && PcOf(m, 2) == Idle
  {
    m := SendsUnowned(tasks);
    m := WaitsForever(tasks, m, 0, 0);
  }

  /** A second task's lora_config acquires the modem, and tx_done arrives. */
  lemma ConfigMeetsTxDone(tasks: nat) returns (m: Modem)
    requires tasks >= 2
    ensures Reachable(tasks, m) && m.sh.calls == [NEVER_HELD] && m.sh.usage == Busy && m.sh.opDone == Some(Done(0))
    ensures m.sh.holder == None && PcOf(m, 0) == PollForever(0) && PcOf(m, 1) == TxEntered(Some(Done(0)))
  {
    m := WaitsUndecided(tasks);
    var s1 := Taken(m.sh, None);
    m := Calmly(tasks, m, BeginConfig(2), Idle, Move(s1, Configure));
    m := Calmly(tasks, m, TxDone(1), Idle, Move(s1, TxEntered(Some(Done(0)))));
  }

  /** tx_done ends that session and answers the first task. */
  lemma CancelledYetWoken(tasks: nat) returns (m: Modem)
    requires tasks >= 2
    ensures Reachable(tasks, m) && |m.sh.calls| == 1 && m.sh.calls[0].ending == ByRelease
    ensures PcOf(m, 0) == PollForever(0) && Answered(m, 0)
  {
    m := ConfigMeetsTxDone(tasks);
    var k, next := NEVER_HELD.(cut := ByTxDone), Sleeping(RaiseNext(Some(Done(0))));
    assert EndedCalls(m.sh, ByTxDone) == [k];
    var s2 := m.sh.(usage := Cleanup, cleaner := Some(1), calls := [k], holder := None);
    m := Calmly(tasks, m, Go(1), TxEntered(Some(Done(0))), Move(s2, next));
    assert Holds(PcOf(m, 1)) == Some(Done(0));
  }

  const NEVER_SIGNALLED: Call := NewCall(false, []).(ending := ByTxDone)

  /** A second lora_send acquires, and the tx_done of the first one arrives before it stores its signal. */
  lemma SendMeetsTxDone(tasks: nat) returns (m: Modem)
    requires tasks >= 2
    ensures Reachable(tasks, m) && m.sh.calls == [NEVER_HELD, NewCall(false, [])] && m.sh.usage == Busy
    ensures m.sh.opDone == Some(Done(0)) && m.sh.holder == Some(1)
    ensures PcOf(m, 1) == TxEntered(Some(Done(0))) && PcOf(m, 2) == StoreSignal(Some(Done(1)), Some(1))
  {
    m := SendsUnowned(tasks);
    var k1 := NewCall(false, []);
    var s1 := Taken(m.sh.(calls := [NEVER_HELD, k1]), Some(1));
    assert m.sh.calls + [k1] == [NEVER_HELD, k1];
    m := Calmly(tasks, m, BeginSend(2), Idle, Move(s1, StoreSignal(Some(Done(1)), Some(1))));
    m := Calmly(tasks, m, TxDone(1), Idle, Move(s1, TxEntered(Some(Done(0)))));
  }

  /** It ends the second session. */
  lemma WrongSessionEnds(tasks: nat) returns (m: Modem)
    requires tasks >= 2
    ensures Reachable(tasks, m) && m.sh.usage == Cleanup && |m.sh.calls| == 2 && m.sh.calls[1] == NEVER_SIGNALLED
    ensures PcOf(m, 1) == Sleeping(RaiseNext(Some(Done(0)))) && PcOf(m, 2) == StoreSignal(Some(Done(1)), Some(1))
  {
    m := SendMeetsTxDone(tasks);
    var next, calls := Sleeping(RaiseNext(Some(Done(0)))), [NEVER_HELD.(cut := ByTxDone), NEVER_SIGNALLED];
    assert EndedCalls(m.sh, ByTxDone) == calls;
    var s2 := m.sh.(usage := Cleanup, cleaner := Some(1), calls := calls, holder := None);
    m := Calmly(tasks, m, Go(1), TxEntered(Some(Done(0))), Move(s2, next));
  }

  /** It then waits forever for a session that tx_done has ended, and no handler is going to raise its signal. */
  lemma EndedYetUnanswered(tasks: nat) returns (m: Modem)
    requires tasks >= 2
    ensures Reachable(tasks, m) && |m.sh.calls| == 2 && EndedByHandler(m.sh.calls[1])
    ensures PcOf(m, 2) == PollForever(1) && !Answered(m, 1)
  {
    m := WrongSessionEnds(tasks);
    var sig := Some(Done(1));
    var s1 := m.sh.(opDone := sig);
    m := Calmly(tasks, m, Go(2), StoreSignal(sig, Some(1)), Move(s1, StartSend(Some(1))));
    m := Calmly(tasks, m, Go(2), StartSend(Some(1)), Move(s1.(radio := Sending), Polling(1)));
    m := WaitsForever(tasks, m, 2, 1);
    NotAnswered(tasks, m, 2, 1);
  }

  lemma NotAnswered(tasks: nat, m: Modem, p: nat, c: nat)
    requires Reachable(tasks, m) && PcOf(m, p) == PollForever(c) && c < |m.sh.calls| && !ByHandler(m.sh.calls[c])
    ensures !Answered(m, c)
  {
    var es :| CalmRunWith(tasks, INIT, es) == Some(m);
    CalmIsOrderly(tasks, INIT, es);
    NoLostWakeUp(es, m, p, c);
  }

  /** A client that waits forever is woken exactly when rx_done or tx_done ended its session, over every run. */
  ghost predicate WakesBySession(tasks: nat) {
    forall m, p: nat, c: nat :: Reachable(tasks, m) && PcOf(m, p) == PollForever(c) && c < |m.sh.calls| ==>
      (EndedByHandler(m.sh.calls[c]) <==> Answered(m, c))
  }

  lemma SoloWakesBySession(tasks: nat, m: Modem, p: nat, c: nat)
    requires tasks <= 1 && Reachable(tasks, m) && PcOf(m, p) == PollForever(c) && c < |m.sh.calls|
    ensures EndedByHandler(m.sh.calls[c]) <==> Answered(m, c)
  {
    var es :| CalmRunWith(tasks, INIT, es) == Some(m);
    OneTaskIsSolo(tasks, INIT, es);
    CalmIsOrderly(tasks, INIT, es);
    SoloAgrees(es, m, c);
    NoLostWakeUp(es, m, p, c);
  }

  /** That holds if and only if the driver has at most one client task; with two it fails in both directions. */
  lemma WakesBySessionExactly(tasks: nat)
    ensures WakesBySession(tasks) <==> tasks <= 1
  {
    if tasks <= 1 {
      forall m, p: nat, c: nat | Reachable(tasks, m) && PcOf(m, p) == PollForever(c) && c < |m.sh.calls|
        ensures EndedByHandler(m.sh.calls[c]) <==> Answered(m, c)
      {
        SoloWakesBySession(tasks, m, p, c);
      }
    } else {
      var m := EndedYetUnanswered(tasks);
      var two: nat, one: nat := 2, 1;
      assert PcOf(m, two) == PollForever(one) && !(EndedByHandler(m.sh.calls[one]) <==> Answered(m, one));
    }
  }

  // ---- A NULL signal ----------------------------------------------------

  /** A lora_recv acquires, and a second task's cancel puts the radio to sleep before it starts to listen. */
  lemma CancelStops(tasks: nat) returns (m: Modem)
    requires tasks >= 2
    ensures Reachable(tasks, m) && |m.sh.calls| == 1 && m.sh.usage == Cleanup && m.sh.holder == None
    ensures PcOf(m, 0) == StoreDone(0) && PcOf(m, 1) == Idle && PcOf(m, 2) == Forgetting(Return) && !m.sh.asyncCb
  {
    m := ReceiveAcquires(tasks);
    var k := NewCall(true, "ab").(ending := ByRelease);
    assert EndedCalls(ACQUIRED, ByRelease) == [k];
    var s2 := ACQUIRED.(usage := Cleanup, cleaner := Some(2), calls := [k], holder := None);
    m := Calmly(tasks, m, CancelRecvAsync(2), Idle, Move(s2, Sleeping(Return)));
    m := GoesToSleep(tasks, m, 2, Return);
  }

  /** The receive listens. */
  lemma ListensUnowned(tasks: nat) returns (m: Modem)
    requires tasks >= 2
    ensures Reachable(tasks, m) && |m.sh.calls| == 1 && m.sh.usage == Cleanup && m.sh.holder == None
    ensures m.sh.rxParams == Some(0) && m.sh.radio == Receiving && !m.sh.asyncCb
    ensures PcOf(m, 0) == Polling(0) && PcOf(m, 1) == Idle && PcOf(m, 2) == Forgetting(Return)
  {
    m := CancelStops(tasks);
    var s1 := m.sh.(opDone := Some(Done(0)));
    m := Calmly(tasks, m, Go(0), StoreDone(0), Move(s1, StoreParams(0)));
    var s2 := s1.(rxParams := Some(0));
    m := Calmly(tasks, m, Go(0), StoreParams(0), Move(s2, StartReceive(0)));
    m := Calmly(tasks, m, Go(0), StartReceive(0), Move(s2.(radio := Receiving), Polling(0)));
  }

  /** The cancel clears operation_done and the word, and a lora_config acquires the modem. */
  lemma ListensWithoutSignal(tasks: nat) returns (m: Modem)
    requires tasks >= 2
    ensures Reachable(tasks, m) && |m.sh.calls| == 1 && m.sh.usage == Busy && m.sh.holder == None
    ensures m.sh.opDone == None && m.sh.rxParams == Some(0) && m.sh.radio == Receiving && !m.sh.asyncCb
    ensures PcOf(m, 1) == Idle
  {
    m := ListensUnowned(tasks);
    m := Forgets(tasks, m, 2, Return);
    m := ClearsWord(tasks, m, 2);
    m := Calmly(tasks, m, BeginConfig(2), Idle, Move(Taken(m.sh, None), Configure));
  }

  /** rx_done then takes the modem with no signal to raise. */
  lemma TakesWithoutSignal(tasks: nat) returns (m: Modem)
    requires tasks >= 2
    ensures Reachable(tasks, m) && |m.sh.calls| == 1 && m.sh.rxParams == Some(0) && PcOf(m, 1) == RxStoreSize(None, "")
  {
    m := ListensWithoutSignal(tasks);
    m := Calmly(tasks, m, RxDone(1, ""), Idle, Move(m.sh, RxEntered(None, "")));
    m := OneGo(tasks, m, RxStoreSize(None, ""));
  }

  /** It stores the size and copies the packet. */
  lemma StoresWithoutSignal(tasks: nat) returns (m: Modem)
    requires tasks >= 2
    ensures Reachable(tasks, m) && PcOf(m, 1) == RxCopy(None, "")
  {
    m := TakesWithoutSignal(tasks);
    m := OneGo(tasks, m, RxCopy(None, ""));
  }

  lemma CopiesWithoutSignal(tasks: nat) returns (m: Modem)
    requires tasks >= 2
    ensures Reachable(tasks, m) && PcOf(m, 1) == Sleeping(RaiseNull)
  {
    m := StoresWithoutSignal(tasks);
    m := OneGo(tasks, m, Sleeping(RaiseNull));
  }

  /** One step of the handler, to pc. */
  lemma OneGo(tasks: nat, m0: Modem, pc: Pc) returns (m: Modem)
    requires Reachable(tasks, m0)
    requires Advance(m0.sh, 1, PcOf(m0, 1)).Move? && Advance(m0.sh, 1, PcOf(m0, 1)).pc == pc
    ensures Reachable(tasks, m) && m.sh == Advance(m0.sh, 1, PcOf(m0, 1)).sh && PcOf(m, 1) == pc
  {
    m := Calmly(tasks, m0, Go(1), PcOf(m0, 1), Advance(m0.sh, 1, PcOf(m0, 1)));
  }

  /** And passes NULL to k_poll_signal_raise. */
  lemma RaisesNull(tasks: nat) returns (m: Modem)
    requires tasks >= 2
    ensures Reachable(tasks, m) && m.sh.faulted
  {
    m := CopiesWithoutSignal(tasks);
    m := LetsGo(tasks, m, 1, RaiseNull);
    m := OneGo(tasks, m, Idle);
  }

  /** rx_done uses no NULL signal and no NULL rx_params in any run if and only if there is at most one client task. */
  lemma NeverFaultsExactly(tasks: nat)
    ensures (forall m :: Reachable(tasks, m) ==> !m.sh.faulted) <==> tasks <= 1
  {
    if tasks <= 1 {
      forall m | Reachable(tasks, m)
        ensures !m.sh.faulted
      {
        var es :| CalmRunWith(tasks, INIT, es) == Some(m);
        OneTaskIsSolo(tasks, INIT, es);
        NeverFaults(es, m);
      }
    } else {
      var m := RaisesNull(tasks);
    }
  }

  // ---- All or nothing ---------------------------------------------------

  /** What a returned lora_recv owes its caller. */
  predicate Whole(k: Call) {
    match k.result
    case None => true
    case Some(Expired) => k.buffer == k.original
    case Some(Got(n)) =>
      && k.packet.Some?
      && n == Min(|k.packet.value|, |k.original|)
      && k.buffer == k.packet.value[..n] + k.original[n..]
  }

  /** The promise of lora_recv with that many client tasks, over every run. */
  ghost predicate AllOrNothing(tasks: nat) {
    forall m, x: nat :: Reachable(tasks, m) && x < |m.sh.calls| && m.sh.calls[x].receive ==> Whole(m.sh.calls[x])
  }

  lemma SoloIsWhole(tasks: nat, m: Modem, x: nat)
    requires tasks <= 1 && Reachable(tasks, m) && x < |m.sh.calls| && m.sh.calls[x].receive
    ensures Whole(m.sh.calls[x])
  {
    var es :| CalmRunWith(tasks, INIT, es) == Some(m);
    OneTaskIsSolo(tasks, INIT, es);
    if m.sh.calls[x].result.Some? {
      ReceiveAllOrNothing(es, m, x);
    }
  }

  /** A blocking receive is all or nothing in every run if and only if the driver has at most one client task. */
  lemma AllOrNothingExactly(tasks: nat)
    ensures AllOrNothing(tasks) <==> tasks <= 1
  {
    if tasks <= 1 {
      forall m, x: nat | Reachable(tasks, m) && x < |m.sh.calls| && m.sh.calls[x].receive
        ensures Whole(m.sh.calls[x])
      {
        SoloIsWhole(tasks, m, x);
      }
    } else {
      var m := SecondClientBreaksReceive(tasks);
      var zero: nat := 0;
      assert !Whole(m.sh.calls[zero]);
    }
  }
}
