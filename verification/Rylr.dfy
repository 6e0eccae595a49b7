/**
 Who owns the RYLR modem: operation_sem, the two pending flags and the asynchronous
 operations that outlive their call, for any number of callers, step by step.

 Assumed: on_script_finished is called only for the script of the current owner.
 owner is history.
 */
module Rylr {
  import opened Text

  datatype Op = Config | Send | SendAsync | Recv | RecvAsync | CancelAsync

  /** A call in progress, or an asynchronous operation armed by a call that has returned. */
  datatype Owner = Call(party: nat) | AsyncTx | AsyncRx

  /** The script whose callback is due. */
  datatype Script = NoScript | SyncScript(party: nat) | AsyncScript

  /** on_script_finished: idle, about to clear the flag, or about to give operation_sem. */
  datatype Callback = Resting | ClearTx | GiveSem

  datatype Pc =
    | Idle
    | CheckBusy(op: Op)
    | Validate(op: Op)
    | RunScript(op: Op, left: nat)
    | AwaitScript(op: Op, left: nat)
    | SetMode
    | WaitMessage
    | SetTx
    | ValidateTx
    | StartTx
    | SetRx
    | BailTx
    | BailRx
    | Give

  datatype Shared = Shared(
    sem: nat, tx: bool, rx: bool, isTx: bool, script: Script, callback: Callback,
    owner: Option<Owner>)

  datatype Modem = Modem(sh: Shared, pcs: map<nat, Pc>)

  datatype Move = Stuck | Move(sh: Shared, pc: Pc)

  datatype Event =
    | Begin(party: nat, op: Op)
    | Go(party: nat, ok: bool)
    | ScriptFinished
    | GoCallback

  const INIT := Modem(Shared(1, false, false, false, NoScript, Resting, None), map[])

  function PcOf(m: Modem, p: nat): Pc {
    if p in m.pcs then m.pcs[p] else Idle
  }

  /** k_sem_take(K_NO_WAIT), then the first check of the operation. */
  function Take(sh: Shared, p: nat, op: Op): Move {
    if sh.sem == 0 then Move(sh, Idle)
    else
      Move(sh.(sem := sh.sem - 1, owner := Some(Call(p))),
           if op == Recv || op == RecvAsync then Validate(op) else if op == CancelAsync then BailRx else CheckBusy(op))
  }

  /** k_sem_give on a semaphore of limit 1. */
  function Given(sh: Shared): Shared {
    sh.(sem := 1, owner := None)
  }

  /** What follows a passed busy check. */
  function AfterCheck(op: Op): Pc {
    match op
    case Config => RunScript(Config, 3)
    case Send => Validate(Send)
    case SendAsync => SetTx
    case Recv => WaitMessage
    case RecvAsync => SetRx
    case CancelAsync => Give
  }

  function Bail(op: Op): Pc {
    match op
    case SendAsync => BailTx
    case RecvAsync => BailRx
    case _ => Give
  }

  /** The next step of caller p; ok is the outcome of the check or library call there (the mode itself at SetMode). */
  function Advance(sh: Shared, p: nat, pc: Pc, ok: bool): Move {
    match pc
    case Idle => Stuck
    case CheckBusy(op) =>
      Move(sh, if sh.tx || sh.rx then Bail(op) else AfterCheck(op))
    case Validate(op) =>
      if op == Send then Move(sh, if sh.isTx && ok then RunScript(Send, 1) else Give)
      else Move(sh, if !sh.isTx then CheckBusy(op) else Bail(op))
    case RunScript(op, left) =>
      if sh.script == NoScript && ok then Move(sh.(script := SyncScript(p)), AwaitScript(op, left)) else Move(sh, Give)
    case AwaitScript(op, left) =>
      Move(sh.(script := NoScript),
           if !ok then Give else if left > 1 then RunScript(op, left - 1) else if op == Config then SetMode else Give)
    case SetMode => Move(sh.(isTx := ok), Give)
    case WaitMessage => Move(sh, Give)
    case SetTx => Move(sh.(tx := true), ValidateTx)
    case ValidateTx => Move(sh, if sh.isTx && ok then StartTx else BailTx)
    case StartTx => Move(sh.(owner := Some(AsyncTx), script := if ok then AsyncScript else NoScript), Idle)
    case SetRx => Move(sh.(rx := true, owner := Some(AsyncRx)), Idle)
    case BailTx => Move(sh.(tx := false), Give)
    case BailRx => Move(sh.(rx := false), Give)
    case Give => Move(Given(sh), Idle)
  }

  function Step(m: Modem, e: Event): Option<Modem> {
    match e
    case Begin(p, op) =>
      if PcOf(m, p) != Idle then None
      else
        (match Take(m.sh, p, op)
         case Move(sh, pc) => Some(Modem(sh, m.pcs[p := pc]))
         case Stuck => None)
    case Go(p, ok) =>
      (match Advance(m.sh, p, PcOf(m, p), ok)
       case Move(sh, pc) => Some(Modem(sh, m.pcs[p := pc]))
       case Stuck => None)
    case ScriptFinished =>
      if m.sh.script == NoScript || m.sh.callback != Resting then None
      else Some(m.(sh := m.sh.(script := NoScript, callback := if m.sh.tx then ClearTx else Resting)))
    case GoCallback =>
      (match m.sh.callback
       case Resting => None
       case ClearTx => Some(m.(sh := m.sh.(tx := false, callback := GiveSem)))
       case GiveSem => Some(m.(sh := Given(m.sh).(callback := Resting))))
  }

  function Run(m: Modem, es: seq<Event>): Option<Modem>
    decreases es
  {
    if es == [] then Some(m)
    else
      match Step(m, es[0])
      case Some(m') => Run(m', es[1..])
      case None => None
  }

  /** One caller's part of the invariant. */
  predicate CallerOk(sh: Shared, p: nat, pc: Pc) {
    && (pc != Idle <==> sh.owner == Some(Call(p)))
    && (pc.Validate? ==> pc.op == Send || pc.op == Recv || pc.op == RecvAsync)
    && (pc != Idle ==> (sh.tx <==> pc == StartTx || pc == ValidateTx || (pc == BailTx && sh.tx)))
    && (sh.script == SyncScript(p) ==> pc.AwaitScript?)
  }

  /** The owner's part. */
  predicate OwnerOk(sh: Shared) {
    && (sh.sem == 0 <==> sh.owner.Some?) && sh.sem <= 1
    && (sh.sem == 1 ==> !sh.tx && !sh.rx && sh.script == NoScript)
    && (sh.rx <==> sh.owner == Some(AsyncRx))
    && (sh.tx ==> sh.owner != Some(AsyncRx))
    && (sh.callback != Resting ==> sh.owner == Some(AsyncTx) && sh.script == NoScript)
    && (sh.owner == Some(AsyncTx) ==> (sh.tx <==> sh.callback != GiveSem))
    && (sh.script == AsyncScript ==> sh.owner == Some(AsyncTx))
    && (sh.script.SyncScript? ==> sh.owner == Some(Call(sh.script.party)) && !sh.tx)
  }

  ghost predicate Inv(m: Modem) {
    OwnerOk(m.sh) && forall p: nat :: CallerOk(m.sh, p, PcOf(m, p))
  }

  lemma AdvanceKeeps(sh: Shared, p: nat, pc: Pc, ok: bool)
    requires OwnerOk(sh) && CallerOk(sh, p, pc) && pc != Idle
    ensures var mv := Advance(sh, p, pc, ok); mv.Move? && OwnerOk(mv.sh) && CallerOk(mv.sh, p, mv.pc)
    ensures var mv := Advance(sh, p, pc, ok);
            (mv.pc != Idle ==> mv.sh.owner == sh.owner)
            && (mv.sh.owner.Some? && mv.sh.owner.value.Call? ==> mv.sh.owner == sh.owner)
            && (mv.sh.script.SyncScript? ==> mv.sh.script == SyncScript(p))
  {
  }

  lemma StepKeepsInv(m: Modem, e: Event)
    requires Inv(m) && Step(m, e).Some?
    ensures Inv(Step(m, e).value)
  {
    var m' := Step(m, e).value;
    if e.Go? {
      assert CallerOk(m.sh, e.party, PcOf(m, e.party));
      AdvanceKeeps(m.sh, e.party, PcOf(m, e.party), e.ok);
    }
    forall q: nat
      ensures CallerOk(m'.sh, q, PcOf(m', q))
    {
      assert CallerOk(m.sh, q, PcOf(m, q));
    }
  }

  lemma {:induction false} RunKeepsInv(m: Modem, es: seq<Event>)
    requires Inv(m) && Run(m, es).Some?
    ensures Inv(Run(m, es).value)
    decreases es
  {
    if es != [] {
      StepKeepsInv(m, es[0]);
      RunKeepsInv(Step(m, es[0]).value, es[1..]);
    }
  }

  /**
   The semaphore is 0 exactly when one operation owns the modem: one call in progress (and then
   no other), or one armed asynchronous one. Free means no pending flag, and so the busy check
   behind a successful take never fires.
   */
  lemma OneOwner(es: seq<Event>, m: Modem, p: nat, q: nat)
    requires Run(INIT, es) == Some(m)
    ensures m.sh.sem == 0 <==> m.sh.owner.Some?
    ensures PcOf(m, p) != Idle <==> m.sh.owner == Some(Call(p))
    ensures PcOf(m, p) != Idle && PcOf(m, q) != Idle ==> p == q
    ensures m.sh.sem == 1 ==> !m.sh.tx && !m.sh.rx
    ensures PcOf(m, p).CheckBusy? ==> !m.sh.tx && !m.sh.rx
  {
    RunKeepsInv(INIT, es);
    assert CallerOk(m.sh, p, PcOf(m, p)) && CallerOk(m.sh, q, PcOf(m, q));
  }

  lemma {:induction false} ArmedStays(m: Modem, es: seq<Event>)
    requires Inv(m) && m.sh.owner == Some(AsyncRx) && Run(m, es).Some?
    ensures Run(m, es).value.sh.owner == Some(AsyncRx)
    decreases es
  {
    if es != [] {
      StepKeepsInv(m, es[0]);
      if es[0].Go? || es[0].Begin? {
        assert CallerOk(m.sh, es[0].party, PcOf(m, es[0].party));
      }
      ArmedStays(Step(m, es[0]).value, es[1..]);
    }
  }

  /** Once an asynchronous reception is armed nothing ends it: the cancel, like every other call, is refused. */
  lemma ArmedReceptionIsPermanent(es: seq<Event>, m: Modem, fs: seq<Event>, m': Modem, p: nat, op: Op)
    requires Run(INIT, es) == Some(m) && m.sh.rx && Run(m, fs) == Some(m')
    ensures m'.sh.rx && m'.sh.sem == 0
    ensures Step(m', Begin(p, op)).Some? && Step(m', Begin(p, op)).value.sh == m'.sh
    ensures PcOf(Step(m', Begin(p, op)).value, p) == Idle
  {
    RunKeepsInv(INIT, es);
    RunKeepsInv(m, fs);
    ArmedStays(m, fs);
    assert CallerOk(m'.sh, p, PcOf(m', p));
  }

  /** An asynchronous send whose script did not start: flag set, semaphore taken, no callback due. */
  predicate Stranded(sh: Shared) {
    sh.owner == Some(AsyncTx) && sh.script == NoScript && sh.callback == Resting
  }

  lemma {:induction false} StrandedStays(m: Modem, es: seq<Event>)
    requires Inv(m) && Stranded(m.sh) && Run(m, es).Some?
    ensures Stranded(Run(m, es).value.sh)
    decreases es
  {
    if es != [] {
      StepKeepsInv(m, es[0]);
      if es[0].Go? || es[0].Begin? {
        assert CallerOk(m.sh, es[0].party, PcOf(m, es[0].party));
      }
      StrandedStays(Step(m, es[0]).value, es[1..]);
    }
  }

  /** rylr_send_async keeps the modem for good exactly when modem_chat_run_script_async fails. */
  lemma FailedStartStrands(es: seq<Event>, m: Modem, p: nat, ok: bool)
    requires Run(INIT, es) == Some(m) && PcOf(m, p) == StartTx
    ensures Step(m, Go(p, ok)).Some?
    ensures var after := Step(m, Go(p, ok)).value;
            if ok then Step(after, ScriptFinished).Some?
            else forall fs :: Run(after, fs).Some? ==> Run(after, fs).value.sh.sem == 0 && Run(after, fs).value.sh.tx
  {
    RunKeepsInv(INIT, es);
    assert CallerOk(m.sh, p, PcOf(m, p));
    StepKeepsInv(m, Go(p, ok));
    var after := Step(m, Go(p, ok)).value;
    if !ok {
      forall fs | Run(after, fs).Some?
        ensures Run(after, fs).value.sh.sem == 0 && Run(after, fs).value.sh.tx
      {
        StrandedStays(after, fs);
        RunKeepsInv(after, fs);
      }
    }
  }

  /** With its script started, two callback steps after the script give the modem back. */
  lemma StartedSendReleases(es: seq<Event>, m: Modem)
    requires Run(INIT, es) == Some(m) && m.sh.script == AsyncScript
    ensures var end := Run(m, [ScriptFinished, GoCallback, GoCallback]);
            end.Some? && end.value.sh.sem == 1 && !end.value.sh.tx && end.value.sh.owner == None
  {
    RunKeepsInv(INIT, es);
    var m1 := Step(m, ScriptFinished).value;
    var m2 := Step(m1, GoCallback).value;
    var m3 := Step(m2, GoCallback).value;
    var script := [ScriptFinished, GoCallback, GoCallback];
    assert script[1..] == [GoCallback, GoCallback] && script[1..][1..] == [GoCallback] && script[1..][1..][1..] == [];
    assert Run(m2, [GoCallback]) == Run(m3, []) == Some(m3);
  }

  // ---- What a call comes to ------------------------------------------------

  /**
   What has happened to a call: the scripts it started, whether all its checks and library calls succeeded, and the
   mode it was last told to set.
   */
  datatype History = History(starts: nat, good: bool, mode: bool)

  /** At pc a failure matters to the call. */
  predicate Matters(pc: Pc) {
    pc.RunScript? || pc.AwaitScript? || pc.ValidateTx? || pc.StartTx? || (pc.Validate? && pc.op == Send)
  }

  function Noted(h: History, sh: Shared, pc: Pc, ok: bool, sh': Shared): History {
    History(h.starts + if sh.script == NoScript && sh'.script.SyncScript? then 1 else 0,
            h.good && (Matters(pc) ==> ok), if pc == SetMode then ok else h.mode)
  }

  function NotedStep(h: History, m: Modem, p: nat, ok: bool): History {
    match Step(m, Go(p, ok))
    case Some(m') => Noted(h, m.sh, PcOf(m, p), ok, m'.sh)
    case None => h
  }

  /** The history of the call of p over its own steps. */
  function NotedRun(h: History, m: Modem, p: nat, es: seq<Event>): History
    decreases es
  {
    if es == [] || !es[0].Go? then h
    else
      match Step(m, es[0])
      case Some(m') => NotedRun(NotedStep(h, m, p, es[0].ok), m', p, es[1..])
      case None => h
  }

  /** Steps the call may still take. */
  function Left(pc: Pc): nat {
    match pc
    case Idle => 0
    case CheckBusy(op) => if op == Config then 9 else 5
    case Validate(op) => if op == Send then 4 else 6
    case RunScript(op, left) => 2 * left + if op == Config then 2 else 1
    case AwaitScript(op, left) => 2 * left + if op == Config then 1 else 0
    case SetTx => 4
    case ValidateTx => 3
    case SetMode | WaitMessage | StartTx | BailTx | BailRx => 2
    case SetRx | Give => 1
  }

  predicate Receives(op: Op) {
    op == Recv || op == RecvAsync
  }

  /** What a call begun in mode tx0 (transmitting or not) has done once it is over. */
  predicate Outcome(op: Op, tx0: bool, sh: Shared, h: History) {
    && (sh.owner == Some(AsyncRx) <==> op == RecvAsync && !tx0)
    && (sh.owner == Some(AsyncTx) ==> op == SendAsync && tx0)
    && (sh.owner == Some(AsyncTx) && sh.script == AsyncScript <==> op == SendAsync && tx0 && h.good)
    && (sh.owner.Some? ==> sh.owner.value.AsyncRx? || sh.owner.value.AsyncTx?)
    && ModeAndScripts(op, tx0, sh, h)
  }

  /** The part that does not concern the owner. */
  predicate ModeAndScripts(op: Op, tx0: bool, sh: Shared, h: History) {
    && sh.isTx == (if op == Config && h.good then h.mode else tx0)
    && h.starts <= (if op == Config then 3 else if op == Send && tx0 then 1 else 0)
    && (h.good && op == Config ==> h.starts == 3) && (h.good && op == Send && tx0 ==> h.starts == 1)
  }

  /** How far a call in mode tx0 is. */
  predicate Along(op: Op, tx0: bool, sh: Shared, pc: Pc, h: History) {
    && (pc != Idle && pc != Give ==> sh.isTx == tx0)
    && (match pc
        case Idle => Outcome(op, tx0, sh, h)
        case CheckBusy(o) =>
          o == op && op != CancelAsync && h.starts == 0 && (Receives(op) ==> !tx0) && h.good
        case Validate(o) => o == op && h.starts == 0 && (op == Send || Receives(op)) && h.good
        case RunScript(o, left) =>
          && o == op && h.good
          && if op == Config then 1 <= left <= 3 && h.starts == 3 - left
             else op == Send && tx0 && left == 1 && h.starts == 0
        case AwaitScript(o, left) =>
          && o == op && h.good
          && if op == Config then 1 <= left <= 3 && h.starts == 4 - left
             else op == Send && tx0 && left == 1 && h.starts == 1
        case SetMode => op == Config && h.starts == 3 && h.good
        case WaitMessage => op == Recv && h.starts == 0
        case SetTx | ValidateTx => op == SendAsync && h.starts == 0 && h.good
        case StartTx => op == SendAsync && tx0 && h.starts == 0 && h.good
        case SetRx => op == RecvAsync && !tx0 && h.starts == 0
        case BailTx => op == SendAsync && h.starts == 0 && !(h.good && tx0)
        case BailRx => (op == CancelAsync || (op == RecvAsync && tx0)) && h.starts == 0
        case Give =>
          ModeAndScripts(op, tx0, sh, h) && (op == RecvAsync ==> tx0) && !(op == SendAsync && h.good && tx0))
  }

  lemma AdvanceAlong(sh: Shared, p: nat, pc: Pc, ok: bool, op: Op, tx0: bool, h: History)
    requires OwnerOk(sh) && CallerOk(sh, p, pc) && pc != Idle && Along(op, tx0, sh, pc, h)
    ensures var mv := Advance(sh, p, pc, ok);
            && mv.Move? && Left(mv.pc) < Left(pc)
            && Along(op, tx0, mv.sh, mv.pc, Noted(h, sh, pc, ok, mv.sh))
  {
  }

  /** es are steps of p. */
  predicate StepsOf(es: seq<Event>, p: nat) {
    es == [] || (es[0].Go? && es[0].party == p && StepsOf(es[1..], p))
  }

  lemma StepAlong(m: Modem, p: nat, ok: bool, op: Op, tx0: bool, h: History)
    requires Inv(m) && Along(op, tx0, m.sh, PcOf(m, p), h) && Step(m, Go(p, ok)).Some?
    ensures var m' := Step(m, Go(p, ok)).value;
            && Inv(m') && Left(PcOf(m', p)) < Left(PcOf(m, p))
            && Along(op, tx0, m'.sh, PcOf(m', p), NotedStep(h, m, p, ok))
  {
    StepKeepsInv(m, Go(p, ok));
    assert CallerOk(m.sh, p, PcOf(m, p));
    AdvanceAlong(m.sh, p, PcOf(m, p), ok, op, tx0, h);
  }

  lemma {:induction false} EndsWithin(m: Modem, p: nat, es: seq<Event>, op: Op, tx0: bool, h: History)
    requires Inv(m) && Along(op, tx0, m.sh, PcOf(m, p), h) && StepsOf(es, p) && Run(m, es).Some?
    ensures |es| <= Left(PcOf(m, p))
    decreases es
  {
    if es != [] {
      var e := es[0];
      StepAlong(m, p, e.ok, op, tx0, h);
      EndsWithin(Step(m, e).value, p, es[1..], op, tx0, NotedStep(h, m, p, e.ok));
    }
  }

  lemma {:induction false} RunAlong(m: Modem, p: nat, es: seq<Event>, op: Op, tx0: bool, h: History,
      m': Modem, h': History)
    requires Inv(m) && Along(op, tx0, m.sh, PcOf(m, p), h) && StepsOf(es, p)
    requires Run(m, es) == Some(m') && h' == NotedRun(h, m, p, es)
    ensures Along(op, tx0, m'.sh, PcOf(m', p), h')
    decreases es
  {
    if es != [] {
      var e := es[0];
      StepAlong(m, p, e.ok, op, tx0, h);
      RunAlong(Step(m, e).value, p, es[1..], op, tx0, NotedStep(h, m, p, e.ok), m', h');
    }
  }

  /**
   A call that finds the modem free is over within nine of its steps. It arms a reception exactly when it is an
   asynchronous receive in receive mode, and starts a transmission exactly when it is an asynchronous send in transmit
   mode and nothing fails; any call that does neither gives the modem back, but for a failed start. A configuration
   sets the mode it is told exactly when its three scripts all start and end well; nothing else changes the mode.
   A send starts its one script only in transmit mode, and does so when nothing fails.
   */
  lemma CallOutcome(before: seq<Event>, m: Modem, p: nat, op: Op, es: seq<Event>, m': Modem)
    requires Run(INIT, before) == Some(m) && m.sh.sem == 1 && StepsOf(es, p)
    requires Step(m, Begin(p, op)).Some? && Run(Step(m, Begin(p, op)).value, es) == Some(m')
    ensures |es| <= 9
    ensures PcOf(m', p) == Idle ==>
              && Outcome(op, m.sh.isTx, m'.sh,
                         NotedRun(History(0, true, m.sh.isTx), Step(m, Begin(p, op)).value, p, es))
              && (m'.sh.sem == 1 <==> m'.sh.owner == None)
  {
    RunKeepsInv(INIT, before);
    assert CallerOk(m.sh, p, PcOf(m, p));
    var m1, tx0, h := Step(m, Begin(p, op)).value, m.sh.isTx, History(0, true, m.sh.isTx);
    StepKeepsInv(m, Begin(p, op));
    RunAlong(m1, p, es, op, tx0, h, m', NotedRun(h, m1, p, es));
    EndsWithin(m1, p, es, op, tx0, h);
    RunKeepsInv(m1, es);
  }
}
