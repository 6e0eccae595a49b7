/**
 The polling handshake of DPS registration: the event task raises s_dps_poll_pending on every
 202 reply, and the loop of run_dps_registration clears it before it polls.
 One Work event is one shared access of that loop.
 */
module Registration {
  const TIMEOUT_MS: nat := 60000

  datatype Pc = Guard | Test | ClearFlag | Poll | Delay | Exited

  /** owed is history: a 202 reply has been seen since the last poll. */
  datatype State = State(pending: bool, done: bool, waited: nat, pc: Pc, owed: bool)

  datatype Event = StillAssigning | Terminal | Work

  const INIT := State(false, false, 0, Guard, false)

  function Step(s: State, e: Event): State {
    match e
    case StillAssigning => s.(pending := true, owed := true)
    case Terminal => s.(done := true)
    case Work =>
      match s.pc
      case Guard => s.(pc := if !s.done && s.waited < TIMEOUT_MS then Test else Exited)
      case Test => s.(pc := if s.pending then ClearFlag else Delay)
      case ClearFlag => s.(pending := false, pc := Poll)
      case Poll => s.(owed := false, pc := Delay)
      case Delay => s.(waited := s.waited + 200, pc := Guard)
      case Exited => s
  }

  function Run(s: State, es: seq<Event>): State
    decreases es
  {
    if es == [] then s else Run(Step(s, es[0]), es[1..])
  }

  function Polls(s: State, es: seq<Event>): nat
    decreases es
  {
    if es == [] then 0
    else (if es[0] == Work && s.pc == Poll then 1 else 0) + Polls(Step(s, es[0]), es[1..])
  }

  function Works(es: seq<Event>): nat {
    if es == [] then 0 else (if es[0] == Work then 1 else 0) + Works(es[1..])
  }

  predicate Kept(s: State) {
    && (s.owed ==> s.pending || s.pc == Poll)
    && s.waited <= TIMEOUT_MS && s.waited % 200 == 0
    && (s.pc != Guard && s.pc != Exited ==> s.waited < TIMEOUT_MS)
  }

  /** Steps of the loop until the next poll. */
  function Rank(s: State): nat {
    match s.pc
    case Poll => 1
    case ClearFlag => 2
    case Test => 3
    case Guard => 4
    case Delay => 5
    case Exited => 0
  }

  lemma {:induction false} RunKeeps(s: State, es: seq<Event>)
    requires Kept(s)
    ensures Kept(Run(s, es))
    ensures s.pc == Exited ==> Run(s, es).pc == Exited
    decreases es
  {
    if es != [] {
      RunKeeps(Step(s, es[0]), es[1..]);
    }
  }

  lemma {:induction false} OwedIsPolled(s: State, es: seq<Event>)
    requires Kept(s) && s.owed && Works(es) >= Rank(s) && Run(s, es).pc != Exited
    ensures Polls(s, es) >= 1
    decreases es
  {
    RunKeeps(s, es);
    if es[0] != Work || s.pc != Poll {
      RunKeeps(Step(s, es[0]), es[1..]);
      OwedIsPolled(Step(s, es[0]), es[1..]);
    }
  }

  /** Every 202 reply is followed by a status poll within five steps of the loop, as long as the loop keeps running. */
  lemma ReplyIsPolled(before: seq<Event>, after: seq<Event>)
    requires var s := Step(Run(INIT, before), StillAssigning); Works(after) >= 5 && Run(s, after).pc != Exited
    ensures Polls(Step(Run(INIT, before), StillAssigning), after) >= 1
  {
    RunKeeps(INIT, before);
    OwedIsPolled(Step(Run(INIT, before), StillAssigning), after);
  }

  function Replies(es: seq<Event>): nat {
    if es == [] then 0 else (if es[0] == StillAssigning then 1 else 0) + Replies(es[1..])
  }

  /** Polls the loop may still make for the replies seen so far. */
  function Due(s: State): nat {
    (if s.pending then 1 else 0) + (if s.pc == Poll then 1 else 0)
  }

  lemma {:induction false} PollsArePaid(s: State, es: seq<Event>)
    requires s.pc == ClearFlag ==> s.pending
    ensures Polls(s, es) <= Due(s) + Replies(es)
    decreases es
  {
    if es != [] {
      PollsArePaid(Step(s, es[0]), es[1..]);
    }
  }

  /** No run makes more status polls than there were 202 replies. */
  lemma PollsFollowReplies(es: seq<Event>)
    ensures Polls(INIT, es) <= Replies(es)
  {
    PollsArePaid(INIT, es);
  }

  /** Steps a pass of the loop has taken at most when it is at pc. */
  function Position(pc: Pc): nat {
    match pc
    case Guard => 0
    case Test => 1
    case ClearFlag => 2
    case Poll => 3
    case Delay => 4
    case Exited => 0
  }

  lemma {:induction false} EndsBy(s: State, es: seq<Event>)
    requires Kept(s)
    requires s.pc != Exited ==> Works(es) >= 5 * ((TIMEOUT_MS - s.waited) / 200) + 1 - Position(s.pc)
    ensures Run(s, es).pc == Exited
    decreases es
  {
    if s.pc == Exited {
      RunKeeps(s, es);
    } else {
      EndsBy(Step(s, es[0]), es[1..]);
    }
  }

  lemma {:induction false} DoneEnds(s: State, es: seq<Event>)
    requires s.done && (s.pc != Exited ==> Works(es) >= if s.pc == Guard then 1 else 6 - Position(s.pc))
    ensures Run(s, es).pc == Exited
    decreases es
  {
    if es != [] {
      DoneEnds(Step(s, es[0]), es[1..]);
    }
  }

  /** Whatever the replies, the loop ends within 1501 of its steps, and within five after a terminal reply. */
  lemma LoopEnds(before: seq<Event>, after: seq<Event>)
    ensures Works(after) >= 1501 ==> Run(INIT, after).pc == Exited
    ensures Works(after) >= 5 ==> Run(Step(Run(INIT, before), Terminal), after).pc == Exited
  {
    if Works(after) >= 1501 {
      EndsBy(INIT, after);
    }
    if Works(after) >= 5 {
      DoneEnds(Step(Run(INIT, before), Terminal), after);
    }
  }

  /** Steps a pass has taken at least when it is at pc. */
  function AtLeast(pc: Pc): nat {
    match pc
    case Guard => 0
    case Test => 1
    case ClearFlag => 2
    case Poll => 2
    case Delay => 2
    case Exited => 1
  }

  lemma {:induction false} NotBefore(s: State, es: seq<Event>)
    requires Kept(s) && !s.done && Terminal !in es
    requires s.pc == Exited ==> s.waited == TIMEOUT_MS
    ensures Run(s, es).pc == Exited ==>
              Works(es) + AtLeast(s.pc) >= 3 * ((TIMEOUT_MS - s.waited) / 200) + 1
    decreases es
  {
    if es != [] {
      NotBefore(Step(s, es[0]), es[1..]);
    }
  }

  /** Without a terminal reply the loop does not end before its 300 passes of 200 ms are over. */
  lemma GivesUpOnlyAfterTimeout(es: seq<Event>)
    requires Run(INIT, es).pc == Exited && Terminal !in es
    ensures Works(es) >= 901
  {
    NotBefore(INIT, es);
  }
}
