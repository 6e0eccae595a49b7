/**
 A cloud-to-device message asks for telemetry through a flag shared between the MQTT event
 task and telemetry_task. One Work event is one shared access of telemetry_task.
 */
module Telemetry {
  datatype Pc = ReadFlag | Test | ClearFlag | Publish | Delay

  /** owed is history: a message has arrived since the last publish. */
  datatype State = State(flag: bool, forced: bool, connected: bool, waited: nat, interval: nat, pc: Pc, owed: bool)

  datatype Event = Message | Work | Connect | Disconnect | SetInterval(ms: nat)

  const INIT := State(false, false, false, 0, 60000, ReadFlag, false)

  function Worked(s: State): State {
    match s.pc
    case ReadFlag => s.(forced := s.flag, pc := Test)
    case Test =>
      if s.connected && (s.waited >= s.interval || s.forced) then s.(pc := if s.forced then ClearFlag else Publish)
      else s.(pc := Delay)
    case ClearFlag => s.(flag := false, pc := Publish)
    case Publish => s.(waited := 0, owed := false, pc := Delay)
    case Delay => s.(waited := s.waited + 200, pc := ReadFlag)
  }

  function Step(s: State, e: Event): State {
    match e
    case Message => s.(flag := true, owed := true)
    case Work => Worked(s)
    case Connect => s.(connected := true)
    case Disconnect => s.(connected := false)
    case SetInterval(ms) => if ms < 1000 then s else s.(interval := ms)
  }

  function Run(s: State, es: seq<Event>): State
    decreases es
  {
    if es == [] then s else Run(Step(s, es[0]), es[1..])
  }

  /** How many telemetry messages the run publishes. */
  function Publishes(s: State, es: seq<Event>): nat
    decreases es
  {
    if es == [] then 0
    else (if es[0] == Work && s.pc == Publish then 1 else 0) + Publishes(Step(s, es[0]), es[1..])
  }

  function Works(es: seq<Event>): nat {
    if es == [] then 0 else (if es[0] == Work then 1 else 0) + Works(es[1..])
  }

  /** A request not yet served is still in the flag, or its publish comes next. */
  predicate Kept(s: State) {
    && (s.owed ==> s.flag || s.pc == Publish)
    && (s.pc == ClearFlag ==> s.forced)
  }

  /** Steps of the worker until the next publish, while connected. */
  function Rank(s: State): nat {
    match s.pc
    case Publish => 1
    case ClearFlag => 2
    case Test => if s.forced then 3 else 6
    case ReadFlag => 4
    case Delay => 5
  }

  lemma {:induction false} RunKeeps(s: State, es: seq<Event>)
    requires Kept(s)
    ensures Kept(Run(s, es))
    decreases es
  {
    if es != [] {
      RunKeeps(Step(s, es[0]), es[1..]);
    }
  }

  lemma {:induction false} OwedIsServed(s: State, es: seq<Event>)
    requires Kept(s) && s.owed && s.connected && Disconnect !in es && Works(es) >= Rank(s)
    ensures Publishes(s, es) >= 1
    decreases es
  {
    if es[0] != Work || s.pc != Publish {
      OwedIsServed(Step(s, es[0]), es[1..]);
    }
  }

  /**
   Every message, at any point of any interleaving, is followed by a publish within six steps
   of the worker, if the hub is connected and stays so.
   */
  lemma MessageIsServed(before: seq<Event>, after: seq<Event>)
    requires Run(INIT, before).connected && Disconnect !in after && Works(after) >= 6
    ensures Publishes(Step(Run(INIT, before), Message), after) >= 1
  {
    RunKeeps(INIT, before);
    OwedIsServed(Step(Run(INIT, before), Message), after);
  }

  function Messages(es: seq<Event>): nat {
    if es == [] then 0 else (if es[0] == Message then 1 else 0) + Messages(es[1..])
  }

  /** The passes of the loop: how often the run takes the 200 ms delay. */
  function Delays(s: State, es: seq<Event>): nat
    decreases es
  {
    if es == [] then 0
    else (if es[0] == Work && s.pc == Delay then 1 else 0) + Delays(Step(s, es[0]), es[1..])
  }

  /** A publish on its way is forced or has waited a second at least. */
  predicate Earned(s: State) {
    && s.interval >= 1000
    && (s.pc == ClearFlag ==> s.forced)
    && (s.forced && (s.pc == Test || s.pc == ClearFlag) ==> s.flag)
    && (s.pc == Publish && !s.forced ==> s.waited >= 1000)
  }

  /** What is left to spend on publishes. */
  function Credit(s: State): nat {
    (if s.flag then 1000 else 0) + (if s.pc == Publish && s.forced then 1000 else 0) + s.waited
  }

  lemma StepIsPaid(s: State, e: Event)
    requires Earned(s)
    ensures Earned(Step(s, e))
    ensures (if e == Work && s.pc == Publish then 1000 else 0) + Credit(Step(s, e))
         <= Credit(s) + (if e == Message then 1000 else 0) + if e == Work && s.pc == Delay then 200 else 0
  {
  }

  lemma {:induction false} PublishesArePaid(s: State, es: seq<Event>)
    requires Earned(s)
    ensures 1000 * Publishes(s, es) + Credit(Run(s, es)) <= Credit(s) + 1000 * Messages(es) + 200 * Delays(s, es)
    decreases es
  {
    if es != [] {
      StepIsPaid(s, es[0]);
      PublishesArePaid(Step(s, es[0]), es[1..]);
    }
  }

  /** In any run there are at most as many publishes as messages and whole seconds of delay together. */
  lemma PublishRate(es: seq<Event>)
    ensures Publishes(INIT, es) <= Messages(es) + 200 * Delays(INIT, es) / 1000
  {
    PublishesArePaid(INIT, es);
  }

  /** Worker steps until a regular publish, from the reading of the flag on. */
  function FullCycle(interval: nat, waited: nat): nat {
    3 + (if waited < interval then 3 * ((interval - waited + 199) / 200) else 0)
  }

  function StepsLeft(s: State): nat {
    match s.pc
    case Publish => 1
    case ClearFlag => 2
    case Test => if s.waited >= s.interval then 2 else 2 + FullCycle(s.interval, s.waited + 200)
    case ReadFlag => FullCycle(s.interval, s.waited)
    case Delay => 1 + FullCycle(s.interval, s.waited + 200)
  }

  predicate Regular(e: Event) {
    e == Work || e == Connect
  }

  lemma {:induction false} NextPublish(s: State, es: seq<Event>)
    requires s.connected && !s.flag && !s.forced && s.pc != ClearFlag
    requires forall i :: 0 <= i < |es| ==> Regular(es[i])
    ensures Publishes(s, es) >= 1 <==> Works(es) >= StepsLeft(s)
    decreases es
  {
    if es != [] && !(es[0] == Work && s.pc == Publish) {
      NextPublish(Step(s, es[0]), es[1..]);
    }
  }

  /**
   Without messages the cycle is exact: from a look at the flag on, connected, the next publish comes with the step
   that completes the interval's number of 200 ms passes, and not before.
   */
  lemma RegularCycle(s: State, es: seq<Event>)
    requires s.pc == ReadFlag && s.connected && !s.flag && !s.forced && s.waited < s.interval
    requires forall i :: 0 <= i < |es| ==> Regular(es[i])
    ensures Publishes(s, es) >= 1 <==> Works(es) >= 3 * ((s.interval - s.waited + 199) / 200) + 3
  {
    NextPublish(s, es);
  }

  /** From one regular publish to the next, in the same way; the pass right after the publish counts. */
  lemma PublishPeriod(s: State, es: seq<Event>)
    requires s.pc == Publish && s.connected && !s.flag && !s.forced && s.interval >= 1000
    requires forall i :: 0 <= i < |es| ==> Regular(es[i])
    ensures Publishes(Step(s, Work), es) >= 1 <==> Works(es) >= 3 * ((s.interval - 1) / 200) + 4
  {
    NextPublish(Step(s, Work), es);
  }

  lemma {:induction false} SilentOffline(s: State, es: seq<Event>)
    requires !s.connected && Connect !in es && s.pc != Publish && s.pc != ClearFlag
    ensures Publishes(s, es) == 0
    decreases es
  {
    if es != [] {
      SilentOffline(Step(s, es[0]), es[1..]);
    }
  }

  lemma {:induction false} LastPublish(s: State, es: seq<Event>)
    requires !s.connected && Connect !in es
    ensures Publishes(s, es) <= 1
    decreases es
  {
    if es != [] {
      if es[0] == Work && s.pc == Publish {
        SilentOffline(Step(s, es[0]), es[1..]);
      } else {
        LastPublish(Step(s, es[0]), es[1..]);
      }
    }
  }

  /** After a loss of the connection at most the publish already decided on goes out until the next connection. */
  lemma DisconnectSilences(before: seq<Event>, after: seq<Event>)
    requires Connect !in after
    ensures Publishes(Step(Run(INIT, before), Disconnect), after) <= 1
  {
    LastPublish(Step(Run(INIT, before), Disconnect), after);
  }

  predicate SetsInterval(e: Event) {
    e.SetInterval? && e.ms >= 1000
  }

  predicate SetsLink(e: Event) {
    e == Connect || e == Disconnect
  }

  /** The interval is the last one offered that is not below 1000, and the link is as the last event about it says. */
  lemma {:induction false} LastSettingWins(s: State, es: seq<Event>, k: nat)
    requires k < |es|
    ensures SetsInterval(es[k]) && (forall j :: k < j < |es| ==> !SetsInterval(es[j])) ==>
              Run(s, es).interval == es[k].ms
    ensures SetsLink(es[k]) && (forall j :: k < j < |es| ==> !SetsLink(es[j])) ==>
              (Run(s, es).connected <==> es[k] == Connect)
    decreases es
  {
    var rest := es[1..];
    assert forall j :: 0 <= j < |rest| ==> rest[j] == es[j + 1];
    if k > 0 {
      LastSettingWins(Step(s, es[0]), rest, k - 1);
    } else {
      NoSetting(Step(s, es[0]), rest);
    }
  }

  /** Nothing else changes the interval or the link. */
  lemma {:induction false} NoSetting(s: State, es: seq<Event>)
    ensures (forall j :: 0 <= j < |es| ==> !SetsInterval(es[j])) ==> Run(s, es).interval == s.interval
    ensures (forall j :: 0 <= j < |es| ==> !SetsLink(es[j])) ==> Run(s, es).connected == s.connected
    decreases es
  {
    if es != [] {
      var rest := es[1..];
      assert forall j :: 0 <= j < |rest| ==> rest[j] == es[j + 1];
      NoSetting(Step(s, es[0]), rest);
    }
  }
}
