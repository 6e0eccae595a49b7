/**
 The Azure client's cached identity: the assigned hub and the device id are stored by two
 separate NVS writes, after being handed over by the MQTT event task field by field.
 Main task and event task interleave; Reset is possible in every state.

 esp_mqtt_client_stop returns only when no handler runs, and no reply is handled after it.
 */
module Identity {
  import opened Text

  /** One 'assigned' reply, as it fits the 128-byte buffers. */
  datatype Pair = Pair(hub: string, device: string)

  /** dps_mqtt_event_handler: between replies, or about to make one of its four stores. */
  datatype Handler = Waiting | StoreHub(p: Pair) | StoreDevice(p: Pair) | SetSuccess | SetDone

  /** app_main from the cache lookup on. */
  datatype Main =
    | Off
    | LoadHub
    | LoadDevice
    | Poll
    | CheckResult
    | CopyHub
    | CopyDevice
    | SaveHub
    | SaveDevice
    | Connected
    | GaveUp

  datatype System = System(
    nvsHub: Option<string>, nvsDevice: Option<string>,
    assignedHub: string, deviceId: string, success: bool, done: bool,
    hubHostname: string, device: string,
    main: Main, handler: Handler, replies: set<Pair>)

  datatype Event =
    | Reset
    | GoMain
    | GoHandler
    | Timeout
    | Assigned(hub: string, device: string)
    | Rejected

  /** A factory-fresh board. */
  const INIT: System := System(None, None, "", "", false, false, "", "", Off, Waiting, {})

  function MainStep(s: System): Option<System> {
    match s.main
    case Off => Some(s.(main := LoadHub))
    case LoadHub =>
      if s.nvsHub.Some? then Some(s.(hubHostname := s.nvsHub.value, main := LoadDevice)) else Some(s.(main := Poll))
    case LoadDevice =>
      if s.nvsDevice.Some? then Some(s.(device := s.nvsDevice.value, main := Connected)) else Some(s.(main := Poll))
    case Poll => if s.done && s.handler == Waiting then Some(s.(main := CheckResult)) else None
    case CheckResult => Some(s.(main := if s.done && s.success then CopyHub else GaveUp))
    case CopyHub => Some(s.(hubHostname := s.assignedHub, main := CopyDevice))
    case CopyDevice => Some(s.(device := s.deviceId, main := SaveHub))
    case SaveHub => Some(s.(nvsHub := Some(s.hubHostname), main := SaveDevice))
    case SaveDevice => Some(s.(nvsDevice := Some(s.device), main := Connected))
    case Connected | GaveUp => None
  }

  function HandlerStep(s: System): Option<System> {
    match s.handler
    case Waiting => None
    case StoreHub(p) => Some(s.(assignedHub := p.hub, handler := StoreDevice(p)))
    case StoreDevice(p) => Some(s.(deviceId := p.device, handler := SetSuccess))
    case SetSuccess => Some(s.(success := true, handler := SetDone))
    case SetDone => Some(s.(done := true, handler := Waiting))
  }

  function Step(s: System, e: Event): Option<System> {
    match e
    case Reset =>
      Some(INIT.(nvsHub := s.nvsHub, nvsDevice := s.nvsDevice, replies := s.replies))
    case GoMain => MainStep(s)
    case GoHandler => HandlerStep(s)
    case Timeout => if s.main == Poll && s.handler == Waiting then Some(s.(main := CheckResult)) else None
    case Assigned(hub, device) =>
      if s.main == Poll && s.handler == Waiting then
        var p := Pair(Truncated(hub, 127), Truncated(device, 127));
        Some(s.(handler := StoreHub(p), replies := s.replies + {p}))
      else None
    case Rejected => if s.main == Poll && s.handler == Waiting then Some(s.(handler := SetDone)) else None
  }

  function Run(s: System, es: seq<Event>): Option<System>
    decreases es
  {
    if es == [] then Some(s)
    else
      match Step(s, es[0])
      case Some(s') => Run(s', es[1..])
      case None => None
  }

  predicate Registering(m: Main) {
    m == Poll || m == CheckResult || m == CopyHub || m == CopyDevice || m == SaveHub || m == SaveDevice
  }

  predicate Inv(s: System) {
    var fetched := Pair(s.assignedHub, s.deviceId);
    var taken := Pair(s.hubHostname, s.device);
    && (s.nvsDevice.Some? ==> s.nvsHub.Some? && Pair(s.nvsHub.value, s.nvsDevice.value) in s.replies)
    && (Registering(s.main) ==> s.nvsDevice.None?)
    && (s.handler != Waiting ==> s.main == Poll)
    && (s.handler.StoreHub? || s.handler.StoreDevice? ==> s.handler.p in s.replies)
    && (s.handler.StoreDevice? ==> s.assignedHub == s.handler.p.hub)
    && (s.handler == SetSuccess ==> fetched in s.replies)
    && (s.success && !s.handler.StoreDevice? ==> fetched in s.replies)
    && (s.main == CopyHub || s.main == CopyDevice || s.main == SaveHub || s.main == SaveDevice ==> fetched in s.replies)
    && (s.main == LoadDevice ==> s.nvsHub == Some(s.hubHostname))
    && (s.main == CopyDevice ==> s.hubHostname == s.assignedHub)
    && (s.main == SaveHub || s.main == SaveDevice ==> taken == fetched)
    && (s.main == SaveDevice ==> s.nvsHub == Some(s.hubHostname))
    && (s.main == Connected ==> taken in s.replies && s.nvsHub == Some(s.hubHostname) && s.nvsDevice == Some(s.device))
  }

  lemma StepKeepsInv(s: System, e: Event)
    requires Inv(s) && Step(s, e).Some?
    ensures Inv(Step(s, e).value)
    ensures s.nvsDevice.Some? ==> Step(s, e).value.nvsHub == s.nvsHub && Step(s, e).value.nvsDevice == s.nvsDevice
  {
  }

  lemma {:induction false} RunKeepsInv(s: System, es: seq<Event>)
    requires Inv(s) && Run(s, es).Some?
    ensures Inv(Run(s, es).value)
    ensures s.nvsDevice.Some? ==>
              Run(s, es).value.nvsHub == s.nvsHub && Run(s, es).value.nvsDevice == s.nvsDevice
    decreases es
  {
    if es != [] {
      StepKeepsInv(s, es[0]);
      RunKeepsInv(Step(s, es[0]).value, es[1..]);
    }
  }

  /** A stored device id comes with the hub of the same reply, and every connection uses one reply's pair. */
  lemma OneRegistration(es: seq<Event>, s: System)
    requires Run(INIT, es) == Some(s)
    ensures s.nvsDevice.Some? ==> s.nvsHub.Some? && Pair(s.nvsHub.value, s.nvsDevice.value) in s.replies
    ensures s.main == Connected ==>
              && Pair(s.hubHostname, s.device) in s.replies
              && s.nvsHub == Some(s.hubHostname) && s.nvsDevice == Some(s.device)
  {
    RunKeepsInv(INIT, es);
  }

  /** Once both words are stored, no later run changes them or connects with anything else. */
  lemma IdentityIsFixed(es: seq<Event>, s: System, fs: seq<Event>, s': System)
    requires Run(INIT, es) == Some(s) && s.nvsDevice.Some? && Run(s, fs) == Some(s')
    ensures s'.nvsHub == s.nvsHub && s'.nvsDevice == s.nvsDevice
    ensures s'.main == Connected ==> s.nvsHub == Some(s'.hubHostname) && s.nvsDevice == Some(s'.device)
  {
    RunKeepsInv(INIT, es);
    RunKeepsInv(s, fs);
  }

  // ---- What a registration comes to --------------------------------------

  /** The last assigned reply since the last reset, as cut; p is the one before. */
  function LastReply(p: Option<Pair>, es: seq<Event>): Option<Pair>
    decreases es
  {
    if es == [] then p else LastReply(ReplyAfter(p, es[0]), es[1..])
  }

  function ReplyAfter(p: Option<Pair>, e: Event): Option<Pair> {
    match e
    case Reset => None
    case Assigned(hub, device) => Some(Pair(Truncated(hub, 127), Truncated(device, 127)))
    case _ => p
  }

  predicate Loading(m: Main) {
    m == Off || m == LoadHub || m == LoadDevice
  }

  /** How far the last reply p has come. */
  predicate Follows(s: System, p: Option<Pair>) {
    && (Loading(s.main) ==> p.None? && !s.done)
    && (s.handler != Waiting ==> s.main == Poll)
    && (s.handler == Waiting ==> (s.success <==> p.Some?) && (s.success ==> s.done))
    && (s.handler == SetDone ==> (s.success <==> p.Some?))
    && (s.handler.StoreHub? || s.handler.StoreDevice? ==> p == Some(s.handler.p))
    && (s.handler.StoreDevice? ==> s.assignedHub == s.handler.p.hub)
    && (s.handler == SetSuccess ==> p.Some?)
    && (p.Some? && !s.handler.StoreHub? && !s.handler.StoreDevice? ==> p.value == Pair(s.assignedHub, s.deviceId))
    && (s.main == CopyHub || s.main == CopyDevice || s.main == SaveHub || s.main == SaveDevice ==> p.Some?)
    && (s.main == CopyDevice || s.main == SaveHub || s.main == SaveDevice ==> s.hubHostname == s.assignedHub)
    && (s.main == SaveHub || s.main == SaveDevice ==> s.device == s.deviceId)
    && (s.main == GaveUp ==> p.None?)
    && (s.main == Connected && p.Some? ==> p.value == Pair(s.hubHostname, s.device))
  }

  lemma {:induction false} RunFollows(s: System, p: Option<Pair>, es: seq<Event>)
    requires Follows(s, p) && Run(s, es).Some?
    ensures Follows(Run(s, es).value, LastReply(p, es))
    decreases es
  {
    if es != [] {
      StepFollows(s, p, es[0]);
      RunFollows(Step(s, es[0]).value, ReplyAfter(p, es[0]), es[1..]);
    }
  }

  lemma StepFollows(s: System, p: Option<Pair>, e: Event)
    requires Follows(s, p) && Step(s, e).Some?
    ensures Follows(Step(s, e).value, ReplyAfter(p, e))
  {
  }

  /**
   The last assigned reply since the reset decides: a client that gave up has seen none, and one that has seen one
   connects with that reply's pair, having stored it.
   */
  lemma LastReplyDecides(es: seq<Event>, s: System)
    requires Run(INIT, es) == Some(s)
    ensures s.main == GaveUp ==> LastReply(None, es) == None
    ensures s.main == Connected && LastReply(None, es).Some? ==>
              LastReply(None, es) == Some(Pair(s.hubHostname, s.device))
              && s.nvsHub == Some(s.hubHostname) && s.nvsDevice == Some(s.device)
  {
    RunFollows(INIT, None, es);
    RunKeepsInv(INIT, es);
  }

  /** The client waits for a reply. */
  predicate Awaits(s: System) {
    s.main == Poll && s.handler == Waiting && !s.done
  }

  /** Only the two tasks move. */
  predicate Going(es: seq<Event>) {
    forall i :: 0 <= i < |es| ==> es[i] == GoMain || es[i] == GoHandler
  }

  /** Neither task can move. */
  predicate AtRest(s: System) {
    Step(s, GoMain).None? && Step(s, GoHandler).None?
  }

  /** Steps of both tasks at most until they rest. */
  function Left(s: System): nat {
    MainLeft(s.main) + HandlerLeft(s.handler)
  }

  function MainLeft(m: Main): nat {
    match m
    case Off => 9
    case LoadHub => 8
    case LoadDevice => 7
    case Poll => 6
    case CheckResult => 5
    case CopyHub => 4
    case CopyDevice => 3
    case SaveHub => 2
    case SaveDevice => 1
    case Connected | GaveUp => 0
  }

  function HandlerLeft(h: Handler): nat {
    match h
    case StoreHub(_) => 4
    case StoreDevice(_) => 3
    case SetSuccess => 2
    case SetDone => 1
    case Waiting => 0
  }

  lemma MainGoes(s: System)
    requires MainStep(s).Some?
    ensures Left(MainStep(s).value) < Left(s)
  {
  }

  lemma HandlerGoes(s: System)
    requires HandlerStep(s).Some?
    ensures Left(HandlerStep(s).value) < Left(s)
  {
  }

  lemma {:induction false} ComesToRest(s: System, es: seq<Event>)
    requires Going(es) && Run(s, es).Some?
    ensures |es| <= Left(s)
    decreases es
  {
    if es != [] {
      if es[0] == GoMain {
        MainGoes(s);
      } else {
        HandlerGoes(s);
      }
      ComesToRest(Step(s, es[0]).value, es[1..]);
    }
  }

  /**
   In every interleaving the two tasks rest within thirteen steps, and only connected, given up, or waiting for a
   reply.
   */
  lemma RestsSoon(s: System, es: seq<Event>)
    requires Going(es) && Run(s, es).Some?
    ensures |es| <= 13
    ensures AtRest(s) ==> s.main == Connected || s.main == GaveUp || Awaits(s)
  {
    ComesToRest(s, es);
  }

  lemma {:induction false} GoingKeepsReply(p: Option<Pair>, es: seq<Event>)
    requires Going(es)
    ensures LastReply(p, es) == p
    decreases es
  {
    if es != [] {
      assert es[0] == GoMain || es[0] == GoHandler;
      GoingKeepsReply(p, es[1..]);
    }
  }

  /** Registered and busy with the answer, or finished. */
  predicate Answered(s: System) {
    !Loading(s.main) && !Awaits(s)
  }

  lemma {:induction false} GoingStaysAnswered(s: System, es: seq<Event>)
    requires Answered(s) && Going(es) && Run(s, es).Some?
    ensures Answered(Run(s, es).value)
    decreases es
  {
    if es != [] {
      assert es[0] == GoMain || es[0] == GoHandler;
      GoingStaysAnswered(Step(s, es[0]).value, es[1..]);
    }
  }

  lemma {:induction false} GivesUpWithout(s: System, p: Option<Pair>, es: seq<Event>)
    requires Follows(s, p) && Answered(s) && s.main != Connected && Going(es) && Run(s, es).Some? && p.None?
    ensures Run(s, es).value.main != Connected
    decreases es
  {
    if es != [] {
      assert es[0] == GoMain || es[0] == GoHandler;
      StepFollows(s, p, es[0]);
      GivesUpWithout(Step(s, es[0]).value, p, es[1..]);
    }
  }

  /** Where the two tasks come to rest after the last reply p, once the client has its answer. */
  lemma AnsweredRests(s: System, p: Option<Pair>, es: seq<Event>, t: System)
    requires Inv(s) && Follows(s, p) && Answered(s) && s.main != Connected
    requires Going(es) && Run(s, es) == Some(t) && AtRest(t)
    ensures Inv(t) && Follows(t, p)
    ensures t.main == if p.Some? then Connected else GaveUp
  {
    RunKeepsInv(s, es);
    RunFollows(s, p, es);
    GoingKeepsReply(p, es);
    GoingStaysAnswered(s, es);
    RestsSoon(t, []);
    if p.None? {
      GivesUpWithout(s, p, es);
    }
  }

  lemma TakesAnswer(s: System, p: Option<Pair>, e: Event)
    requires Inv(s) && Follows(s, p) && Awaits(s) && (e == Timeout || e == Rejected || e.Assigned?) && Step(s, e).Some?
    ensures var s' := Step(s, e).value;
            Inv(s') && Follows(s', ReplyAfter(p, e)) && Answered(s') && s'.main != Connected
    ensures p.None?
  {
    StepFollows(s, p, e);
    StepKeepsInv(s, e);
  }

  /**
   From a waiting client, in every interleaving: an assigned reply ends with the client connected and the pair, cut
   to 127 bytes, stored; a rejection or the timeout ends with it having given up.
   */
  lemma AnswerDecides(before: seq<Event>, s: System, e: Event, es: seq<Event>, t: System)
    requires Run(INIT, before) == Some(s) && Awaits(s) && (e == Timeout || e == Rejected || e.Assigned?)
    requires Step(s, e).Some? ==> Going(es) && Run(Step(s, e).value, es) == Some(t) && AtRest(t)
    ensures Step(s, e).Some?
    ensures e.Assigned? ==>
              && t.main == Connected && t.nvsHub == Some(t.hubHostname) && t.nvsDevice == Some(t.device)
              && t.hubHostname == Truncated(e.hub, 127) && t.device == Truncated(e.device, 127)
    ensures !e.Assigned? ==> t.main == GaveUp
  {
    var p := LastReply(None, before);
    RunFollows(INIT, None, before);
    RunKeepsInv(INIT, before);
    TakesAnswer(s, p, e);
    AnsweredRests(Step(s, e).value, ReplyAfter(p, e), es, t);
  }

  /** A client on its way through the cache lookup, or at its end. */
  predicate LooksUp(s: System) {
    && s.handler == Waiting && !s.done && (s.nvsDevice.Some? ==> s.nvsHub.Some?)
    && (Loading(s.main) || if s.nvsDevice.Some? then s.main == Connected else s.main == Poll)
  }

  lemma {:induction false} LookupGoesOn(s: System, es: seq<Event>)
    requires LooksUp(s) && Going(es) && Run(s, es).Some?
    ensures LooksUp(Run(s, es).value) && Run(s, es).value.nvsDevice == s.nvsDevice
    decreases es
  {
    if es != [] {
      assert es[0] == GoMain;
      LookupGoesOn(Step(s, es[0]).value, es[1..]);
    }
  }

  /** A boot connects without registering exactly when a device id is stored, with the stored pair; else it waits. */
  lemma BootDecides(before: seq<Event>, s: System, es: seq<Event>, t: System)
    requires Run(INIT, before) == Some(s)
    requires Going(es) && Run(Step(s, Reset).value, es) == Some(t) && AtRest(t)
    ensures if s.nvsDevice.Some?
            then t.main == Connected && s.nvsHub == Some(t.hubHostname) && s.nvsDevice == Some(t.device)
            else Awaits(t)
  {
    RunKeepsInv(INIT, before);
    StepKeepsInv(s, Reset);
    RunKeepsInv(Step(s, Reset).value, es);
    LookupGoesOn(Step(s, Reset).value, es);
    RestsSoon(t, []);
  }
}
