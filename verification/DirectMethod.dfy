/** Direct Method requests of the Azure client: the method name and request id live in the topic. */
module DirectMethod {
  import opened Text

  const PREFIX := "$iothub/methods/POST/"
  const MARKER := "$rid="
  const FOUND := "$iothub/methods/res/200/?$rid="
  const NOT_FOUND := "$iothub/methods/res/404/?$rid="
  const NAME_MAX: nat := 31
  const TOPIC_MAX: nat := 127

  datatype Action = Status | Reboot | Unknown

  datatype Reply = Reply(topic: string, action: Action)

  /** The characters of the method name: up to '/', at most 31. */
  function NameLength(rest: string, room: nat): (n: nat)
    ensures n <= |rest| && n <= room && '/' !in rest[..n]
    ensures n < |rest| && n < room ==> rest[n] == '/'
  {
    if rest == [] || rest[0] == '/' || room == 0 then 0 else 1 + NameLength(rest[1..], room - 1)
  }

  /** Method name and request id of what follows the prefix. */
  function Parsed(rest: string): Option<(string, string)> {
    ParsedWith(rest, MARKER)
  }

  function ParsedWith(rest: string, marker: string): Option<(string, string)> {
    var n := NameLength(rest, NAME_MAX);
    match Find(rest, n, marker)
    case Some(i) => if i + |marker| <= |rest| then Some((rest[..n], rest[i + |marker|..])) else None
    case None => None
  }

  function Dispatch(name: string): Action {
    if name == "getStatus" then Status else if name == "reboot" then Reboot else Unknown
  }

  function ReplyTo(name: string, id: string): Reply {
    var action := Dispatch(name);
    Reply(Truncated((if action == Unknown then NOT_FOUND else FOUND) + id, TOPIC_MAX), action)
  }

  /** The loop that copies method_name. */
  method ScanName(rest: string) returns (nameLen: nat)
    ensures nameLen == NameLength(rest, NAME_MAX)
  {
    nameLen := 0;
    while nameLen < |rest| && rest[nameLen] != '/' && nameLen < NAME_MAX
      invariant nameLen <= |rest| && nameLen <= NAME_MAX
      invariant NameLength(rest, NAME_MAX) == nameLen + NameLength(rest[nameLen..], NAME_MAX - nameLen)
    {
      assert rest[nameLen..][1..] == rest[nameLen + 1..];
      nameLen := nameLen + 1;
    }
  }

  /** The loop that looks for the marker from index from on. */
  method ScanMarker(rest: string, from: nat, marker: string) returns (at: Option<nat>)
    ensures at == Find(rest, from, marker)
    ensures at.Some? ==> at.value + |marker| < |rest|
  {
    var i := from;
    while i + |marker| < |rest|
      invariant from <= i
      invariant Find(rest, from, marker) == Find(rest, i, marker)
      decreases |rest| - i
    {
      if rest[i..i + |marker|] == marker {
        return Some(i);
      }
      i := i + 1;
    }
    return None;
  }

  /**
   handle_direct_method_request; hub_mqtt_event_handler has checked the prefix. What Parsed gives is ParsedExactly's.
   The two known names get their own action and the 200 topic, every other name the 404 topic, cut to 127 bytes.
   */
  method HandleDirectMethodRequest(topic: string) returns (reply: Option<Reply>)
    requires PREFIX <= topic
    ensures reply.Some? <==> Parsed(topic[|PREFIX|..]).Some?
    ensures reply.Some? ==>
              var (name, id) := Parsed(topic[|PREFIX|..]).value;
              && (reply.value.action == Status <==> name == "getStatus")
              && (reply.value.action == Reboot <==> name == "reboot")
              && reply.value.topic == Truncated((if name == "getStatus" || name == "reboot"
                                                 then "$iothub/methods/res/200/?$rid="
                                                 else "$iothub/methods/res/404/?$rid=") + id, 127)
  {
    var rest := topic[|PREFIX|..];
    var nameLen := ScanName(rest);
    var at := ScanMarker(rest, nameLen, MARKER);
    if at == None {
      return None;
    }
    return Some(ReplyTo(rest[..nameLen], rest[at.value + |MARKER|..]));
  }

  lemma {:induction false} NameExactly(rest: string, room: nat, n: nat)
    ensures NameLength(rest, room) == n <==>
              && n <= |rest| && n <= room && '/' !in rest[..n]
              && (n == |rest| || n == room || rest[n] == '/')
  {
    if rest != [] && rest[0] != '/' && room > 0 && n > 0 {
      NameExactly(rest[1..], room - 1, n - 1);
      if n <= |rest| {
        assert rest[..n] == [rest[0]] + rest[1..][..n - 1];
      }
    }
  }

  /**
   The name is what stands before the first '/', the end, or byte 32; the id is everything behind the first marker
   from there on, and not empty. Nothing else is parsed.
   */
  lemma ParsedExactly(rest: string, name: string, id: string, marker: string)
    requires marker == "$rid="
    ensures Parsed(rest) == Some((name, id)) <==>
              && name <= rest && '/' !in name && |name| <= 31
              && (name == rest || |name| == 31 || rest[|name|] == '/')
              && exists i :: |name| <= i && Occurs(rest, i, marker) && id == rest[i + 5..] && id != []
                             && forall j :: |name| <= j < i ==> !Occurs(rest, j, marker)
  {
    ParsedWithExactly(rest, marker, name, id);
    assert |marker| == 5;
  }

  /** The same for any marker. */
  lemma ParsedWithExactly(rest: string, marker: string, name: string, id: string)
    ensures ParsedWith(rest, marker) == Some((name, id)) <==>
              && name <= rest && '/' !in name && |name| <= NAME_MAX
              && (name == rest || |name| == NAME_MAX || rest[|name|] == '/')
              && exists i :: |name| <= i && Occurs(rest, i, marker) && id == rest[i + |marker|..] && id != []
                             && forall j :: |name| <= j < i ==> !Occurs(rest, j, marker)
  {
    var n := NameLength(rest, NAME_MAX);
    NameExactly(rest, NAME_MAX, |name|);
    if name <= rest {
      assert name == rest[..|name|];
    }
    forall i: nat
      ensures Find(rest, n, marker) == Some(i) <==>
                n <= i && i + |marker| < |rest| && Occurs(rest, i, marker)
                && forall j :: n <= j < i ==> !Occurs(rest, j, marker)
    {
      FindExactly(rest, n, marker, i);
    }
  }

  lemma {:induction false} NameEnds(name: string, tail: string, room: nat)
    requires tail != [] && tail[0] == '/'
    ensures NameLength(name + tail, room) == |name| <==> '/' !in name && |name| <= room
  {
    if name == [] {
      assert name + tail == tail;
    } else {
      assert (name + tail)[1..] == name[1..] + tail;
      if name[0] != '/' && room > 0 {
        NameEnds(name[1..], tail, room - 1);
        assert '/' in name ==> '/' in name[1..];
        assert '/' in name[1..] ==> '/' in name;
      }
    }
  }

  /** The marker is found at its own place, and only if something follows it. */
  lemma FindsBehindTwo(rest: string, n: nat, marker: string, id: string)
    requires marker != [] && n + 2 <= |rest| && rest[n] != marker[0] && rest[n + 1] != marker[0]
    requires rest[n + 2..] == marker + id
    ensures Find(rest, n, marker) == if id == [] then None else Some(n + 2)
  {
    assert |rest| == n + 2 + |marker| + |id|;
    FindSkips(rest, n, marker);
    if n + 1 + |marker| < |rest| {
      FindSkips(rest, n + 1, marker);
    }
    assert rest[n + 2..][..|marker|] == rest[n + 2..n + 2 + |marker|];
  }

  /** What follows the method name in a topic. */
  function IdPart(marker: string, id: string): string {
    ['/', '?'] + (marker + id)
  }

  lemma IdPartSplits(marker: string, id: string)
    ensures var tail := IdPart(marker, id); tail[0] == '/' && tail[1] == '?' && tail[2..] == marker + id
  {
    DropAppend(['/', '?'], marker + id, 0);
  }

  /** Where the pieces of a topic are. */
  lemma TopicSplits(name: string, marker: string, id: string)
    ensures var rest, n := name + IdPart(marker, id), |name|;
            && |rest| == n + 2 + |marker| + |id| && rest[..n] == name
            && rest[n] == '/' && rest[n + 1] == '?'
            && rest[n + 2..] == marker + id && rest[n + 2 + |marker|..] == id
  {
    var tail := IdPart(marker, id);
    IdPartSplits(marker, id);
    DropAppend(name, tail, 2);
    DropAppend(marker, id, 0);
    DropDrop(name + tail, |name| + 2, |marker|);
  }

  lemma MarkerFound(name: string, marker: string, id: string)
    requires marker != [] && marker[0] != '/' && marker[0] != '?'
    ensures Find(name + IdPart(marker, id), |name|, marker) == if id == [] then None else Some(|name| + 2)
  {
    TopicSplits(name, marker, id);
    FindsBehindTwo(name + IdPart(marker, id), |name|, marker, id);
  }

  /** Parsing recovers name and id exactly when the name has no '/', at most 31 bytes, and the id is not empty. */
  lemma TopicRoundTrip(name: string, id: string)
    ensures Parsed(name + IdPart(MARKER, id)) == Some((name, id)) <==> '/' !in name && |name| <= NAME_MAX && id != []
  {
    NameEnds(name, IdPart(MARKER, id), NAME_MAX);
    ParsesBack(name, MARKER, id);
  }

  /** Parsing, for any marker. */
  lemma ParsesBack(name: string, marker: string, id: string)
    requires marker != [] && marker[0] != '/' && marker[0] != '?'
    ensures var rest := name + IdPart(marker, id);
            ParsedWith(rest, marker) == Some((name, id)) <==> NameLength(rest, NAME_MAX) == |name| && id != []
  {
    var rest := name + IdPart(marker, id);
    var n := NameLength(rest, NAME_MAX);
    TopicSplits(name, marker, id);
    if n == |name| {
      MarkerFound(name, marker, id);
    } else if ParsedWith(rest, marker).Some? {
      assert |ParsedWith(rest, marker).value.0| == n;
    }
  }

  /** The reply topic carries exactly the id when it has at most 97 bytes, for known and unknown methods alike. */
  lemma ReplyCarriesId(name: string, id: string)
    ensures ReplyTo(name, id).topic == (if Dispatch(name) == Unknown then NOT_FOUND else FOUND) + id <==> |id| <= 97
  {
    assert |FOUND| == 30 && |NOT_FOUND| == 30;
  }
}
