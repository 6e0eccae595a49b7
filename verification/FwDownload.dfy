/**
 The chunked firmware download of the ThingsBoard client: shared attributes describe a
 package, chunks are pulled one at a time into the spare partition and hashed on the way,
 and the boot partition is switched after a checksum.

 SHA-256 is any function from bytes to 32 bytes. Results of the esp_ota_* calls are inputs.
 */
module FwDownload {
  import opened Text
  import opened Hexadecimal

  const CHUNK: nat := 4096

  type Digest = d: seq<Byte> | |d| == 32 witness seq(32, _ => 0)

  /** What one build on one board fixes. */
  datatype Board = Board(sha: seq<Byte> -> Digest, current: string, capacity: nat)

  /** esp_ota_set_boot_partition succeeded: what had been written, and the attributes at that moment. */
  datatype Install = Install(image: seq<Byte>, size: int, checksum: string, algorithm: string)

  /** The static variables of app_main.c, the open OTA handle (flash), the hash input, and what went out. */
  datatype Fw = Fw(
    title: string, version: string, checksum: string, algorithm: string, size: int, known: bool,
    inProgress: bool, requestId: int, chunkIndex: int, received: int,
    flash: seq<Byte>, hashed: seq<Byte>, pending: Option<string>, failed: Option<string>,
    interval: int, requests: seq<(int, int)>, installs: seq<Install>, restarting: bool)

  datatype Json = Number(n: int) | Text(s: string) | Other

  datatype Item = Item(key: string, value: Json)

  datatype Event =
    | Chunk(data: seq<Byte>, writeOk: bool, endOk: bool, bootOk: bool)
    | Attributes(items: seq<Item>, hasPartition: bool, beginOk: bool)

  // ---- Text helpers -----------------------------------------------------

  function Lower(c: char): char {
    if 'A' <= c <= 'Z' then (c as int + 32) as char else c
  }

  /** strcasecmp(a, b) == 0 */
  predicate SameText(a: string, b: string) {
    |a| == |b| && forall i :: 0 <= i < |a| ==> Lower(a[i]) == Lower(b[i])
  }

  /** Two characters are the same in lower case exactly when they are equal or the two cases of one letter. */
  lemma LowerExactly(c: char, d: char)
    ensures Lower(c) == Lower(d) <==>
              c == d || ('A' <= c <= 'Z' && d as int == c as int + 32) || ('A' <= d <= 'Z' && c as int == d as int + 32)
  {
  }

  lemma SameTextExactly(a: string, b: string)
    ensures SameText(a, b) <==> |a| == |b| && forall i :: 0 <= i < |a| ==>
              a[i] == b[i] || ('A' <= a[i] <= 'Z' && b[i] as int == a[i] as int + 32)
              || ('A' <= b[i] <= 'Z' && a[i] as int == b[i] as int + 32)
  {
    if |a| == |b| {
      forall i | 0 <= i < |a| {
        LowerExactly(a[i], b[i]);
      }
    }
  }

  // ---- The machine ------------------------------------------------------

  predicate ChecksumOk(b: Board, s: Fw) {
    SameText(s.algorithm, "SHA256") && SameText(Hex(b.sha(s.hashed)), s.checksum)
  }

  function Finished(b: Board, s: Fw, success: bool, endOk: bool, bootOk: bool): Fw {
    if success && ChecksumOk(b, s) && endOk && bootOk then
      s.(installs := s.installs + [Install(s.flash, s.size, s.checksum, s.algorithm)], restarting := true)
    else
      s.(inProgress := false)
  }

  function Requested(s: Fw): Fw {
    s.(requests := s.requests + [(s.requestId, s.chunkIndex)])
  }

  function ChunkTaken(b: Board, s: Fw, data: seq<Byte>, writeOk: bool, endOk: bool, bootOk: bool): Fw {
    if !s.inProgress then s
    else if !writeOk then Finished(b, s, false, endOk, bootOk)
    else
      var t := s.(flash := s.flash + data, hashed := s.hashed + data, received := s.received + |data|);
      if data == [] || t.received >= t.size then Finished(b, t, t.received == t.size, endOk, bootOk)
      else Requested(t.(chunkIndex := t.chunkIndex + 1))
  }

  datatype Key = PublishInterval | FwSize | FwTitle | FwVersion | FwChecksum | FwAlgorithm | Unknown

  function KeyOf(key: string): Key {
    if key == "publishInterval" then PublishInterval
    else if key == "fw_title" then FwTitle
    else if key == "fw_version" then FwVersion
    else if key == "fw_checksum" then FwChecksum
    else if key == "fw_checksum_algorithm" then FwAlgorithm
    else if key == "fw_size" then FwSize
    else Unknown
  }

  /** apply_shared_attribute: a key counts only with a value of its type, and text is cut to its buffer. */
  function Applied(s: Fw, key: Key, value: Json): Fw {
    match (key, value)
    case (PublishInterval, Number(n)) => if n >= 1000 then s.(interval := n) else s
    case (FwSize, Number(n)) => s.(size := n, known := true)
    case (FwTitle, Text(v)) => s.(title := Truncated(v, 63))
    case (FwVersion, Text(v)) => s.(version := Truncated(v, 31))
    case (FwChecksum, Text(v)) => s.(checksum := Truncated(v, 64))
    case (FwAlgorithm, Text(v)) => s.(algorithm := Truncated(v, 15))
    case _ => s
  }

  function AllApplied(s: Fw, items: seq<Item>): Fw
    decreases items
  {
    if items == [] then s else AllApplied(Applied(s, KeyOf(items[0].key), items[0].value), items[1..])
  }

  function Started(s: Fw, hasPartition: bool, beginOk: bool): Fw {
    if Load(s.failed) == Some(s.version) || !hasPartition || !beginOk then s
    else
      Requested(s.(flash := [], hashed := [], pending := Some(s.version), inProgress := true,
                   received := 0, chunkIndex := 0, requestId := s.requestId + 1))
  }

  function AttributesTaken(b: Board, s: Fw, items: seq<Item>, hasPartition: bool, beginOk: bool): Fw {
    var t := AllApplied(s, items);
    if t.known && !t.inProgress && t.version != "" && t.version != b.current then Started(t, hasPartition, beginOk)
    else t
  }

  /** esp_ota_write refuses what does not fit the partition; after esp_restart nothing is handled. */
  predicate Possible(b: Board, s: Fw, e: Event) {
    !s.restarting && (e.Chunk? && e.writeOk && s.inProgress ==> |s.flash| + |e.data| <= b.capacity)
  }

  function Step(b: Board, s: Fw, e: Event): Fw {
    match e
    case Chunk(data, writeOk, endOk, bootOk) => ChunkTaken(b, s, data, writeOk, endOk, bootOk)
    case Attributes(items, hasPartition, beginOk) => AttributesTaken(b, s, items, hasPartition, beginOk)
  }

  function Run(b: Board, s: Fw, es: seq<Event>): Option<Fw>
    decreases es
  {
    if es == [] then Some(s)
    else if Possible(b, s, es[0]) then Run(b, Step(b, s, es[0]), es[1..])
    else None
  }

  /** Boot: every static variable zero, NVS as it was left. */
  function Boot(pending: Option<string>, failed: Option<string>): Fw {
    Fw("", "", "", "", 0, false, false, 0, 0, 0, [], [], pending, failed, 10000, [], [], false)
  }

  // ---- Integrity over every run -----------------------------------------

  /** The package had the announced size and digest. */
  predicate Genuine(b: Board, i: Install) {
    |i.image| == i.size && SameText(i.algorithm, "SHA256") && SameText(Hex(b.sha(i.image)), i.checksum)
  }

  predicate Consistent(b: Board, s: Fw) {
    && (s.inProgress ==>
          && s.flash == s.hashed && s.received == |s.flash| && |s.flash| <= b.capacity
          && s.requests != [] && (!s.restarting ==> s.requests[|s.requests| - 1] == (s.requestId, s.chunkIndex)))
    && (forall i :: 0 <= i < |s.installs| ==> Genuine(b, s.installs[i]))
    && (if s.restarting then s.inProgress && |s.installs| == 1 && s.installs[0].image == s.flash else s.installs == [])
    && Bounded(s)
  }

  /** Attributes never touch the download itself. */
  predicate SameDownload(s: Fw, t: Fw) {
    && t.inProgress == s.inProgress && t.requestId == s.requestId && t.chunkIndex == s.chunkIndex
    && t.received == s.received && t.flash == s.flash && t.hashed == s.hashed && t.requests == s.requests
    && t.installs == s.installs && t.restarting == s.restarting && t.pending == s.pending && t.failed == s.failed
  }

  predicate Bounded(s: Fw) {
    |s.title| <= 63 && |s.version| <= 31 && |s.checksum| <= 64 && |s.algorithm| <= 15 && s.interval >= 1000
  }

  lemma AttributeKeeps(s: Fw, key: Key, value: Json)
    ensures SameDownload(s, Applied(s, key, value)) && (Bounded(s) ==> Bounded(Applied(s, key, value)))
  {
  }

  lemma {:induction false} AttributesKeep(s: Fw, items: seq<Item>)
    ensures SameDownload(s, AllApplied(s, items)) && (Bounded(s) ==> Bounded(AllApplied(s, items)))
    decreases items
  {
    if items != [] {
      var key := KeyOf(items[0].key);
      AttributeKeeps(s, key, items[0].value);
      AttributesKeep(Applied(s, key, items[0].value), items[1..]);
    }
  }

  /** The text an item gives to the variable of key, if it is of that key and type. */
  function TextFor(key: Key, itemKey: Key, value: Json): Option<string> {
    if itemKey == key && value.Text? then Some(value.s) else None
  }

  /** The number an item gives to it. */
  function NumberFor(key: Key, itemKey: Key, value: Json): Option<int> {
    if itemKey == key && value.Number? && (key == PublishInterval ==> value.n >= 1000) then Some(value.n) else None
  }

  function LastText(items: seq<Item>, key: Key): Option<string>
    decreases items
  {
    if items == [] then None
    else
      var later := LastText(items[1..], key);
      if later.Some? then later else TextFor(key, KeyOf(items[0].key), items[0].value)
  }

  function LastNumber(items: seq<Item>, key: Key): Option<int>
    decreases items
  {
    if items == [] then None
    else
      var later := LastNumber(items[1..], key);
      if later.Some? then later else NumberFor(key, KeyOf(items[0].key), items[0].value)
  }

  predicate IsText(key: Key) {
    key == FwTitle || key == FwVersion || key == FwChecksum || key == FwAlgorithm
  }

  predicate IsNumber(key: Key) {
    key == FwSize || key == PublishInterval
  }

  /** The static variable of a key. */
  function TextOf(s: Fw, key: Key): string
    requires IsText(key)
  {
    match key
    case FwTitle => s.title
    case FwVersion => s.version
    case FwChecksum => s.checksum
    case FwAlgorithm => s.algorithm
  }

  function NumberOf(s: Fw, key: Key): int
    requires IsNumber(key)
  {
    if key == FwSize then s.size else s.interval
  }

  /** What its buffer holds. */
  function Room(key: Key): nat
    requires IsText(key)
  {
    match key
    case FwTitle => 63
    case FwVersion => 31
    case FwChecksum => 64
    case FwAlgorithm => 15
  }

  function Overlaid(last: Option<string>, was: string, n: nat): string {
    match last
    case Some(v) => Truncated(v, n)
    case None => was
  }

  lemma AppliedText(s: Fw, itemKey: Key, value: Json, key: Key)
    requires IsText(key)
    ensures TextOf(Applied(s, itemKey, value), key) == Overlaid(TextFor(key, itemKey, value), TextOf(s, key), Room(key))
  {
  }

  lemma AppliedNumber(s: Fw, itemKey: Key, value: Json, key: Key)
    requires IsNumber(key)
    ensures var t := Applied(s, itemKey, value);
            && NumberOf(t, key) == NumberFor(key, itemKey, value).GetOr(NumberOf(s, key))
            && (t.known <==> s.known || NumberFor(FwSize, itemKey, value).Some?)
  {
  }

  /**
   Attributes do not disturb each other: the variable of a text key ends up with the last text of that
   key, cut to its buffer, whatever else comes in between, and keeps its value when there is none.
   */
  lemma {:induction false} LastTextWins(s: Fw, items: seq<Item>, key: Key)
    requires IsText(key)
    ensures TextOf(AllApplied(s, items), key) == Overlaid(LastText(items, key), TextOf(s, key), Room(key))
    decreases items
  {
    if items != [] {
      var k, v := KeyOf(items[0].key), items[0].value;
      AppliedText(s, k, v, key);
      LastTextWins(Applied(s, k, v), items[1..], key);
    }
  }

  /** Likewise for the size, which thereby becomes known, and the interval, if it is a second or more. */
  lemma {:induction false} LastNumberWins(s: Fw, items: seq<Item>, key: Key)
    requires IsNumber(key)
    ensures NumberOf(AllApplied(s, items), key) == LastNumber(items, key).GetOr(NumberOf(s, key))
    ensures AllApplied(s, items).known <==> s.known || LastNumber(items, FwSize).Some?
    decreases items
  {
    if items != [] {
      var k, v := KeyOf(items[0].key), items[0].value;
      AppliedNumber(s, k, v, key);
      LastNumberWins(Applied(s, k, v), items[1..], key);
    }
  }

  // ---- Attributes by the names the server uses ---------------------------

  predicate TextUnder(item: Item, name: string) {
    item.key == name && item.value.Text?
  }

  /** Item i is the last text under that name. */
  predicate LastTextAt(items: seq<Item>, name: string, i: nat) {
    i < |items| && TextUnder(items[i], name) && forall j :: i < j < |items| ==> !TextUnder(items[j], name)
  }

  predicate NoText(items: seq<Item>, name: string) {
    forall j :: 0 <= j < |items| ==> !TextUnder(items[j], name)
  }

  /** A number that counts: publishInterval has a floor of a second. */
  predicate NumberUnder(item: Item, name: string) {
    item.key == name && item.value.Number? && (name == "publishInterval" ==> item.value.n >= 1000)
  }

  predicate LastNumberAt(items: seq<Item>, name: string, i: nat) {
    i < |items| && NumberUnder(items[i], name) && forall j :: i < j < |items| ==> !NumberUnder(items[j], name)
  }

  predicate NoNumber(items: seq<Item>, name: string) {
    forall j :: 0 <= j < |items| ==> !NumberUnder(items[j], name)
  }

  /** Among these items the key stands for that name alone. */
  predicate Names(items: seq<Item>, key: Key, name: string) {
    forall j :: 0 <= j < |items| ==> (KeyOf(items[j].key) == key <==> items[j].key == name)
  }

  lemma KeyNames(items: seq<Item>)
    ensures Names(items, FwTitle, "fw_title") && Names(items, FwVersion, "fw_version")
    ensures Names(items, FwChecksum, "fw_checksum") && Names(items, FwAlgorithm, "fw_checksum_algorithm")
    ensures Names(items, FwSize, "fw_size") && Names(items, PublishInterval, "publishInterval")
  {
  }

  lemma {:induction false} NoTextIs(items: seq<Item>, key: Key, name: string)
    requires Names(items, key, name)
    ensures NoText(items, name) ==> LastText(items, key) == None
    decreases items
  {
    if items != [] {
      assert forall j :: 0 <= j < |items| - 1 ==> items[1..][j] == items[j + 1];
      NoTextIs(items[1..], key, name);
    }
  }

  lemma {:induction false} LastTextIs(items: seq<Item>, key: Key, name: string, i: nat)
    requires Names(items, key, name) && LastTextAt(items, name, i)
    ensures LastText(items, key) == Some(items[i].value.s)
    decreases items
  {
    var rest := items[1..];
    assert forall j :: 0 <= j < |rest| ==> rest[j] == items[j + 1];
    if i == 0 {
      NoTextIs(rest, key, name);
    } else {
      LastTextIs(rest, key, name, i - 1);
    }
  }

  lemma {:induction false} NoNumberIs(items: seq<Item>, key: Key, name: string)
    requires Names(items, key, name) && (key == PublishInterval <==> name == "publishInterval")
    ensures NoNumber(items, name) <==> LastNumber(items, key) == None
    decreases items
  {
    if items != [] {
      var rest := items[1..];
      assert forall j :: 0 <= j < |rest| ==> rest[j] == items[j + 1];
      assert forall j :: 0 < j < |items| ==> items[j] == rest[j - 1];
      NoNumberIs(rest, key, name);
    }
  }

  lemma {:induction false} LastNumberIs(items: seq<Item>, key: Key, name: string, i: nat)
    requires Names(items, key, name) && (key == PublishInterval <==> name == "publishInterval")
    requires LastNumberAt(items, name, i)
    ensures LastNumber(items, key) == Some(items[i].value.n)
    decreases items
  {
    var rest := items[1..];
    assert forall j :: 0 <= j < |rest| ==> rest[j] == items[j + 1];
    if i == 0 {
      NoNumberIs(rest, key, name);
    } else {
      LastNumberIs(rest, key, name, i - 1);
    }
  }

  /** One text variable: the last text under its name, cut to its buffer, or its old value. */
  lemma TextTaken(s: Fw, items: seq<Item>, key: Key, name: string, i: nat)
    requires IsText(key) && Names(items, key, name)
    ensures var t := AllApplied(s, items);
            && (LastTextAt(items, name, i) ==> TextOf(t, key) == Truncated(items[i].value.s, Room(key)))
            && (NoText(items, name) ==> TextOf(t, key) == TextOf(s, key))
  {
    LastTextWins(s, items, key);
    NoTextIs(items, key, name);
    if LastTextAt(items, name, i) {
      LastTextIs(items, key, name, i);
    }
  }

  lemma NumberTaken(s: Fw, items: seq<Item>, key: Key, name: string, i: nat)
    requires IsNumber(key) && Names(items, key, name) && (key == PublishInterval <==> name == "publishInterval")
    ensures var t := AllApplied(s, items);
            && (LastNumberAt(items, name, i) ==> NumberOf(t, key) == items[i].value.n)
            && (NoNumber(items, name) ==> NumberOf(t, key) == NumberOf(s, key))
            && (key == FwSize ==> (t.known <==> s.known || !NoNumber(items, name)))
  {
    LastNumberWins(s, items, key);
    NoNumberIs(items, key, name);
    if LastNumberAt(items, name, i) {
      LastNumberIs(items, key, name, i);
    }
  }

  /**
   A payload gives each text variable the last text under its own name, cut to its buffer, whatever other
   names, types and order there are; without one the variable keeps its value.
   */
  lemma PayloadTexts(s: Fw, items: seq<Item>, i: nat)
    ensures var t := AllApplied(s, items);
            && (LastTextAt(items, "fw_title", i) ==> t.title == Truncated(items[i].value.s, 63))
            && (LastTextAt(items, "fw_version", i) ==> t.version == Truncated(items[i].value.s, 31))
            && (LastTextAt(items, "fw_checksum", i) ==> t.checksum == Truncated(items[i].value.s, 64))
            && (LastTextAt(items, "fw_checksum_algorithm", i) ==> t.algorithm == Truncated(items[i].value.s, 15))
    ensures var t := AllApplied(s, items);
            && (NoText(items, "fw_title") ==> t.title == s.title)
            && (NoText(items, "fw_version") ==> t.version == s.version)
            && (NoText(items, "fw_checksum") ==> t.checksum == s.checksum)
            && (NoText(items, "fw_checksum_algorithm") ==> t.algorithm == s.algorithm)
  {
    KeyNames(items);
    TextTaken(s, items, FwTitle, "fw_title", i);
    TextTaken(s, items, FwVersion, "fw_version", i);
    TextTaken(s, items, FwChecksum, "fw_checksum", i);
    TextTaken(s, items, FwAlgorithm, "fw_checksum_algorithm", i);
  }

  /** Likewise the size, which becomes known by it, and the interval, for which only a second or more counts. */
  lemma PayloadNumbers(s: Fw, items: seq<Item>, i: nat)
    ensures var t := AllApplied(s, items);
            && (LastNumberAt(items, "fw_size", i) ==> t.size == items[i].value.n)
            && (LastNumberAt(items, "publishInterval", i) ==> t.interval == items[i].value.n)
            && (NoNumber(items, "fw_size") ==> t.size == s.size)
            && (NoNumber(items, "publishInterval") ==> t.interval == s.interval)
            && (t.known <==> s.known || !NoNumber(items, "fw_size"))
  {
    KeyNames(items);
    NumberTaken(s, items, FwSize, "fw_size", i);
    NumberTaken(s, items, PublishInterval, "publishInterval", i);
  }

  /** An item under any other name changes nothing. */
  lemma OtherNamesIgnored(s: Fw, item: Item)
    requires item.key != "fw_title" && item.key != "fw_version" && item.key != "fw_checksum"
    requires item.key != "fw_checksum_algorithm" && item.key != "fw_size" && item.key != "publishInterval"
    ensures AllApplied(s, [item]) == s
  {
    assert AllApplied(s, [item]) == AllApplied(Applied(s, KeyOf(item.key), item.value), []);
  }

  /** While an update is in progress attributes start nothing and leave the download alone. */
  lemma NoSecondUpdate(b: Board, s: Fw, items: seq<Item>, hasPartition: bool, beginOk: bool)
    requires s.inProgress
    ensures SameDownload(s, AttributesTaken(b, s, items, hasPartition, beginOk))
  {
    AttributesKeep(s, items);
  }

  // ---- Every run --------------------------------------------------------

  lemma StepKeepsConsistent(b: Board, s: Fw, e: Event)
    requires Consistent(b, s) && Possible(b, s, e)
    ensures Consistent(b, Step(b, s, e))
  {
    if e.Attributes? {
      AttributesKeep(s, e.items);
    }
  }

  lemma {:induction false} RunKeepsConsistent(b: Board, s: Fw, es: seq<Event>)
    requires Consistent(b, s) && Run(b, s, es).Some?
    ensures Consistent(b, Run(b, s, es).value)
    decreases es
  {
    if es != [] {
      StepKeepsConsistent(b, s, es[0]);
      RunKeepsConsistent(b, Step(b, s, es[0]), es[1..]);
    }
  }

  /** After every event of every run, chunks and attribute changes in any order. */
  lemma ChunkIntegrity(b: Board, pending: Option<string>, failed: Option<string>, es: seq<Event>, s: Fw)
    requires Run(b, Boot(pending, failed), es) == Some(s)
    ensures s.inProgress ==> s.flash == s.hashed && s.received == |s.flash| <= b.capacity
    ensures forall i :: 0 <= i < |s.installs| ==> Genuine(b, s.installs[i])
    ensures s.restarting <==> |s.installs| == 1
    ensures s.restarting ==> s.installs[0].image == s.flash
  {
    RunKeepsConsistent(b, Boot(pending, failed), es);
  }

  /**
   The boot partition is switched exactly by a chunk of an update in progress that completes the size known right
   then, when the write and both calls that end the update succeed and the digest matches the checksum known then.
   */
  lemma InstallUsesPresentAttributes(b: Board, pending: Option<string>, failed: Option<string>, es: seq<Event>,
      s: Fw, e: Event)
    requires Run(b, Boot(pending, failed), es) == Some(s) && Possible(b, s, e)
    ensures var t := Step(b, s, e);
            t.restarting <==>
              && e.Chunk? && s.inProgress && e.writeOk && e.endOk && e.bootOk && |s.flash + e.data| == s.size
              && SameText(s.algorithm, "SHA256") && SameText(Hex(b.sha(s.flash + e.data)), s.checksum)
    ensures var t := Step(b, s, e);
            && (t.restarting ==> t.installs == [Install(s.flash + e.data, s.size, s.checksum, s.algorithm)])
            && (!t.restarting ==> t.installs == [])
  {
    RunKeepsConsistent(b, Boot(pending, failed), es);
    StepKeepsConsistent(b, s, e);
    if e.Attributes? {
      AttributesKeep(s, e.items);
    }
  }

  /**
   A chunk that arrives during an update is written and hashed behind the others; the update goes on, with the
   next request, exactly when the chunk is not empty and the size known then is not reached. A chunk that
   cannot be written, or arrives outside an update, writes nothing.
   */
  lemma ChunkExactly(b: Board, pending: Option<string>, failed: Option<string>, es: seq<Event>, s: Fw, e: Event)
    requires Run(b, Boot(pending, failed), es) == Some(s) && Possible(b, s, e) && e.Chunk?
    ensures var t := Step(b, s, e);
            && (!s.inProgress ==> t == s)
            && (s.inProgress && !e.writeOk ==> t == s.(inProgress := false))
            && (s.inProgress && e.writeOk ==>
                  && t.flash == s.flash + e.data && t.hashed == s.flash + e.data
                  && (t.inProgress && !t.restarting <==> e.data != [] && |s.flash + e.data| < s.size)
                  && (t.inProgress && !t.restarting ==>
                        && t.chunkIndex == s.chunkIndex + 1
                        && t.requests == s.requests + [(s.requestId, s.chunkIndex + 1)])
                  && (!t.inProgress || t.restarting ==> t.requests == s.requests))
  {
    RunKeepsConsistent(b, Boot(pending, failed), es);
  }

  // ---- A server that answers what is asked ------------------------------

  /** The server's answer to request k: image bytes from CHUNK * k on. */
  function Answer(image: seq<Byte>, k: nat): seq<Byte> {
    image[Min(CHUNK * k, |image|)..Min(CHUNK * (k + 1), |image|)]
  }

  /** The state after n answers, no call failing and no attribute changing. */
  function Served(b: Board, s: Fw, image: seq<Byte>, n: nat): Fw {
    if n == 0 then s
    else
      var t := Served(b, s, image, n - 1);
      if t.requests == [] || t.restarting then t
      else
        var k := t.requests[|t.requests| - 1].1;
        if k < 0 then t else ChunkTaken(b, t, Answer(image, k), true, true, true)
  }

  function CeilDiv(n: nat): nat { (n + CHUNK - 1) / CHUNK }

  /** How many requests a download takes, for an image and an announced size that need not agree. */
  function RequestCount(length: nat, size: int): nat {
    if size <= 0 then 1 else if size <= length then CeilDiv(size) else CeilDiv(length) + 1
  }

  /** The last request that went out is for chunk k of the present update. */
  predicate LastRequest(s: Fw, k: nat) {
    s.requests != [] && s.requests[|s.requests| - 1] == (s.requestId, k)
  }

  /** Right after start_fw_update: the first chunk has been requested. */
  predicate JustStarted(b: Board, s: Fw) {
    && s.inProgress && !s.restarting && s.chunkIndex == 0 && s.received == 0 && s.flash == [] && s.hashed == []
    && LastRequest(s, 0)
  }

  /** The requests for chunks 1 to k. */
  function Asked(id: int, k: nat): (r: seq<(int, int)>)
    ensures |r| == k && forall i :: 0 <= i < k ==> r[i] == (id, i + 1)
  {
    if k == 0 then [] else Asked(id, k - 1) + [(id, k)]
  }

  /** What k answers amount to. */
  function Taken(image: seq<Byte>, k: nat): (t: seq<Byte>)
    ensures |t| == Min(CHUNK * k, |image|)
  {
    image[..Min(CHUNK * k, |image|)]
  }

  function InFlight(s: Fw, image: seq<Byte>, k: nat): Fw {
    s.(flash := Taken(image, k), hashed := Taken(image, k), received := |Taken(image, k)|, chunkIndex := k,
       requests := s.requests + Asked(s.requestId, k))
  }

  lemma AnswerExtends(image: seq<Byte>, k: nat)
    ensures Taken(image, k) + Answer(image, k) == Taken(image, k + 1)
    ensures Answer(image, k) == [] <==> CHUNK * k >= |image|
  {
  }

  lemma MiddleChunkTaken(b: Board, s: Fw, data: seq<Byte>)
    requires s.inProgress && data != [] && s.received + |data| < s.size
    ensures ChunkTaken(b, s, data, true, true, true)
         == s.(flash := s.flash + data, hashed := s.hashed + data, received := s.received + |data|,
               chunkIndex := s.chunkIndex + 1, requests := s.requests + [(s.requestId, s.chunkIndex + 1)])
  {
  }

  lemma BeforeTheEnd(length: nat, size: int, k: nat)
    requires 0 < k < RequestCount(length, size)
    ensures CHUNK * (k - 1) < length && Min(CHUNK * k, length) < size
  {
  }

  lemma AskedGrows(before: seq<(int, int)>, id: int, k: nat)
    ensures before + Asked(id, k) + [(id, k + 1)] == before + Asked(id, k + 1)
  {
  }

  /** One more chunk taken in the middle of the download. */
  lemma MiddleAnswer(b: Board, s: Fw, image: seq<Byte>, k: nat, u: Fw)
    requires u == InFlight(s, image, k) && s.inProgress && CHUNK * k < |image| && |Taken(image, k + 1)| < s.size
    ensures ChunkTaken(b, u, Answer(image, k), true, true, true) == InFlight(s, image, k + 1)
  {
    AnswerExtends(image, k);
    MiddleChunkTaken(b, u, Answer(image, k));
    AskedGrows(s.requests, s.requestId, k);
  }

  /** One more answer in the middle of the download. */
  lemma StaysInFlight(b: Board, s: Fw, image: seq<Byte>, k: nat)
    requires s.inProgress && !s.restarting && LastRequest(s, 0) && Served(b, s, image, k) == InFlight(s, image, k)
    requires CHUNK * k < |image| && |Taken(image, k + 1)| < s.size
    ensures Served(b, s, image, k + 1) == InFlight(s, image, k + 1)
  {
    var u := InFlight(s, image, k);
    InFlightAsks(s, image, k);
    AnswerTaken(b, s, image, k + 1, u, k);
    MiddleAnswer(b, s, image, k, u);
  }

  lemma {:induction false} ServedInFlight(b: Board, s: Fw, image: seq<Byte>, k: nat)
    requires JustStarted(b, s) && k < RequestCount(|image|, s.size)
    ensures Served(b, s, image, k) == InFlight(s, image, k)
  {
    if k == 0 {
      assert s.requests + [] == s.requests && Taken(image, 0) == [];
    } else {
      ServedInFlight(b, s, image, k - 1);
      BeforeTheEnd(|image|, s.size, k);
      StaysInFlight(b, s, image, k - 1);
    }
  }

  lemma AnswerTaken(b: Board, s: Fw, image: seq<Byte>, n: nat, t: Fw, k: nat)
    requires n > 0 && Served(b, s, image, n - 1) == t && LastRequest(t, k) && !t.restarting
    ensures Served(b, s, image, n) == ChunkTaken(b, t, Answer(image, k), true, true, true)
  {
  }

  lemma InFlightAsks(s: Fw, image: seq<Byte>, k: nat)
    requires LastRequest(s, 0)
    ensures LastRequest(InFlight(s, image, k), k)
  {
    if k > 0 {
      assert Asked(s.requestId, k)[k - 1] == (s.requestId, k);
    }
  }

  lemma LastAnswerStops(length: nat, size: int)
    ensures var r := RequestCount(length, size);
            r >= 1 && (CHUNK * (r - 1) >= length || Min(CHUNK * r, length) >= size)
  {
  }

  lemma LastChunkFinishes(b: Board, s: Fw, data: seq<Byte>, taken: seq<Byte>)
    requires s.inProgress && (data == [] || s.received + |data| >= s.size)
    requires s.flash == s.hashed && s.received == |s.flash| && s.flash + data == taken
    ensures ChunkTaken(b, s, data, true, true, true)
         == Finished(b, s.(flash := taken, hashed := taken, received := |taken|), |taken| == s.size, true, true)
  {
  }

  /** The state in which finish_fw_update is called, on answer k. */
  function AtTheEnd(s: Fw, image: seq<Byte>, k: nat): Fw {
    var t := Taken(image, k + 1);
    InFlight(s, image, k).(flash := t, hashed := t, received := |t|)
  }

  /** Answer k is the last: nothing comes, or the announced size is reached. */
  predicate IsLast(s: Fw, image: seq<Byte>, k: nat) {
    CHUNK * k >= |image| || |Taken(image, k + 1)| >= s.size
  }

  lemma LastAnswerFinishes(b: Board, s: Fw, image: seq<Byte>, k: nat, u: Fw)
    requires u == InFlight(s, image, k) && s.inProgress && IsLast(s, image, k)
    ensures ChunkTaken(b, u, Answer(image, k), true, true, true)
         == Finished(b, AtTheEnd(s, image, k), |Taken(image, k + 1)| == s.size, true, true)
  {
    var t := Taken(image, k + 1);
    AnswerExtends(image, k);
    LastChunkFinishes(b, u, Answer(image, k), t);
    assert AtTheEnd(s, image, k) == u.(flash := t, hashed := t, received := |t|);
  }

  lemma EndsOnAnswer(b: Board, s: Fw, image: seq<Byte>, k: nat)
    requires s.inProgress && !s.restarting && LastRequest(s, 0)
    requires Served(b, s, image, k) == InFlight(s, image, k) && IsLast(s, image, k)
    ensures Served(b, s, image, k + 1)
         == Finished(b, AtTheEnd(s, image, k), |Taken(image, k + 1)| == s.size, true, true)
  {
    var u := InFlight(s, image, k);
    InFlightAsks(s, image, k);
    AnswerTaken(b, s, image, k + 1, u, k);
    LastAnswerFinishes(b, s, image, k, u);
  }

  lemma ServedToTheEnd(b: Board, s: Fw, image: seq<Byte>, k: nat)
    requires JustStarted(b, s) && k + 1 == RequestCount(|image|, s.size)
    ensures Served(b, s, image, k + 1)
         == Finished(b, AtTheEnd(s, image, k), |Taken(image, k + 1)| == s.size, true, true)
  {
    LastAnswerStops(|image|, s.size);
    ServedInFlight(b, s, image, k);
    EndsOnAnswer(b, s, image, k);
  }

  /**
   Against such a server the download asks exactly RequestCount times and then ends, having
   written that much of the image; it is installed exactly when what was written has the
   announced size and digest.
   */
  lemma DownloadEnds(b: Board, s: Fw, image: seq<Byte>)
    requires JustStarted(b, s)
    ensures var r := RequestCount(|image|, s.size);
            var t := Served(b, s, image, r);
            && t.flash == Taken(image, r)
            && t.requests == s.requests + Asked(s.requestId, r - 1)
            && (t.restarting <==> |t.flash| == s.size && SameText(s.algorithm, "SHA256")
                                  && SameText(Hex(b.sha(t.flash)), s.checksum))
            && (!t.restarting ==> !t.inProgress)
    ensures forall k :: 0 <= k < RequestCount(|image|, s.size) ==>
              Served(b, s, image, k).inProgress && !Served(b, s, image, k).restarting
  {
    ServedToTheEnd(b, s, image, RequestCount(|image|, s.size) - 1);
    forall k | 0 <= k < RequestCount(|image|, s.size)
      ensures Served(b, s, image, k).inProgress && !Served(b, s, image, k).restarting
    {
      ServedInFlight(b, s, image, k);
    }
  }

  /** An image of the announced size arrives whole, in ceil(size / 4096) requests (one when it is empty). */
  lemma DownloadComplete(b: Board, s: Fw, image: seq<Byte>)
    requires JustStarted(b, s) && s.size == |image|
    ensures var r := if image == [] then 1 else (|image| + 4095) / 4096;
            var t := Served(b, s, image, r);
            && t.flash == image && |t.requests| == |s.requests| - 1 + r
            && (t.restarting <==> SameText(s.algorithm, "SHA256") && SameText(Hex(b.sha(image)), s.checksum))
            && (!t.restarting ==> !t.inProgress)
  {
    DownloadEnds(b, s, image);
    var r := RequestCount(|image|, s.size);
    assert image[..|image|] == image;
  }

  /** A longer package is still installed exactly when the announced size is a positive multiple of 4096. */
  lemma LongerPackage(b: Board, s: Fw, image: seq<Byte>)
    requires JustStarted(b, s) && 0 <= s.size < |image|
    ensures var t := Served(b, s, image, RequestCount(|image|, s.size));
            t.restarting <==> s.size > 0 && s.size % CHUNK == 0 && SameText(s.algorithm, "SHA256")
                              && SameText(Hex(b.sha(image[..s.size])), s.checksum)
  {
    DownloadEnds(b, s, image);
    PrefixOfAnnouncedSize(|image|, s.size);
  }

  lemma PrefixOfAnnouncedSize(length: nat, size: nat)
    requires size < length
    ensures Min(CHUNK * RequestCount(length, size), length) == size <==> size > 0 && size % CHUNK == 0
  {
    if size > 0 {
      var q := CeilDiv(size);
      assert CHUNK * q >= size && CHUNK * q < size + CHUNK;
      assert size % CHUNK == 0 <==> CHUNK * q == size;
    }
  }
}
