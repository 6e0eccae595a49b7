/**
 The chunk machine of FwDownload refines the ThingsBoard side of the update protocol of Ota: every
 event of the download is a sequence of protocol events, so what the bootloader later finds in a
 newly installed slot is a package whose size and digest were checked.

 parse is what the bootloader makes of the bytes of a partition; it can be any function.
 */
module OtaLink {
  import opened Text
  import opened Hexadecimal
  import Ota
  import FwDownload

  type Parser = seq<Byte> -> Ota.Image

  /** Do these attributes make the client call start_fw_update? */
  predicate Offers(b: FwDownload.Board, t: FwDownload.Fw) {
    t.known && !t.inProgress && t.version != "" && t.version != b.current
  }

  /** What attributes are to the protocol, once they are applied. */
  function Offered(b: FwDownload.Board, t: FwDownload.Fw, hasPartition: bool, beginOk: bool): seq<Ota.Event> {
    if !Offers(b, t) then []
    else if Load(t.failed) == Some(t.version) then [Ota.Offer("", t.version)]
    else if !hasPartition || !beginOk then [Ota.Offer("", t.version), Ota.Fail]
    else [Ota.Offer("", t.version), Ota.Begin, Ota.SavePending]
  }

  /** The bytes and counters after a chunk was written. */
  function Written(s: FwDownload.Fw, data: seq<Byte>): FwDownload.Fw {
    s.(flash := s.flash + data, hashed := s.hashed + data, received := s.received + |data|)
  }

  /** What finish_fw_update is to the protocol. */
  function Finishing(b: FwDownload.Board, parse: Parser, t: FwDownload.Fw, endOk: bool, bootOk: bool): seq<Ota.Event> {
    if t.received != t.size || !FwDownload.ChecksumOk(b, t) || !endOk then [Ota.Fail]
    else if !bootOk then [Ota.Verify(parse(t.flash)), Ota.Fail]
    else [Ota.Verify(parse(t.flash)), Ota.SetBoot]
  }

  function Chunked(b: FwDownload.Board, parse: Parser, s: FwDownload.Fw, e: FwDownload.Event): seq<Ota.Event>
    requires e.Chunk?
  {
    if !s.inProgress then []
    else if !e.writeOk then [Ota.Fail]
    else
      var t := Written(s, e.data);
      [Ota.WriteChunk(|e.data|)] +
      if e.data == [] || t.received >= t.size then Finishing(b, parse, t, e.endOk, e.bootOk) else []
  }

  function OtaEvents(b: FwDownload.Board, parse: Parser, s: FwDownload.Fw, e: FwDownload.Event): seq<Ota.Event> {
    match e
    case Chunk(_, _, _, _) => Chunked(b, parse, s, e)
    case Attributes(items, hasPartition, beginOk) => Offered(b, FwDownload.AllApplied(s, items), hasPartition, beginOk)
  }

  /** The two machines agree. */
  predicate Linked(b: FwDownload.Board, parse: Parser, s: FwDownload.Fw, d: Ota.Device) {
    var spare := Ota.At(d, !d.running);
    && d.phase == (if s.restarting then Ota.BootSet else if s.inProgress then Ota.Downloading else Ota.Idle)
    && d.pending == s.pending && d.failed == s.failed && Ota.RunningVersion(d) == b.current
    && |s.version| <= VERSION_MAX
    && (s.restarting ==> spare == Ota.Slot(Ota.Complete(parse(s.flash)), Ota.New) && d.boot == !d.running)
    && (s.inProgress && !s.restarting ==> spare.content == Ota.Partial(|s.flash|))
  }

  /** One or two protocol events at once. */
  lemma RunOne(d: Ota.Device, e: Ota.Event)
    ensures Ota.Run(Ota.ThingsBoard, d, [e]) == Ota.Step(Ota.ThingsBoard, d, e)
  {
    Ota.RunSnoc(Ota.ThingsBoard, d, [], e);
    assert [] + [e] == [e];
  }

  lemma RunTwo(d: Ota.Device, e: Ota.Event, f: Ota.Event)
    requires Ota.Step(Ota.ThingsBoard, d, e).Some?
    ensures Ota.Run(Ota.ThingsBoard, d, [e, f])
         == Ota.Step(Ota.ThingsBoard, Ota.Step(Ota.ThingsBoard, d, e).value, f)
  {
    RunOne(d, e);
    Ota.RunSnoc(Ota.ThingsBoard, d, [e], f);
    assert [e] + [f] == [e, f];
  }

  /** Applied attributes are offered to the protocol, which starts exactly when the client does. */
  lemma StartRefines(b: FwDownload.Board, parse: Parser, t: FwDownload.Fw, d: Ota.Device,
      hasPartition: bool, beginOk: bool)
    requires Linked(b, parse, t, d) && Offers(b, t) && !t.restarting
    ensures var end := Ota.Run(Ota.ThingsBoard, d, Offered(b, t, hasPartition, beginOk));
            end.Some? && Linked(b, parse, FwDownload.Started(t, hasPartition, beginOk), end.value)
  {
    var v := t.version;
    assert Ota.Compared(Ota.ThingsBoard, v) == v;
    if Load(t.failed) == Some(v) {
      RunOne(d, Ota.Offer("", v));
    } else if !hasPartition || !beginOk {
      RunTwo(d, Ota.Offer("", v), Ota.Fail);
    } else {
      Ota.BeginRuns(Ota.ThingsBoard, d, "", v);
    }
  }

  lemma AttributesRefine(b: FwDownload.Board, parse: Parser, s: FwDownload.Fw, d: Ota.Device, e: FwDownload.Event)
    requires Linked(b, parse, s, d) && e.Attributes? && !s.restarting
    ensures var end := Ota.Run(Ota.ThingsBoard, d, OtaEvents(b, parse, s, e));
            end.Some? && Linked(b, parse, FwDownload.Step(b, s, e), end.value)
  {
    var t := FwDownload.AllApplied(s, e.items);
    FwDownload.LastTextWins(s, e.items, FwDownload.FwVersion);
    FwDownload.AttributesKeep(s, e.items);
    assert Linked(b, parse, t, d);
    if Offers(b, t) {
      StartRefines(b, parse, t, d, e.hasPartition, e.beginOk);
    }
  }

  lemma FinishRefines(b: FwDownload.Board, parse: Parser, t: FwDownload.Fw, d: Ota.Device, endOk: bool, bootOk: bool)
    requires Linked(b, parse, t, d) && t.inProgress && !t.restarting
    ensures var end := Ota.Run(Ota.ThingsBoard, d, Finishing(b, parse, t, endOk, bootOk));
            end.Some? && Linked(b, parse, FwDownload.Finished(b, t, t.received == t.size, endOk, bootOk), end.value)
  {
    var image := parse(t.flash);
    if t.received != t.size || !FwDownload.ChecksumOk(b, t) || !endOk {
      RunOne(d, Ota.Fail);
    } else if !bootOk {
      RunTwo(d, Ota.Verify(image), Ota.Fail);
    } else {
      RunTwo(d, Ota.Verify(image), Ota.SetBoot);
    }
  }

  lemma ChunkRefines(b: FwDownload.Board, parse: Parser, s: FwDownload.Fw, d: Ota.Device, e: FwDownload.Event)
    requires Linked(b, parse, s, d) && e.Chunk? && !s.restarting
    ensures var end := Ota.Run(Ota.ThingsBoard, d, OtaEvents(b, parse, s, e));
            end.Some? && Linked(b, parse, FwDownload.Step(b, s, e), end.value)
  {
    if s.inProgress {
      if !e.writeOk {
        RunOne(d, Ota.Fail);
      } else {
        var t, w := Written(s, e.data), Ota.WriteChunk(|e.data|);
        RunOne(d, w);
        var d1 := Ota.Step(Ota.ThingsBoard, d, w).value;
        assert Linked(b, parse, t, d1);
        if e.data == [] || t.received >= t.size {
          FinishRefines(b, parse, t, d1, e.endOk, e.bootOk);
          Ota.RunAppend(Ota.ThingsBoard, d, [w], Finishing(b, parse, t, e.endOk, e.bootOk));
        } else {
          assert [w] + [] == [w];
        }
      }
    }
  }

  /** An update starts exactly when the size is known, the protocol accepts the version and the partition opens. */
  lemma StartsWhenAccepted(b: FwDownload.Board, parse: Parser, s: FwDownload.Fw, d: Ota.Device,
      items: seq<FwDownload.Item>, hasPartition: bool, beginOk: bool)
    requires Linked(b, parse, s, d) && !s.inProgress && !s.restarting
    ensures var t := FwDownload.AllApplied(s, items);
            var u := FwDownload.AttributesTaken(b, s, items, hasPartition, beginOk);
            && (u.inProgress <==> t.known && Ota.Accepts(Ota.ThingsBoard, d, t.version) && hasPartition && beginOk)
            && (u.inProgress <==> t.known && t.version != "" && t.version != b.current && s.failed != Some(t.version)
                                  && hasPartition && beginOk)
            && (u.inProgress ==>
                  && u.pending == Some(t.version) && FwDownload.JustStarted(b, u)
                  && u.requestId == s.requestId + 1 && u.requests == s.requests + [(s.requestId + 1, 0)])
            && (!u.inProgress ==> u == t)
  {
    var t := FwDownload.AllApplied(s, items);
    FwDownload.LastTextWins(s, items, FwDownload.FwVersion);
    FwDownload.AttributesKeep(s, items);
    assert Ota.Compared(Ota.ThingsBoard, t.version) == t.version;
  }

  /** The protocol events of a whole run. */
  function AllEvents(b: FwDownload.Board, parse: Parser, s: FwDownload.Fw, es: seq<FwDownload.Event>): seq<Ota.Event>
    decreases es
  {
    if es == [] then []
    else OtaEvents(b, parse, s, es[0]) + AllEvents(b, parse, FwDownload.Step(b, s, es[0]), es[1..])
  }

  /** Every run of the download is a run of the update protocol. */
  lemma {:induction false} DownloadRefines(b: FwDownload.Board, parse: Parser, s: FwDownload.Fw, d: Ota.Device,
      es: seq<FwDownload.Event>)
    requires Linked(b, parse, s, d) && FwDownload.Run(b, s, es).Some?
    ensures var end := Ota.Run(Ota.ThingsBoard, d, AllEvents(b, parse, s, es));
            end.Some? && Linked(b, parse, FwDownload.Run(b, s, es).value, end.value)
    decreases es
  {
    if es != [] {
      if es[0].Chunk? { ChunkRefines(b, parse, s, d, es[0]); } else { AttributesRefine(b, parse, s, d, es[0]); }
      var first, s1 := OtaEvents(b, parse, s, es[0]), FwDownload.Step(b, s, es[0]);
      var d1 := Ota.Run(Ota.ThingsBoard, d, first).value;
      DownloadRefines(b, parse, s1, d1, es[1..]);
      Ota.RunAppend(Ota.ThingsBoard, d, first, AllEvents(b, parse, s1, es[1..]));
    }
  }

  /**
   From any idle device, every run of the download is a run of the update protocol that switches the
   boot partition exactly when the download restarts; the image that then boots for the first time was
   parsed from bytes whose number and digest were the announced ones.
   */
  lemma NewImageIsGenuine(b: FwDownload.Board, parse: Parser, d: Ota.Device, es: seq<FwDownload.Event>,
      s: FwDownload.Fw)
    requires d.phase == Ota.Idle && Ota.RunningVersion(d) == b.current
    requires FwDownload.Run(b, FwDownload.Boot(d.pending, d.failed), es) == Some(s)
    ensures var end := Ota.Run(Ota.ThingsBoard, d, AllEvents(b, parse, FwDownload.Boot(d.pending, d.failed), es));
            && end.Some? && (end.value.phase == Ota.BootSet <==> s.restarting)
            && (s.restarting ==>
                  && |s.installs| == 1 && FwDownload.Genuine(b, s.installs[0])
                  && BootsImage(end.value, parse(s.installs[0].image)))
  {
    var s0 := FwDownload.Boot(d.pending, d.failed);
    DownloadRefines(b, parse, s0, d, es);
    FwDownload.ChunkIntegrity(b, d.pending, d.failed, es, s);
    Ota.ResetThenBoot(Ota.ThingsBoard, Ota.Run(Ota.ThingsBoard, d, AllEvents(b, parse, s0, es)).value);
  }

  /** The next boot runs that image, unconfirmed, from the other slot. */
  predicate BootsImage(d: Ota.Device, image: Ota.Image) {
    var up := Ota.Run(Ota.ThingsBoard, d, [Ota.Reset, Ota.Bootload]);
    && up.Some? && up.value.running == !d.running
    && Ota.At(up.value, up.value.running) == Ota.Slot(Ota.Complete(image), Ota.PendingVerify)
  }
}
