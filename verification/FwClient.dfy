/** The event handlers of the ThingsBoard client in place, each equal to its step of module FwDownload. */
module FwClient {
  import opened Text
  import opened Hexadecimal
  import opened FwDownload

  class Client {
    const board: Board
    var title: string
    var version: string
    var checksum: string
    var algorithm: string
    var size: int
    var known: bool
    var inProgress: bool
    var requestId: int
    var chunkIndex: int
    var received: int
    var flash: seq<Byte>
    var hashed: seq<Byte>
    var pending: Option<string>
    var failed: Option<string>
    var interval: int
    var requests: seq<(int, int)>
    var restarting: bool
    ghost var installs: seq<Install>

    ghost function State(): Fw
      reads this
    {
      Fw(title, version, checksum, algorithm, size, known, inProgress, requestId, chunkIndex, received,
         flash, hashed, pending, failed, interval, requests, installs, restarting)
    }

    constructor (b: Board, pendingFw: Option<string>, failedFw: Option<string>)
      ensures board == b && State() == Boot(pendingFw, failedFw)
    {
      board := b;
      title, version, checksum, algorithm, size, known := "", "", "", "", 0, false;
      inProgress, requestId, chunkIndex, received, flash, hashed := false, 0, 0, 0, [], [];
      pending, failed, interval, requests, installs, restarting := pendingFw, failedFw, 10000, [], [], false;
    }

    method RequestFwChunk()
      modifies `requests
      ensures State() == Requested(old(State()))
    {
      requests := requests + [(requestId, chunkIndex)];
    }

    /** esp_ota_begin, pending_fw saved, counters reset. */
    method OpenUpdate()
      modifies `flash, `hashed, `pending, `inProgress, `received, `chunkIndex, `requestId
      ensures flash == [] && hashed == [] && pending == Some(version) && inProgress
      ensures received == 0 && chunkIndex == 0 && requestId == old(requestId) + 1
    {
      flash, hashed, pending := [], [], Some(version);
      inProgress, received, chunkIndex, requestId := true, 0, 0, requestId + 1;
    }

    method StartFwUpdate(hasPartition: bool, beginOk: bool)
      modifies this
      ensures State() == Started(old(State()), hasPartition, beginOk)
    {
      var refused := Load(failed) == Some(version);
      if !refused && hasPartition && beginOk {
        OpenUpdate();
        RequestFwChunk();
      }
    }

    /** strcasecmp as a loop over both strings. */
    static method CompareIgnoringCase(a: string, b: string) returns (same: bool)
      ensures same == SameText(a, b)
      ensures same <==> |a| == |b| && forall i :: 0 <= i < |a| ==>
                a[i] == b[i] || ('A' <= a[i] <= 'Z' && b[i] as int == a[i] as int + 32)
                || ('A' <= b[i] <= 'Z' && a[i] as int == b[i] as int + 32)
    {
      SameTextExactly(a, b);
      if |a| != |b| {
        return false;
      }
      for i := 0 to |a|
        invariant forall j :: 0 <= j < i ==> Lower(a[j]) == Lower(b[j])
      {
        if Lower(a[i]) != Lower(b[i]) {
          return false;
        }
      }
      return true;
    }

    /** The digest of everything hashed, printed two hex digits a byte. */
    method DigestHex() returns (digestHex: string)
      ensures digestHex == Hex(board.sha(hashed))
    {
      var digest: Digest := board.sha(hashed);
      digestHex := "";
      for i := 0 to 32
        invariant digestHex == Hex(digest[..i])
      {
        digestHex := digestHex + Hex2(digest[i]);
        HexSnoc(digest[..i], digest[i]);
        assert digest[..i + 1] == digest[..i] + [digest[i]];
      }
      assert digest[..32] == digest;
    }

    method FinishFwUpdate(success: bool, endOk: bool, bootOk: bool)
      modifies `inProgress, `restarting, `installs
      ensures State() == Finished(board, old(State()), success, endOk, bootOk)
    {
      if !success {
        inProgress := false;
        return;
      }
      var digestHex := DigestHex();
      var algorithmOk := CompareIgnoringCase(algorithm, "SHA256");
      var digestOk := CompareIgnoringCase(digestHex, checksum);
      if !algorithmOk || !digestOk || !endOk || !bootOk {
        inProgress := false;
        return;
      }
      installs := installs + [Install(flash, size, checksum, algorithm)];
      restarting := true;
    }

    /** esp_ota_write and mbedtls_sha256_update of one chunk. */
    method TakeChunk(data: seq<Byte>)
      modifies `flash, `hashed, `received
      ensures flash == old(flash) + data && hashed == old(hashed) + data && received == old(received) + |data|
    {
      flash := flash + data;
      hashed := hashed + data;
      received := received + |data|;
    }

    /** The next request after a chunk that was not the last. */
    method RequestNextChunk()
      modifies `chunkIndex, `requests
      ensures State() == Requested(old(State()).(chunkIndex := old(chunkIndex) + 1))
    {
      chunkIndex := chunkIndex + 1;
      RequestFwChunk();
    }

    method HandleFwChunkData(data: seq<Byte>, writeOk: bool, endOk: bool, bootOk: bool)
      modifies this
      ensures State() == ChunkTaken(board, old(State()), data, writeOk, endOk, bootOk)
    {
      if !inProgress {
        return;
      }
      if !writeOk {
        FinishFwUpdate(false, endOk, bootOk);
        return;
      }
      ghost var s := State();
      TakeChunk(data);
      ghost var t := State();
      assert ChunkTaken(board, s, data, writeOk, endOk, bootOk) ==
             if data == [] || t.received >= t.size then Finished(board, t, t.received == t.size, endOk, bootOk)
             else Requested(t.(chunkIndex := t.chunkIndex + 1))
      by {
        assert t == s.(flash := s.flash + data, hashed := s.hashed + data, received := s.received + |data|);
      }
      if |data| == 0 || received >= size {
        FinishFwUpdate(received == size, endOk, bootOk);
      } else {
        RequestNextChunk();
      }
    }

    method ApplySharedAttribute(key: Key, value: Json)
      modifies this
      ensures State() == Applied(old(State()), key, value)
      ensures SameDownload(old(State()), State()) && (Bounded(old(State())) ==> Bounded(State()))
    {
      AttributeKeeps(State(), key, value);
      match (key, value)
      case (PublishInterval, Number(n)) => if n >= 1000 { interval := n; }
      case (FwTitle, Text(v)) => title := Truncated(v, 63);
      case (FwVersion, Text(v)) => version := Truncated(v, 31);
      case (FwChecksum, Text(v)) => checksum := Truncated(v, 64);
      case (FwAlgorithm, Text(v)) => algorithm := Truncated(v, 15);
      case (FwSize, Number(n)) => size, known := n, true;
      case _ =>
    }

    method HandleAttributesPayload(items: seq<Item>, hasPartition: bool, beginOk: bool)
      modifies this
      ensures State() == AttributesTaken(board, old(State()), items, hasPartition, beginOk)
    {
      ghost var all := AllApplied(State(), items);
      for i := 0 to |items|
        invariant AllApplied(State(), items[i..]) == all
      {
        ApplySharedAttribute(KeyOf(items[i].key), items[i].value);
        assert items[i..][1..] == items[i + 1..];
      }
      if known && !inProgress && version != "" && version != board.current {
        StartFwUpdate(hasPartition, beginOk);
      }
    }
  }
}
