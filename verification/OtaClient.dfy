/**
 The two OTA clients as they run during one boot: fields changed in place, one
 persistent write after another. The ghost log records each write as an event of
 module Ota, so everything proved there about runs holds for every prefix of it.
 */
module OtaClient {
  import opened Text
  import opened Ota

  /** One result of esp_http_client_read: an error, data (written to flash or not), or the end of the stream. */
  datatype Read = ReadError | Data(size: nat, written: bool) | End(complete: bool)

  /** The first read that is not written data decides. */
  lemma EndsAt(stream: seq<Read>, i: nat)
    requires i <= |stream| && forall j :: 0 <= j < i ==> stream[j].Data? && stream[j].written
    requires i == |stream| || !stream[i].Data? || !stream[i].written
    ensures (i < |stream| && stream[i] == End(true)) <==>
              exists k: nat :: k < |stream| && stream[k] == End(true)
                               && forall j :: 0 <= j < k ==> stream[j].Data? && stream[j].written
  {
    forall k: nat | k < |stream| && stream[k] == End(true)
                    && forall j :: 0 <= j < k ==> stream[j].Data? && stream[j].written
      ensures k == i
    {
    }
  }

  /** The persistent writes of reconcile_pending_ota. */
  function ReconcileEvents(d: Device): seq<Event> {
    match Load(d.pending)
    case None => [ReadPending]
    case Some(p) =>
      if p == RunningVersion(d) then [ReadPending, ErasePending] else [ReadPending, SaveFailed, ErasePending]
  }

  class Firmware {
    const client: Client
    const running: bool
    var slotA: Slot
    var slotB: Slot
    var boot: bool
    var pending: Option<string>
    var failed: Option<string>
    var inProgress: bool
    ghost var phase: Phase
    ghost const origin: Device
    ghost var log: seq<Event>

    ghost function Dev(): Device
      reads this
    {
      Device(slotA, slotB, boot, running, pending, failed, phase)
    }

    /** The log is a run from a fresh device to the present state. */
    ghost predicate Tracked()
      reads this
    {
      Fresh(origin) && Run(client, origin, log) == Some(Dev())
    }

    ghost predicate Valid()
      reads this
    {
      Tracked() && (inProgress <==> InUpdate(phase))
    }

    /** app_main is entered on the slot the bootloader chose. */
    constructor (c: Client, d: Device, ghost from: Device, ghost before: seq<Event>)
      requires Fresh(from) && Run(c, from, before) == Some(d) && d.phase == Booted
      ensures Valid() && Dev() == d && client == c && origin == from && log == before
    {
      client, running := c, d.running;
      slotA, slotB, boot := d.slotA, d.slotB, d.boot;
      pending, failed, inProgress := d.pending, d.failed, false;
      phase, origin, log := d.phase, from, before;
    }

    /** Records that the write just made (or the check just passed) was event e. */
    ghost method Note(e: Event, p: Phase, before: Device)
      requires Fresh(origin) && Run(client, origin, log) == Some(before)
      requires Step(client, before, e) == Some(Dev().(phase := p))
      modifies `phase, `log
      ensures phase == p && log == old(log) + [e] && Tracked()
    {
      RunSnoc(client, origin, log, e);
      phase, log := p, log + [e];
    }

    method ReconcilePendingOta()
      requires Valid() && phase == Booted
      requires At(Dev(), running).content.Complete? && !At(Dev(), running).content.image.crashesEarly
      modifies `pending, `failed, `phase, `log
      ensures Valid() && log == old(log) + ReconcileEvents(old(Dev()))
      ensures phase == Reconciled && Load(pending) == None
      ensures failed == (match Load(old(pending))
                         case Some(p) => if p != RunningVersion(old(Dev())) then Some(p) else old(failed)
                         case None => old(failed))
    {
      var p := Load(pending);
      if p == None {
        Note(ReadPending, Reconciled, Dev());
        return;
      }
      Judge(p.value);
      ErasePendingFw();
    }

    /** A pending version that is not the running one becomes the failed one. */
    method Judge(p: string)
      requires Tracked() && phase == Booted && Load(pending) == Some(p)
      requires At(Dev(), running).content.Complete? && !At(Dev(), running).content.image.crashesEarly
      modifies `failed, `phase, `log
      ensures Tracked() && phase == Erasing
      ensures failed == if p != RunningVersion(old(Dev())) then Some(p) else old(failed)
      ensures log == old(log) + if p != RunningVersion(old(Dev())) then [ReadPending, SaveFailed] else [ReadPending]
    {
      if p == RunningVersionNow() {
        Note(ReadPending, Erasing, Dev());
      } else {
        Note(ReadPending, Blaming, Dev());
        ghost var d := Dev();
        failed := Some(p);
        Note(SaveFailed, Erasing, d);
      }
    }

    /** erase_nvs_key(NVS_KEY_PENDING_FW) */
    method ErasePendingFw()
      requires Tracked() && phase == Erasing
      modifies `pending, `phase, `log
      ensures Tracked() && phase == Reconciled && pending == None && log == old(log) + [ErasePending]
    {
      ghost var d := Dev();
      pending := None;
      Note(ErasePending, Reconciled, d);
    }

    /** CURRENT_FW_VERSION of this build. */
    function RunningVersionNow(): (v: string)
      reads this
      ensures v == RunningVersion(Dev())
    {
      match if running then slotB.content else slotA.content
      case Complete(image) => image.version
      case Partial(_) => ""
    }

    /** esp_ota_mark_app_valid_cancel_rollback, once Wi-Fi is up. */
    method ConfirmImage()
      requires Valid() && phase == Reconciled
      modifies `slotA, `slotB, `phase, `log
      ensures Valid() && log == old(log) + [Confirm] && phase == Idle
      ensures Good(At(Dev(), running)) && At(Dev(), !running) == At(old(Dev()), !running)
    {
      ghost var d := Dev();
      RunKeepsSafe(client, origin, log);
      if running && slotB.mark == PendingVerify {
        slotB := slotB.(mark := Confirmed);
      } else if !running && slotA.mark == PendingVerify {
        slotA := slotA.(mark := Confirmed);
      }
      Note(Confirm, Idle, d);
      RunKeepsSafe(client, origin, log);
    }

    /** esp_ota_begin on esp_ota_get_next_update_partition. */
    method EraseSpareSlot(ghost v: string)
      requires Tracked() && phase == Accepted(v)
      modifies `slotA, `slotB, `phase, `log
      ensures Tracked() && log == old(log) + [Begin]
      ensures Dev() == Put(old(Dev()), !running, Slot(Partial(0), Unmarked)).(phase := Begun(v))
    {
      ghost var d := Dev();
      if running { slotA := Slot(Partial(0), Unmarked); } else { slotB := Slot(Partial(0), Unmarked); }
      Note(Begin, Begun(v), d);
    }

    /** save_nvs_str(NVS_KEY_PENDING_FW, ...) of the version as its 32-byte buffer holds it. */
    method SavePendingFw(ghost v: string, cut: string)
      requires Tracked() && phase == Begun(v) && cut == Truncated(v, VERSION_MAX)
      modifies `pending, `phase, `log
      ensures Tracked() && log == old(log) + [SavePending]
      ensures Dev() == old(Dev()).(pending := Some(cut), phase := Downloading)
    {
      ghost var d := Dev();
      pending := Some(cut);
      Note(SavePending, Downloading, d);
    }

    /** esp_ota_begin, then pending_fw. */
    method OpenUpdate(ghost v: string, cut: string)
      requires Tracked() && phase == Accepted(v) && cut == Truncated(v, VERSION_MAX)
      modifies `slotA, `slotB, `pending, `phase, `log
      ensures Tracked() && log == old(log) + [Begin, SavePending]
      ensures Dev() == Opened(old(Dev()), cut)
    {
      EraseSpareSlot(v);
      SavePendingFw(v, cut);
    }

    /** esp_ota_write of n bytes. */
    method WriteSpareSlot(n: nat)
      requires Tracked() && phase == Downloading && At(Dev(), !running).content.Partial?
      modifies `slotA, `slotB, `phase, `log
      ensures Tracked() && log == old(log) + [WriteChunk(n)]
      ensures var s := At(old(Dev()), !running);
              Dev() == Put(old(Dev()), !running, s.(content := Partial(s.content.written + n)))
    {
      ghost var d := Dev();
      if running {
        slotA := slotA.(content := Partial(slotA.content.written + n));
      } else {
        slotB := slotB.(content := Partial(slotB.content.written + n));
      }
      Note(WriteChunk(n), Downloading, d);
    }

    /** esp_ota_end, which accepts the bytes as an image, then esp_ota_set_boot_partition. */
    method SelectSpareSlot(image: Image, ok: bool) returns (selected: bool)
      requires Tracked() && phase == Downloading
      modifies `slotA, `slotB, `boot, `phase, `log
      ensures Tracked() && old(log) <= log && selected == ok
      ensures selected ==>
                Dev() == Put(old(Dev()), !running, Slot(Complete(image), New)).(boot := !running, phase := BootSet)
      ensures !selected ==> Dev() == Put(old(Dev()), !running, Slot(Complete(image), Unmarked)).(phase := Verified)
    {
      ghost var d := Dev();
      if running { slotA := Slot(Complete(image), Unmarked); } else { slotB := Slot(Complete(image), Unmarked); }
      Note(Verify(image), Verified, d);
      if ok {
        d := Dev();
        if running { slotA := slotA.(mark := New); } else { slotB := slotB.(mark := New); }
        boot := !running;
        Note(SetBoot, BootSet, d);
      }
      selected := ok;
    }

    /** ThingsBoard: the version check of handle_attributes_payload, then start_fw_update. */
    method StartFwUpdate(fwVersion: string, hasPartition: bool, beginOk: bool) returns (started: bool)
      requires Valid() && client == ThingsBoard && phase == Idle && |fwVersion| <= VERSION_MAX
      modifies this
      ensures Valid() && old(log) <= log
      ensures At(old(Dev()), running).content.Complete?
      ensures started <==> fwVersion != "" && fwVersion != At(old(Dev()), running).content.image.version
                           && old(failed) != Some(fwVersion) && hasPartition && beginOk
      ensures Dev() == if started
                       then Put(old(Dev()), !running, Slot(Partial(0), Unmarked))
                              .(pending := Some(fwVersion), phase := Downloading)
                       else old(Dev())
    {
      started := false;
      RunKeepsSafe(client, origin, log);
      var wanted := Offered(fwVersion);
      if !wanted {
        return;
      }
      if !hasPartition || !beginOk {
        Note(Fail, Idle, Dev());
        return;
      }
      OpenUpdate(fwVersion, fwVersion);
      inProgress, started := true, true;
    }

    /** ThingsBoard: is the announced version one to start? */
    method Offered(fwVersion: string) returns (wanted: bool)
      requires Tracked() && client == ThingsBoard && phase == Idle && |fwVersion| <= VERSION_MAX
      modifies `phase, `log
      ensures Tracked() && old(log) <= log
      ensures wanted <==> Accepts(client, old(Dev()), fwVersion)
      ensures phase == if wanted then Accepted(fwVersion) else Idle
    {
      wanted := fwVersion != "" && fwVersion != RunningVersionNow() && Load(failed) != Some(fwVersion);
      Note(Offer("", fwVersion), if wanted then Accepted(fwVersion) else Idle, Dev());
    }

    /** Azure: the version check of apply_desired_properties, then trigger_ota, which packs url and version. */
    method TriggerOta(url: string, newVersion: string) returns (started: bool, argument: string)
      requires Valid() && client == Azure && (phase == Idle || InUpdate(phase))
      modifies `inProgress, `phase, `log
      ensures Valid() && log == old(log) + [Offer(url, newVersion)]
      ensures At(old(Dev()), running).content.Complete?
      ensures started <==> !old(inProgress) && newVersion != At(old(Dev()), running).content.image.version
                           && !(old(failed) == Some(newVersion) && |newVersion| <= 31)
      ensures started ==> argument == url + ['\n'] + newVersion && phase == Accepted(AfterNewline(argument))
      ensures !started ==> phase == old(phase)
    {
      ghost var d := Dev();
      RunKeepsSafe(client, origin, log);
      started, argument := false, "";
      if newVersion != RunningVersionNow() && !inProgress && Load(failed) != Some(newVersion) {
        inProgress, started, argument := true, true, url + ['\n'] + newVersion;
        Note(Offer(url, newVersion), Accepted(Wanted(client, url, newVersion)), d);
      } else {
        Note(Offer(url, newVersion), phase, d);
      }
    }

    /** Azure: the failure exit of ota_task once pending_fw has been saved. */
    method ForgetUpdate()
      requires Tracked() && client == Azure && (phase == Downloading || phase == Verified)
      modifies `pending, `inProgress, `phase, `log
      ensures Valid() && log == old(log) + [Fail, ErasePending]
      ensures Dev() == old(Dev()).(pending := None, phase := Idle)
    {
      Note(Fail, Forgetting, Dev());
      ghost var d := Dev();
      pending := None;
      Note(ErasePending, Idle, d);
      inProgress := false;
    }

    /** Azure: the read loop of ota_task, writing to the spare slot up to the first read that is not data. */
    method DownloadImage(stream: seq<Read>) returns (ok: bool)
      requires Tracked() && phase == Downloading && At(Dev(), !running).content.Partial?
      modifies `slotA, `slotB, `phase, `log
      ensures Tracked() && old(log) <= log && |log| - |old(log)| <= |stream|
      ensures ok <==> exists k: nat :: k < |stream| && stream[k] == End(true)
                                       && forall j :: 0 <= j < k ==> stream[j].Data? && stream[j].written
      ensures forall j :: 0 <= j < |log| - |old(log)| ==>
                stream[j].Data? && stream[j].written && log[|old(log)| + j] == WriteChunk(stream[j].size)
      ensures var n := |log| - |old(log)|; n == |stream| || !stream[n].Data? || !stream[n].written
      ensures Dev() == Put(old(Dev()), !running, At(Dev(), !running))
    {
      var i := 0;
      while i < |stream| && stream[i].Data? && stream[i].written
        invariant i <= |stream| && Tracked() && old(log) <= log && |log| == |old(log)| + i
        invariant forall j :: 0 <= j < i ==>
                    stream[j].Data? && stream[j].written && log[|old(log)| + j] == WriteChunk(stream[j].size)
        invariant phase == Downloading && At(Dev(), !running).content.Partial?
        invariant Dev() == Put(old(Dev()), !running, At(Dev(), !running))
      {
        WriteSpareSlot(stream[i].size);
        i := i + 1;
      }
      ok := i < |stream| && stream[i].End? && stream[i].complete;
      EndsAt(stream, i);
    }

    /** Azure: the start of ota_task, which splits its argument at the first newline. */
    static method Split(argument: string) returns (url: string, newVersion: string)
      requires '\n' in argument
      ensures '\n' !in url && argument == url + ['\n'] + AfterNewline(argument)
      ensures newVersion == Truncated(AfterNewline(argument), VERSION_MAX)
    {
      var sep := IndexOf(argument, '\n');
      url, newVersion := argument[..sep], Truncated(argument[sep + 1..], VERSION_MAX);
      assert argument == argument[..sep] + [argument[sep]] + argument[sep + 1..];
    }

    /** Azure: the connection, the erase, the download and the switch, with the clean-up of each failure. */
    method Update(ghost v: string, newVersion: string, connected: bool, begun: bool, stream: seq<Read>, image: Image,
        endOk: bool)
      returns (installed: bool)
      requires Valid() && client == Azure && phase == Accepted(v) && newVersion == Truncated(v, VERSION_MAX)
      modifies this
      ensures Valid() && old(log) <= log
      ensures installed <==> connected && begun && endOk
                             && exists k: nat :: k < |stream| && stream[k] == End(true)
                                                 && forall j :: 0 <= j < k ==> stream[j].Data? && stream[j].written
      ensures installed ==> Dev() == Installed(old(Dev()), newVersion, image)
      ensures !installed ==> Dev() == Put(old(Dev()), !running, At(Dev(), !running))
                                        .(pending := if connected && begun then None else old(pending), phase := Idle)
    {
      installed := false;
      if !connected || !begun {
        Note(Fail, Idle, Dev());
        inProgress := false;
        return;
      }
      OpenUpdate(v, newVersion);
      var ok := DownloadImage(stream);
      if ok {
        installed := SelectSpareSlot(image, endOk);
      }
      if !installed {
        ForgetUpdate();
      }
    }

    /** Azure: ota_task, fetching from fetched. Restarting is left to the caller, which finds boot changed. */
    method OtaTask(argument: string, connected: bool, begun: bool, stream: seq<Read>, image: Image, endOk: bool)
      returns (installed: bool, fetched: string)
      requires Valid() && client == Azure && '\n' in argument && phase == Accepted(AfterNewline(argument))
      modifies this
      ensures Valid() && old(log) <= log
      ensures '\n' !in fetched && argument == fetched + ['\n'] + AfterNewline(argument)
      ensures installed <==> connected && begun && endOk
                             && exists k: nat :: k < |stream| && stream[k] == End(true)
                                                 && forall j :: 0 <= j < k ==> stream[j].Data? && stream[j].written
      ensures installed ==>
                Dev() == Installed(old(Dev()), Truncated(AfterNewline(argument), VERSION_MAX), image)
      ensures !installed ==> Dev() == Put(old(Dev()), !running, At(Dev(), !running))
                                        .(pending := if connected && begun then None else old(pending), phase := Idle)
    {
      var newVersion;
      fetched, newVersion := Split(argument);
      installed := Update(AfterNewline(argument), newVersion, connected, begun, stream, image, endOk);
    }
  }

  /** A power cut between any two writes of a client leaves a device that still comes up on a confirmed image. */
  lemma CutAnywhere(f: Firmware, k: nat)
    requires f.Valid() && k <= |f.log|
    ensures var cut := Run(f.client, f.origin, f.log[..k]);
            && cut.Some?
            && (Good(cut.value.slotA) || Good(cut.value.slotB))
            && var twice := Run(f.client, cut.value, [Reset, Bootload] + [Reset, Bootload]);
               twice.Some? && Good(At(twice.value, twice.value.running))
  {
    RunAppend(f.client, f.origin, f.log[..k], f.log[k..]);
    assert f.log[..k] + f.log[k..] == f.log;
    NoBrick(f.client, f.origin, f.log[..k], Run(f.client, f.origin, f.log[..k]).value);
  }
}
