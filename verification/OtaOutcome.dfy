/**
 What becomes of an update over every run: when its version is held against the device although
 the update never ran it, and when it sticks.
 */
module OtaOutcome {
  import opened Text
  import opened Ota

  // ---- Blaming a version that the update did not run ---------------------------------

  /** Has the run saved a pending version that it has not erased since, and that no reset has ended? */
  function Saved(u: bool, e: Event): bool {
    match e
    case SavePending => true
    case ErasePending | Reset => false
    case _ => u
  }

  function Unfinished(u: bool, es: seq<Event>): bool
    decreases es
  {
    if es == [] then u else Unfinished(Saved(u, es[0]), es[1..])
  }

  predicate Ends(e: Event) {
    e == ErasePending || e == Reset
  }

  /** The last save has neither an erase nor a reset, hence no boot, behind it. */
  lemma {:induction false} UnfinishedMeans(u: bool, es: seq<Event>)
    ensures Unfinished(u, es) <==>
              || (u && forall j :: 0 <= j < |es| ==> !Ends(es[j]))
              || exists i :: 0 <= i < |es| && es[i] == SavePending && forall j :: i < j < |es| ==> !Ends(es[j])
    decreases es
  {
    if es != [] {
      UnfinishedMeans(Saved(u, es[0]), es[1..]);
      assert forall j :: 0 <= j < |es| - 1 ==> es[1..][j] == es[j + 1];
      assert forall j :: 1 <= j < |es| ==> es[j] == es[1..][j - 1];
    }
  }

  /** Every offer saves the text it is compared by; ThingsBoard never offers otherwise. */
  predicate FaithfulOffers(c: Client, es: seq<Event>) {
    forall i :: 0 <= i < |es| && es[i].Offer? ==> SavesWhatItCompares(c, es[i].url, es[i].offered)
  }

  /** In the application, and the boot partition not switched. */
  predicate Interruptible(p: Phase) {
    p == Idle || (InUpdate(p) && p != BootSet)
  }

  predicate PendingHere(c: Client, d: Device, u: bool, faithful: bool) {
    && (Load(d.pending).Some? <==> u)
    && (faithful && u ==> d.pending != Some(RunningVersion(d)))
  }

  /** What every step keeps; u is Unfinished so far. */
  predicate Remembers(c: Client, d: Device, u: bool, faithful: bool) {
    && Safe(d)
    && (Interruptible(d.phase) ==> PendingHere(c, d, u, faithful))
    && match d.phase
       case Off | Booted | Blaming | Erasing => !u
       case Reconciled => !u && Load(d.pending).None?
       case Idle => c == Azure ==> !u
       case Accepted(v) => (c == Azure ==> !u) && (faithful ==> Truncated(v, VERSION_MAX) != RunningVersion(d))
       case Begun(v) => (c == Azure ==> !u) && (faithful ==> Truncated(v, VERSION_MAX) != RunningVersion(d))
       case Downloading | Verified => u
       case Forgetting => u && c == Azure
       case BootSet | Bricked => true
  }

  lemma StepRemembers(c: Client, d: Device, e: Event, u: bool, faithful: bool)
    requires Remembers(c, d, u, faithful) && Step(c, d, e).Some?
    requires faithful && e.Offer? ==> SavesWhatItCompares(c, e.url, e.offered)
    ensures Remembers(c, Step(c, d, e).value, Saved(u, e), faithful)
  {
    StepKeepsSafe(c, d, e);
  }

  lemma {:induction false} RunRemembers(c: Client, d: Device, es: seq<Event>, u: bool, faithful: bool)
    requires Remembers(c, d, u, faithful) && Run(c, d, es).Some? && (faithful ==> FaithfulOffers(c, es))
    ensures Remembers(c, Run(c, d, es).value, Unfinished(u, es), faithful)
    decreases es
  {
    if es != [] {
      StepRemembers(c, d, es[0], u, faithful);
      RunRemembers(c, Step(c, d, es[0]).value, es[1..], Saved(u, es[0]), faithful);
    }
  }

  /** Power is cut now: the boot that follows, up to its decision about pending_fw. */
  function NextBoot(c: Client, d: Device): Option<Device> {
    match Run(c, d, [Reset, Bootload])
    case Some(d') => Step(c, d', ReadPending)
    case None => None
  }

  predicate Healthy(s: Slot) {
    s.content.Complete? && !s.content.image.crashesEarly
  }

  lemma NextBootDecides(c: Client, d: Device)
    requires Safe(d) && Interruptible(d.phase) && Healthy(At(d, d.running))
    ensures NextBoot(c, d).Some?
    ensures NextBoot(c, d).value.phase == Blaming <==> Load(d.pending).Some? && d.pending != Some(RunningVersion(d))
  {
    ResetThenBoot(c, d);
  }

  lemma RememberedDecides(c: Client, d: Device, u: bool, faithful: bool)
    requires Remembers(c, d, u, faithful) && Interruptible(d.phase)
    ensures Load(d.pending).Some? <==> u
    ensures faithful && u ==> d.pending != Some(RunningVersion(d))
    ensures c == Azure ==> (u <==> d.phase == Downloading || d.phase == Verified || d.phase == Forgetting)
  {
  }

  /**
   After any run, a power cut before the boot partition is switched makes the next boot hold a version
   against the device, although the update did not run it, exactly when the run has saved a pending
   version and neither erased it nor reset since, and that text is not the running version. The last part
   never fails when every offer saves the text it is compared by, as ThingsBoard's always do.
   */
  lemma BlamedExactly(c: Client, d0: Device, es: seq<Event>, d: Device)
    requires Fresh(d0) && Run(c, d0, es) == Some(d) && Interruptible(d.phase) && Healthy(At(d, d.running))
    ensures NextBoot(c, d).Some?
    ensures NextBoot(c, d).value.phase == Blaming <==> Unfinished(false, es) && d.pending != Some(RunningVersion(d))
    ensures FaithfulOffers(c, es) ==>
              (NextBoot(c, d).value.phase == Blaming <==> Unfinished(false, es))
    ensures c == Azure ==>
              (Unfinished(false, es) <==> d.phase == Downloading || d.phase == Verified || d.phase == Forgetting)
  {
    RunRemembers(c, d0, es, false, FaithfulOffers(c, es));
    RememberedDecides(c, d, Unfinished(false, es), FaithfulOffers(c, es));
    NextBootDecides(c, d);
  }

  /** Once it is blamed, the version is refused: the same image runs, and no text that compares equal is accepted. */
  lemma BlamedIsRefused(c: Client, d: Device)
    requires Safe(d) && Interruptible(d.phase) && Healthy(At(d, d.running))
    requires NextBoot(c, d).Some? && NextBoot(c, d).value.phase == Blaming
    ensures var end := Run(c, d, [Reset, Bootload] + BLAME);
            && end.Some? && end.value.phase == Idle && end.value.failed == d.pending && d.pending.Some?
            && end.value.running == d.running && At(end.value, d.running) == At(d, d.running)
            && (forall v :: Compared(c, v) == d.pending.value ==> !Accepts(c, end.value, v))
  {
    var d1 := d.(phase := Booted);
    NextBootDecides(c, d);
    ResetThenBoot(c, d);
    assert BootChoice(d.(phase := Off)) == d1;
    BlameRuns(c, d1, d.pending.value);
    RunAppend(c, d, [Reset, Bootload], BLAME);
  }

  lemma {:induction false} UnfinishedAppend(u: bool, es: seq<Event>, fs: seq<Event>)
    ensures Unfinished(u, es + fs) == Unfinished(Unfinished(u, es), fs)
    decreases es
  {
    if es == [] {
      assert es + fs == fs;
    } else {
      assert (es + fs)[1..] == es[1..] + fs;
      UnfinishedAppend(Saved(u, es[0]), es[1..], fs);
    }
  }

  /** A run of either client from a fresh board into a download. */
  lemma ReachesDownload(c: Client) returns (es: seq<Event>, d: Device)
    ensures Fresh(NewBoard("0")) && Run(c, NewBoard("0"), es) == Some(d) && Unfinished(false, es)
    ensures d.phase == Downloading && Healthy(At(d, d.running)) && d.pending == Some("1") && RunningVersion(d) == "0"
  {
    var start := NewBoardComesUp(c, "0");
    var up := NewBoard("0").(phase := Idle);
    BeginRuns(c, up, "", "1");
    RunAppend(c, NewBoard("0"), start, [Offer("", "1"), Begin, SavePending]);
    es := start + [Offer("", "1"), Begin, SavePending];
    d := Run(c, NewBoard("0"), es).value;
    UnfinishedAppend(false, start + [Offer("", "1"), Begin], [SavePending]);
    assert es == start + [Offer("", "1"), Begin] + [SavePending] && [SavePending][1..] == [];
  }

  /** The cleanup of a failed download. */
  function Cleanup(c: Client): seq<Event> {
    if c == Azure then [Fail, ErasePending] else [Fail]
  }

  /** The same run, the download failed and cleaned up: only ThingsBoard will blame the version at the next boot. */
  lemma FailedDownloadBlamed(c: Client) returns (es: seq<Event>, d: Device)
    ensures Run(c, NewBoard("0"), es) == Some(d) && d.phase == Idle && NextBoot(c, d).Some?
    ensures NextBoot(c, d).value.phase == Blaming <==> c == ThingsBoard
  {
    var before, d0 := ReachesDownload(c);
    var d1 := d0.(phase := if c == Azure then Forgetting else Idle);
    d := if c == Azure then d1.(pending := None, phase := Idle) else d1;
    Unroll(c, d0, Cleanup(c));
    if c == Azure {
      Unroll(c, d1, Cleanup(c)[1..]);
      assert Cleanup(c)[1..][1..] == [];
    } else {
      assert Cleanup(c)[1..] == [];
    }
    RunAppend(c, NewBoard("0"), before, Cleanup(c));
    es := before + Cleanup(c);
    RunKeepsSafe(c, NewBoard("0"), es);
    NextBootDecides(c, d);
  }

  // ---- An update that sticks --------------------------------------------

  /** How often the bootloader runs. */
  function Boots(es: seq<Event>): nat {
    if es == [] then 0 else (if es[0] == Bootload then 1 else 0) + Boots(es[1..])
  }

  /** The device d of a finished installation, n boots later and before the next application start. */
  predicate Deciding(d: Device, now: Device, image: Image, n: nat) {
    && now.boot == (if n <= 1 then !d.running else d.running)
    && At(now, d.running) == At(d, d.running)
    && At(now, !d.running) ==
         Slot(Complete(image), if n == 0 then New else if n == 1 then PendingVerify else Aborted)
    && (n > 0 ==> now.running == now.boot)
    && (now.phase == Off || (n == 0 && now.phase == BootSet)
        || (n > 0 && (now.phase == Booted || now.phase == Blaming || now.phase == Erasing || now.phase == Reconciled)))
    && (n <= 1 ==>
          && now.failed == d.failed && now.phase != Blaming
          && (now.pending == d.pending
              || (n == 1 && now.pending == None && (now.phase == Off || now.phase == Reconciled)))
          && (now.phase == Reconciled ==> now.pending == None))
  }

  lemma StepKeepsDeciding(c: Client, d: Device, now: Device, image: Image, n: nat, e: Event)
    requires Deciding(d, now, image, n) && Good(At(d, d.running)) && !image.crashesEarly
    requires d.pending == Some(image.version) && |image.version| <= VERSION_MAX
    requires Step(c, now, e).Some? && e != Confirm
    ensures Deciding(d, Step(c, now, e).value, image, n + if e == Bootload then 1 else 0)
  {
  }

  lemma {:induction false} RunKeepsDeciding(c: Client, d: Device, now: Device, image: Image, n: nat, es: seq<Event>)
    requires Deciding(d, now, image, n) && Good(At(d, d.running)) && !image.crashesEarly
    requires d.pending == Some(image.version) && |image.version| <= VERSION_MAX
    requires Run(c, now, es).Some? && Confirm !in es
    ensures Deciding(d, Run(c, now, es).value, image, n + Boots(es))
    decreases es
  {
    if es != [] {
      StepKeepsDeciding(c, d, now, image, n, es[0]);
      RunKeepsDeciding(c, d, Step(c, now, es[0]).value, image, n + if es[0] == Bootload then 1 else 0, es[1..]);
    }
  }

  /**
   A healthy image that carries the pending version has been installed. Whatever happens then, offers
   and resets included, up to the first time an image is marked valid: that is the new image if and only
   if the bootloader ran once. Then the new image is confirmed, nothing is blacklisted and the version is
   not accepted again; otherwise the device is back on the old image.
   */
  lemma GoodUpdateSticks(c: Client, d0: Device, before: seq<Event>, d: Device, image: Image, es: seq<Event>,
      end: Device)
    requires Fresh(d0) && Run(c, d0, before) == Some(d) && d.phase == BootSet
    requires At(d, !d.running).content == Complete(image) && !image.crashesEarly
    requires d.pending == Some(image.version) && |image.version| <= VERSION_MAX
    requires Confirm !in es && Run(c, d, es + [Confirm]) == Some(end)
    ensures end.phase == Idle && end.running == end.boot && At(end, d.running) == At(d, d.running)
    ensures end.running == !d.running <==> Boots(es) == 1
    ensures Boots(es) == 1 ==>
              && At(end, end.running) == Slot(Complete(image), Confirmed)
              && end.pending == None && end.failed == d.failed
              && (forall v :: Compared(c, v) == image.version ==> !Accepts(c, end, v))
    ensures Boots(es) != 1 ==> At(end, !d.running) == Slot(Complete(image), Aborted)
  {
    RunKeepsSafe(c, d0, before);
    RunSnoc(c, d, es, Confirm);
    RunKeepsDeciding(c, d, d, image, 0, es);
  }
}
