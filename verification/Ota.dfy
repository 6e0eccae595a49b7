/**
 Over-the-air update across reboots, for the ThingsBoard and the Azure client.

 A device has two firmware slots, two words of non-volatile storage (pending_fw,
 failed_fw) and a bootloader that rolls back an image which was never confirmed.
 Every persistent write is one event, and Reset (power cut, crash, watchdog,
 esp_restart) is possible in every state, so a run may stop between any two writes.
 */
module Ota {
  import opened Text

  datatype Client = ThingsBoard | Azure

  /** A firmware image: its CURRENT_FW_VERSION, and whether it crashes before reconcile_pending_ota. */
  datatype Image = Image(version: string, crashesEarly: bool)

  datatype Content = Partial(written: nat) | Complete(image: Image)

  /** The bootloader's own record about a slot. */
  datatype Mark = Unmarked | New | PendingVerify | Confirmed | Aborted

  datatype Slot = Slot(content: Content, mark: Mark)

  /** Where the device is: powered off, in app_main, idle, or inside one update. */
  datatype Phase =
    | Off
    | Bricked
    | Booted
    | Blaming
    | Erasing
    | Reconciled
    | Idle
    | Accepted(version: string)
    | Begun(version: string)
    | Downloading
    | Verified
    | BootSet
    | Forgetting

  datatype Device = Device(
    slotA: Slot, slotB: Slot, boot: bool, running: bool,
    pending: Option<string>, failed: Option<string>, phase: Phase)

  datatype Event =
    | Reset
    | Bootload
    | ReadPending
    | SaveFailed
    | ErasePending
    | Confirm
    | Offer(url: string, offered: string)
    | Begin
    | SavePending
    | WriteChunk(size: nat)
    | Verify(image: Image)
    | SetBoot
    | Fail

  function At(d: Device, i: bool): Slot {
    if i then d.slotB else d.slotA
  }

  function Put(d: Device, i: bool, s: Slot): Device {
    if i then d.(slotB := s) else d.(slotA := s)
  }

  /** A slot the bootloader trusts: a whole image that was once marked valid. */
  predicate Good(s: Slot) {
    s.content.Complete? && s.mark == Confirmed
  }

  /** CURRENT_FW_VERSION of the running image. */
  function RunningVersion(d: Device): string {
    match At(d, d.running).content
    case Complete(image) => image.version
    case Partial(_) => ""
  }

  /** The version text a client compares: ThingsBoard copies it into 32 bytes first, Azure does not. */
  function Compared(c: Client, v: string): string {
    if c == ThingsBoard then Truncated(v, VERSION_MAX) else v
  }

  /** What trigger_ota hands to ota_task: url and version in one text. */
  function TaskArgument(url: string, v: string): string {
    url + ['\n'] + v
  }

  /** What ota_task takes for the version: all that follows the first newline. */
  function AfterNewline(argument: string): string {
    var i := IndexOf(argument, '\n');
    if i < |argument| then argument[i + 1..] else ""
  }

  /** The version text an accepted offer goes on with. */
  function Wanted(c: Client, url: string, v: string): string {
    if c == ThingsBoard then Compared(c, v) else AfterNewline(TaskArgument(url, v))
  }

  /** What an accepted offer saves in pending_fw. */
  function ToSave(c: Client, url: string, v: string): string {
    Truncated(Wanted(c, url, v), VERSION_MAX)
  }

  /** The text that is saved is the one that offers are compared by. */
  predicate SavesWhatItCompares(c: Client, url: string, v: string) {
    ToSave(c, url, v) == Compared(c, v)
  }

  /** Does an idle device start updating when offered v? */
  predicate Accepts(c: Client, d: Device, v: string) {
    var w := Compared(c, v);
    && w != RunningVersion(d)
    && (c == ThingsBoard ==> w != "")
    && Load(d.failed) != Some(w)
  }

  predicate InUpdate(p: Phase) {
    p.Accepted? || p.Begun? || p.Downloading? || p.Verified? || p.BootSet? || p.Forgetting?
  }

  /** The bootloader's choice after a reset. */
  function BootChoice(d: Device): Device {
    var s := At(d, d.boot);
    if s.content.Complete? && s.mark == New then
      Put(d, d.boot, s.(mark := PendingVerify)).(running := d.boot, phase := Booted)
    else if Good(s) then
      d.(running := d.boot, phase := Booted)
    else
      var d' := if s.mark == PendingVerify then Put(d, d.boot, s.(mark := Aborted)) else d;
      if Good(At(d, !d.boot)) then
        d'.(boot := !d.boot, running := !d.boot, phase := Booted)
      else
        d'.(phase := Bricked)
  }

  /** One step of the device; None when the event cannot happen in this state. */
  function Step(c: Client, d: Device, e: Event): Option<Device> {
    match e
    case Reset => Some(d.(phase := if d.phase == Bricked then Bricked else Off))
    case Bootload => if d.phase == Off then Some(BootChoice(d)) else None
    case ReadPending =>
      var s := At(d, d.running);
      if d.phase != Booted || (s.content.Complete? && s.content.image.crashesEarly) then None
      else if Load(d.pending).None? then Some(d.(phase := Reconciled))
      else if Load(d.pending) == Some(RunningVersion(d)) then Some(d.(phase := Erasing))
      else Some(d.(phase := Blaming))
    case SaveFailed =>
      if d.phase == Blaming then Some(d.(failed := d.pending, phase := Erasing)) else None
    case ErasePending =>
      if d.phase == Erasing then Some(d.(pending := None, phase := Reconciled))
      else if d.phase == Forgetting then Some(d.(pending := None, phase := Idle))
      else None
    case Confirm =>
      var s := At(d, d.running);
      if d.phase != Reconciled then None
      else if s.mark == PendingVerify then Some(Put(d, d.running, s.(mark := Confirmed)).(phase := Idle))
      else Some(d.(phase := Idle))
    case Offer(url, v) =>
      if d.phase == Idle then Some(if Accepts(c, d, v) then d.(phase := Accepted(Wanted(c, url, v))) else d)
      else if InUpdate(d.phase) then Some(d)
      else None
    case Begin =>
      if d.phase.Accepted? then Some(Put(d, !d.running, Slot(Partial(0), Unmarked)).(phase := Begun(d.phase.version)))
      else None
    case SavePending =>
      if d.phase.Begun? then Some(d.(pending := Some(Truncated(d.phase.version, VERSION_MAX)), phase := Downloading))
      else None
    case WriteChunk(n) =>
      var s := At(d, !d.running);
      if d.phase == Downloading && s.content.Partial? then
        Some(Put(d, !d.running, s.(content := Partial(s.content.written + n))))
      else None
    case Verify(image) =>
      if d.phase == Downloading then
        Some(Put(d, !d.running, Slot(Complete(image), Unmarked)).(phase := Verified))
      else None
    case SetBoot =>
      var s := At(d, !d.running);
      if d.phase == Verified then
        Some(Put(d, !d.running, s.(mark := New)).(boot := !d.running, phase := BootSet))
      else None
    case Fail =>
      if d.phase.Accepted? then Some(d.(phase := Idle))
      else if d.phase == Downloading || d.phase == Verified then
        Some(d.(phase := if c == Azure then Forgetting else Idle))
      else None
  }

  function Run(c: Client, d: Device, es: seq<Event>): Option<Device>
    decreases es
  {
    if es == [] then Some(d)
    else
      match Step(c, d, es[0])
      case Some(d') => Run(c, d', es[1..])
      case None => None
  }

  /** A powered-off device whose selected slot is confirmed; everything else is arbitrary. */
  predicate Fresh(d: Device) {
    d.phase == Off && Good(At(d, d.boot))
  }

  lemma {:induction false} RunAppend(c: Client, d: Device, es: seq<Event>, fs: seq<Event>)
    ensures Run(c, d, es + fs) == (match Run(c, d, es) case Some(d') => Run(c, d', fs) case None => None)
    decreases es
  {
    if es == [] {
      assert es + fs == fs;
    } else {
      assert (es + fs)[1..] == es[1..] + fs;
      if Step(c, d, es[0]).Some? {
        RunAppend(c, Step(c, d, es[0]).value, es[1..], fs);
      }
    }
  }

  lemma RunSnoc(c: Client, d: Device, es: seq<Event>, e: Event)
    ensures Run(c, d, es + [e]) == (match Run(c, d, es) case Some(d') => Step(c, d', e) case None => None)
  {
    RunAppend(c, d, es, [e]);
    if Run(c, d, es).Some? && Step(c, Run(c, d, es).value, e).Some? {
      assert [e][1..] == [];
    }
  }

  // ---- No brick ---------------------------------------------------------

  /** What every step keeps: a confirmed image is always there, and is where the next boot can find it. */
  predicate Safe(d: Device) {
    var mine, other := At(d, d.running), At(d, !d.running);
    match d.phase
    case Bricked => false
    case Off => Good(d.slotA) || Good(d.slotB)
    case Booted | Blaming | Erasing | Reconciled =>
      d.boot == d.running && (Good(mine) || (mine.content.Complete? && mine.mark == PendingVerify && Good(other)))
    case Idle | Accepted(_) | Begun(_) | Downloading | Forgetting => d.boot == d.running && Good(mine)
    case Verified => d.boot == d.running && Good(mine) && other.content.Complete?
    case BootSet => d.boot != d.running && Good(mine) && other.content.Complete? && other.mark == New
  }

  lemma StepKeepsSafe(c: Client, d: Device, e: Event)
    requires Safe(d) && Step(c, d, e).Some?
    ensures Safe(Step(c, d, e).value)
  {
  }

  lemma {:induction false} RunKeepsSafe(c: Client, d: Device, es: seq<Event>)
    requires Safe(d) && Run(c, d, es).Some?
    ensures Safe(Run(c, d, es).value)
    decreases es
  {
    if es != [] {
      StepKeepsSafe(c, d, es[0]);
      RunKeepsSafe(c, Step(c, d, es[0]).value, es[1..]);
    }
  }

  lemma ResetThenBoot(c: Client, d: Device)
    requires d.phase != Bricked
    ensures Run(c, d, [Reset, Bootload]) == Some(BootChoice(d.(phase := Off)))
    ensures Activations(c, d, [Reset, Bootload]) == if Activates(d.(phase := Off), Bootload) then 1 else 0
  {
    var es, d' := [Reset, Bootload], d.(phase := Off);
    Unroll(c, d, es);
    Unroll(c, d', es[1..]);
    assert es[1..][1..] == [];
  }

  /** In every reachable state a confirmed image exists, and at most two resets in a row bring it up. */
  lemma NoBrick(c: Client, d0: Device, es: seq<Event>, d: Device)
    requires Fresh(d0) && Run(c, d0, es) == Some(d)
    ensures d.phase != Bricked
    ensures Good(d.slotA) || Good(d.slotB)
    ensures var once := Run(c, d, [Reset, Bootload]);
            && once.Some? && once.value.phase == Booted
            && At(once.value, once.value.running).content.Complete?
    ensures var twice := Run(c, d, [Reset, Bootload] + [Reset, Bootload]);
            && twice.Some? && twice.value.phase == Booted
            && Good(At(twice.value, twice.value.running))
  {
    RunKeepsSafe(c, d0, es);
    ResetThenBoot(c, d);
    var d1 := BootChoice(d.(phase := Off));
    StepKeepsSafe(c, d, Reset);
    StepKeepsSafe(c, d.(phase := Off), Bootload);
    ResetThenBoot(c, d1);
    RunAppend(c, d, [Reset, Bootload], [Reset, Bootload]);
  }

  /** Flash is only ever written in the slot that does not run, and only once the running image is confirmed. */
  lemma WritesSpareTheRunningSlot(c: Client, d0: Device, es: seq<Event>, d: Device, e: Event)
    requires Fresh(d0) && Run(c, d0, es) == Some(d) && Step(c, d, e).Some?
    ensures var d' := Step(c, d, e).value;
            && At(d', d.running).content == At(d, d.running).content
            && (At(d', !d.running).content != At(d, !d.running).content ==> Good(At(d, d.running)))
  {
    RunKeepsSafe(c, d0, es);
  }

  // ---- Anti-loop --------------------------------------------------------

  /** The image crashes before reconcile, or is labelled with a version other than w. */
  predicate Hostile(image: Image, w: string) {
    image.crashesEarly || image.version != w
  }

  /** The server only offers v, from one of the urls, and only delivers images that never become version v. */
  predicate FromServer(es: seq<Event>, urls: set<string>, v: string) {
    forall i :: 0 <= i < |es| ==>
      && (es[i].Offer? ==> es[i].offered == v && es[i].url in urls)
      && (es[i].Verify? ==> Hostile(es[i].image, Truncated(v, VERSION_MAX)))
  }

  predicate Activates(d: Device, e: Event) {
    e == Bootload && d.phase == Off && At(d, d.boot).content.Complete? && At(d, d.boot).mark == New
  }

  /** How many times the run boots into a freshly installed image. */
  function Activations(c: Client, d: Device, es: seq<Event>): nat
    decreases es
  {
    if es == [] then 0
    else
      (if Activates(d, es[0]) then 1 else 0) +
      (match Step(c, d, es[0]) case Some(d') => Activations(c, d', es[1..]) case None => 0)
  }

  predicate HostileSlot(s: Slot, w: string) {
    s.content.Complete? ==> Hostile(s.content.image, w)
  }

  /** Slot i may be chosen by one of the coming boots. */
  predicate MayRun(d: Device, i: bool) {
    i == d.boot || !Good(At(d, d.boot))
  }

  /** The running firmware already is version w, so w is never accepted. */
  predicate Settled(d: Device, w: string) {
    && Good(At(d, d.boot))
    && (d.phase == Off || d.running == d.boot)
    && !HostileSlot(At(d, d.boot), w)
    && !InUpdate(d.phase)
  }

  /** What every step keeps, when n installs of version w have been booted so far. */
  predicate Guarded(d: Device, w: string, n: nat) {
    var selected := At(d, d.boot);
    && Safe(d)
    && (MayRun(d, false) ==> HostileSlot(d.slotA, w))
    && (MayRun(d, true) ==> HostileSlot(d.slotB, w))
    && (d.phase == Verified ==> HostileSlot(At(d, !d.running), w))
    && (d.phase.Accepted? || d.phase.Begun? ==> Truncated(d.phase.version, VERSION_MAX) == w)
    && (d.phase == Downloading || d.phase == Verified || d.phase == BootSet ==> d.pending == Some(w))
    && (selected.mark == New ==> n == 0 && d.pending == Some(w) && (d.phase == Off || d.phase == BootSet))
    && (d.phase == Blaming ==> Load(d.pending).Some?)
    && (n >= 1 ==>
          && n == 1
          && !InUpdate(d.phase)
          && (d.pending == Some(w) || d.pending == None)
          && (d.failed == Some(w)
              || (d.pending == Some(w) && (d.phase == Off || d.phase == Booted || d.phase == Blaming))))
  }

  /** Every offer of v from these urls saves the text it is compared by. */
  predicate AllSaved(c: Client, urls: set<string>, v: string) {
    forall url :: url in urls ==> SavesWhatItCompares(c, url, v)
  }

  lemma SavedIsShort(c: Client, url: string, v: string)
    requires SavesWhatItCompares(c, url, v)
    ensures Compared(c, v) == Truncated(v, VERSION_MAX)
  {
  }

  lemma StepKeepsSettled(c: Client, d: Device, e: Event, urls: set<string>, v: string)
    requires AllSaved(c, urls, v)
    requires Settled(d, Truncated(v, VERSION_MAX)) && Step(c, d, e).Some? && FromServer([e], urls, v)
    ensures Settled(Step(c, d, e).value, Truncated(v, VERSION_MAX)) && !Activates(d, e)
  {
    assert [e][0] == e;
    if e.Offer? {
      SavedIsShort(c, e.url, v);
    }
  }

  predicate IsBoot(e: Event) {
    e == Reset || e == Bootload
  }

  /** Events of reconcile_pending_ota and of the confirmation. */
  predicate ComesUp(e: Event) {
    e == ReadPending || e == SaveFailed || e == ErasePending || e == Confirm
  }

  lemma BootKeepsGuarded(c: Client, d: Device, e: Event, w: string, n: nat)
    requires Guarded(d, w, n) && Step(c, d, e).Some? && IsBoot(e) && |w| <= VERSION_MAX
    ensures Guarded(Step(c, d, e).value, w, n + if Activates(d, e) then 1 else 0)
  {
    StepKeepsSafe(c, d, e);
  }

  lemma ComingUpKeepsGuarded(c: Client, d: Device, e: Event, w: string, n: nat)
    requires Guarded(d, w, n) && Step(c, d, e).Some? && ComesUp(e) && |w| <= VERSION_MAX
    ensures Guarded(Step(c, d, e).value, w, n)
  {
    StepKeepsSafe(c, d, e);
  }

  lemma OfferKeepsGuarded(c: Client, d: Device, url: string, v: string, w: string, n: nat)
    requires ToSave(c, url, v) == Compared(c, v) == w
    requires Guarded(d, w, n) && Step(c, d, Offer(url, v)).Some?
    ensures Guarded(Step(c, d, Offer(url, v)).value, w, n)
  {
  }

  lemma UpdateKeepsGuarded(c: Client, d: Device, e: Event, w: string, n: nat)
    requires Guarded(d, w, n) && Step(c, d, e).Some? && !IsBoot(e) && !ComesUp(e) && !e.Offer? && |w| <= VERSION_MAX
    requires e.Verify? ==> Hostile(e.image, w)
    ensures Guarded(Step(c, d, e).value, w, n)
  {
    StepKeepsSafe(c, d, e);
  }

  lemma StepKeepsGuarded(c: Client, d: Device, e: Event, urls: set<string>, v: string, n: nat)
    requires AllSaved(c, urls, v)
    requires Guarded(d, Truncated(v, VERSION_MAX), n) && Step(c, d, e).Some? && FromServer([e], urls, v)
    ensures Guarded(Step(c, d, e).value, Truncated(v, VERSION_MAX), n + if Activates(d, e) then 1 else 0)
  {
    var w := Truncated(v, VERSION_MAX);
    assert [e][0] == e;
    if IsBoot(e) { BootKeepsGuarded(c, d, e, w, n); }
    else if ComesUp(e) { ComingUpKeepsGuarded(c, d, e, w, n); }
    else if e.Offer? { SavedIsShort(c, e.url, v); OfferKeepsGuarded(c, d, e.url, v, w, n); }
    else { UpdateKeepsGuarded(c, d, e, w, n); }
  }

  lemma {:induction false} SettledNeverActivates(c: Client, d: Device, es: seq<Event>, urls: set<string>, v: string)
    requires AllSaved(c, urls, v)
    requires Settled(d, Truncated(v, VERSION_MAX)) && FromServer(es, urls, v)
    ensures Activations(c, d, es) == 0
    decreases es
  {
    if es != [] && Step(c, d, es[0]).Some? {
      StepKeepsSettled(c, d, es[0], urls, v);
      SettledNeverActivates(c, Step(c, d, es[0]).value, es[1..], urls, v);
    }
  }

  lemma {:induction false} GuardedActivatesOnce(c: Client, d: Device, es: seq<Event>, urls: set<string>, v: string,
      n: nat)
    requires AllSaved(c, urls, v)
    requires Guarded(d, Truncated(v, VERSION_MAX), n) && FromServer(es, urls, v)
    ensures n + Activations(c, d, es) <= 1
    decreases es
  {
    if es != [] && Step(c, d, es[0]).Some? {
      StepKeepsGuarded(c, d, es[0], urls, v, n);
      var n' := n + if Activates(d, es[0]) then 1 else 0;
      GuardedActivatesOnce(c, Step(c, d, es[0]).value, es[1..], urls, v, n');
    }
  }

  /** The anti-loop promise for client c and version v offered from urls, over every start, run and power cut. */
  ghost predicate NeverLoops(c: Client, urls: set<string>, v: string) {
    forall d0, es :: Fresh(d0) && FromServer(es, urls, v) && Run(c, d0, es).Some? ==> Activations(c, d0, es) <= 1
  }

  lemma AntiLoop(c: Client, d0: Device, es: seq<Event>, urls: set<string>, v: string)
    requires AllSaved(c, urls, v)
    requires Fresh(d0) && FromServer(es, urls, v)
    ensures Activations(c, d0, es) <= 1
  {
    var w := Truncated(v, VERSION_MAX);
    if HostileSlot(At(d0, d0.boot), w) {
      GuardedActivatesOnce(c, d0, es, urls, v, 0);
    } else {
      SettledNeverActivates(c, d0, es, urls, v);
    }
  }

  // ---- What one update does ---------------------------------------------

  /** Download and install. */
  function Install(url: string, v: string, image: Image): seq<Event> {
    [Offer(url, v), Begin, SavePending, Verify(image), SetBoot]
  }

  lemma {:induction false} ActivationsAppend(c: Client, d: Device, es: seq<Event>, fs: seq<Event>)
    requires Run(c, d, es).Some?
    ensures Activations(c, d, es + fs) == Activations(c, d, es) + Activations(c, Run(c, d, es).value, fs)
    decreases es
  {
    if es == [] {
      assert es + fs == fs;
    } else {
      assert (es + fs)[1..] == es[1..] + fs;
      ActivationsAppend(c, Step(c, d, es[0]).value, es[1..], fs);
    }
  }

  lemma Unroll(c: Client, d: Device, es: seq<Event>)
    requires es != [] && Step(c, d, es[0]).Some?
    ensures var d' := Step(c, d, es[0]).value;
            && Run(c, d, es) == Run(c, d', es[1..])
            && Activations(c, d, es) == (if Activates(d, es[0]) then 1 else 0) + Activations(c, d', es[1..])
  {
  }

  /** The device d with an update opened, and with an image installed, whose version was saved as saved. */
  function Opened(d: Device, saved: string): Device {
    Put(d, !d.running, Slot(Partial(0), Unmarked)).(pending := Some(saved), phase := Downloading)
  }

  function Installed(d: Device, saved: string, image: Image): Device {
    Put(d, !d.running, Slot(Complete(image), New)).(boot := !d.running, pending := Some(saved), phase := BootSet)
  }

  /** The first half of an accepted update: the spare slot erased, pending_fw saved. */
  lemma BeginRuns(c: Client, d: Device, url: string, v: string)
    requires d.phase == Idle && Accepts(c, d, v)
    ensures Run(c, d, [Offer(url, v), Begin, SavePending]) == Some(Opened(d, ToSave(c, url, v)))
    ensures Activations(c, d, [Offer(url, v), Begin, SavePending]) == 0
  {
    var es, w := [Offer(url, v), Begin, SavePending], Wanted(c, url, v);
    var d2 := Put(d, !d.running, Slot(Partial(0), Unmarked)).(phase := Begun(w));
    Unroll(c, d, es);
    Unroll(c, d.(phase := Accepted(w)), es[1..]);
    Unroll(c, d2, es[2..]);
    assert es[1..][1..] == es[2..] && es[2..][1..] == [];
  }

  /** The second half: the image complete, the boot partition switched. */
  lemma EndRuns(c: Client, d: Device, image: Image)
    requires d.phase == Downloading
    ensures Run(c, d, [Verify(image), SetBoot])
         == Some(Put(d, !d.running, Slot(Complete(image), New)).(boot := !d.running, phase := BootSet))
    ensures Activations(c, d, [Verify(image), SetBoot]) == 0
  {
    var es := [Verify(image), SetBoot];
    var d1 := Put(d, !d.running, Slot(Complete(image), Unmarked)).(phase := Verified);
    Unroll(c, d, es);
    Unroll(c, d1, es[1..]);
    assert es[1..][1..] == [];
  }

  /** An accepted offer whose download succeeds installs the image in the spare slot, for either client. */
  lemma InstallRuns(c: Client, d: Device, url: string, v: string, image: Image)
    requires d.phase == Idle && Accepts(c, d, v)
    ensures Run(c, d, Install(url, v, image)) == Some(Installed(d, ToSave(c, url, v), image))
    ensures Activations(c, d, Install(url, v, image)) == 0
  {
    var a, b := [Offer(url, v), Begin, SavePending], [Verify(image), SetBoot];
    BeginRuns(c, d, url, v);
    EndRuns(c, Run(c, d, a).value, image);
    RunAppend(c, d, a, b);
    ActivationsAppend(c, d, a, b);
    assert a + b == Install(url, v, image);
  }

  /** reconcile_pending_ota after a rollback, up to the idle application. */
  const BLAME: seq<Event> := [ReadPending, SaveFailed, ErasePending, Confirm]

  lemma EraseRuns(c: Client, d: Device)
    requires d.phase == Erasing && Good(At(d, d.running))
    ensures Run(c, d, [ErasePending, Confirm]) == Some(d.(pending := None, phase := Idle))
    ensures Activations(c, d, [ErasePending, Confirm]) == 0
  {
    var es := [ErasePending, Confirm];
    Unroll(c, d, es);
    Unroll(c, d.(pending := None, phase := Reconciled), es[1..]);
    assert es[1..][1..] == [];
  }

  lemma BlameRuns(c: Client, d: Device, p: string)
    requires d.phase == Booted && Good(At(d, d.running)) && !At(d, d.running).content.image.crashesEarly
    requires d.pending == Some(p) && |p| <= VERSION_MAX && RunningVersion(d) != p
    ensures Run(c, d, BLAME) == Some(d.(failed := Some(p), pending := None, phase := Idle))
    ensures Activations(c, d, BLAME) == 0
  {
    var d1 := d.(phase := Blaming);
    var d2 := d1.(failed := Some(p), phase := Erasing);
    Unroll(c, d, BLAME);
    Unroll(c, d1, BLAME[1..]);
    assert BLAME[1..] == [SaveFailed, ErasePending, Confirm] && BLAME[1..][1..] == [ErasePending, Confirm];
    EraseRuns(c, d2);
  }

  // ---- Azure, when it saves another text than it compares ----------------

  /** A confirmed device, idle, that runs neither v nor the text saved for it, and has not blacklisted v. */
  predicate Waiting(d: Device, v: string, saved: string) {
    && d.phase == Idle && d.boot == d.running
    && Good(At(d, d.running)) && !At(d, d.running).content.image.crashesEarly
    && RunningVersion(d) != v && RunningVersion(d) != saved && Load(d.failed) != Some(v)
  }

  /** Crash in the new image, roll back, blacklist the saved text. */
  const ROLL_BACK: seq<Event> := [Reset, Bootload] + [Reset, Bootload] + BLAME

  /** The device after that. */
  function RolledBack(d: Device, saved: string, bad: Image): Device {
    Put(d, !d.running, Slot(Complete(bad), Aborted)).(pending := None, failed := Some(saved), phase := Idle)
  }

  lemma RollBackRuns(d: Device, v: string, saved: string, bad: Image)
    requires |saved| <= VERSION_MAX && Waiting(d, v, saved) && bad.crashesEarly
    ensures Run(Azure, Installed(d, saved, bad), ROLL_BACK) == Some(RolledBack(d, saved, bad))
    ensures Activations(Azure, Installed(d, saved, bad), ROLL_BACK) == 1
  {
    var d0 := Installed(d, saved, bad);
    var d1, rb := BootChoice(d0.(phase := Off)), [Reset, Bootload];
    var d2 := BootChoice(d1.(phase := Off));
    ResetThenBoot(Azure, d0);
    ResetThenBoot(Azure, d1);
    RunAppend(Azure, d0, rb, rb);
    ActivationsAppend(Azure, d0, rb, rb);
    BlameRuns(Azure, d2, saved);
    RunAppend(Azure, d0, rb + rb, BLAME);
    ActivationsAppend(Azure, d0, rb + rb, BLAME);
  }

  function Cycle(url: string, v: string, bad: Image): seq<Event> {
    Install(url, v, bad) + ROLL_BACK
  }

  function Loops(url: string, v: string, bad: Image, n: nat): seq<Event> {
    if n == 0 then [] else Cycle(url, v, bad) + Loops(url, v, bad, n - 1)
  }

  /** One install, crash and rollback: the device waits again, and would accept the version again. */
  lemma OneCycle(d: Device, url: string, v: string, saved: string, bad: Image)
    requires saved == ToSave(Azure, url, v) != v && Waiting(d, v, saved) && bad.crashesEarly
    ensures Run(Azure, d, Cycle(url, v, bad)) == Some(RolledBack(d, saved, bad))
    ensures Activations(Azure, d, Cycle(url, v, bad)) == 1
    ensures Waiting(RolledBack(d, saved, bad), v, saved)
  {
    InstallRuns(Azure, d, url, v, bad);
    RollBackRuns(d, v, saved, bad);
    RunAppend(Azure, d, Install(url, v, bad), ROLL_BACK);
    ActivationsAppend(Azure, d, Install(url, v, bad), ROLL_BACK);
  }

  lemma {:induction false} LoopsComeFromServer(url: string, v: string, bad: Image, n: nat)
    requires bad.crashesEarly
    ensures FromServer(Loops(url, v, bad, n), {url}, v)
  {
    if n > 0 {
      LoopsComeFromServer(url, v, bad, n - 1);
    }
  }

  lemma {:induction false} LoopsRun(d: Device, url: string, v: string, saved: string, bad: Image, n: nat)
    requires saved == ToSave(Azure, url, v) != v && Waiting(d, v, saved) && bad.crashesEarly
    ensures Run(Azure, d, Loops(url, v, bad, n)).Some?
    ensures Activations(Azure, d, Loops(url, v, bad, n)) == n
    decreases n
  {
    if n > 0 {
      var cycle, rest := Cycle(url, v, bad), Loops(url, v, bad, n - 1);
      OneCycle(d, url, v, saved, bad);
      LoopsRun(RolledBack(d, saved, bad), url, v, saved, bad, n - 1);
      RunAppend(Azure, d, cycle, rest);
      ActivationsAppend(Azure, d, cycle, rest);
    }
  }

  /** Azure client: the same version is installed, crashes and rolls back any number of times. */
  lemma AzureLoopsForever(d: Device, url: string, v: string, bad: Image, n: nat)
    requires !SavesWhatItCompares(Azure, url, v) && Waiting(d, v, ToSave(Azure, url, v)) && bad.crashesEarly
    ensures FromServer(Loops(url, v, bad, n), {url}, v)
    ensures Run(Azure, d, Loops(url, v, bad, n)).Some?
    ensures Activations(Azure, d, Loops(url, v, bad, n)) == n
  {
    LoopsComeFromServer(url, v, bad, n);
    LoopsRun(d, url, v, ToSave(Azure, url, v), bad, n);
  }

  /** A board fresh from the factory, powered off, with that version on it. */
  function NewBoard(version: string): Device {
    Device(Slot(Complete(Image(version, false)), Confirmed), Slot(Partial(0), Unmarked), false, false, None, None, Off)
  }

  lemma NewBoardComesUp(c: Client, version: string) returns (es: seq<Event>)
    ensures Run(c, NewBoard(version), es) == Some(NewBoard(version).(phase := Idle))
    ensures Activations(c, NewBoard(version), es) == 0
    ensures forall e :: e in es ==> e == Reset || e == Bootload || e == ReadPending || e == Confirm
  {
    var board, up := NewBoard(version), [ReadPending, Confirm];
    Unroll(c, board.(phase := Booted), up);
    Unroll(c, board.(phase := Reconciled), up[1..]);
    assert up[1..][1..] == [];
    ResetThenBoot(c, board);
    RunAppend(c, board, [Reset, Bootload], up);
    ActivationsAppend(c, board, [Reset, Bootload], up);
    es := [Reset, Bootload] + up;
  }

  /** A new board of a third version comes up, waits, and is then driven round the loop n times. */
  lemma AzureCounterexample(url: string, v: string, n: nat) returns (board: Device, es: seq<Event>)
    requires !SavesWhatItCompares(Azure, url, v)
    ensures Fresh(board) && FromServer(es, {url}, v)
    ensures Run(Azure, board, es).Some? && Activations(Azure, board, es) == n
  {
    var version := v + ToSave(Azure, url, v) + "x";
    board := NewBoard(version);
    var start := NewBoardComesUp(Azure, version);
    var loops := Loops(url, v, Image(v, true), n);
    AzureLoopsForever(board.(phase := Idle), url, v, Image(v, true), n);
    RunAppend(Azure, board, start, loops);
    ActivationsAppend(Azure, board, start, loops);
    es := start + loops;
    assert forall i :: 0 <= i < |start| ==> start[i] in start;
  }

  lemma WiderServer(es: seq<Event>, url: string, urls: set<string>, v: string)
    requires FromServer(es, {url}, v) && url in urls
    ensures FromServer(es, urls, v)
  {
  }

  /** The anti-loop promise holds exactly when every offer saves the text that offers are compared by. */
  lemma NeverLoopsExactly(c: Client, urls: set<string>, v: string)
    ensures NeverLoops(c, urls, v) <==> AllSaved(c, urls, v)
  {
    if AllSaved(c, urls, v) {
      forall d0, es | Fresh(d0) && FromServer(es, urls, v) && Run(c, d0, es).Some?
        ensures Activations(c, d0, es) <= 1
      {
        AntiLoop(c, d0, es, urls, v);
      }
    } else {
      var url :| url in urls && !SavesWhatItCompares(c, url, v);
      var board, es := AzureCounterexample(url, v, 2);
      WiderServer(es, url, urls, v);
      assert Fresh(board) && FromServer(es, urls, v) && Run(c, board, es).Some? && Activations(c, board, es) > 1;
    }
  }

  lemma FirstNewline(url: string, v: string)
    ensures '\n' !in url ==> AfterNewline(TaskArgument(url, v)) == v
    ensures '\n' in url ==> |AfterNewline(TaskArgument(url, v))| > |v|
  {
    var rest := ['\n'] + v;
    assert TaskArgument(url, v) == url + rest;
    if '\n' !in url {
      IndexAfter(url, rest, '\n');
      assert (url + rest)[|url| + 1..] == v;
    } else {
      IndexBefore(url, rest, '\n');
    }
  }

  /**
   ThingsBoard always saves the text it compares. Azure does from a url without a newline exactly when the
   version has at most 31 bytes, and from a url with one never when the version has fewer than 31.
   */
  lemma SavedExactly(c: Client, url: string, v: string)
    ensures c == ThingsBoard ==> SavesWhatItCompares(c, url, v)
    ensures c == Azure && '\n' !in url ==> (SavesWhatItCompares(c, url, v) <==> |v| <= VERSION_MAX)
    ensures c == Azure && '\n' in url && |v| < VERSION_MAX ==> !SavesWhatItCompares(c, url, v)
  {
    FirstNewline(url, v);
  }

  /** A url that ends in a newline makes Azure install a one-byte version, crash and roll back any number of times. */
  lemma NewlineLoops(n: nat) returns (board: Device, es: seq<Event>)
    ensures Fresh(board) && FromServer(es, {"http://h/fw.bin\n"}, "2")
    ensures Run(Azure, board, es).Some? && Activations(Azure, board, es) == n
  {
    var url, v := "http://h/fw.bin\n", "2";
    NewlineSaved(url[..|url| - 1], v);
    assert url[..|url| - 1] + ['\n'] == url;
    board, es := AzureCounterexample(url, v, n);
  }

  lemma NewlineSaved(host: string, v: string)
    requires '\n' !in host && |v| < VERSION_MAX
    ensures ToSave(Azure, host + ['\n'], v) == ['\n'] + v
  {
    var rest := ['\n'] + v;
    IndexAfter(host, ['\n'] + rest, '\n');
    assert TaskArgument(host + ['\n'], v) == host + (['\n'] + rest);
    assert (host + (['\n'] + rest))[|host| + 1..] == rest;
  }
}
