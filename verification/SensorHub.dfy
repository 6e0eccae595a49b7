/**
 The sensor hub of the IIS2ICLX driver: external sensors are enumerated by probing, each gets a
 window of output registers and a slave triple, and a fetch copies every window.

 The environment is the outcome of every probe, and the contents of the output registers.
 */
module SensorHub {
  import opened Text

  const DATA_OUT: nat := 0x02
  const LAST_OUT: nat := 0x13
  const MAX_SLAVES: nat := 2
  const ENOTSUP := 134

  /** One entry of iis2iclx_shub_slist: its constant part. Every entry reads 1 to 6 bytes. */
  datatype Sensor = Sensor(kind: int, addresses: seq<nat>, chipId: int, outAddr: nat, outLen: nat)

  type Table = t: seq<Sensor> | forall s :: s in t ==> |s.addresses| == 2 && 1 <= s.outLen <= 6

  /** The chip id read at address i of entry n; None for a bus error. */
  type Probe = (nat, nat) -> Option<int>

  /** The first of its two addresses at which entry n reads its chip id. */
  function FoundAt(s: Sensor, n: nat, probe: Probe): (at: Option<nat>)
    ensures at.Some? ==> at.value < 2
  {
    if probe(n, 0) == Some(s.chipId) then Some(0)
    else if probe(n, 1) == Some(s.chipId) then Some(1)
    else None
  }

  /** The entries found from n on, in table order, at most room of them. */
  function Enumerated(t: Table, probe: Probe, n: nat, room: nat): (devs: seq<nat>)
    ensures |devs| <= room
    ensures forall k :: 0 <= k < |devs| ==> n <= devs[k] < |t|
    decreases |t| - n
  {
    if n >= |t| || room == 0 then []
    else if FoundAt(t[n], n, probe).Some? then [n] + Enumerated(t, probe, n + 1, room - 1)
    else Enumerated(t, probe, n + 1, room)
  }

  /** The address the sensor answered at. */
  function AddressOf(t: Table, probe: Probe, x: nat): nat
    requires x < |t|
  {
    match FoundAt(t[x], x, probe)
    case Some(i) => t[x].addresses[i]
    case None => 0
  }

  /** Every entry below n that answered has the address it answered at. */
  predicate Addressed(t: Table, probe: Probe, addrs: seq<nat>, n: nat) {
    && n <= |t| <= |addrs|
    && forall x :: 0 <= x < n && FoundAt(t[x], x, probe).Some? ==> addrs[x] == AddressOf(t, probe, x)
  }

  /** Every listed entry has the first of its addresses at which it reads its chip id. */
  predicate ListedAddresses(t: Table, probe: Probe, addrs: seq<nat>, devs: seq<nat>) {
    forall k :: 0 <= k < |devs| ==>
      var x := devs[k];
      && x < |t| && x < |addrs|
      && addrs[x] == t[x].addresses[if probe(x, 0) == Some(t[x].chipId) then 0 else 1]
  }

  lemma ListedAddressed(t: Table, probe: Probe, addrs: seq<nat>, n: nat, devs: seq<nat>)
    requires Addressed(t, probe, addrs, n) && devs == Enumerated(t, probe, 0, MAX_SLAVES)
    requires forall k :: 0 <= k < |devs| ==> devs[k] < n
    ensures ListedAddresses(t, probe, addrs, devs)
  {
    forall k | 0 <= k < |devs|
      ensures var x := devs[k]; addrs[x] == t[x].addresses[if probe(x, 0) == Some(t[x].chipId) then 0 else 1]
    {
      EnumeratedAnswers(t, probe, 0, MAX_SLAVES, k);
    }
  }

  /** devs are the entries listed before the loop reaches entry n. */
  predicate Listing(t: Table, probe: Probe, devs: seq<nat>, n: nat) {
    && |devs| <= MAX_SLAVES && (forall k :: 0 <= k < |devs| ==> devs[k] < n)
    && devs + Enumerated(t, probe, n, MAX_SLAVES - |devs|) == Enumerated(t, probe, 0, MAX_SLAVES)
  }

  lemma ListingStep(t: Table, probe: Probe, devs: seq<nat>, n: nat)
    requires n < |t| && |devs| < MAX_SLAVES && Listing(t, probe, devs, n)
    ensures Listing(t, probe, devs + if FoundAt(t[n], n, probe).Some? then [n] else [], n + 1)
  {
    var rest := Enumerated(t, probe, n, MAX_SLAVES - |devs|);
    if FoundAt(t[n], n, probe).Some? {
      assert devs + rest == devs + [n] + rest[1..];
    } else {
      assert devs + [] == devs;
    }
  }

  lemma ListingDone(t: Table, probe: Probe, devs: seq<nat>, n: nat)
    requires Listing(t, probe, devs, n) && (n == |t| || |devs| == MAX_SLAVES)
    ensures devs == Enumerated(t, probe, 0, MAX_SLAVES)
  {
    assert devs + [] == devs;
  }

  predicate Increasing(devs: seq<nat>) {
    forall i, j :: 0 <= i < j < |devs| ==> devs[i] < devs[j]
  }

  lemma {:induction false} EnumeratedIncreases(t: Table, probe: Probe, n: nat, room: nat)
    ensures Increasing(Enumerated(t, probe, n, room))
    decreases |t| - n
  {
    if n < |t| && room > 0 {
      EnumeratedIncreases(t, probe, n + 1, room - 1);
      EnumeratedIncreases(t, probe, n + 1, room);
    }
  }

  lemma {:induction false} EnumeratedAnswers(t: Table, probe: Probe, n: nat, room: nat, k: nat)
    requires k < |Enumerated(t, probe, n, room)|
    ensures var x := Enumerated(t, probe, n, room)[k]; FoundAt(t[x], x, probe).Some?
    decreases |t| - n
  {
    if !FoundAt(t[n], n, probe).Some? {
      EnumeratedAnswers(t, probe, n + 1, room, k);
    } else if k > 0 {
      EnumeratedAnswers(t, probe, n + 1, room - 1, k - 1);
    }
  }

  /** Entry x reads its own chip id at one of its two addresses. */
  predicate Answers(t: Table, probe: Probe, x: nat) {
    x < |t| && (probe(x, 0) == Some(t[x].chipId) || probe(x, 1) == Some(t[x].chipId))
  }

  /** The entries from n up to x that answer. */
  function Responders(t: Table, probe: Probe, n: nat, x: nat): set<nat> {
    set y | n <= y < x && Answers(t, probe, y)
  }

  lemma RespondersStep(t: Table, probe: Probe, n: nat, x: nat)
    requires n < x
    ensures |Responders(t, probe, n, x)| == (if Answers(t, probe, n) then 1 else 0) + |Responders(t, probe, n + 1, x)|
  {
    if Answers(t, probe, n) {
      assert Responders(t, probe, n, x) == {n} + Responders(t, probe, n + 1, x);
    } else {
      assert Responders(t, probe, n, x) == Responders(t, probe, n + 1, x);
    }
  }

  lemma {:induction false} EnumeratedMembers(t: Table, probe: Probe, n: nat, room: nat, x: nat)
    requires n <= x < |t|
    ensures x in Enumerated(t, probe, n, room) <==> Answers(t, probe, x) && |Responders(t, probe, n, x)| < room
    decreases |t| - n
  {
    if x == n {
      assert Responders(t, probe, n, x) == {};
    } else {
      RespondersStep(t, probe, n, x);
      if room > 0 {
        EnumeratedMembers(t, probe, n + 1, if Answers(t, probe, n) then room - 1 else room, x);
      }
    }
  }

  /**
   An entry is listed exactly when it reads its own chip id at one of its two addresses and fewer than room
   entries before it, from n on, do so.
   */
  lemma EnumeratedExactly(t: Table, probe: Probe, n: nat, room: nat, x: nat)
    requires n <= x < |t|
    ensures x in Enumerated(t, probe, n, room) <==>
              && (probe(x, 0) == Some(t[x].chipId) || probe(x, 1) == Some(t[x].chipId))
              && |set y | n <= y < x && (probe(y, 0) == Some(t[y].chipId) || probe(y, 1) == Some(t[y].chipId))| < room
  {
    EnumeratedMembers(t, probe, n, room, x);
    assert Responders(t, probe, n, x)
        == set y | n <= y < x && (probe(y, 0) == Some(t[y].chipId) || probe(y, 1) == Some(t[y].chipId));
  }

  /** Listed entry number k has exactly k responders before it. */
  lemma {:induction false} EnumeratedAt(t: Table, probe: Probe, n: nat, room: nat, k: nat)
    requires k < |Enumerated(t, probe, n, room)|
    ensures var x := Enumerated(t, probe, n, room)[k]; Answers(t, probe, x) && |Responders(t, probe, n, x)| == k
    decreases |t| - n
  {
    var x := Enumerated(t, probe, n, room)[k];
    if Answers(t, probe, n) && k == 0 {
      assert x == n && Responders(t, probe, n, x) == {};
    } else if Answers(t, probe, n) {
      EnumeratedAt(t, probe, n + 1, room - 1, k - 1);
      assert x == Enumerated(t, probe, n + 1, room - 1)[k - 1];
      RespondersStep(t, probe, n, x);
    } else {
      EnumeratedAt(t, probe, n + 1, room, k);
      RespondersStep(t, probe, n, x);
    }
  }

  /** Bytes before window k. */
  function Offset(t: Table, devs: seq<nat>, k: nat): nat
    requires k <= |devs| && forall i :: 0 <= i < |devs| ==> devs[i] < |t|
  {
    if k == 0 then 0 else Offset(t, devs, k - 1) + t[devs[k - 1]].outLen
  }

  lemma {:induction false} OffsetMonotone(t: Table, devs: seq<nat>, j: nat, k: nat)
    requires j < k <= |devs| && forall i :: 0 <= i < |devs| ==> devs[i] < |t|
    ensures Offset(t, devs, j) + t[devs[j]].outLen <= Offset(t, devs, k) <= 6 * k
    decreases k
  {
    if k == 1 {
      assert Offset(t, devs, 0) == 0;
    } else {
      OffsetMonotone(t, devs, if j < k - 1 then j else 0, k - 1);
    }
  }

  /** What the hub writes to its output registers: the slaves' samples in triple order, back to back from DATA_OUT. */
  function HubOutput(samples: seq<seq<int>>, n: nat): seq<int>
    requires n <= |samples|
  {
    if n == 0 then [] else HubOutput(samples, n - 1) + samples[n - 1]
  }

  /** Samples of the programmed lengths land exactly in the windows. */
  lemma {:induction false} OutputLandsInWindows(t: Table, devs: seq<nat>, samples: seq<seq<int>>, k: nat, n: nat)
    requires k < n <= |devs| && forall i :: 0 <= i < |devs| ==> devs[i] < |t|
    requires |samples| == |devs| && forall i :: 0 <= i < |devs| ==> |samples[i]| == t[devs[i]].outLen
    ensures |HubOutput(samples, n)| == Offset(t, devs, n)
    ensures Offset(t, devs, k) + t[devs[k]].outLen <= Offset(t, devs, n)
    ensures HubOutput(samples, n)[Offset(t, devs, k)..Offset(t, devs, k) + t[devs[k]].outLen] == samples[k]
    decreases n
  {
    if n > 1 {
      OutputLandsInWindows(t, devs, samples, if k < n - 1 then k else 0, n - 1);
    } else {
      assert HubOutput(samples, 0) == [];
    }
  }

  /**
   The windows are contiguous from DATA_OUT in the order of the table, inside the output registers,
   and those of different sensors are disjoint.
   */
  lemma Windows(t: Table, probe: Probe, j: nat, k: nat)
    requires j <= k < |Enumerated(t, probe, 0, MAX_SLAVES)|
    ensures var devs := Enumerated(t, probe, 0, MAX_SLAVES);
            && Offset(t, devs, 0) == 0
            && Offset(t, devs, j + 1) == Offset(t, devs, j) + t[devs[j]].outLen
            && DATA_OUT + Offset(t, devs, k) + t[devs[k]].outLen <= LAST_OUT + 1
            && (j < k ==> devs[j] < devs[k] && Offset(t, devs, j) + t[devs[j]].outLen <= Offset(t, devs, k))
  {
    EnumeratedIncreases(t, probe, 0, MAX_SLAVES);
    var devs := Enumerated(t, probe, 0, MAX_SLAVES);
    if j < k {
      OffsetMonotone(t, devs, j, k);
    }
    OffsetMonotone(t, devs, k, k + 1);
  }

  class Hub {
    const table: Table
    var extAddr: seq<nat>
    var outReg: seq<nat>
    var numExtDev: nat
    const shubExt: array<nat>
    const extData: array<seq<int>>
    var slaveRegs: seq<nat>
    ghost var devs: seq<nat>

    ghost predicate Valid()
      reads this, shubExt
    {
      && shubExt.Length == MAX_SLAVES && extData.Length == MAX_SLAVES && shubExt as object != extData
      && |extAddr| == |table| && |outReg| == |table|
      && numExtDev <= MAX_SLAVES && devs == shubExt[..numExtDev]
      && (forall k :: 0 <= k < |devs| ==> devs[k] < |table|)
    }

    constructor (t: Table)
      ensures Valid() && fresh(shubExt) && fresh(extData) && table == t && devs == []
    {
      table := t;
      extAddr, outReg := seq(|t|, _ => 0), seq(|t|, _ => 0);
      shubExt, extData := new nat[MAX_SLAVES], new seq<int>[MAX_SLAVES];
      numExtDev, slaveRegs, devs := 0, [], [];
    }

    /** The address loop of iis2iclx_shub_init for entry n. */
    method ProbeEntry(n: nat, probe: Probe) returns (i: nat)
      requires n < |table|
      ensures i == (match FoundAt(table[n], n, probe) case Some(j) => j case None => 2)
    {
      i := 0;
      while i < 2
        invariant i <= 2 && forall j :: 0 <= j < i ==> probe(n, j) != Some(table[n].chipId)
      {
        var chipId := probe(n, i);
        if chipId == Some(table[n].chipId) {
          return;
        }
        i := i + 1;
      }
    }

    /** data->shub_ext[data->num_ext_dev++] = n */
    method Append(n: nat)
      requires Valid() && n < |table| && numExtDev < MAX_SLAVES
      modifies `numExtDev, `devs, shubExt
      ensures Valid() && devs == old(devs) + [n]
    {
      shubExt[numExtDev] := n;
      numExtDev := numExtDev + 1;
      devs := devs + [n];
    }

    /** One turn of the enumeration loop: probe entry n and list it if it answers. */
    method EnumerateEntry(n: nat, probe: Probe)
      requires Valid() && n < |table| && numExtDev < MAX_SLAVES && Addressed(table, probe, extAddr, n)
      modifies `extAddr, `numExtDev, `devs, shubExt
      ensures Valid() && Addressed(table, probe, extAddr, n + 1)
      ensures devs == old(devs) + if FoundAt(table[n], n, probe).Some? then [n] else []
    {
      var i := ProbeEntry(n, probe);
      if i < 2 {
        extAddr := extAddr[n := table[n].addresses[i]];
        Append(n);
      }
    }

    /** The loop has seen the entries below n. */
    ghost predicate Probed(probe: Probe, n: nat)
      reads this, shubExt
    {
      Valid() && Listing(table, probe, devs, n) && Addressed(table, probe, extAddr, n)
    }

    /** The same turn, as the loop takes it. */
    method EnumerateNext(n: nat, probe: Probe)
      requires n < |table| && numExtDev < MAX_SLAVES && Probed(probe, n)
      modifies `extAddr, `numExtDev, `devs, shubExt
      ensures Probed(probe, n + 1)
    {
      ListingStep(table, probe, devs, n);
      EnumerateEntry(n, probe);
    }

    /** The enumeration loop of iis2iclx_shub_init. */
    method EnumerateTable(probe: Probe)
      requires Valid() && devs == []
      modifies `extAddr, `numExtDev, `devs, shubExt
      ensures Valid() && devs == Enumerated(table, probe, 0, MAX_SLAVES)
      ensures ListedAddresses(table, probe, extAddr, devs)
    {
      var n := 0;
      while n < |table| && numExtDev < MAX_SLAVES
        invariant n <= |table| && Probed(probe, n)
        decreases |table| - n
      {
        EnumerateNext(n, probe);
        n := n + 1;
      }
      ListingDone(table, probe, devs, n);
      ListedAddressed(table, probe, extAddr, n, devs);
    }

    /** The enumeration: each listed entry gets the first address at which it reads its chip id. */
    method Enumerate(probe: Probe)
      requires Valid() && devs == []
      modifies `extAddr, `numExtDev, `devs, shubExt
      ensures Valid() && devs == Enumerated(table, probe, 0, MAX_SLAVES)
      ensures forall k :: 0 <= k < |devs| ==>
                var x := devs[k];
                extAddr[x] == table[x].addresses[if probe(x, 0) == Some(table[x].chipId) then 0 else 1]
    {
      EnumerateTable(probe);
    }

    /** The window loop of iis2iclx_shub_init. */
    method AssignWindows()
      requires Valid() && Increasing(devs)
      modifies `outReg
      ensures Valid()
      ensures forall k :: 0 <= k < |devs| ==> outReg[devs[k]] == DATA_OUT + Offset(table, devs, k)
    {
      var n, regn := 0, 0;
      while n < numExtDev
        invariant n <= numExtDev && Valid()
        invariant regn == Offset(table, devs, n)
        invariant forall k :: 0 <= k < n ==> outReg[devs[k]] == DATA_OUT + Offset(table, devs, k)
      {
        assert shubExt[n] == devs[n];
        outReg := outReg[shubExt[n] := DATA_OUT + regn];
        regn := regn + table[shubExt[n]].outLen;
        n := n + 1;
      }
    }

    /** Register triple k as programmed for sensor x: read address, sub-address, length. */
    ghost predicate Triple(regs: seq<nat>, k: nat, x: nat)
      reads this
    {
      && x < |table| && x < |extAddr| && 3 * k + 3 <= |regs|
      && regs[3 * k] == 2 * extAddr[x] + 1 && regs[3 * k + 1] == table[x].outAddr && regs[3 * k + 2] == table[x].outLen
    }

    /** iis2iclx_shub_set_data_channel: one triple per slave, from slave 1 on. */
    method SetDataChannel()
      requires Valid()
      modifies `slaveRegs
      ensures Valid() && |slaveRegs| == 3 * |devs|
      ensures forall k :: 0 <= k < |devs| ==> Triple(slaveRegs, k, devs[k])
      ensures forall k :: 0 <= k < |devs| ==>
                && slaveRegs[3 * k] == 2 * extAddr[devs[k]] + 1
                && slaveRegs[3 * k + 1] == table[devs[k]].outAddr && slaveRegs[3 * k + 2] == table[devs[k]].outLen
    {
      var slvCfg := new nat[6];
      var n := 0;
      while n < numExtDev
        invariant n <= numExtDev
        invariant forall k :: 0 <= k < n ==> Triple(slvCfg[..], k, devs[k])
      {
        var x, i := shubExt[n], 3 * n;
        assert x == devs[n];
        slvCfg[i] := 2 * extAddr[x] + 1;
        slvCfg[i + 1] := table[x].outAddr;
        slvCfg[i + 2] := table[x].outLen;
        n := n + 1;
      }
      slaveRegs := slvCfg[..3 * n];
    }

    /** Windows and triples as init leaves them, in the same order. */
    ghost predicate Ready()
      reads this, shubExt
    {
      && Valid() && |slaveRegs| == 3 * |devs|
      && forall k :: 0 <= k < |devs| ==>
           outReg[devs[k]] == DATA_OUT + Offset(table, devs, k) && Triple(slaveRegs, k, devs[k])
    }

    /** iis2iclx_shub_init, apart from the sensors' own set-up. */
    method Init(probe: Probe) returns (ret: int)
      requires Valid() && devs == []
      modifies `extAddr, `outReg, `numExtDev, `slaveRegs, `devs, shubExt
      ensures Valid() && devs == Enumerated(table, probe, 0, MAX_SLAVES)
      ensures ret == if devs == [] then -ENOTSUP else 0
      ensures ret == 0 ==> Ready()
      ensures forall k :: 0 <= k < |devs| ==>
                var x := devs[k];
                extAddr[x] == table[x].addresses[if probe(x, 0) == Some(table[x].chipId) then 0 else 1]
    {
      Enumerate(probe);
      EnumeratedIncreases(table, probe, 0, MAX_SLAVES);
      if numExtDev == 0 {
        return -ENOTSUP;
      }
      AssignWindows();
      SetDataChannel();
      return 0;
    }

    /** iis2iclx_shub_get_idx: the first enumerated sensor of the wanted kind, -ENOTSUP if there is none. */
    method GetIdx(kind: int) returns (idx: int)
      requires Valid()
      ensures idx == -ENOTSUP || 0 <= idx < |devs|
      ensures 0 <= idx ==> table[devs[idx]].kind == kind && forall k :: 0 <= k < idx ==> table[devs[k]].kind != kind
      ensures idx < 0 ==> forall k :: 0 <= k < |devs| ==> table[devs[k]].kind != kind
    {
      var n := 0;
      while n < numExtDev
        invariant n <= numExtDev && forall k :: 0 <= k < n ==> table[devs[k]].kind != kind
      {
        assert shubExt[n] == devs[n];
        if table[shubExt[n]].kind == kind {
          return n;
        }
        n := n + 1;
      }
      return -ENOTSUP;
    }

    /** The read of window n out of the registers from DATA_OUT on. */
    method FetchWindow(n: nat, regs: seq<int>)
      requires Ready() && n < |devs| && Offset(table, devs, n) + table[devs[n]].outLen <= |regs|
      modifies extData
      ensures Ready()
      ensures extData[n] == regs[Offset(table, devs, n)..Offset(table, devs, n) + table[devs[n]].outLen]
      ensures forall k :: 0 <= k < MAX_SLAVES && k != n ==> extData[k] == old(extData[k])
    {
      assert shubExt[n] == devs[n];
      var from := outReg[shubExt[n]] - DATA_OUT;
      extData[n] := regs[from..from + table[shubExt[n]].outLen];
    }

    /** iis2iclx_shub_fetch_external_devs with no bus error, while the hub has written these samples. */
    method Fetch(samples: seq<seq<int>>)
      requires Ready()
      requires |samples| == |devs| && forall k :: 0 <= k < |devs| ==> |samples[k]| == slaveRegs[3 * k + 2]
      modifies extData
      ensures Ready() && forall k :: 0 <= k < |devs| ==> extData[k] == samples[k]
    {
      var n := 0;
      var regs := HubOutput(samples, numExtDev);
      while n < numExtDev
        invariant n <= numExtDev && Ready()
        invariant forall k :: 0 <= k < n ==> extData[k] == samples[k]
      {
        OutputLandsInWindows(table, devs, samples, n, numExtDev);
        FetchWindow(n, regs);
        n := n + 1;
      }
    }
  }

  /**
   Init, a hub cycle, a fetch, get_idx: the value is the sample of the first entry of the kind that answers and is
   within the slave limit, and there is none exactly when no entry is. Samples come in the order of the responders.
   */
  method ReadKind(t: Table, probe: Probe, samples: seq<seq<int>>, kind: int) returns (value: Option<seq<int>>)
    requires var devs := Enumerated(t, probe, 0, MAX_SLAVES);
             |samples| == |devs| && forall i :: 0 <= i < |devs| ==> |samples[i]| == t[devs[i]].outLen
    ensures value.Some? ==> exists x :: 0 <= x < |t| && ListedOfKind(t, probe, kind, x)
                              && (forall y :: 0 <= y < x ==> !ListedOfKind(t, probe, kind, y))
                              && |Responders(t, probe, 0, x)| < |samples|
                              && value == Some(samples[|Responders(t, probe, 0, x)|])
    ensures value.None? ==> forall x :: 0 <= x < |t| ==> !ListedOfKind(t, probe, kind, x)
  {
    var hub := new Hub(t);
    var ret := hub.Init(probe);
    ghost var devs := Enumerated(t, probe, 0, MAX_SLAVES);
    if ret != 0 {
      NoneOfKind(t, probe, kind);
      return None;
    }
    hub.Fetch(samples);
    var idx := hub.GetIdx(kind);
    if idx < 0 {
      NoneOfKind(t, probe, kind);
      return None;
    }
    FirstOfKind(t, probe, kind, idx);
    assert ListedOfKind(t, probe, kind, devs[idx]);
    return Some(hub.extData[idx]);
  }

  /** Entry x is of the kind, reads its own chip id, and is within the slave limit. */
  ghost predicate ListedOfKind(t: Table, probe: Probe, kind: int, x: nat) {
    && x < |t| && t[x].kind == kind
    && (probe(x, 0) == Some(t[x].chipId) || probe(x, 1) == Some(t[x].chipId))
    && |Responders(t, probe, 0, x)| < MAX_SLAVES
  }

  lemma NoneOfKind(t: Table, probe: Probe, kind: int)
    requires var devs := Enumerated(t, probe, 0, MAX_SLAVES); forall k :: 0 <= k < |devs| ==> t[devs[k]].kind != kind
    ensures forall x :: 0 <= x < |t| ==> !ListedOfKind(t, probe, kind, x)
  {
    forall x | 0 <= x < |t|
      ensures !ListedOfKind(t, probe, kind, x)
    {
      EnumeratedMembers(t, probe, 0, MAX_SLAVES, x);
    }
  }

  lemma FirstOfKind(t: Table, probe: Probe, kind: int, k: nat)
    requires var devs := Enumerated(t, probe, 0, MAX_SLAVES);
             k < |devs| && t[devs[k]].kind == kind && forall j :: 0 <= j < k ==> t[devs[j]].kind != kind
    ensures var x := Enumerated(t, probe, 0, MAX_SLAVES)[k];
            && ListedOfKind(t, probe, kind, x) && |Responders(t, probe, 0, x)| == k
            && forall y :: 0 <= y < x ==> !ListedOfKind(t, probe, kind, y)
  {
    var devs := Enumerated(t, probe, 0, MAX_SLAVES);
    EnumeratedAt(t, probe, 0, MAX_SLAVES, k);
    EnumeratedIncreases(t, probe, 0, MAX_SLAVES);
    forall y | 0 <= y < devs[k]
      ensures !ListedOfKind(t, probe, kind, y)
    {
      EnumeratedMembers(t, probe, 0, MAX_SLAVES, y);
    }
  }
}
