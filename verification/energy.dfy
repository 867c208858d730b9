/** The energy sampler of scratch/buildings-test.cc: the array
    `NodeTotEnergyCons[veh_num]` and the shared counter `iter`.  Every
    `TotalEnergyConsumption` notification, whichever radio it comes from,
    writes slot `iter % STANodesNum` and advances `iter`; `ExportEnergyPerNode`
    later writes the array out, one row per vehicle index.  The script's
    `main` never calls `InitEnergy` or `TraceEnergy`, so in this script the
    sampler and the export stay unused. */
module EnergySampler {
  import opened Base
  import Routing

  /** `veh_num`: the number of vehicles and the size of the energy array. */
  const VehNum: nat := 2

  /** The sampler's state: the array contents, `STANodesNum` and `iter`
      (a `uint32_t`). */
  datatype Sampler = Sampler(energy: seq<real>, stations: nat, iter: Uint32)

  /** One notification of the `TotalEnergyConsumption` trace source.  `node`
      is the radio that fired it; the callback is never told which one. */
  datatype Notification = Notification(node: nat, oldValue: real, newValue: real)

  /** The sampler can be notified: `STANodesNum` is positive and no larger
      than the array, so `iter % STANodesNum` indexes the array. */
  ghost predicate Valid(s: Sampler)
  {
    0 < s.stations <= |s.energy|
  }

  /** The sampler right after construction.  The C++ array is never
      initialised, so its first contents are a parameter. */
  function Init(initial: seq<real>): (s: Sampler)
    requires |initial| == VehNum
    ensures Valid(s)
    ensures s.stations == VehNum == |s.energy|
    ensures s.iter == 0 && s.energy == initial
  {
    Sampler(initial, VehNum, 0)
  }

  /** The slot the next notification writes, `iter % STANodesNum`. */
  function Slot(s: Sampler): (i: nat)
    requires Valid(s)
    ensures i < s.stations && i < |s.energy|
  {
    s.iter % s.stations
  }

  /** `TotalEnergy (oldValue, totalEnergy)`. */
  function TotalEnergy(s: Sampler, oldValue: real, totalEnergy: real): (r: Sampler)
    requires Valid(s)
    ensures Valid(r) && r.stations == s.stations && |r.energy| == |s.energy|
    ensures r.energy[Slot(s)] == totalEnergy
    ensures forall i :: 0 <= i < |s.energy| && i != Slot(s) ==> r.energy[i] == s.energy[i]
    ensures s.iter + 1 < U32 ==> r.iter == s.iter + 1
    ensures s.iter + 1 == U32 ==> r.iter == 0
  {
    s.(energy := s.energy[Slot(s) := totalEnergy], iter := AddU32(s.iter, 1))
  }

  /** The previous value a notification carries has no effect. */
  lemma OldValueIgnored(s: Sampler, a: real, b: real, v: real)
    requires Valid(s)
    ensures TotalEnergy(s, a, v) == TotalEnergy(s, b, v)
  {
  }

  /** The sampler after the notifications `ns`, delivered in order. */
  function Replay(s: Sampler, ns: seq<Notification>): (r: Sampler)
    requires Valid(s)
    ensures Valid(r) && r.stations == s.stations && |r.energy| == |s.energy|
    decreases |ns|
  {
    if |ns| == 0 then s
    else
      var last := ns[|ns| - 1];
      TotalEnergy(Replay(s, ns[..|ns| - 1]), last.oldValue, last.newValue)
  }

  lemma IterStep(p: Sampler, oldValue: real, newValue: real, x: nat)
    requires Valid(p) && p.iter == x % U32
    ensures TotalEnergy(p, oldValue, newValue).iter == (x + 1) % U32
  {
    WrapAdd(x, 1);
  }

  /** After `k` notifications `iter` has advanced by `k`, modulo 2^32. */
  lemma {:induction false} ReplayIter(s: Sampler, ns: seq<Notification>)
    requires Valid(s)
    ensures Replay(s, ns).iter == (s.iter + |ns|) % U32
    decreases |ns|
  {
    if |ns| > 0 {
      var front := ns[..|ns| - 1];
      var last := ns[|ns| - 1];
      var p := Replay(s, front);
      ReplayIter(s, front);
      IterStep(p, last.oldValue, last.newValue, s.iter + |front|);
    }
  }

  /** The slot the `j`-th notification (counting from 0, with `iter`
      starting at 0) writes: `iter` is `j` wrapped to 32 bits. */
  function ArrivalSlot(j: nat, n: nat): nat
    requires n > 0
  {
    (j % U32) % n
  }

  /** The arrival index of the last of the first `k` notifications that
      writes `slot`, if there is one. */
  function LastArrival(k: nat, slot: nat, n: nat): (r: Option<nat>)
    requires n > 0
    ensures r.Some? ==> r.value < k && ArrivalSlot(r.value, n) == slot
    ensures r.Some? ==> forall j :: r.value < j < k ==> ArrivalSlot(j, n) != slot
    ensures r.None? ==> forall j :: 0 <= j < k ==> ArrivalSlot(j, n) != slot
    decreases k
  {
    if k == 0 then None
    else if ArrivalSlot(k - 1, n) == slot then Some(k - 1)
    else LastArrival(k - 1, slot, n)
  }

  /** The contents of `slot` the reference attribution predicts: the value
      of the last notification whose arrival index maps to `slot`, or the
      initial contents when no notification does. */
  function Expected(initial: seq<real>, ns: seq<Notification>, slot: nat, n: nat): real
    requires n > 0 && slot < |initial|
  {
    match LastArrival(|ns|, slot, n)
    case Some(j) => ns[j].newValue
    case None => initial[slot]
  }

  /** Starting from `iter == 0`, every slot ends up holding the value of the
      last notification whose arrival index lands on it, and slots no
      notification lands on keep their first contents. */
  lemma {:induction false} FinalContents(s: Sampler, ns: seq<Notification>)
    requires Valid(s) && s.iter == 0
    ensures forall i :: 0 <= i < |s.energy| ==>
      Replay(s, ns).energy[i] == Expected(s.energy, ns, i, s.stations)
    decreases |ns|
  {
    if |ns| > 0 {
      var k := |ns|;
      var front := ns[..k - 1];
      FinalContents(s, front);
      var p := Replay(s, front);
      ReplayIter(s, front);
      assert p.iter == (k - 1) % U32;
      assert Slot(p) == ArrivalSlot(k - 1, s.stations);
      forall i | 0 <= i < |s.energy|
        ensures Replay(s, ns).energy[i] == Expected(s.energy, ns, i, s.stations)
      {
        if i != Slot(p) {
          assert LastArrival(k, i, s.stations) == LastArrival(k - 1, i, s.stations);
          match LastArrival(k - 1, i, s.stations)
          case Some(j) =>
            assert front[j] == ns[j];
          case None =>
        }
      }
    }
  }

  lemma {:induction false} MulAtLeast(d: nat, n: nat)
    requires d >= 1
    ensures d * n >= n
    decreases d
  {
    if d > 1 {
      MulAtLeast(d - 1, n);
      assert d * n == (d - 1) * n + n;
    }
  }

  /** Euclidean remainder is unique: `k * n + r` leaves remainder `r`. */
  lemma ModUnique(a: int, n: int, k: int, r: int)
    requires n > 0 && 0 <= r < n && a == k * n + r
    ensures a % n == r
  {
    var k', r' := a / n, a % n;
    assert a == k' * n + r';
    assert k * n - k' * n == r' - r;
    if k > k' {
      MulAtLeast(k - k', n);
    } else if k < k' {
      MulAtLeast(k' - k, n);
    }
  }

  /** When `STANodesNum` divides 2^32 (it is 2 in the script), the wrap of
      `iter` is invisible: the `j`-th notification writes slot `j % N`. */
  lemma ArrivalSlotIsModulo(j: nat, n: nat)
    requires n > 0 && U32 % n == 0
    ensures ArrivalSlot(j, n) == j % n
  {
    var q := j / U32;
    var c := U32 / n;
    var r := j % U32;
    assert j == q * U32 + r;
    assert U32 == c * n;
    assert q * U32 == (q * c) * n;
    ModUnique(j, n, q * c + r / n, r % n);
    ModUnique(r, n, r / n, r % n);
  }

  /** For the script's two vehicles: after notifications `v0 .. v(k-1)` from
      a fresh sampler, slot `i` holds `v_j` for the largest `j < k` with
      `j % 2 == i`, and keeps its first contents when `k <= i`. */
  lemma DefaultAttribution(initial: seq<real>, ns: seq<Notification>, i: nat)
    requires |initial| == VehNum && i < VehNum
    ensures i < |ns| ==>
      exists j :: (0 <= j < |ns| && j % VehNum == i
                   && (forall j' :: j < j' < |ns| ==> j' % VehNum != i)
                   && Replay(Init(initial), ns).energy[i] == ns[j].newValue)
    ensures |ns| <= i ==> Replay(Init(initial), ns).energy[i] == initial[i]
  {
    var s := Init(initial);
    FinalContents(s, ns);
    assert U32 % VehNum == 0;
    forall j: nat
      ensures ArrivalSlot(j, VehNum) == j % VehNum
    {
      ArrivalSlotIsModulo(j, VehNum);
    }
    if i < |ns| {
      assert ArrivalSlot(i, VehNum) == i;
      match LastArrival(|ns|, i, VehNum)
      case Some(j) =>
        assert j % VehNum == i;
        forall j' | j < j' < |ns|
          ensures j' % VehNum != i
        {
          assert ArrivalSlot(j', VehNum) != i;
        }
        assert Replay(s, ns).energy[i] == ns[j].newValue;
      case None =>
        assert false;
    }
  }

  /** Attribution is by arrival order, not by node: a single notification
      from vehicle 1 lands in slot 0 of a fresh sampler. */
  lemma ArrivalNotIdentity(initial: seq<real>, v: real)
    requires |initial| == VehNum
    ensures Replay(Init(initial), [Notification(1, 0.0, v)]).energy[0] == v
    ensures Replay(Init(initial), [Notification(1, 0.0, v)]).energy[1] == initial[1]
  {
    var s := Init(initial);
    var ns := [Notification(1, 0.0, v)];
    assert ns[..0] == [];
  }

  /** One line of the energy export: vehicle index and recorded energy. */
  datatype ExportRow = ExportRow(index: nat, energy: real)

  /** What `ExportEnergyPerNode` appends, and to which file. */
  datatype EnergyExport = EnergyExport(path: string, rows: seq<ExportRow>)

  /** `ExportEnergyPerNode`: chooses the file by the protocol selector
      (fatal for an unknown one) and writes one row per vehicle index
      `0 .. STANodesNum - 1`. */
  function ExportEnergyPerNode(m: nat, s: Sampler): (r: Result<EnergyExport, Routing.Fatal>)
    requires Valid(s)
    ensures r.Err? <==> !(1 <= m <= 5)
    ensures r.Ok? ==> r.value.path == "logs/" + Routing.ExportPrefix(m).value + "energy_logs.txt"
    ensures r.Ok? ==> |r.value.rows| == s.stations
    ensures r.Ok? ==> forall i :: 0 <= i < |r.value.rows| ==>
      r.value.rows[i].index == i && r.value.rows[i].energy == s.energy[i]
  {
    match Routing.ExportPrefix(m)
    case Err(e) => Err(e)
    case Ok(rp) =>
      Ok(EnergyExport("logs/" + rp + "energy_logs.txt",
                      seq(s.stations, i requires 0 <= i < s.stations && s.stations <= |s.energy| =>
                        ExportRow(i, s.energy[i]))))
  }
}
