/** The mobility-trace generator of scratch/previous-sims/gpsr-test1.cc.
    `CreateNode` appends one vehicle record to the ns-2 mobility trace and
    advances the node counter `size`; `CreateRoad` places a row of vehicles
    along a straight road, all heading for a point 10000 m left or right of
    the road's origin; `CreateNodes` truncates the trace, lays out four
    roads of 25 vehicles and names the nodes `node-0`, `node-1`, ...
    The trace is kept as a sequence of records; the text formatting of each
    four-line record is not modelled. */
module RoadTrace {
  import opened Base
  import Decimal

  /** The four lines written for one vehicle: `set X_`, `set Y_`, `set Z_ 0`
      and `at <time> "setdest <dstX> <dstY> <speed>"`, all tagged with the
      node number. */
  datatype Record = Record(node: Uint32, x: real, y: real, z: real, at: real,
                           dstX: real, dstY: real, speed: real)

  /** The generator's state: the counter `size` (a `uint32_t`) and the
      records in the trace file so far. */
  datatype Generator = Generator(size: Uint32, trace: seq<Record>)

  /** The arguments of one `CreateRoad` call. */
  datatype Road = Road(vehicles: Uint32, x: real, y: real, spacing: real, speed: real, rightDir: bool)

  /** Time at which every vehicle starts moving, in seconds. */
  const StartTime: real := 1.0

  /** `CreateNode (posX, posY, dstX, dstY, vel)`. */
  function CreateNode(g: Generator, posX: real, posY: real, dstX: real, dstY: real, vel: real): (r: Generator)
    ensures |r.trace| == |g.trace| + 1 && r.trace[..|g.trace|] == g.trace
    ensures var rec := r.trace[|g.trace|];
      rec.node == g.size && rec.x == posX && rec.y == posY && rec.z == 0.0
      && rec.at == StartTime && rec.dstX == dstX && rec.dstY == dstY && rec.speed == vel
    ensures g.size + 1 < U32 ==> r.size == g.size + 1
    ensures g.size + 1 == U32 ==> r.size == 0
  {
    Generator(AddU32(g.size, 1), g.trace + [Record(g.size, posX, posY, 0.0, StartTime, dstX, dstY, vel)])
  }

  /** Signed distance from the road origin to every vehicle's destination. */
  function Offset(rightDir: bool): (d: int)
    ensures d == 10000 || d == -10000
    ensures d > 0 <==> rightDir
  {
    if rightDir then 10000 else -10000
  }

  /** Reference layout: the record of the `i`-th vehicle of `road` when the
      counter stood at `first` before the road was created. */
  function Vehicle(first: nat, road: Road, i: nat): Record
  {
    Record((first + i) % U32, road.x + (i as real) * road.spacing, road.y, 0.0, StartTime,
           road.x + Offset(road.rightDir) as real, road.y, road.speed)
  }

  /** The first `n` records of `road`. */
  function RoadPrefix(first: nat, road: Road, n: nat): seq<Record>
  {
    seq(n, k requires 0 <= k < n => Vehicle(first, road, k))
  }

  lemma RoadPrefixStep(first: nat, road: Road, n: nat)
    ensures RoadPrefix(first, road, n + 1) == RoadPrefix(first, road, n) + [Vehicle(first, road, n)]
  {
  }

  lemma SpacingStep(i: nat, spacing: real)
    ensures (i as real) * spacing + spacing == ((i + 1) as real) * spacing
  {
  }

  /** `CreateRoad (vehNum, StposX, StposY, distance, vel, rightDir)`: the
      running offset `dist` grows by `distance` after each vehicle. */
  method CreateRoad(g: Generator, road: Road) returns (r: Generator)
    ensures r.size == (g.size + road.vehicles) % U32
    ensures r.trace == g.trace + RoadRecords(g.size, road)
  {
    var dest := Offset(road.rightDir);
    var dist := 0.0;
    r := g;
    var i := 0;
    while i < road.vehicles
      invariant 0 <= i <= road.vehicles
      invariant dist == (i as real) * road.spacing
      invariant r.size == (g.size + i) % U32
      invariant r.trace == g.trace + RoadPrefix(g.size, road, i)
    {
      var before := r;
      r := CreateNode(r, road.x + dist, road.y, road.x + dest as real, road.y, road.speed);
      var rec := Record(before.size, road.x + dist, road.y, 0.0, StartTime,
                        road.x + dest as real, road.y, road.speed);
      assert rec == Vehicle(g.size, road, i);
      assert r.trace == before.trace + [rec];
      RoadPrefixStep(g.size, road, i);
      WrapAdd(g.size + i, 1);
      SpacingStep(i, road.spacing);
      dist := dist + road.spacing;
      i := i + 1;
    }
    assert RoadPrefix(g.size, road, i) == RoadRecords(g.size, road);
  }

  /** Every vehicle of a road shares the destination (origin shifted by
      +10000 iff heading right, never relative to its own start) and the
      speed; starts are `spacing` apart along the road; ids are consecutive. */
  lemma RoadGeometry(first: nat, road: Road, i: nat, j: nat)
    ensures Vehicle(first, road, i).dstX == Vehicle(first, road, j).dstX
    ensures Vehicle(first, road, i).dstY == road.y == Vehicle(first, road, i).y
    ensures Vehicle(first, road, i).speed == road.speed
    ensures Vehicle(first, road, i).dstX > road.x <==> road.rightDir
    ensures Vehicle(first, road, i).x == road.x + (i as real) * road.spacing
    ensures first + i + 1 < U32 ==>
      Vehicle(first, road, i + 1).node == Vehicle(first, road, i).node + 1
    ensures Vehicle(first, road, i + 1).x - Vehicle(first, road, i).x == road.spacing
  {
  }

  /** The four roads `CreateNodes` lays out. */
  const Roads: seq<Road> := [
    Road(25, 100.0, 100.0, 100.0, 28.1, true),
    Road(25, 150.0, 105.0, 100.0, 22.1, true),
    Road(25, 200.0, 75.0, 100.0, 28.1, false),
    Road(25, 150.0, 80.0, 100.0, 22.1, false)
  ]

  /** The name `Names::Add` gives node `i`. */
  function NodeName(i: nat): (name: string)
    ensures |name| > 5 && name[..5] == "node-"
    ensures name[5] == '0' <==> i == 0
    ensures name[5] == '0' ==> |name| == 6
    ensures forall k :: 5 <= k < |name| ==> Decimal.IsDigit(name[k])
    ensures Decimal.Parse(name[5..]) == i
  {
    Decimal.ParseShow(i);
    assert ("node-" + Decimal.Show(i))[5..] == Decimal.Show(i);
    "node-" + Decimal.Show(i)
  }

  /** Different nodes get different names, so no `Names::Add` clashes. */
  lemma NodeNamesDistinct(i: nat, j: nat)
    ensures NodeName(i) == NodeName(j) <==> i == j
  {
    if NodeName(i) == NodeName(j) {
      assert Decimal.Show(i) == NodeName(i)[5..];
      assert Decimal.Show(j) == NodeName(j)[5..];
      Decimal.ShowInjective(i, j);
    }
  }

  /** The naming loop of `CreateNodes`: one name per created node. */
  method NameNodes(size: Uint32) returns (names: seq<string>)
    ensures |names| == size
    ensures forall i :: 0 <= i < size ==> names[i] == NodeName(i)
  {
    names := [];
    var i := 0;
    while i < size
      invariant 0 <= i <= size
      invariant |names| == i
      invariant forall k :: 0 <= k < i ==> names[k] == NodeName(k)
    {
      names := names + [NodeName(i)];
      i := i + 1;
    }
  }

  /** All records of one road, in creation order. */
  function RoadRecords(first: nat, road: Road): (recs: seq<Record>)
  {
    RoadPrefix(first, road, road.vehicles)
  }

  /** Only the wrapped counter matters for a road's records. */
  lemma RoadRecordsWrap(first: nat, road: Road)
    ensures RoadRecords(first % U32, road) == RoadRecords(first, road)
  {
    forall k | 0 <= k < road.vehicles
      ensures Vehicle(first % U32, road, k) == Vehicle(first, road, k)
    {
      WrapAdd(first, k);
    }
  }


  /** Reference layout of `CreateNodes`: the four roads one after another,
      each starting where the counter stood after the previous one. */
  function Layout(first: nat): seq<Record>
  {
    RoadRecords(first, Roads[0]) + RoadRecords(first + 25, Roads[1])
    + RoadRecords(first + 50, Roads[2]) + RoadRecords(first + 75, Roads[3])
  }

  /** The layout holds 100 records whose ids are consecutive from `first`
      (modulo 2^32) and whose `k`-th record is vehicle `k % 25` of road
      `k / 25`. */
  lemma LayoutIds(first: nat)
    ensures |Layout(first)| == 100
    ensures forall k :: 0 <= k < 100 ==>
      Layout(first)[k] == Vehicle(first + 25 * (k / 25), Roads[k / 25], k % 25)
    ensures forall k :: 0 <= k < 100 ==> Layout(first)[k].node == (first + k) % U32
  {
    var l := Layout(first);
    forall k | 0 <= k < 100
      ensures l[k] == Vehicle(first + 25 * (k / 25), Roads[k / 25], k % 25)
      ensures l[k].node == (first + k) % U32
    {
      var j := k / 25;
      assert 25 * j <= k < 25 * j + 25;
      assert l[k] == RoadRecords(first + 25 * j, Roads[j])[k - 25 * j];
    }
  }

  /** The four `CreateRoad` calls of `CreateNodes`, on a truncated trace. */
  method LayRoads(g: Generator) returns (r: Generator)
    ensures r.size == (g.size + 100) % U32
    ensures r.trace == Layout(g.size)
  {
    var r0, r1, r2, r3 := Roads[0], Roads[1], Roads[2], Roads[3];
    assert r0.vehicles == 25 && r1.vehicles == 25 && r2.vehicles == 25 && r3.vehicles == 25;
    var a := RoadRecords(g.size, r0);
    var b := RoadRecords(g.size + 25, r1);
    var c := RoadRecords(g.size + 50, r2);
    var d := RoadRecords(g.size + 75, r3);
    var g1 := CreateRoad(Generator(g.size, []), r0);
    assert g1.trace == a;
    var g2 := CreateRoad(g1, r1);
    WrapAdd(g.size + 25, 25);
    RoadRecordsWrap(g.size + 25, r1);
    assert g2.trace == a + b;
    var g3 := CreateRoad(g2, r2);
    WrapAdd(g.size + 50, 25);
    RoadRecordsWrap(g.size + 50, r2);
    assert g3.trace == a + b + c;
    r := CreateRoad(g3, r3);
    WrapAdd(g.size + 75, 25);
    RoadRecordsWrap(g.size + 75, r3);
    assert r.trace == a + b + c + d;
  }

  /** `CreateNodes`: truncates the trace, appends four roads of 25 vehicles
      in order and names nodes `0 .. size - 1`.  From the default counter 0
      the result is 100 nodes with ids 0 to 99. */
  method CreateNodes(g: Generator) returns (r: Generator, names: seq<string>)
    ensures r.size == (g.size + 100) % U32
    ensures r.trace == Layout(g.size)
    ensures |names| == r.size && forall i :: 0 <= i < |names| ==> names[i] == NodeName(i)
    ensures g.size == 0 ==> (r.size == 100 && |r.trace| == 100
                             && forall k :: 0 <= k < 100 ==> r.trace[k].node == k)
  {
    r := LayRoads(g);
    LayoutIds(g.size);
    names := NameNodes(r.size);
  }
}
