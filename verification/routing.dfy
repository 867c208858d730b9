/** The routing-protocol selector of scratch/buildings-test.cc: the integer
    `m_protocol` chooses one of five routing protocols, which fixes the
    diagnostic name, the way the network stack is installed, the prefix of
    the energy export file and whether GPSR's auxiliary service is started.
    Every other value is a fatal configuration error. */
module Routing {
  import opened Base
  import Decimal

  datatype Protocol = OLSR | AODV | DSDV | DSR | GPSR

  /** The fatal error `NS_FATAL_ERROR ("No such protocol:" << m_protocol)`. */
  datatype Fatal = NoSuchProtocol(selector: nat)

  /** The command-line value that selects `p`. */
  function Selector(p: Protocol): nat
  {
    match p
    case OLSR => 1
    case AODV => 2
    case DSDV => 3
    case DSR => 4
    case GPSR => 5
  }

  /** The `switch (m_protocol)` of `SetRoutingAndInternet`: which protocol
      a selector value chooses. */
  function ParseSelector(m: nat): (r: Result<Protocol, Fatal>)
    ensures r.Ok? <==> 1 <= m <= 5
    ensures r.Ok? ==> Selector(r.value) == m
    ensures r.Err? ==> r.error == NoSuchProtocol(m)
  {
    if m == 1 then Ok(OLSR)
    else if m == 2 then Ok(AODV)
    else if m == 3 then Ok(DSDV)
    else if m == 4 then Ok(DSR)
    else if m == 5 then Ok(GPSR)
    else Err(NoSuchProtocol(m))
  }

  /** Every protocol is chosen by exactly its own selector value. */
  lemma SelectorRoundTrip(p: Protocol, m: nat)
    ensures ParseSelector(Selector(p)) == Ok(p)
    ensures ParseSelector(m) == Ok(p) <==> m == Selector(p)
  {
  }

  /** The placeholder the constructor gives `m_protocolName`. */
  const Unselected: string := "NotSelectedYet"

  /** The value given to `m_protocolName`; it always replaces the
      placeholder. */
  function ProtocolName(p: Protocol): (name: string)
    ensures name != Unselected
  {
    match p
    case OLSR => "OLSR"
    case AODV => "AODV"
    case DSDV => "DSDV"
    case DSR => "DSR"
    case GPSR => "GPSR"
  }

  /** Distinct protocols get distinct names, so the name identifies the run's
      protocol in log-file names and printed output. */
  lemma ProtocolNamesDistinct(p: Protocol, q: Protocol)
    ensures ProtocolName(p) == ProtocolName(q) <==> p == q
  {
  }

  /** One configuration action performed on the network stack helpers. */
  datatype Stage =
    | ListAdd(protocol: Protocol, priority: nat)   // list.Add (helper, priority)
    | UseListRouting                                // internet.SetRoutingHelper (list)
    | UseGpsrRouting                                // internet.SetRoutingHelper (gpsr)
    | InstallInternet                               // internet.Install (STANodes)
    | InstallDsr                                    // dsrMain.Install (dsr, STANodes)
    | AssignAddresses(base: string, mask: string)   // ipv4.SetBase + Assign

  /** A successfully configured stack: the protocol name and the stages
      performed, in order. */
  datatype StackSetup = StackSetup(name: string, stages: seq<Stage>)

  /** Number of `InstallInternet` stages in `stages`. */
  function CountInstalls(stages: seq<Stage>): nat
  {
    if |stages| == 0 then 0
    else (if stages[0] == InstallInternet then 1 else 0) + CountInstalls(stages[1..])
  }

  /** Every routing-helper choice comes before the stack is installed; in
      ns-3 a helper set after `Install` has no effect. */
  predicate HelperBeforeInstall(stages: seq<Stage>)
  {
    forall i, j :: 0 <= i < j < |stages| && stages[i] == InstallInternet ==>
      !stages[j].UseListRouting? && !stages[j].UseGpsrRouting?
  }

  /** `SetRoutingAndInternet`: the selector switch followed by the
      install-branch choice `m < 4`, `m == 4`, `m == 5`. */
  function SetRoutingAndInternet(m: nat): (r: Result<StackSetup, Fatal>)
    ensures r.Err? <==> !(1 <= m <= 5)
    ensures r.Err? ==> r.error == NoSuchProtocol(m)
    ensures r.Ok? ==> r.value.name == ProtocolName(ParseSelector(m).value)
    ensures r.Ok? ==> (|r.value.stages| >= 3
                       && r.value.stages[|r.value.stages| - 1] == AssignAddresses("10.1.1.0", "255.255.255.0"))
    ensures r.Ok? ==> (UseListRouting in r.value.stages <==> m < 4)
    ensures r.Ok? ==> (UseGpsrRouting in r.value.stages <==> m == 5)
    ensures r.Ok? ==> (InstallDsr in r.value.stages <==> m == 4)
    ensures r.Ok? && m != 4 ==> r.value.stages[0] == ListAdd(ParseSelector(m).value, 1)
  {
    var selected: Result<(string, seq<Stage>), Fatal> :=
      if m == 1 then Ok(("OLSR", [ListAdd(OLSR, 1)]))
      else if m == 2 then Ok(("AODV", [ListAdd(AODV, 1)]))
      else if m == 3 then Ok(("DSDV", [ListAdd(DSDV, 1)]))
      else if m == 4 then Ok(("DSR", []))
      else if m == 5 then Ok(("GPSR", [ListAdd(GPSR, 1)]))
      else Err(NoSuchProtocol(m));
    match selected
    case Err(e) => Err(e)
    case Ok((name, added)) =>
      var install :=
        if m < 4 then [UseListRouting, InstallInternet]
        else if m == 4 then [InstallInternet, InstallDsr]
        else [UseGpsrRouting, InstallInternet];
      Ok(StackSetup(name, added + install + [AssignAddresses("10.1.1.0", "255.255.255.0")]))
  }

  /** For each valid selector the stack is installed exactly once.  The
      full stage sequence: the selected protocol is added to the list at
      priority 1, the routing helper (the list for m < 4, GPSR for m == 5)
      is set, the stack is installed and addresses are assigned; for DSR
      the plain stack is installed first and DSR on top of it. */
  lemma StackInstalledOnce(m: nat)
    requires 1 <= m <= 5
    ensures SetRoutingAndInternet(m).Ok?
    ensures CountInstalls(SetRoutingAndInternet(m).value.stages) == 1
    ensures m == 4 ==> SetRoutingAndInternet(m).value.stages
                         == [InstallInternet, InstallDsr, AssignAddresses("10.1.1.0", "255.255.255.0")]
    ensures m != 4 ==> SetRoutingAndInternet(m).value.stages
                         == [ListAdd(ParseSelector(m).value, 1),
                             if m < 4 then UseListRouting else UseGpsrRouting,
                             InstallInternet, AssignAddresses("10.1.1.0", "255.255.255.0")]
    ensures HelperBeforeInstall(SetRoutingAndInternet(m).value.stages)
    ensures forall i :: 0 <= i < |SetRoutingAndInternet(m).value.stages|
                        && SetRoutingAndInternet(m).value.stages[i].ListAdd? ==>
      m != 4 && SetRoutingAndInternet(m).value.stages[i] == ListAdd(ParseSelector(m).value, 1)
  {
    var stages := SetRoutingAndInternet(m).value.stages;
    var address := AssignAddresses("10.1.1.0", "255.255.255.0");
    if m == 4 {
      assert stages == [InstallInternet, InstallDsr, address];
      assert stages[1..] == [InstallDsr, address];
      assert stages[1..][1..] == [address];
      assert CountInstalls(stages[1..][1..]) == 0;
      assert CountInstalls(stages[1..]) == 0;
    } else {
      var p := ParseSelector(m).value;
      var use := if m < 4 then UseListRouting else UseGpsrRouting;
      assert stages == [ListAdd(p, 1), use, InstallInternet, address];
      assert stages[1..] == [use, InstallInternet, address];
      assert stages[1..][1..] == [InstallInternet, address];
      assert stages[1..][1..][1..] == [address];
      assert CountInstalls(stages[1..][1..][1..]) == 0;
      assert CountInstalls(stages[1..][1..]) == 1;
      assert CountInstalls(stages[1..]) == 1;
    }
  }

  /** `installGpsr_IfChosen`: whether the auxiliary `gpsr.Install ()` runs. */
  function InstallGpsrIfChosen(m: nat): (runs: bool)
    ensures runs <==> ParseSelector(m) == Ok(GPSR)
  {
    m == 5
  }

  /** The `switch (m_protocol)` of `ExportEnergyPerNode`: the file-name
      prefix for the energy export. */
  function ExportPrefix(m: nat): (r: Result<string, Fatal>)
    ensures r.Err? <==> !(1 <= m <= 5)
    ensures r.Err? ==> r.error == NoSuchProtocol(m)
  {
    if m == 1 then Ok("rp_1_")
    else if m == 2 then Ok("rp_2_")
    else if m == 3 then Ok("rp_3_")
    else if m == 4 then Ok("rp_4_")
    else if m == 5 then Ok("rp_5_")
    else Err(NoSuchProtocol(m))
  }

  /** The export prefix is `rp_<m>_` for every valid selector, and the export
      switch accepts exactly the selectors the stack switch accepts, so an
      export scheduled after a successful setup would never hit its fatal
      default (`TraceEnergy` schedules it, but `main` never calls that). */
  lemma ExportPrefixFormat(m: nat)
    ensures 1 <= m <= 5 ==> ExportPrefix(m) == Ok("rp_" + [Decimal.Digit(m)] + "_")
    ensures ExportPrefix(m).Ok? <==> SetRoutingAndInternet(m).Ok?
  {
    if 1 <= m <= 5 {
      assert "rp_" + [Decimal.Digit(m)] + "_" == ['r', 'p', '_', Decimal.Digit(m), '_'];
      if m == 1 { assert Decimal.Digit(m) == '1'; }
      else if m == 2 { assert Decimal.Digit(m) == '2'; }
      else if m == 3 { assert Decimal.Digit(m) == '3'; }
      else if m == 4 { assert Decimal.Digit(m) == '4'; }
      else { assert Decimal.Digit(m) == '5'; }
    }
  }

  /** The top-level steps of `main`, in order. */
  datatype Phase =
    | ClearLogFiles
    | SetLogComponents
    | Configure
    | CreateNodes
    | CreateBuildings
    | CreateDevices
    | StackStage(stage: Stage)
    | Abort(error: Fatal)
    | InstallApplications
    | GpsrAuxiliary
    | SetNetAnim
    | RunUntil(stopTime: real)
    | Destroy
    | PrintAppOutput

  /** The fixed set-up calls `main` makes before the routing stack. */
  const SetUp: seq<Phase> :=
    [ClearLogFiles, SetLogComponents, Configure, CreateNodes, CreateBuildings, CreateDevices]

  /** The stack stages as phases, in order. */
  function StackPhases(stages: seq<Stage>): (ps: seq<Phase>)
    ensures |ps| == |stages|
    ensures forall k :: 0 <= k < |stages| ==> ps[k] == StackStage(stages[k])
  {
    seq(|stages|, k requires 0 <= k < |stages| => StackStage(stages[k]))
  }

  /** What `main` does after the stack is set up, in order: install the
      applications, start GPSR's auxiliary service when chosen, configure
      the animator, run until `endTime + 2`, tear down, print the output. */
  function AfterStack(gpsr: bool, endTime: real): seq<Phase>
  {
    [InstallApplications] + (if gpsr then [GpsrAuxiliary] else [])
    + [SetNetAnim, RunUntil(endTime + 2.0), Destroy, PrintAppOutput]
  }

  /** The phases `main` goes through with selector `m` and end time `endTime`:
      an unknown selector aborts inside `SetRoutingAndInternet`, before any
      stack stage; otherwise the stack stages run in order, followed by the
      rest of `main`. */
  function MainPhases(m: nat, endTime: real): (phases: seq<Phase>)
    ensures |phases| >= 7
    ensures phases[..6] == SetUp
    ensures ParseSelector(m).Err? ==> phases == SetUp + [Abort(NoSuchProtocol(m))]
    ensures ParseSelector(m).Ok? ==> phases[|phases| - 1] == PrintAppOutput
    ensures ParseSelector(m).Ok? ==>
      var stages := SetRoutingAndInternet(m).value.stages;
      && |phases| == 6 + |stages| + |AfterStack(m == 5, endTime)|
      && phases[6..6 + |stages|] == StackPhases(stages)
      && phases[6 + |stages|..] == AfterStack(m == 5, endTime)
  {
    match SetRoutingAndInternet(m)
    case Err(e) => SetUp + [Abort(e)]
    case Ok(setup) =>
      var front := SetUp + StackPhases(setup.stages);
      var rest := AfterStack(InstallGpsrIfChosen(m), endTime);
      assert (front + rest)[..6] == SetUp;
      assert (front + rest)[|front|..] == rest;
      assert (front + rest)[6..|front|] == StackPhases(setup.stages);
      front + rest
  }

  /** Position of a phase in `main`'s source order; an abort happens inside
      the stack set-up, so it shares the stack stages' position. */
  function Rank(p: Phase): nat
  {
    match p
    case ClearLogFiles => 0
    case SetLogComponents => 1
    case Configure => 2
    case CreateNodes => 3
    case CreateBuildings => 4
    case CreateDevices => 5
    case StackStage(_) => 6
    case Abort(_) => 6
    case InstallApplications => 7
    case GpsrAuxiliary => 8
    case SetNetAnim => 9
    case RunUntil(_) => 10
    case Destroy => 11
    case PrintAppOutput => 12
  }

  /** The rank of every phase of a run laid out as set-up, stack stages and
      the rest of `main`: the fixed set-up ranks first, the stack stages
      next, then the remaining phases with strictly growing ranks. */
  lemma PhaseRank(ps: seq<Phase>, stages: seq<Stage>, gpsr: bool, endTime: real, i: nat)
    requires |ps| == 6 + |stages| + |AfterStack(gpsr, endTime)| && i < |ps|
    requires ps[..6] == SetUp && ps[6..6 + |stages|] == StackPhases(stages)
    requires ps[6 + |stages|..] == AfterStack(gpsr, endTime)
    ensures var n := 6 + |stages|;
      && (i < 6 ==> Rank(ps[i]) == i)
      && (6 <= i < n ==> ps[i].StackStage?)
      && (n <= i ==> Rank(ps[i]) == 7 + (i - n) + (if !gpsr && i > n then 1 else 0))
  {
    var n := 6 + |stages|;
    if n <= i {
      assert ps[i] == ps[n..][i - n];
    } else if i < 6 {
      assert ps[i] == ps[..6][i];
    } else {
      assert ps[i] == ps[6..n][i - 6];
    }
  }

  /** Phases ordered as in `main`, where only stack stages may share a
      position. */
  predicate InSourceOrder(ps: seq<Phase>)
  {
    forall i, j :: 0 <= i < j < |ps| ==>
      Rank(ps[i]) < Rank(ps[j]) || (ps[i].StackStage? && ps[j].StackStage?)
  }

  /** A completed run is in source order. */
  lemma RunInOrder(ps: seq<Phase>, stages: seq<Stage>, gpsr: bool, endTime: real)
    requires |ps| == 6 + |stages| + |AfterStack(gpsr, endTime)|
    requires ps[..6] == SetUp && ps[6..6 + |stages|] == StackPhases(stages)
    requires ps[6 + |stages|..] == AfterStack(gpsr, endTime)
    ensures InSourceOrder(ps)
  {
    forall i, j | 0 <= i < j < |ps|
      ensures Rank(ps[i]) < Rank(ps[j]) || (ps[i].StackStage? && ps[j].StackStage?)
    {
      PhaseRank(ps, stages, gpsr, endTime, i);
      PhaseRank(ps, stages, gpsr, endTime, j);
    }
  }

  /** An aborted run is in source order. */
  lemma AbortInOrder(e: Fatal)
    ensures InSourceOrder(SetUp + [Abort(e)])
  {
    var ps := SetUp + [Abort(e)];
    forall i | 0 <= i < |ps|
      ensures Rank(ps[i]) == i
    {
    }
  }

  /** The phases follow `main`'s source order, and only stack stages repeat:
      every stack stage precedes the application install, which precedes the
      GPSR auxiliary service, which precedes the run. */
  lemma MainInOrder(m: nat, endTime: real)
    ensures InSourceOrder(MainPhases(m, endTime))
  {
    if ParseSelector(m).Err? {
      AbortInOrder(NoSuchProtocol(m));
    } else {
      RunInOrder(MainPhases(m, endTime), SetRoutingAndInternet(m).value.stages, m == 5, endTime);
    }
  }

  /** Facts about a run laid out as set-up, stack stages and the rest of
      `main`. */
  lemma RunPhasesFacts(ps: seq<Phase>, stages: seq<Stage>, gpsr: bool, endTime: real)
    requires |ps| == 6 + |stages| + |AfterStack(gpsr, endTime)|
    requires ps[..6] == SetUp && ps[6..6 + |stages|] == StackPhases(stages)
    requires ps[6 + |stages|..] == AfterStack(gpsr, endTime)
    ensures GpsrAuxiliary in ps <==> gpsr
    ensures RunUntil(endTime + 2.0) in ps
  {
    var n := 6 + |stages|;
    var rest := AfterStack(gpsr, endTime);
    if gpsr {
      assert ps[n + 1] == rest[1] == GpsrAuxiliary;
      assert ps[n + 3] == rest[3];
    } else {
      assert ps[n + 2] == rest[2];
      forall i | 0 <= i < |ps|
        ensures ps[i] != GpsrAuxiliary
      {
        PhaseRank(ps, stages, false, endTime, i);
      }
    }
  }

  /** A fatal selector stops the run before anything is installed: no stack
      stage, no application, no simulation; the auxiliary GPSR service runs
      exactly when GPSR is selected. */
  lemma MainOrdering(m: nat, endTime: real)
    ensures ParseSelector(m).Err? ==>
      forall i :: 0 <= i < |MainPhases(m, endTime)| ==>
        !MainPhases(m, endTime)[i].StackStage? && MainPhases(m, endTime)[i] != InstallApplications
        && !MainPhases(m, endTime)[i].RunUntil?
    ensures GpsrAuxiliary in MainPhases(m, endTime) <==> m == 5
    ensures ParseSelector(m).Ok? ==> RunUntil(endTime + 2.0) in MainPhases(m, endTime)
  {
    var phases := MainPhases(m, endTime);
    if ParseSelector(m).Ok? {
      RunPhasesFacts(phases, SetRoutingAndInternet(m).value.stages, m == 5, endTime);
    } else {
      assert phases == SetUp + [Abort(NoSuchProtocol(m))];
      assert forall i :: 0 <= i < |phases| ==> Rank(phases[i]) == i;
    }
  }
}
