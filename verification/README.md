# VANET experiment scripts: a verified model of their sequential logic

Two ns-3 simulation scripts drive a vehicular ad-hoc network experiment. Most
of their code configures ns-3 library helpers. This project models the parts
that are plain sequential logic, as pure Dafny functions and small methods
over immutable data, and proves what they compute:

- **Traffic countdown** (`Traffic`): the self-rescheduling `GenerateTraffic`
  emitter, one scheduler call per step, with time in integer ticks.
- **Energy sampler** (`EnergySampler`): the energy array `NodeTotEnergyCons`,
  the shared counter `iter` and the `TotalEnergy` callback. Slots are
  assigned round-robin by arrival order. Also the per-protocol energy export.
- **Routing selector** (`Routing`): the `m_protocol` switch. It fixes the
  protocol name, the install stages of the network stack, the energy-export
  prefix and the auxiliary GPSR service. It also gives the order of `main`'s
  phases, with the fatal abort for an unknown selector.
- **Metrics** (`Metrics`): the receive counter and receive log of
  `ReceivePacket`, and the accounting modes of `PrintAppOutput` (packets
  sent, PDR, PLR, throughput), computed over exact rationals.
- **Road trace** (`RoadTrace`, using `Decimal` for node names): the ns-2
  mobility-trace records made by `CreateNode`, `CreateRoad` and
  `CreateNodes`, and the `node-<i>` naming.
- **Trace sanitiser** (`Sanitiser`): `ParseTracefile`'s filter that keeps
  only printable characters, including the final read that returns `EOF`.

Some modelled operations are defined but never reached from the scripts'
`main`: `InitEnergy` and `TraceEnergy` are never called, so `TotalEnergy` and
`ExportEnergyPerNode` never run; no application mode installs the
`GenerateTraffic` emitter or the `ReceivePacket` sink; and the call of
`ParseTracefile` is commented out (scratch/previous-sims/gpsr-test1.cc:173).
Application mode 3 never has a server to report in this script: its case of
`InstallApplications` installs nothing, so the per-server counts
(`Run.received`) are a free parameter, not values the script produces.

C++ `uint32_t` arithmetic is written out as wrap-around modulo 2^32
(`Base.AddU32`, `Base.MulU32`). This covers `iter`, `packetsReceived`,
`size`, `numOfPacks * STANodesNum` and `totalPacketsThrough*1500*8`. Lemmas
show the exact, non-wrapping result below each bound.

Four behaviours of the code worth knowing:

- Start positions are always `StposX + i*distance`. The road direction
  changes only the destination (`StposX ± 10000`), never the spacing sign.
- A PDR with zero packets sent is not defined as 0. The code divides without
  a guard, so the model requires a positive denominator in the mode that
  divides.
- Energy is attributed by arrival order, not by node. `ArrivalNotIdentity`
  shows a notification from vehicle 1 landing in slot 0.
- An unknown protocol selector aborts only inside `SetRoutingAndInternet`,
  after nodes, buildings and devices have been created. `MainPhases` ends
  such a run with the six set-up phases followed by the abort.

## Model

| member | source | states |
|---|---|---|
| Traffic.GenerateTraffic | scratch/buildings-test.cc:71-85 | one call sends a packet of the configured size exactly when the count is positive, and then schedules exactly one successor one interval later with the same size and interval and the count lowered by one; otherwise it closes the socket and schedules nothing |
| Traffic.UnfoldIsSchedule | scratch/buildings-test.cc:71-85 | the chain the scheduler runs equals the closed-form schedule: sends at `at + i*interval` for `i < n`, then a close at `at + n*interval` |
| Traffic.ScheduleCounts | scratch/buildings-test.cc:75-84 | the schedule holds exactly `n` sends and exactly one close |
| Traffic.TrafficCountdown | scratch/buildings-test.cc:71-85 | with count `n` there are exactly `n` sends, each one interval after the previous one, then exactly one close; the close is the last action |
| Traffic.ZeroCountClosesAtOnce | scratch/buildings-test.cc:81-84 | a count of zero closes immediately and sends nothing |
| Routing.ParseSelector | scratch/buildings-test.cc:490-513 | a selector is accepted iff it is 1..5 and then names the protocol it selects; any other value is the fatal `No such protocol` error carrying that value |
| Routing.SelectorRoundTrip | scratch/buildings-test.cc:490-513 | each protocol is chosen by exactly one selector value, and parsing that value gives the protocol back |
| Routing.ProtocolName | scratch/buildings-test.cc:494-509 | the name each protocol assigns to `m_protocolName` is never the constructor's placeholder `NotSelectedYet` (line 203), so a configured run always reports a real name; distinctness is `ProtocolNamesDistinct` |
| Routing.ProtocolNamesDistinct | scratch/buildings-test.cc:494-509 | the names OLSR/AODV/DSDV/DSR/GPSR are pairwise distinct, so a name identifies its protocol |
| Routing.SetRoutingAndInternet | scratch/buildings-test.cc:490-541 | fails exactly for selectors outside 1..5, with nothing installed; otherwise it sets the protocol's name, starts by adding the selected protocol to the list at priority 1 unless m == 4, uses list routing iff m < 4, installs DSR iff m == 4, uses GPSR as the routing helper iff m == 5, and ends by assigning 10.1.1.0/255.255.255.0 |
| Routing.StackInstalledOnce | scratch/buildings-test.cc:490-535 | every valid selector installs the internet stack exactly once; the full stage sequence is: for m ≠ 4, add the selected protocol at priority 1, set the routing helper (list for m < 4, GPSR for m == 5), install, assign addresses; for DSR, install the plain stack, then DSR on top of it, then assign addresses; every routing helper is set before the install, and the only protocol in the list is the selected one |
| Routing.InstallGpsrIfChosen | scratch/buildings-test.cc:899-907 | the auxiliary `gpsr.Install ()` runs iff the selector chooses GPSR |
| Routing.ExportPrefix | scratch/buildings-test.cc:734-754 | the energy-export switch is fatal exactly for selectors outside 1..5 |
| Routing.ExportPrefixFormat | scratch/buildings-test.cc:734-754 | the prefix is `rp_<m>_` for every valid `m`; the export switch accepts exactly the selectors the stack switch accepts |
| Routing.MainPhases | scratch/buildings-test.cc:909-943 | `main` begins with the six fixed set-up phases; an unknown selector is followed only by the fatal abort; a valid one is followed by exactly the stack stages of `SetRoutingAndInternet`, in order, then the application install, the GPSR auxiliary service iff m == 5, the animator, the run until `endTime + 2`, teardown and the printed output |
| Routing.MainInOrder | scratch/buildings-test.cc:909-943 | every run lists its phases in `main`'s source order and only stack stages repeat, so every stack stage precedes the application install, which precedes the GPSR auxiliary service, which precedes the run |
| Routing.MainOrdering | scratch/buildings-test.cc:909-943 | after a fatal selector there is no stack stage, no application install and no simulation run; the GPSR auxiliary phase occurs iff m == 5; a valid run stops at `endTime + 2` |
| EnergySampler.Init | scratch/buildings-test.cc:194-214 | a fresh sampler has `iter` 0, `STANodesNum` equal to the array size `veh_num` (2, line 61), and the array's initial contents |
| EnergySampler.Slot | scratch/buildings-test.cc:725 | `iter % STANodesNum` is always a valid index of the energy array |
| EnergySampler.TotalEnergy | scratch/buildings-test.cc:723-728 | a notification stores its new total in slot `iter % N`, leaves every other slot unchanged, keeps the array size and advances `iter` by one (wrapping to 0 at 2^32) |
| EnergySampler.OldValueIgnored | scratch/buildings-test.cc:723-728 | the previous value carried by a notification has no effect on the state |
| EnergySampler.Replay | scratch/buildings-test.cc:723-728 | any sequence of notifications keeps the sampler valid and the array size fixed |
| EnergySampler.ReplayIter | scratch/buildings-test.cc:725-727 | after `k` notifications `iter` has advanced by `k` modulo 2^32 |
| EnergySampler.LastArrival | scratch/buildings-test.cc:725-727 | returns the largest arrival index below `k` whose slot is the given one, or reports that no arrival index maps to that slot |
| EnergySampler.FinalContents | scratch/buildings-test.cc:725-727 | from `iter == 0`, each slot holds the value of the last notification whose arrival index maps to it; slots no arrival maps to keep their initial contents |
| EnergySampler.ArrivalSlotIsModulo | scratch/buildings-test.cc:725-727 | when N divides 2^32, the 32-bit wrap of `iter` has no effect: arrival `j` writes slot `j % N` |
| EnergySampler.DefaultAttribution | scratch/buildings-test.cc:725-727 | with the script's two vehicles, slot `i` ends with `v_j` for the largest `j < k` with `j % 2 == i`, or keeps its initial value when `k <= i` |
| EnergySampler.ArrivalNotIdentity | scratch/buildings-test.cc:707-708 | attribution follows arrival order, not the notifying node: vehicle 1's single notification lands in slot 0 |
| EnergySampler.ExportEnergyPerNode | scratch/buildings-test.cc:731-761 | fatal exactly for selectors outside 1..5; otherwise writes to `logs/rp_<m>_energy_logs.txt` one row `(i, energy[i])` per vehicle index `i < STANodesNum`, in index order |
| Metrics.PrintReceivedPacket | scratch/buildings-test.cc:622-652 | a receive-log entry carries the time and node; it has the packet's uid, size and sender exactly when the sender tag is present, and is the degraded message otherwise |
| Metrics.ReceivePacket | scratch/buildings-test.cc:655-665 | draining the socket raises `packetsReceived` by exactly the number of queued packets (modulo 2^32) and logs one entry per packet, in arrival order |
| Metrics.Ratio | scratch/buildings-test.cc:802-804 | PDR times packets sent equals packets received, and PLR = 1 − PDR |
| Metrics.ServerReport | scratch/buildings-test.cc:819-833 | a per-server block uses `numOfPacks` as the denominator, gives PDR with PDR·`numOfPacks` = received and PLR = 1 − PDR, and its throughput is received·12000 wrapped modulo 2^32 over `endTime`·10^6, the exact formula below 357914 packets |
| Metrics.ServerBlocks | scratch/buildings-test.cc:817-834 | the mode-3 loop prints exactly one block per server application, in order, each with sent = `numOfPacks`, the server's 32-bit count, PDR·`numOfPacks` = that count, PLR = 1 − PDR and the wrapped throughput formula |
| Metrics.PrintAppOutput | scratch/buildings-test.cc:794-872 | mode 1 counts `numOfPacks*STANodesNum` (32-bit) packets sent, mode 2 counts `numOfPacks`, each with PDR·sent = received and PLR = 1 − PDR; mode 3 prints one block per server with sent = `numOfPacks`, PDR·`numOfPacks` = the server's count, PLR = 1 − PDR and the wrapped throughput formula; every other mode (4, the default, included) prints nothing |
| Metrics.RatiosConsistent | scratch/buildings-test.cc:796-835 | in every printing mode PDR + PLR = 1 and PDR ≥ 0; PDR is 1 iff everything sent was received, and PDR ≤ 1 iff no more was received than sent |
| Metrics.Throughput | scratch/buildings-test.cc:825 | the printed throughput is received·1500·8 wrapped once modulo 2^32, divided by `endTime`·10^6; below 357914 packets no wrap occurs and it is the exact value |
| Metrics.ThroughputWraps | scratch/buildings-test.cc:825 | at 357914 packets the 32-bit products wrap, and the printed throughput drops below the exact value |
| Metrics.DefaultScenarios | scratch/buildings-test.cc:194-219 | the default application 4 prints nothing; unicast with 10 of 10 packets received gives PDR 1 and PLR 0; broadcast over 2 vehicles with 10 received gives 20 sent and PDR 0.5 |
| RoadTrace.CreateNode | scratch/previous-sims/gpsr-test1.cc:184-197 | appends exactly one record, tagged with the current `size`, with Z = 0, activation at time 1.0 and the given destination and speed; earlier records are kept; `size` grows by one (32-bit) |
| RoadTrace.Offset | scratch/previous-sims/gpsr-test1.cc:202-209 | the destination offset is ±10000 and is positive iff the road heads right |
| RoadTrace.CreateRoad | scratch/previous-sims/gpsr-test1.cc:199-216 | appends exactly the road's vehicles, in order, after the existing trace: vehicle `i` has id `size + i` (32-bit), start (`StposX + i·distance`, `StposY`), destination (`StposX + offset`, `StposY`) and the road speed; `size` advances by the vehicle count |
| RoadTrace.RoadGeometry | scratch/previous-sims/gpsr-test1.cc:202-215 | all vehicles of a road share destination and speed; the destination lies right of the origin iff `rightDir`; starts are `distance` apart; ids are consecutive |
| RoadTrace.LayoutIds | scratch/previous-sims/gpsr-test1.cc:226-231 | the four roads give 100 records; record `k` is vehicle `k % 25` of road `k / 25`, with id `size + k` (32-bit) |
| RoadTrace.LayRoads | scratch/previous-sims/gpsr-test1.cc:221-231 | truncating the trace and creating the four roads leaves exactly their records, in order, and advances `size` by 100 |
| RoadTrace.NodeNamesDistinct | scratch/previous-sims/gpsr-test1.cc:239-244 | `node-<i>` names are pairwise distinct, so no `Names::Add` clashes |
| RoadTrace.NodeName | scratch/previous-sims/gpsr-test1.cc:241-242 | the name of node `i` is `node-` followed by a non-empty run of decimal digits that reads back as `i` and has no leading zero (it is `node-0` for 0 and otherwise does not start with `0`) |
| Decimal.Show | scratch/previous-sims/gpsr-test1.cc:242 | `os << i` writes a non-empty string made only of decimal digits, which is exactly `0` for the number 0 and otherwise does not start with `0` |
| Decimal.ParseShow | scratch/previous-sims/gpsr-test1.cc:242 | reading back the digits `os << i` wrote gives `i` again |
| Decimal.ShowInjective | scratch/previous-sims/gpsr-test1.cc:242 | two numbers are written the same iff they are equal |
| RoadTrace.NameNodes | scratch/previous-sims/gpsr-test1.cc:237-244 | exactly `size` names, node `i` named `node-i` |
| RoadTrace.CreateNodes | scratch/previous-sims/gpsr-test1.cc:218-250 | the trace holds exactly the 100 records of the four roads, with earlier contents dropped; names cover every created node; from the default `size` 0 the result is `size` 100 with ids 0..99 |
| Sanitiser.ParseTracefile | scratch/previous-sims/gpsr-test1.cc:113-149 | the new trace equals the input with every non-printable character removed, including the final read that returns `EOF` |
| Sanitiser.FilterAppend | scratch/previous-sims/gpsr-test1.cc:131-146 | filtering distributes over concatenation, so kept characters keep their input order |
| Sanitiser.FilterContents | scratch/previous-sims/gpsr-test1.cc:136-146 | the output is never longer than the input and contains only printable characters; every printable character occurs as often as in the input; no non-printable character occurs at all |
| Sanitiser.FilterFixed | scratch/previous-sims/gpsr-test1.cc:136-146 | an input passes unchanged iff all its characters are printable |
| Sanitiser.FilterIdempotent | scratch/previous-sims/gpsr-test1.cc:136-146 | sanitising the sanitised output changes nothing |

## Left out

- ns-3 helper wiring is not modelled: Wi-Fi PHY/MAC and propagation setup (`CreateDevs_*`, `CreateDevices`), buildings, energy sources, mobility helpers, UDP client/server apps, NetAnim, FlowMonitor, `CommandLine` and `SeedManager`. These are foreign library calls whose behaviour is not visible. `MainPhases` names them only as opaque phases.
- `buildings-test.cc`'s own `CreateNodes` is left out: it places fixed positions through the mobility helper.
- The routing protocols themselves are left out, as are the event scheduler and real time. Time is integer ticks, and each scheduled call is one step.
- File I/O is not modelled: `clearLogFiles`, the log appends, `trace_node_mobility` and the trace-file writes. Output is kept as abstract records: log entries, export rows and mobility records.
- Decimal formatting of doubles in trace and log lines is not modelled.
- Traffic.GenerateTraffic: time is integer ticks, not `ns3::Time`. The interval is a natural number, because the scheduler rejects negative delays.
- Metrics.PrintAppOutput: PDR, PLR and throughput are exact rationals, not single- and double-precision floats. Float rounding is not modelled.
- Metrics.PrintAppOutput: requires a positive denominator in the mode that divides, because the code divides without a guard (0/0 gives NaN).
- Metrics.ServerReport: a server's count comes in as a parameter (the external `UdpServer::GetReceived`) and is truncated to `uint32_t`.
- RoadTrace.CreateRoad: `dist` is accumulated in reals, so floating-point accumulation error in `dist += distance` is not modelled.
- Sanitiser.ParseTracefile: "printable" means ASCII 0x20–0x7E, as in the "C" locale. `isprint` on negative `char` values is undefined behaviour, and these bytes count as non-printable.
- The initial contents of `NodeTotEnergyCons` are a parameter, since the C++ array is never initialised.
- Commented-out code is left out: `CreateBuilding`, `CreateBuildingsGrid`, the TCP branch and the application-4 metrics block. So are the empty application cases 1–3 of `InstallApplications`, and `Report`, which has an empty body.
