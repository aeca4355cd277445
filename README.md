# pyATS network validation suites, modelled in Dafny

This project models six pyATS validation suites. Each suite connects to the
devices of a testbed and asks them for structured ("parsed") or plain-text
command output. It judges that output against the expectations the testbed
file stores on each device (`device.custom`) or interface. Each test then
passes, fails, is skipped, or errors on an uncaught exception.

The six suites:

- **Layer 1 link health** (`layer1_tests.py`): both ends of every link are
  checked for status, optical receive power against per-SFP thresholds,
  error counters, speed and duplex, MTU, and CDP neighbour agreement.
- **Layer 2** (`tests/layer2/test_layer2.py`): VLAN existence and state,
  trunk ports, spanning-tree mode, root and port states, port channels,
  LACP, the MAC address table and LLDP neighbours.
- **Spanning tree** (`tests/layer2/test_stp.py`): summary, root bridge and
  per-port status.
- **REP** (`tests/layer2/test_rep.py`): segment, role, neighbours,
  topology, segment id, blocked ports, and REP interfaces and their line
  protocol.
- **MPLS core** (`tests/layer3/test_mpls_core.py`): LDP peers, label
  bindings for critical prefixes, OSPF adjacencies, and PE-to-P loopback
  pings.
- **OSPF health** (`tests/layer3/test_ospf_health.py`): process and router
  id, SPF runs, neighbours and dead timers, interfaces and costs, the
  link-state database, areas, routes and route count.

The model is organised in layers:

- `PyValue` models the Python values a parser returns. Every operation that
  can raise in Python (`in`, `[]`, `.get`, `.items()`, `.lower()`, `len`,
  `set()`, iteration) returns a `Result` that is `Raised` exactly where
  Python raises.
- `Testbed` holds each device's answers as data. A command missing from a
  device's answers is a command whose call raises.
- `Shapes` models the towers of nested `if key in node: for k, v in
  node[key].items()` loops as one walk. The walk keeps what was gathered
  before an exception and says whether it ran to the end.
- `Verdicts` turns per-device findings into pass, fail, skip or error, as
  `self.passed`, `self.failed`, `self.skipped` and uncaught exceptions do.
- `Text` and `Patterns` give Python's string operations and the suites' few
  fixed regular expressions.

Each suite is a module: `Layer1`, `Layer2`, `Stp`, `Rep`, `MplsCore` and
`OspfHealth`.

- Each check on one device (or one link) is a function.
- The loops the source runs are methods, proved equal to those functions.
- Lemmas state when a device is reported, and what is reported about it.

## Model

| member | source | states |
|---|---|---|
| Testbed.Select | tests/layer2/test_stp.py:33-46 | the devices kept are exactly those of the testbed satisfying the setup's condition, and there are no more of them than devices |
| Testbed.Keep | tests/layer2/test_stp.py:36-44 | the selection loop keeps exactly what `Select` keeps |
| Testbed.SelectEmpty | tests/layer2/test_stp.py:45-46 | nothing is selected exactly when no device satisfies the condition, which is when a testcase is skipped |
| Testbed.CustomGet | tests/layer3/test_mpls_core.py:38 | `device.custom.get(key, default)` yields the default when the key is absent |
| Testbed.Parse | tests/layer2/test_stp.py:55 | `device.parse` answers exactly for the commands the device answers |
| Testbed.Execute | tests/layer2/test_rep.py:115 | `device.execute` answers exactly for the commands the device answers as text |
| Testbed.Ping | tests/layer3/test_mpls_core.py:327 | `device.ping` returns exactly for the addresses the device can ping, and raises otherwise |
| Verdicts.Conclude | layer1_tests.py:68-71 | a test fails exactly when it has failures, and passes otherwise; warnings never fail it |
| Verdicts.FailTestVerdict | tests/layer2/test_stp.py:70-75 | a failing test is skipped exactly when nothing is in scope, and fails exactly when some device in scope has a finding |
| Verdicts.WarnTestNeverFails | tests/layer3/test_ospf_health.py:175-212 | a test that only logs warnings never fails and has no failures |
| Verdicts.WarnTestOrNeverFails | tests/layer3/test_ospf_health.py:704-746 | the same for a warning test that can raise outside its `try` |
| Verdicts.GatherMember | tests/layer2/test_stp.py:49-75 | a finding is collected exactly when some device's check produced it |
| Verdicts.GatherEmpty | tests/layer2/test_stp.py:70-75 | nothing is collected exactly when every device's check is clean |
| Verdicts.GatherAllMember | tests/layer2/test_layer2.py:71-101 | when no device raises, a finding is collected exactly when some device's check produced it |
| Verdicts.LaterRaised | tests/layer2/test_layer2.py:71-101 | an exception in some device's check ends the whole loop with that exception |
| Verdicts.CollectFindings | tests/layer2/test_stp.py:49-75 | the per-device loop collects exactly the gathered findings |
| Verdicts.CollectFindingsOr | tests/layer2/test_layer2.py:71-101 | the per-device loop without a `try` collects the gathered findings, or raises |
| Verdicts.RunFailTest | tests/layer2/test_stp.py:49-75 | running a failing test yields the outcome `FailTest` defines |
| Verdicts.RunWarnTest | tests/layer3/test_ospf_health.py:175-212 | running a warning test yields the outcome `WarnTest` defines |
| Verdicts.RunFailTestOr | tests/layer2/test_layer2.py:71-101 | running a failing test that can raise yields the outcome `FailTestOr` defines |
| Verdicts.RunWarnTestOr | tests/layer3/test_ospf_health.py:704-746 | running a warning test that can raise yields the outcome `WarnTestOr` defines |
| Shapes.Descending | tests/layer3/test_ospf_health.py:262-282 | the nested loops reach exactly the leaves of the walk, stopping where Python raises |
| Shapes.Scanning | tests/layer3/test_ospf_health.py:262-282 | the innermost loop body run over the leaves gives the scan, stopping at the first leaf that raises |
| Shapes.ScanComplete | tests/layer2/test_stp.py:100-117 | a scan that ran to the end holds exactly the items of every leaf, and no leaf raised |
| Shapes.ScanAllComplete | tests/layer2/test_stp.py:100-117 | a scan none of whose leaves raises runs to the end |
| Shapes.ScanEach | tests/layer3/test_ospf_health.py:128-134 | when each leaf yields one item and none raises, the scan yields one item per leaf, in order |
| Shapes.ScanKeepsPrefix | tests/layer2/test_stp.py:118-122 | findings made before an exception are kept: a prefix's items are a prefix of the whole scan's |
| Shapes.ScanStops | tests/layer2/test_stp.py:118-122 | after the first leaf that raises, no further leaf is looked at |
| Shapes.DescendAllStops | tests/layer3/test_ospf_health.py:262-282 | after the first entry whose walk raises, no further entry is walked |
| Shapes.DescendAllLeaves | tests/layer3/test_ospf_health.py:262-263 | a walk with no further levels yields the entries themselves |
| Shapes.OneLevel | tests/layer3/test_mpls_core.py:74-75 | `if key in node: for .. in node[key].items()` yields nothing without the key, and the inner entries with it |
| PyValue.Find | tests/layer3/test_ospf_health.py:132 | a key is found exactly when the dictionary has it, and the value found is one stored under it |
| PyValue.SetOf | tests/layer3/test_ospf_health.py:285 | `set(v)` holds exactly the elements iterating `v` visits |
| PyValue.SetMinus | tests/layer3/test_ospf_health.py:285 | `set(expected) - set(names)` holds exactly the expected elements that are not among the names |
| PyValue.SetMinusStrs | tests/layer3/test_mpls_core.py:87 | for text expectations, the difference never raises and is the expected names not found |
| PyValue.MemberStrs | tests/layer3/test_ospf_health.py:153 | `x in names` for a list of text holds exactly for a text `x` among them |
| PyValue.Assign | tests/layer3/test_mpls_core.py:310 | `d[key] = v` makes `key` map to `v`, keeps every other key's value, and adds no other key |
| Text.SplitHead | tests/layer3/test_mpls_core.py:323 | `s.split('/')[0]` is the longest prefix of `s` free of the separator |
| Text.SplitFields | tests/layer3/test_ospf_health.py:328 | three separator-free fields joined by ':' split back into those three fields |
| Text.ParseDecimal | tests/layer3/test_ospf_health.py:330 | `int(str(n)) == n` for every integer |
| Text.RStrip | tests/layer3/test_mpls_core.py:162 | `p.rstrip('/')` is a prefix of `p`, does not end in '/', and only '/' was removed |
| Text.ReplaceAbsent | tests/layer3/test_ospf_health.py:457-458 | `s.replace(old, new)` leaves a string without `old` unchanged |
| Text.DeleteChar | tests/layer2/test_layer2.py:489 | `s.replace(c, '')` removes every `c` and keeps every other character |
| Text.LowerPreservesSubstring | tests/layer2/test_layer2.py:160 | `x in s` implies `x.lower() in s.lower()` |
| Patterns.FindInterfaceMentions | tests/layer2/test_rep.py:249-251 | the loop over the six interface patterns finds exactly `InterfaceMentions` |
| Patterns.MentionsRule | tests/layer2/test_rep.py:239-251 | a name is found exactly when one of the patterns finds it |
| Patterns.FindMentions | tests/layer2/test_rep.py:249-251 | the loop over any list of patterns extends the result with each pattern's matches in turn, computing `Mentions` |
| Patterns.FindRuns | tests/layer2/test_rep.py:250 | every match of `Lit[\d/]+` starts with the literal and has at least one more character |
| Patterns.RepSegmentHasBareSegment | tests/layer2/test_rep.py:367-372 | every text matching `REP\s+Segment\s+<id>\b` also matches `Segment\s+<id>\b` |
| Patterns.OpenSegmentHasWords | tests/layer2/test_rep.py:323-325 | text matching `Open\s+Segment` contains "Open" and "Segment" |
| Patterns.BlockedMatchAt | tests/layer2/test_rep.py:421-422 | a match of the blocked-port pattern at a position ends after it, so the search moves forward |
| Patterns.MatchIgnoringCase | tests/layer2/test_rep.py:367-369 | a case-sensitive match is also a match ignoring case |
| OspfHealth.MarkOspfRouters | tests/layer3/test_ospf_health.py:75-89 | the OSPF routers are exactly the devices with a truthy `ospf_enabled` or `ospf_neighbors` |
| OspfHealth.ProcessRule | tests/layer3/test_ospf_health.py:101-173 | with a process id and a router id expected, a device passes exactly when some instance has that id and some instance reports that router id; a missing process id is reported before the router id is looked at |
| OspfHealth.ProcessIdFound | tests/layer3/test_ospf_health.py:137-140 | the expected process id is among the ids found exactly when it is an instance key |
| OspfHealth.RouterIdFound | tests/layer3/test_ospf_health.py:150-153 | the expected router id is among those found exactly when some instance reports it, "N/A" standing for none |
| OspfHealth.ProcessesOf | tests/layer3/test_ospf_health.py:128-134 | each instance contributes one (process id, router id) pair, in order |
| OspfHealth.ProcessCheck | tests/layer3/test_ospf_health.py:101-173 | a device has at most one finding |
| OspfHealth.RouterIds | tests/layer3/test_ospf_health.py:152 | one router id per process found, in order |
| OspfHealth.FullNeighbors | tests/layer3/test_ospf_health.py:246-282 | the FULL list names exactly the neighbours with some adjacency whose state, upper-cased, starts with "FULL" |
| OspfHealth.NotFull | tests/layer3/test_ospf_health.py:246-282 | the non-FULL list holds exactly the adjacencies not in FULL state |
| OspfHealth.FlatShapeFirst | tests/layer3/test_ospf_health.py:246-262 | a payload with a top-level `interfaces` key is read through it alone; its `vrf` tree is ignored |
| OspfHealth.NeighborsMissingRule | tests/layer3/test_ospf_health.py:232-296 | a device fails exactly when some expected neighbour has no FULL adjacency, and the finding names exactly those neighbours |
| OspfHealth.DeadTimerRule | tests/layer3/test_ospf_health.py:319-340 | a dead time given as text never aborts the scan, and warns exactly when it reads as h:m:s under ten seconds |
| OspfHealth.DeadSecondsOfFields | tests/layer3/test_ospf_health.py:328-330 | three integer fields are read as h*3600 + m*60 + s seconds |
| OspfHealth.DeadSecondsOfClock | tests/layer3/test_ospf_health.py:328-330 | the decimal rendering "h:m:s" is read back as h*3600 + m*60 + s seconds |
| OspfHealth.NormalizeInterface | tests/layer3/test_ospf_health.py:441-460 | the replacement loop computes the normalised interface name |
| OspfHealth.Replacing | tests/layer3/test_ospf_health.py:458-459 | the loop over any list of replacement pairs applies one `replace` per pair, in order, computing `ReplaceEach` |
| OspfHealth.ReplaceEachAbsent | tests/layer3/test_ospf_health.py:457-458 | the replacements leave a name holding none of their long forms unchanged |
| OspfHealth.NormalizeShortName | tests/layer3/test_ospf_health.py:441-460 | a name without any long interface form only changes case |
| OspfHealth.NoLongForms | tests/layer3/test_ospf_health.py:445-456 | a name without the letters 'e', 'o' and 'v' holds none of the long forms |
| OspfHealth.NormalizeGigabit | tests/layer3/test_ospf_health.py:441-460 | "GigabitEthernet" followed by a plain tail normalises to "gi" and that tail |
| OspfHealth.NormalizeShortGi | tests/layer3/test_ospf_health.py:441-460 | "Gi" followed by a plain tail normalises to "gi" and that tail |
| OspfHealth.SubstringCoversLongerName | tests/layer3/test_ospf_health.py:414-419 | the substring match lets an expected "Gi0/1" be covered by an operational "GigabitEthernet0/11" |
| OspfHealth.NormalizeAll | tests/layer3/test_ospf_health.py:411-412 | normalising a list yields one name per element when it does not raise |
| OspfHealth.NormalizeAllNames | tests/layer3/test_ospf_health.py:411-412 | a list of text normalises without raising, each element to its own normal form |
| OspfHealth.Normalized | tests/layer3/test_ospf_health.py:411-412 | one normalised name per name, each the normalisation of the name at the same position |
| OspfHealth.MissingInterfacesRule | tests/layer3/test_ospf_health.py:414-419 | an expected interface is reported missing exactly when its normalised name occurs in no normalised operational name |
| OspfHealth.OperationalRule | tests/layer3/test_ospf_health.py:404-408 | reading an interface entry never raises, and it counts as operational exactly when `enable` (true when absent) is truthy and its upper-cased `state` ("" when absent) is neither DOWN nor DISABLED |
| OspfHealth.NoneMissingRule | tests/layer3/test_ospf_health.py:410-419 | no expected text interface is missing exactly when each one's normalised name occurs in some normalised operational name |
| OspfHealth.InterfacesMissingRule | tests/layer3/test_ospf_health.py:380-429 | with text expected interfaces and a payload read to the end, the device fails exactly when some expected interface's normalised name occurs in no normalised operational name, and its one finding lists exactly those interfaces, in expected order, beside the operational names |
| OspfHealth.SpfRunsRule | tests/layer3/test_ospf_health.py:192-197 | an instance's reading never raises when `spf_control` is a dictionary and `spf_runs` an integer or absent (0); it warns exactly when the count is over 1000, with the instance and the count |
| OspfHealth.SpfRule | tests/layer3/test_ospf_health.py:183-200 | with `show ip ospf` read to the end, the device warns with exactly the issues its instances produce |
| OspfHealth.CostWarningRule | tests/layer3/test_ospf_health.py:489-498 | an interface absent from the expected costs is never flagged; a listed one is flagged exactly when its `cost` (0 when absent) differs from the expected cost, with both costs |
| OspfHealth.CostRule | tests/layer3/test_ospf_health.py:470-500 | with expected costs given and the interfaces read to the end, the device warns with exactly the issues its interfaces produce |
| OspfHealth.AreaRule | tests/layer3/test_ospf_health.py:585-625 | with text expected areas and a payload read to the end, the device fails exactly when some expected area is not an area key, and its one finding names exactly those areas, so areas nobody expected never fail it |
| OspfHealth.RouteCountRule | tests/layer3/test_ospf_health.py:710-739 | a minimum that is not a number raises outside the `try`, so the route-count test errors; a minimum of at most 0 checks nothing; otherwise, over tables read to the end, the device warns exactly when the route total is below the minimum |
| OspfHealth.DatabaseRule | tests/layer3/test_ospf_health.py:519-566 | a non-empty database read without error fails exactly when no LSA type, in any area of any instance, lists an LSA |
| OspfHealth.LsaTotal | tests/layer3/test_ospf_health.py:553-557 | the LSA total is zero exactly when every LSA type lists no LSA |
| OspfHealth.SumZero | tests/layer3/test_ospf_health.py:555 | a sum of counts is zero exactly when every count is |
| OspfHealth.DatabaseCheck | tests/layer3/test_ospf_health.py:519-575 | a device has at most one finding |
| OspfHealth.RouteFoundByPrefix | tests/layer3/test_ospf_health.py:673-679 | an expected route given as text is found exactly when some route starts with its text before the first '/' |
| OspfHealth.RouteGuards | tests/layer3/test_ospf_health.py:649-657 | a device without expected routes is passed over, and with some, a routing table that cannot be parsed is one error |
| OspfHealth.RouteRule | tests/layer3/test_ospf_health.py:655-698 | with expected routes given as text, a table walk stopped early is one error; otherwise the device fails exactly when some expected route has no route starting with its prefix, and the finding lists exactly those routes, in order, beside at most twenty routes found |
| OspfHealth.MissingRoutesRule | tests/layer3/test_ospf_health.py:670-681 | routes given as text never make matching raise; one is missing exactly when no route starts with its network part |
| OspfHealth.FindMissingRoutes | tests/layer3/test_ospf_health.py:670-681 | the nested loops, breaking at the first match, compute the missing routes |
| OspfHealth.LaterRaisedMissing | tests/layer3/test_ospf_health.py:672-677 | an expected route that is not text makes the whole matching raise |
| OspfHealth.RunSuite | tests/layer3/test_ospf_health.py:91-747 | running the ten tests in file order yields `Suite`, and the SPF, dead-timer, cost and route-count outcomes (the second, fourth, sixth and tenth) are never failures, whatever the testbed |
| OspfHealth.SkippedWithoutRouters | tests/layer3/test_ospf_health.py:95-99 | every test is skipped exactly when no device is an OSPF router |
| MplsCore.RoleRule | tests/layer3/test_mpls_core.py:33-42 | a device is an MPLS router exactly when its role is P, PE or P-PE; a P router has role P or P-PE and a PE router role PE or P-PE |
| MplsCore.MarkMplsRouters | tests/layer3/test_mpls_core.py:33-42 | the MPLS routers are exactly the devices whose `mpls_role` is P, PE or P-PE |
| MplsCore.FindOperational | tests/layer3/test_mpls_core.py:80-84 | the label-space loop with its `break` computes `FirstOper` |
| MplsCore.FirstOperRule | tests/layer3/test_mpls_core.py:79-84 | with every label space readable, a peer is operational exactly when one of its label spaces is in state "oper", case aside |
| MplsCore.FirstOperStops | tests/layer3/test_mpls_core.py:82-84 | the loop stops at the first operational label space; later ones, even unreadable ones, are never read |
| MplsCore.LdpMissingRule | tests/layer3/test_mpls_core.py:62-98 | a device fails exactly when some expected peer is not operational, and the finding names exactly those peers |
| MplsCore.LdpSkipsUnconfigured | tests/layer3/test_mpls_core.py:62-66 | routers with no expected LDP peers are passed over, so the test cannot fail |
| MplsCore.SearchLabelsRule | tests/layer3/test_mpls_core.py:159-164 | a prefix is found exactly when some key starts with it, less trailing slashes |
| MplsCore.LabelFoundRule | tests/layer3/test_mpls_core.py:155-166 | within one label, the prefix is found exactly when a key the label's walk reaches starts with it, and is missing only when that walk ran to the end |
| MplsCore.SearchLabel | tests/layer3/test_mpls_core.py:155-166 | the `out_label` and `pfx` loops of one label, with their `break`s, compute `LabelFound` |
| MplsCore.ScanLabels | tests/layer3/test_mpls_core.py:153-166 | the `for label` loop with its `found` flag computes `LabelLoop`: after a hit it has no `break` and still reads the later labels |
| MplsCore.LabelLoopRule | tests/layer3/test_mpls_core.py:153-166 | the label loop finds the prefix only when some key of the vrf's labels starts with it, reports it missing only when every label was read without a match, and over labels read to the end finds it exactly when a key matches |
| MplsCore.ReadAfterHit | tests/layer3/test_mpls_core.py:153-166 | after a hit, a later label of the same vrf whose outgoing entries or first entry's prefix keys cannot be read makes the search raise |
| MplsCore.UnreadableLaterLabel | tests/layer3/test_mpls_core.py:153-166 | an instance: a prefix found under label 16, with label 17 given as text, makes the search raise |
| MplsCore.VrfLoopSettled | tests/layer3/test_mpls_core.py:151-170 | the `for vrf` loop leaves after the vrf in which the prefix was found, or at a raise; later vrfs are never read |
| MplsCore.VrfLoopRule | tests/layer3/test_mpls_core.py:151-170 | the vrf loop against the walk of every vrf's labels: found only when a reached key matches, missing only when the walk ran to the end, and exact over a walk that ran to the end |
| MplsCore.PrefixRule | tests/layer3/test_mpls_core.py:147-173 | a prefix is found only when a key reached by the walk starts with it, is missing only when the whole table was read without a match, and over a table read to the end is found exactly when some key starts with it |
| MplsCore.FindLabel | tests/layer3/test_mpls_core.py:150-170 | the `for vrf` loop, leaving after the vrf in which the prefix was found, computes `PrefixFound` |
| MplsCore.ScanVrf | tests/layer3/test_mpls_core.py:151-170 | one pass of the `for vrf` loop: a vrf whose `local_label` cannot be read raises, and otherwise the label loop decides |
| MplsCore.LabelLoopSettled | tests/layer3/test_mpls_core.py:153-168 | once a label has matched, `found` stays set: the label loop can still raise but never reports the prefix missing |
| MplsCore.LabelReadable | tests/layer3/test_mpls_core.py:155-168 | a label whose walk runs to the end can be read again after a hit without raising |
| MplsCore.Unlabelled | tests/layer3/test_mpls_core.py:147-173 | exactly the listed prefixes no key starts with |
| MplsCore.MissingLabelsRule | tests/layer3/test_mpls_core.py:147-173 | over a table read to the end, the missing labels are the unlabelled prefixes, in list order |
| MplsCore.CollectMissingLabels | tests/layer3/test_mpls_core.py:149-173 | the loop over critical prefixes computes the missing labels |
| MplsCore.MissingLabelsRaised | tests/layer3/test_mpls_core.py:149-173 | a prefix whose search raises makes the whole search raise |
| MplsCore.EmptyForwardingTable | tests/layer3/test_mpls_core.py:137-145 | a table without a `vrf`, or with an empty one, is one finding and no prefix is searched for |
| MplsCore.SameNeighborRule | tests/layer3/test_mpls_core.py:208-278 | this suite's OSPF check fails a device exactly when the OSPF health suite's does, with the same missing neighbours |
| MplsCore.CollectTargets | tests/layer3/test_mpls_core.py:305-312 | the loop filling `target_loopbacks` computes `Targets` |
| MplsCore.TargetsRule | tests/layer3/test_mpls_core.py:305-312 | the targets are the P routers with a loopback address, one per name, each with the address of a P router of that name |
| MplsCore.VerifyLoopbacks | tests/layer3/test_mpls_core.py:284-351 | the setup and ping loops compute `LoopbackTest`, whose failures `LoopbackFailureRule` characterises |
| MplsCore.PingTargetRule | tests/layer3/test_mpls_core.py:321-347 | a ping finding names its source, the target and the loopback's text before its first '/' |
| MplsCore.PingLoopsRule | tests/layer3/test_mpls_core.py:318-347 | each failure of the ping loops comes from one source towards one target |
| MplsCore.LoopbackFailureSource | tests/layer3/test_mpls_core.py:298-347 | each failure of the loopback test is one ping's, from a PE router of the testbed |
| MplsCore.LoopbackFailureRule | tests/layer3/test_mpls_core.py:286-347 | each ping failure is reported from a PE router towards a P router with a loopback, at that address before its first '/' |
| MplsCore.LoopbackReportRule | tests/layer3/test_mpls_core.py:318-347 | when the ping loops run to the end, every ping from a PE router to a loopback target that fails or raises is reported, under the source's name, with the target and the address pinged |
| MplsCore.RunSuite | tests/layer3/test_mpls_core.py:44-351 | running the four tests in file order yields `Suite` |
| MplsCore.LoopbackSkipped | tests/layer3/test_mpls_core.py:286-291 | the loopback test is skipped when no MPLS router is a P router |
| MplsCore.SkippedWithoutRouters | tests/layer3/test_mpls_core.py:48-52 | every test is skipped exactly when no device is an MPLS router |
| Rep.MarkRepDevices | tests/layer2/test_rep.py:74-88 | the REP devices are exactly those with a truthy `rep_enabled` or a `rep_segment_id` that is not None |
| Rep.SegmentZeroQualifies | tests/layer2/test_rep.py:82 | a segment id of 0, falsy but not None, still makes a device a REP device |
| Rep.NormalizeTenGigabit | tests/layer2/test_rep.py:257-263 | "gigabitethernet" is replaced first, so "TenGigabitEthernet1/0/1" normalises to "tengi1/0/1", never "te1/0/1" |
| Rep.ReplaceInsideTen | tests/layer2/test_rep.py:260 | the first replacement finds "gigabitethernet" inside the ten-gigabit long form |
| Rep.NormalizeShortRep | tests/layer2/test_rep.py:257-263 | a name with none of the long forms only changes case |
| Rep.SegmentTextRule | tests/layer2/test_rep.py:127-154 | when parsing fails and the command's text is not empty, text without "Segment" is one finding; otherwise the device fails exactly when a segment id is expected and `REP\s+Segment\s+<id>\b` does not match |
| Rep.ParsedSegmentRule | tests/layer2/test_rep.py:110-129 | when the parser answers, an empty payload is one finding and any other payload passes: a parsed topology is only logged, never searched for the segment id |
| Rep.RoleRule | tests/layer2/test_rep.py:185-192 | an edge role is confirmed exactly when the text holds "Edge", a transit role when it holds "No" and not "Edge"; any other role always warns |
| Rep.Discovered | tests/layer2/test_rep.py:249-254 | the discovered names are exactly the names the interface patterns find |
| Rep.NormalizedSet | tests/layer2/test_rep.py:265 | the normalised names are exactly the normal forms of the discovered names |
| Rep.FindMissingNames | tests/layer2/test_rep.py:268-274 | the comparison loop computes `MissingNames` |
| Rep.MissingNamesRaised | tests/layer2/test_rep.py:270-272 | an expected name that is not text makes the comparison raise |
| Rep.MissingNamesRule | tests/layer2/test_rep.py:268-274 | names given as text never raise; one is missing exactly when its normal form is not among the normalised ones |
| Rep.NeighborRule | tests/layer2/test_rep.py:223-290 | with expected neighbours, a device has one finding listing the missing names, or none |
| Rep.InterfaceOutputRule | tests/layer2/test_rep.py:495-512 | the topology is read only when the interface detail command raises; output that cannot be read is one error, empty output one finding, and without expected interfaces nothing more is checked |
| Rep.InterfaceRule | tests/layer2/test_rep.py:485-576 | with a list of expected interfaces and non-empty output, the device has one finding listing exactly the interfaces whose normalised form no discovered name shares, beside the names discovered, or none when none is missing |
| Rep.MissingNeighborRule | tests/layer2/test_rep.py:239-274 | an expected neighbour is missing exactly when no name found in the text has its normal form |
| Rep.OpenSegmentRule | tests/layer2/test_rep.py:319-332 | a device fails exactly when `Open\s+Segment` matches its topology text, with one finding |
| Rep.SegmentIdAgrees | tests/layer2/test_rep.py:350-381 | text passing the segment check's `REP\s+Segment\s+<id>\b` also passes the segment-id check |
| Rep.SegmentIdGuards | tests/layer2/test_rep.py:358-388 | a device without an expected segment id (None) is never reported, and with one, a topology command that raises is one error |
| Rep.ReportBlocked | tests/layer2/test_rep.py:437-450 | the loop over expected blocked ports computes `BlockedIssues` |
| Rep.BlockedIssuesRule | tests/layer2/test_rep.py:437-450 | with text names, a port has an issue exactly when it is expected and its normal form is not blocked, and nothing raises |
| Rep.EdgeWithoutBlockedRule | tests/layer2/test_rep.py:451-462 | with no expected list, a device has an issue exactly when nothing is blocked and its lowered role contains "edge" |
| Rep.InterfaceStatusRule | tests/layer2/test_rep.py:588-609 | an interface is reported down exactly when its output, lowered, lacks "line protocol is up"; a failed command is not reported |
| Rep.RunSuite | tests/layer2/test_rep.py:90-620 | running the eight tests in file order yields `Suite` |
| Rep.WarningTestsNeverFail | tests/layer2/test_rep.py:166-207 | the role and blocked-port tests never fail |
| Rep.SkippedWithoutDevices | tests/layer2/test_rep.py:94-98 | every test is skipped exactly when no device is a REP device |
| Layer2.MarkL2Devices | tests/layer2/test_layer2.py:31-51 | the layer-2 devices are exactly those with a truthy `l2_enabled`, `expected_vlans`, `stp_enabled` or `port_channels` |
| Layer2.Having | tests/layer2/test_layer2.py:58-69 | a testcase's scope is exactly the layer-2 devices with a truthy value under its key |
| Layer2.FirstContaining | tests/layer2/test_layer2.py:158-160 | the interface chosen is the first whose name contains the wanted one, case aside, and there is none exactly when no name does |
| Layer2.FindContaining | tests/layer2/test_layer2.py:158-162 | the search loop with its `break` computes `FirstContaining` |
| Layer2.FirstAt | tests/layer2/test_layer2.py:158-160 | the first matching entry is the one chosen |
| Layer2.VlanExistenceRule | tests/layer2/test_layer2.py:71-101 | a VLAN is reported missing exactly when it is expected and its id, as text, is not a key of the VLAN table |
| Layer2.VlanStateRule | tests/layer2/test_layer2.py:104-137 | an absent VLAN is passed over; a present one is flagged exactly when its `state`, else `vlan_state`, lowered, is neither "active" nor "act/lshut" |
| Layer2.TrunkPortRule | tests/layer2/test_layer2.py:155-170 | an expected trunk port found in the table is flagged exactly when its mode, lowered, is not a trunking mode |
| Layer2.TrunkMissingRule | tests/layer2/test_layer2.py:171-176 | an expected port no interface name contains is reported missing |
| Layer2.StpModeRule | tests/layer2/test_layer2.py:199-227 | a device passes exactly when the expected mode, lowered, occurs in the reported `mode`, else `spanning_tree_mode` |
| Layer2.StpModeDefault | tests/layer2/test_layer2.py:204 | without an expected mode, "rapid-pvst" is expected |
| Layer2.StpModeUnparsed | tests/layer2/test_layer2.py:206-213 | a summary that cannot be parsed is one finding |
| Layer2.RootRule | tests/layer2/test_layer2.py:244-262 | a root VLAN is flagged exactly when its bridge and root addresses are both known and differ |
| Layer2.RootAbsentRule | tests/layer2/test_layer2.py:244-250 | a VLAN absent from the table is passed over |
| Layer2.PortWarningRule | tests/layer2/test_layer2.py:282-296 | a port warns exactly when its state, lowered, is "broken" or "err-disabled" |
| Layer2.PortStatesNeverFail | tests/layer2/test_layer2.py:269-300 | the port-state test only warns and never fails |
| Layer2.ChannelRule | tests/layer2/test_layer2.py:339-366 | a found channel is reported down exactly when its status, lowered, is neither "up" nor "connected", and memberless exactly when it has no members |
| Layer2.ChannelStatusAt | tests/layer2/test_layer2.py:341-345 | the status judged is that of the first interface naming the channel |
| Layer2.ChannelMissingRule | tests/layer2/test_layer2.py:362-368 | a channel no interface names is reported missing |
| Layer2.LacpRule | tests/layer2/test_layer2.py:375-418 | without LACP channels or an LACP table nothing is checked; a found channel is flagged exactly when it has no members |
| Layer2.MacTableRule | tests/layer2/test_layer2.py:433-460 | a device is flagged exactly when the total address count is zero, a missing count included |
| Layer2.NormalizeMac | tests/layer2/test_layer2.py:489 | the normal form holds exactly the lowered characters that are neither '.' nor ':' |
| Layer2.MacSeparatorIgnored | tests/layer2/test_layer2.py:489-493 | a separator dot or colon does not change the normal form |
| Layer2.MacCaseIgnored | tests/layer2/test_layer2.py:489-493 | upper-casing an address does not change its normal form |
| Layer2.LearnMacs | tests/layer2/test_layer2.py:485-489 | the loop learns the normal form of every address in the table |
| Layer2.ExpectedMacRule | tests/layer2/test_layer2.py:463-503 | an expected address is reported missing exactly when no learned address has its normal form |
| Layer2.GatherAllOk | tests/layer2/test_layer2.py:485-495 | a loop none of whose steps raises does not raise |
| Layer2.LldpEmptyRule | tests/layer2/test_layer2.py:529-551 | a neighbour table whose `total_entries` equals 0 or is absent, with neighbours expected, is exactly one finding; the brief table stands in for the detailed one |
| Layer2.LldpUnparsed | tests/layer2/test_layer2.py:529-540 | a device answering neither LLDP command is one finding |
| Layer2.NeighborRule | tests/layer2/test_layer2.py:562-573 | a neighbour, named by `system_name` else `chassis_id`, matches exactly when the expected name occurs in it, case aside |
| Layer2.LldpMissingRule | tests/layer2/test_layer2.py:576-580 | an expected local interface no entry names is one finding |
| Layer2.RunSuite | tests/layer2/test_layer2.py:54-584 | running the tests in file order yields `Suite` |
| Layer2.MacTestsSkipped | tests/layer2/test_layer2.py:425-431 | each of the two MAC tests is skipped exactly when there is no layer-2 device |
| Stp.SelectSwitches | tests/layer2/test_stp.py:33-46 | the devices checked are exactly the connected switches and routers |
| Stp.SummaryRule | tests/layer2/test_stp.py:49-75 | a device passes exactly when its summary is a non-empty dictionary, and otherwise has one finding |
| Stp.RootIncompleteRule | tests/layer2/test_stp.py:100-110 | an instance without root information is passed over; one with it is incomplete exactly when its priority or address is unknown |
| Stp.RootRule | tests/layer2/test_stp.py:78-123 | when no instance raises, an instance is reported exactly when it has root information with an unknown priority or address |
| Stp.RootKeepsEarlier | tests/layer2/test_stp.py:95-123 | an exception at a later instance does not take back earlier findings |
| Stp.InterfaceRule | tests/layer2/test_stp.py:126-154 | when every port is a dictionary, a port is reported exactly when its status is missing or falsy |
| Stp.InterfaceKeepsEarlier | tests/layer2/test_stp.py:140-154 | an exception at a later port does not take back earlier findings |
| Stp.RunSuite | tests/layer2/test_stp.py:29-154 | running the three tests yields `Suite` |
| Stp.SkippedWithoutSwitches | tests/layer2/test_stp.py:33-46 | every test is skipped exactly when no device is a connected switch or router |
| Layer1.LinkReportRule | layer1_tests.py:49-66 | a link with problems is reported once, carrying exactly its endpoints' details; a clean link is not reported |
| Layer1.ReportLink | layer1_tests.py:49-66 | the per-link loop with its `link_ok` flag computes the link's report |
| Layer1.StatusRule | layer1_tests.py:45-71 | an endpoint is flagged exactly when its state or line protocol, lowered, is not "up", a missing one counting as "" |
| Layer1.OpticsSkips | layer1_tests.py:84-100 | an endpoint without an SFP type, with an unknown type, or whose optics cannot be parsed is skipped |
| Layer1.OpticsRule | layer1_tests.py:100-110 | the receive power, `rx_power` else `receive_power`, is flagged exactly when outside the type's bounds, both included; no reading is skipped |
| Layer1.CountErrors | layer1_tests.py:136-140 | the counter loop computes `CounterErrors` |
| Layer1.CounterErrorsRaised | layer1_tests.py:136-140 | a counter that cannot be compared makes the loop raise |
| Layer1.ErrorsRule | layer1_tests.py:122-150 | an endpoint is flagged exactly when its input, output or CRC error count is above zero, missing counts being zero |
| Layer1.CounterOver | layer1_tests.py:137-138 | `count > 0` for a present or missing integer counter |
| Layer1.SpeedDuplexSkips | layer1_tests.py:165-170 | an endpoint with neither an expected speed nor duplex is skipped |
| Layer1.SpeedDuplexRule | layer1_tests.py:153-190 | an endpoint is flagged exactly when an expected speed differs from `bandwidth` (else `speed`), or an expected duplex differs, case aside, from `duplex_mode` (else `duplex`, else empty); an expected duplex that is not text makes the endpoint raise |
| Layer1.MtuRule | layer1_tests.py:193-221 | without an expected MTU an endpoint is skipped; with one, any reading that differs, a missing one included, is a mismatch |
| Layer1.CdpEntry | layer1_tests.py:250-266 | the entry chosen is the first whose local interface contains the endpoint's name, case aside, and there is none exactly when no entry does |
| Layer1.FindCdpEntry | layer1_tests.py:250-266 | the search loop with its `break` computes `CdpEntry` |
| Layer1.CdpEntryNone | layer1_tests.py:250-253 | no entry is found when no entry's local interface contains the name |
| Layer1.CdpScope | layer1_tests.py:228-235 | links with other than two ends are not checked; a two-ended one is clean exactly when both directions are |
| Layer1.CdpParseFailure | layer1_tests.py:239-244 | a CDP table that cannot be parsed is one finding for that direction |
| Layer1.CdpMatchRule | layer1_tests.py:250-266 | for any parsed payload whose `index` is a dictionary, a direction whose CDP table has an entry for the local interface judges the remote end by that entry alone, for any device id: the id up to its first '.' (all of it when it has none) must contain the remote device's name and the port the remote interface, case aside, and a neighbour mismatch is reported instead of a port mismatch |
| Layer1.CompareRule | layer1_tests.py:253-263 | for any device id and port given as text or absent (read as empty), the comparison reports at most one detail; it reports one exactly when the device id up to its first '.' (the whole id when it has none) does not contain the expected device name, or the port does not contain the expected port, case aside; and it reports the neighbour, not the port, when the host does not match |
| Layer1.CdpMissingRule | layer1_tests.py:267-269 | for any parsed payload whose `index` is a dictionary, a direction whose table has no entry for the local interface reports exactly that |
| Layer1.RunSuite | layer1_tests.py:29-276 | running the six tests in file order yields `Suite` |
| Layer1.SkippedWithoutLinks | layer1_tests.py:33-37 | each test is skipped exactly when the testbed has no link |

## Left out

- Connecting to and disconnecting from devices, the environment-variable
  check and log messages are left out. Command output is an input of the
  model, not something obtained.
- Device answers are fixed: a command answered once is answered the same
  way on every call.
- Exceptions carry no type or message. Every `except Exception` in the
  source catches all of them, and the texts stored in failure records are
  not reproduced.
- Failure records are modelled as typed issues. The dictionaries and
  message strings the source builds around them are not.
- `PyValue.Float` does not parse text. A string passed to `float()` counts
  as raising. Floats are held as whole hundredths: the optical thresholds
  (`layer1_tests.py:5-11`) are exact in hundredths, but a device reading is
  assumed to be a whole number of hundredths too. A reading such as -7.456
  dBm cannot be represented, so comparisons with a bound closer than one
  hundredth are not modelled.
- `PyValue.Value`: dictionary keys are always text. A parser table or a
  `custom` mapping keyed by integers (VLAN ids as keys, say) cannot be
  represented. Such a table would make a test like `str(vlan_id) not in
  existing_vlan_ids` (`tests/layer2/test_layer2.py:88-92`) flag every VLAN,
  and the model does not show that.
- Unicode is not modelled: case mapping, digits and whitespace are ASCII,
  so `str.lower`, `\s`, `\w` and `re.IGNORECASE` act on ASCII letters only.
- Dictionary equality is compared entry by entry, in order, rather than
  order-insensitively.
- `PyValue.StrOf` renders a list or dictionary as a fixed placeholder.
- Hashing is not modelled: a set built from values keeps `1` and `True`
  apart.
- A REP segment id is matched literally. Regular-expression metacharacters
  inside the id are not interpreted.
- REP discovered names pass through `list(set(...))`, which loses their
  order. The model keeps them as a set.
- The spanning-tree suite reads each port's `role` as well as its `status`.
  That read raises under the same condition as the status read and decides
  nothing, so it is not modelled.
- The REP normaliser is modelled as written. It replaces "gigabitethernet"
  before "tengigabitethernet", so ten-gigabit names normalise to "tengi…"
  (see `Rep.NormalizeTenGigabit`).
- The OSPF normaliser applies its replacements one after the other, in
  dictionary order, each to the output of the previous one. It is modelled
  that way.
- `OspfHealth.ProcessCheck`: its own contract only bounds the number of
  findings. What decides pass or fail is stated by `OspfHealth.ProcessRule`,
  for text expectations read without error.
- `OspfHealth.DatabaseCheck`: its own contract only bounds the number of
  findings. `OspfHealth.DatabaseRule` states when it fails.
- The job files that run the suites together, and the pyATS runner itself,
  are not part of this model.
