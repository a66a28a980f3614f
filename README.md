# Fog server core, modelled in Dafny

This project models the decision logic of the Fog server's SDN controller and of its request database, and proves properties of it.

- **Persistence facade** (`server/dblib.py`):
  - the SQL text builders for where, field, group-by and order-by clauses;
  - the placeholder groups of `insert` and `update`;
  - the row codec `_adapt`/`_convert` for CoS, Request, Attempt and Response;
  - keyset pagination in `select_page`;
  - the single-writer worker step `_execute`;
  - the CoS seed-script builder.
- **In-memory topology** (`server/model.py`): a directed graph of nodes and links, plus the lookup maps port → destination node, port number → port name, MAC → host record and IPv4 → host record. It includes the spec setters of interfaces, nodes and links.
- **Spec-update rules** (`server/ryu_apps/topology_state.py`):
  - the sliding statistics window;
  - partial "None means keep" updates;
  - the link capacity/bandwidth minimum and the loss-rate clamp;
  - link states;
  - expiry of the block and bandwidth-test maps.
- **Host and path selection** (`server/selection.py`): resource filtering with the ALL/FIRST strategies; strategy handling over given shortest-path lengths and path costs; algorithm lookup.
- **Shortest-path switch** (`server/ryu_apps/simple_switch_sp_13.py`): packet filtering, MAC learning, the per-(source, destination) hop cache, and its invalidation.
- **Topology events** (`server/ryu_apps/topology.py`): switch/port/link/host handlers with bounded retry; one pass of host-link completion and of disconnected-node pruning.
- **REST validation** (`server/ryu_main_api.py`):
  - typed field lookup;
  - `add_node`, which validates everything, then applies with rollback;
  - hexadecimal datapath-id fallback in `update_node_specs`;
  - data/result coercion in `add_request`.
- **UDP liveness table** (`server/udp_server.py`): last-seen times per client, and the sweep.

How the model is built:
- Stateful parts are Dafny classes whose methods change fields in place: `Topology`, `Interface`, `Node`, `Link`, `StateUpdater`, `Switch`, `TopologyApp`, `Api`, `ClientTable`, `Store`.
- Builders that loop in the source are methods with loop invariants. Each is proved against a specification function, and lemmas state what the source promises about that function.
- Time (`now`), SQL execution results, networkx path results and the UDP/OpenFlow events are parameters.

Behaviour of the code that the model follows and that is easy to misread:
- a CoS carries ten thresholds, not nine;
- a NULL threshold column leaves the CoSSpecs constructor default in place;
- a statement that raises in the worker never has its completion event set;
- `select` never removes its `_rows` entry;
- the `select_page` exclusion subquery ignores the filters (see Findings);
- `update_node_specs` hands the body's timestamp to `update_interface_specs` as its `tx_bytes` argument, so the first existing interface raises and the update stops there (see Findings);
- the UDP server's strict `.decode()` refuses overlong and malformed UTF-8, so such a name registers no client.

## Model

| member | source | states |
|---|---|---|
| PyValue.EscapePlainAscii | server/dblib.py:424 | in `str(bytes)`, printable ASCII bytes other than backslash and the quote are shown as themselves |
| DbQuery.Conditions | server/dblib.py:421-423 | one `column op ?` condition per filter, in filter order |
| DbQuery.BoundValues | server/dblib.py:424 | one bound value per filter, in order, each the `str()` of the filter's operand |
| DbQuery.WhereAccumulatedForm | server/dblib.py:421-423 | the loop's accumulated text is the conditions joined by ` and ` plus a trailing ` and ` |
| DbQuery.GetWhereStr | server/dblib.py:418-427 | the clause and values the loop builds are the where clause (empty without filters) and the bound values |
| DbQuery.WherePlaceholdersMatchValues | server/dblib.py:418-427 | the where clause has exactly as many `?` as there are bound values |
| DbQuery.GetFieldsStr | server/dblib.py:409-415 | the field list the loop builds; `('*',)` gives `*` |
| DbQuery.GetListClause | server/dblib.py:430-445 | a keyword plus comma-joined names, empty when the names are absent |
| DbQuery.GetGroupsStr | server/dblib.py:430-436 | the group-by clause of the given names |
| DbQuery.GetOrdersStr | server/dblib.py:439-445 | the order-by clause of the given names |
| DbQuery.BuildPlaceholders | server/dblib.py:78-85 | the placeholder group built by the loop has exactly n question marks |
| DbQuery.PlaceholderCount | server/dblib.py:78-85 | a placeholder group for n columns holds exactly n `?` |
| DbQuery.BuildAssignments | server/dblib.py:117-119 | the `col=?` assignment list the loop builds |
| DbMapping.SetThreshold | server/model.py:981-1036 | a CoS setter changes exactly its threshold; id, name and the other thresholds are unchanged |
| DbMapping.TableName | server/dblib.py:53-58 | a table exists exactly for CoS, Request, Attempt and Response |
| DbMapping.EncodeMatchesColumns | server/dblib.py:314-336 | the encoded row has one value per column of the class's table |
| DbMapping.Override | server/dblib.py:345-364 | a stored NULL keeps the current value; any other stored value replaces it |
| DbMapping.DecodeAll | server/dblib.py:340-383 | decoding succeeds with one object per row, in order, exactly when every row decodes |
| DbMapping.CoSRoundTrip | server/dblib.py:343-364 | a CoS whose thresholds are all set decodes back to itself |
| DbMapping.CoSNullThresholdIsDefault | server/dblib.py:343-364 | a NULL max-delay column decodes to the constructor default `inf`, with the same id |
| DbMapping.AttemptDecodeMisaligned | server/dblib.py:374-376 | a decoded attempt's number is the stored host and its source is the stored number |
| DbMapping.ResponseNeverDecodes | server/dblib.py:378-380 | a stored response never decodes; the constructor lacks a required argument |
| DbMapping.Convert | server/dblib.py:340-383 | the conversion loop yields the decoding of every row with the class's decoder |
| DbMapping.ResponsesNeverConvert | server/dblib.py:378-383 | converting response rows fails exactly when there is at least one row |
| DbWorker.RunIsFifo | server/dblib.py:293-307 | steps consume the queue from its head; the events set are those of the jobs that ran |
| DbWorker.RaisedJobNeverSignalled | server/dblib.py:296-307 | a job whose statement raises never has its event set |
| DbWorker.WriteBacklogCommitsOnce | server/dblib.py:300-304 | a backlog of writes commits once, when the queue empties |
| DbWorker.QueryStoresRowsWithoutCommit | server/dblib.py:300-304 | a select stores its rows under its event, sets the event and does not commit |
| DbWorker.Store.constructor | server/dblib.py:61-62 | the queue, the result map and the set events all start empty |
| DbWorker.Store.Submit | server/dblib.py:87-95 | a job is appended with a fresh event that is neither set nor has rows |
| DbWorker.Store.ExecuteStep | server/dblib.py:293-307 | one worker step moves the store to the next worker state |
| DbFacade.InsertPlaceholdersMatchRow | server/dblib.py:78-93 | the insert placeholder group has as many `?` as the encoded row has values |
| DbFacade.Insert | server/dblib.py:70-102 | an object with a table enqueues its insert with the encoded row; any other object is refused with nothing enqueued |
| DbFacade.Distinct | server/dblib.py:113-114 | the id columns without duplicates, each one kept |
| DbFacade.IdFilters | server/dblib.py:113-114 | one `=` filter per id column on the object's value; it fails when an attribute is missing |
| DbFacade.Update | server/dblib.py:105-136 | an update is enqueued exactly when the class has a table and every id attribute exists |
| DbFacade.Select | server/dblib.py:139-166 | a select statement with the bound filter values is enqueued exactly when the class has a table |
| DbFacade.Collect | server/dblib.py:168-173 | the stored rows, raw or decoded as objects, or nothing when no rows were stored |
| DbFacade.SelectPage | server/dblib.py:180-213 | the keyset-exclusion page statement is enqueued exactly when the class has a table |
| DbFacade.AsCsv | server/dblib.py:227-256 | no CSV when the select failed; otherwise the header is the table's columns for `*` (the fields otherwise) and then the rows |
| DbFacade.SeedHead | server/dblib.py:273-276 | the insert-or-ignore head with the first entry's keys |
| DbFacade.AppendLiterals | server/dblib.py:279-282 | each value as a literal followed by a comma |
| DbFacade.AppendSeedGroup | server/dblib.py:278-283 | the value group with its last comma replaced by a closing parenthesis |
| DbFacade.AppendSeedGroups | server/dblib.py:277-283 | one comma-terminated group per entry |
| DbFacade.BuildSeedScript | server/dblib.py:270-285 | the seed script the loops build is the serialised entries ending in `;` |
| DbPagination.Limit | server/dblib.py:208-210 | `limit n` keeps the first n rows; a negative limit keeps all |
| DbPagination.Where | server/dblib.py:195-206 | the rows passing the filter whose id is not excluded, in table order |
| DbPagination.FirstPageExcludesNothing | server/dblib.py:195-213 | page 1 is the first `size` passing rows |
| DbPagination.UnfilteredPageIsSlice | server/dblib.py:195-213 | without filters, page p is table rows `(p-1)*size` up to `p*size` |
| DbPagination.FilteredPagesRepeat | server/dblib.py:195-213 | with a filter, page 2 can repeat page 1 (the exclusion ignores the filter) |
| DbPagination.FilteredPageIsSlice | server/dblib.py:195-213 | with the exclusion filtered too, page p is the slice of the passing rows |
| Selection.Passing | server/selection.py:46-57 | exactly the nodes that pass the resource check, drawn from the input |
| Selection.FirstPassingIsEarliest | server/selection.py:58-61 | the first passing node is the earliest input node that passes |
| Selection.SimpleSelect | server/selection.py:45-67 | ALL gives all passing nodes; FIRST gives the first one, or nothing when none passes; other strategies give `[]` |
| Selection.InsortRight | server/selection.py:104-107 | inserting adds exactly one entry |
| Selection.InsortRightPermutes | server/selection.py:104-107 | an insertion adds the new entry to the multiset and nothing else |
| Selection.InsortRightSorted | server/selection.py:104-107 | inserting into a sorted list keeps it sorted by length |
| Selection.InsortRightStable | server/selection.py:104-107 | the new entry goes after entries of equal length |
| Selection.Insort | server/selection.py:104-107 | the binary search inserts to the right of equal lengths |
| Selection.InsertionSortedSorts | server/selection.py:99-108 | the ALL result is sorted by length |
| Selection.InsertionSortedPermutes | server/selection.py:99-108 | the ALL result is a permutation of the reached entries |
| Selection.InsertionSortedStable | server/selection.py:99-108 | ties keep target order |
| Selection.ReachedExactly | server/selection.py:99-108 | one entry per target that has a length, with that target's path and length |
| Selection.BestEntrySnoc | server/selection.py:110-118 | BEST replaces its best only on a strictly smaller length |
| Selection.BestIsFirstMinimum | server/selection.py:110-118 | BEST is the first entry of minimum length; with no reachable entry it is no path with length `inf` |
| Selection.DijkstraSelect | server/selection.py:82-125 | ALL gives the sorted reached entries, BEST the best one, other strategies `[]` |
| Selection.DijkstraAll | server/selection.py:99-108 | the loop's list is the insertion sort of the reached targets |
| Selection.DijkstraBest | server/selection.py:110-118 | the loop's best is the first minimum of the reached targets |
| Selection.CostedPaths | server/selection.py:168-172 | one entry per path, a failed cost becoming `inf` |
| Selection.LeastCostSelect | server/selection.py:158-194 | ALL sorts the costed paths, BEST keeps the first cheapest, other strategies give `[]` |
| Selection.Upper | server/selection.py:292 | upper-casing maps every character and keeps the length |
| Selection.PathAlgorithmNamed | server/selection.py:290-297 | LEASTCOST is chosen exactly when the upper-cased name is `LEASTCOST` |
| Selection.PathAlgorithmCaseInsensitive | server/selection.py:290-297 | names equal up to case choose the same algorithm |
| Selection.LowerCaseLeastCost | server/selection.py:290-297 | `leastcost` selects LEASTCOST |
| Selection.OtherNamesFallBack | server/selection.py:290-297 | `dijkstra` and unknown names fall back to DIJKSTRA |
| TopologyModel.NodeTypeNamed | server/model.py:291-316 | a parsed node type has the given name |
| TopologyModel.NodeTypeNamesRoundTrip | server/model.py:291-316 | every node type is parsed back from its name |
| TopologyModel.Interface.constructor | server/model.py:195-232 | the given name, number, MAC and IPv4; zero specs; stamped now |
| TopologyModel.Interface.SetCapacity | server/model.py:252-257 | stores the capacity and re-stamps now |
| TopologyModel.Interface.SetBandwidthUp | server/model.py:259-264 | stores the up bandwidth and re-stamps now |
| TopologyModel.Interface.SetBandwidthDown | server/model.py:266-271 | stores the down bandwidth and re-stamps now |
| TopologyModel.Interface.SetTxPackets | server/model.py:273-278 | stores the transmitted packets and re-stamps now |
| TopologyModel.Interface.SetRxPackets | server/model.py:280-285 | stores the received packets and re-stamps now |
| TopologyModel.Interface.SetTimestamp | server/model.py:287-289 | stores the timestamp, 0 meaning now |
| TopologyModel.Node.constructor | server/model.py:339-385 | the given fields, zero specs, no interfaces, threshold 1, stamped now |
| TopologyModel.Node.SetCpuCount | server/model.py:419-424 | stores the CPU count and re-stamps now |
| TopologyModel.Node.SetCpuFree | server/model.py:426-431 | stores the free CPU and re-stamps now |
| TopologyModel.Node.SetMemoryTotal | server/model.py:433-438 | stores the total memory and re-stamps now |
| TopologyModel.Node.SetMemoryFree | server/model.py:440-445 | stores the free memory and re-stamps now |
| TopologyModel.Node.SetDiskTotal | server/model.py:447-452 | stores the total disk and re-stamps now |
| TopologyModel.Node.SetDiskFree | server/model.py:454-459 | stores the free disk and re-stamps now |
| TopologyModel.Node.SetTimestamp | server/model.py:461-463 | stores the timestamp, 0 meaning now |
| TopologyModel.Link.constructor | server/model.py:485-520 | the given ports and state; capacity and bandwidth 0, delay and jitter `inf`, loss 1; stamped now |
| TopologyModel.Link.SetCapacity | server/model.py:543-548 | stores the capacity and re-stamps now |
| TopologyModel.Link.SetBandwidth | server/model.py:550-555 | stores the bandwidth and re-stamps now |
| TopologyModel.Link.SetDelay | server/model.py:557-562 | stores the delay and re-stamps now |
| TopologyModel.Link.SetJitter | server/model.py:564-569 | stores the jitter and re-stamps now |
| TopologyModel.Link.SetLossRate | server/model.py:571-576 | stores the loss rate and re-stamps now |
| TopologyModel.Link.SetTimestamp | server/model.py:578-580 | stores the timestamp, 0 meaning now |
| TopologyModel.Topology.constructor | server/model.py:651-658 | an empty graph with empty lookup maps |
| TopologyModel.Topology.GetNode | server/model.py:667-672 | the node exactly when the id is in the graph |
| TopologyModel.Topology.GetInterface | server/model.py:699-709 | a found interface belongs to the node; by name it is the node's interface of that name |
| TopologyModel.Topology.GetLink | server/model.py:753-760 | a link exactly when the edge is in the graph |
| TopologyModel.Topology.GetDstAtPort | server/model.py:811-820 | only a recorded destination that is still a graph node is returned |
| TopologyModel.Topology.GetLinkAtPort | server/model.py:856-866 | the link to the port's destination, none without a destination |
| TopologyModel.Topology.GetLinksAtPort | server/model.py:868-880 | `(None, None)` without a destination, else both directions' links |
| TopologyModel.Topology.GetByMac | server/model.py:822-829 | an unknown MAC gives nothing |
| TopologyModel.Topology.GetByIp | server/model.py:831-838 | an unknown IPv4 gives nothing |
| TopologyModel.Topology.AddNode | server/model.py:674-685 | always succeeds with a fresh node; threshold 1 when none is given; nothing else changes |
| TopologyModel.Topology.DeleteNode | server/model.py:687-697 | removes the node, every edge touching it and its port map; other maps unchanged |
| TopologyModel.Topology.AddInterface | server/model.py:711-736 | fails with no change when the node is absent; otherwise the interface is found by name and number, and MAC/IPv4 lookups give its node and name |
| TopologyModel.Topology.HostFound | server/model.py:822-838 | a host record of the node and name answers `node_id` and `name` |
| TopologyModel.Topology.FindByNum | server/model.py:699-709 | an interface is found by its recorded number |
| TopologyModel.Topology.RecordHost | server/model.py:725-734 | updates the MAC and IPv4 records with node, name and the other address |
| TopologyModel.Topology.DeleteLink | server/model.py:783-793 | removes the edge and the source's whole port map |
| TopologyModel.Topology.AddLink | server/model.py:762-781 | succeeds exactly when both ports exist; then the link is found and both port references lead to the destination |
| TopologyModel.Topology.DeleteInterface | server/model.py:738-751 | removes the interface and, when the port had a destination, both links and both port maps |
| TopologyModel.Topology.SetMainInterface | server/model.py:882-887 | on an existing node the named interface, or none, becomes the main one |
| TopologyModel.FlatKeyNests | server/model.py:963-972 | flattened keys nest as `parent_child_key` |
| TopologyState.WindowBounded | server/ryu_apps/topology_state.py:68-72 | the window stays within its length, ends with the new value and is a suffix of the history |
| TopologyState.WindowSlides | server/ryu_apps/topology_state.py:68-72 | below the bound the value is appended; at the bound the oldest is dropped |
| TopologyState.StateUpdater.constructor | server/ryu_apps/topology_state.py:50-61 | empty block, bandwidth-test and statistics maps |
| TopologyState.StateUpdater.SaveStats | server/ryu_apps/topology_state.py:68-72 | the key's list becomes its window with the new value, created if absent |
| TopologyState.StateUpdater.UpdateNodeSpecs | server/ryu_apps/topology_state.py:74-103 | fails exactly for an absent node, then changing nothing; otherwise each given spec replaces the node's value, None keeps it, and the timestamp becomes the given one (or now) unless every spec is None; only that node's figures may change |
| TopologyState.StateUpdater.UpdateLinkSpecs | server/ryu_apps/topology_state.py:145-173 | fails without change for an absent link; None keeps a field; the same timestamp rule |
| TopologyState.StateUpdater.UpdateInterfaceSpecs | server/ryu_apps/topology_state.py:105-143 | nothing for an unknown interface; otherwise the port is marked and the specs applied (capacity and bandwidths not during a bandwidth test); a byte count raises for want of a setter, leaving the sample and the link untouched; otherwise the sample is saved and the link at the port gets the min capacity, the min of up and down bandwidth, the window's loss rate and the timestamp; no other interface or link may change |
| TopologyState.StateUpdater.MarkInterfaceSpecs | server/ryu_apps/topology_state.py:119-135 | the port is marked at now and the interface's specs are the given ones applied (capacity and bandwidths not during a bandwidth test) |
| TopologyState.StateUpdater.ApplyInterfaceSpecs | server/ryu_apps/topology_state.py:123-136 | each given spec is stored; capacity and bandwidth only when no test holds the port |
| TopologyState.StateUpdater.UpdateLinkSpecsAtPort | server/ryu_apps/topology_state.py:175-240 | link capacity is the min of the port capacities, bandwidth the min of up and down, plus the loss rate from the window |
| TopologyState.Min | server/ryu_apps/topology_state.py:222-226 | the smaller of the two values |
| TopologyState.ClampLow | server/ryu_apps/topology_state.py:234-235 | the value clamped to at least 0 |
| TopologyState.LossRateBounds | server/ryu_apps/topology_state.py:228-237 | the loss rate is at least 0; 1 when the computation fails; at most 1 when counters grew |
| TopologyState.LosslessLinkHasZeroLoss | server/ryu_apps/topology_state.py:228-237 | equal transmitted and received deltas give loss 0 |
| TopologyState.LinkStateNamed | server/ryu_apps/topology_state.py:303-320 | `Live` means up; `Down` and `Blocked` mean down; other names are unknown |
| TopologyState.StateUpdater.ApplyPortState | server/ryu_apps/topology_state.py:303-320 | a known state name sets the state of both links at the port |
| TopologyState.UnexpiredIdempotent | server/ryu_apps/topology_state.py:322-334 | a second expiry pass at the same time removes nothing |
| TopologyState.Expire | server/ryu_apps/topology_state.py:322-334 | removes exactly the entries older than the period; the rest are unchanged |
| TopologyState.StateUpdater.CheckUpdate | server/ryu_apps/topology_state.py:322-334 | both maps lose exactly their expired entries |
| ShortestPathSwitch.MergeAttrs | server/ryu_apps/simple_switch_sp_13.py:105-107 | given edge attributes replace old ones; missing ones keep them |
| ShortestPathSwitch.FillCachesInteriorHops | server/ryu_apps/simple_switch_sp_13.py:115-125 | each interior hop caches the out-port to the next hop, the next hop and the in-port from the previous hop |
| ShortestPathSwitch.FillCachesOnlyInterior | server/ryu_apps/simple_switch_sp_13.py:115-125 | only interior hops are cached |
| ShortestPathSwitch.PrunedKeepsExactly | server/ryu_apps/simple_switch_sp_13.py:204-218 | exactly the cached paths that are not stale survive; an emptied source is removed |
| ShortestPathSwitch.PruneDsts | server/ryu_apps/simple_switch_sp_13.py:205-216 | the loop keeps exactly the fresh paths of one source |
| ShortestPathSwitch.PruneOuts | server/ryu_apps/simple_switch_sp_13.py:204-218 | the loop prunes every source as specified |
| ShortestPathSwitch.Switch.constructor | server/ryu_apps/simple_switch_sp_13.py:33-42 | an empty MAC table, graph and path cache |
| ShortestPathSwitch.Switch.AddEdge | server/ryu_apps/simple_switch_sp_13.py:105-107 | adds both nodes and merges the edge's port attributes |
| ShortestPathSwitch.Switch.BuildHops | server/ryu_apps/simple_switch_sp_13.py:115-125 | the source/destination cache entry is the hop map of the path |
| ShortestPathSwitch.Switch.PacketIn | server/ryu_apps/simple_switch_sp_13.py:53-150 | ignored packets change nothing; others learn the MAC and add the host's two edges when it is new; an unknown destination floods with the path cache unchanged; a cached path leaves the cache as it was, and an uncached one caches exactly the filled path under its source and destination (no change when there is no route); the packet is forwarded exactly when the path has a hop at this switch with the same in-port, out of that hop's port, and dropped otherwise |
| ShortestPathSwitch.Switch.LinkAdd | server/ryu_apps/simple_switch_sp_13.py:177-188 | both switches become nodes and exactly the two directed edges, with swapped ports, are set; every other edge is kept |
| ShortestPathSwitch.Switch.LinkDelete | server/ryu_apps/simple_switch_sp_13.py:191-218 | removes the edge and every cached path using it |
| ShortestPathSwitch.Switch.SwitchLeave | server/ryu_apps/simple_switch_sp_13.py:228-243 | removes the switch, its edges and every cached path through it |
| TopologyEvents.SwitchLabel | server/ryu_apps/topology.py:112-113 | `s_` followed by lower-case hexadecimal digits |
| TopologyEvents.RefOf | server/ryu_apps/topology.py:188-196 | a known port name refers by name |
| TopologyEvents.TopologyApp.SwitchEnter | server/ryu_apps/topology.py:108-115 | a fresh switch node labelled by its hex id replaces the entry for the datapath; its interfaces are exactly the ports' names, each found by name and by number; the number map of the switch gains the ports in order and no other switch's entry changes; links, port maps and host records untouched |
| TopologyEvents.TopologyApp.AddPorts | server/ryu_apps/topology.py:114-115 | the node's interfaces are exactly the ports' names and the switch's number map gains the ports in order; other switches' entries and host records unchanged |
| TopologyEvents.NumberPortsMapsPorts | server/model.py:723-724 | after the ports are added every port's number is mapped, to the name of a port with that number |
| TopologyEvents.NumberPortsKeeps | server/model.py:723-724 | the number map gains exactly the ports' numbers and keeps every other entry |
| TopologyEvents.TopologyApp.PortAdd | server/ryu_apps/topology.py:122-131 | succeeds on the first attempt when the switch exists, with a fresh interface found by name and number; else gives up after 3 attempts with no change; links, port maps and host records untouched |
| TopologyEvents.TopologyApp.PortDelete | server/ryu_apps/topology.py:134-136 | the interface is gone, with exactly the two links at its port and both ends' port maps; the number map and host records untouched |
| TopologyEvents.TopologyApp.PortModify | server/ryu_apps/topology.py:139-141 | delete then add: a fresh interface found by name and number, exactly the links and port maps of the old port removed, every other edge and record kept |
| TopologyEvents.TopologyApp.LinkAdd | server/ryu_apps/topology.py:145-156 | a fresh down link between the two ports exactly when both exist, stamped now, set under its two ends with every other edge kept, and the source's port map pointing at the destination by name and by number; else 3 attempts with no change; nodes, number map and host records untouched |
| TopologyEvents.TopologyApp.HostAdd | server/ryu_apps/topology.py:164-171 | sets switch, port name and number under the MAC; other keys unchanged |
| TopologyEvents.TopologyApp.AddHostLinks | server/ryu_apps/topology.py:183-197 | every linkable host has both links; only host links are added; existing links untouched |
| TopologyEvents.TopologyApp.VisitMac | server/ryu_apps/topology.py:185-196 | one MAC's links are completed when both ends are nodes |
| TopologyEvents.TopologyApp.LinkHost | server/ryu_apps/topology.py:188-196 | both directions are ensured between the host and its switch |
| TopologyEvents.TopologyApp.EnsureLink | server/ryu_apps/topology.py:191-196 | a missing link is added when both ports exist; existing ones are untouched |
| TopologyEvents.TopologyApp.CheckClients | server/ryu_apps/topology.py:199-208 | exactly the nodes that are live clients or datapaths remain, with their links; the deleted nodes' port maps go; the number map and host records are kept |
| MainApi.Index | server/ryu_main_api.py:414 | indexing an object by a present key gives its value; else KeyError, or TypeError for a non-object |
| MainApi.GetPost | server/ryu_main_api.py:412-422 | the value when present and of the type; else `ret`, or the error when required |
| MainApi.OptStr | server/ryu_main_api.py:412-422 | an optional string field, present exactly when accepted |
| MainApi.OptFloat | server/ryu_main_api.py:412-422 | an optional float field, present exactly when accepted |
| MainApi.OptInt | server/ryu_main_api.py:412-422 | an optional int field, present exactly when accepted |
| MainApi.Iterate | server/ryu_main_api.py:224-225 | iterating a list gives its items; other iterables give strings |
| MainApi.Contains | server/ryu_main_api.py:224 | `key in` an object is key membership |
| MainApi.IdOf | server/ryu_main_api.py:205-206 | string and integer ids denote themselves |
| MainApi.RequestedId | server/ryu_main_api.py:205 | the id is the body's required `id` field |
| MainApi.InterfaceSteps | server/ryu_main_api.py:225-236 | valid exactly when every interface has a string name; one step per interface |
| MainApi.NodePlan | server/ryu_main_api.py:211-242 | valid exactly when state, type and interfaces validate; the queue starts with the node step |
| MainApi.HexValue | server/ryu_main_api.py:276 | defined exactly on hexadecimal digit strings |
| MainApi.HexValueOfDigits | server/ryu_main_api.py:276 | the hexadecimal digits of n read back as n |
| MainApi.ParseHexRoundTrip | server/ryu_main_api.py:276 | `int(hex digits of n, 16)` is n |
| MainApi.Resolve | server/ryu_main_api.py:272-280 | the id as given when it names a node, else its hexadecimal value when that names a node |
| MainApi.SwitchFoundByHexId | server/ryu_main_api.py:272-280 | a switch is found by its hexadecimal datapath id |
| MainApi.NodeSpecsOf | server/ryu_main_api.py:295-304 | the timestamp field when it is a float, else now |
| MainApi.InterfaceSpecsOf | server/ryu_main_api.py:306-323 | valid exactly when every interface has a string name; one spec per interface, in order |
| MainApi.SpecsPlan | server/ryu_main_api.py:285-327 | node specs, plus interface specs when listed; fails exactly on an invalid interface |
| MainApi.CoerceData | server/ryu_main_api.py:346-350 | a string is encoded to bytes that decode back; anything else is a TypeError |
| MainApi.CoerceResult | server/ryu_main_api.py:351-355 | a string is encoded; a falsy value is kept; other values raise |
| MainApi.RequestFields | server/ryu_main_api.py:343-363 | the request head validates exactly when its required fields have their types |
| MainApi.MarkPortsMarks | server/ryu_main_api.py:306-336 | with the timestamp passed by keyword, exactly the node's reported existing ports are marked at now; other entries unchanged |
| MainApi.FirstPortIsFirst | server/ryu_main_api.py:335-336 | the interface the update as written stops at exists, and no interface reported before it does; there is one exactly when some reported interface exists |
| MainApi.AbortSkipsLaterPorts | server/ryu_main_api.py:446-454 | with two existing interfaces reported, the update as written marks only the first, where the intended update marks both |
| MainApi.Api.constructor | server/ryu_main_api.py:169-172 | the API works on the given state updater |
| MainApi.Api.RunStep | server/ryu_main_api.py:424-436 | one queued call; a successful step extends the node built so far |
| MainApi.Api.ApplyQueue | server/ryu_main_api.py:253-262 | a planned queue always succeeds and builds the node; a failing step deletes the node and answers 500 |
| MainApi.Api.AddNode | server/ryu_main_api.py:198-262 | 400 for a bad id, 303 for an existing node, 400 for other invalid fields, all with no change; otherwise 200 and a fresh node built from the plan is added under the id, every other node kept, with exactly the planned interfaces |
| MainApi.Api.UpdateNodeSpecs | server/ryu_main_api.py:269-336 | 404 when no node answers, 400 on an invalid body, both with no change; otherwise the node's figures are the given specs applied, and the answer is 500 exactly when a reported interface exists, with only the first such port marked and its specs set at now; else 200; the samples are unchanged and no link may change |
| MainApi.Api.ApplyNodeSpecs | server/ryu_main_api.py:334-336 | the node's figures are the specs applied; then the interfaces as in UpdateInterfaces |
| MainApi.Api.UpdateInterfaces | server/ryu_main_api.py:335-336 | interfaces in order until one raises: it raises exactly when a reported interface exists; only the first such port is marked and has its specs set, stamped now; no other interface may change |
| MainApi.Api.UpdateInterface | server/ryu_main_api.py:446-454 | raises exactly when the interface exists, after marking its port and applying its specs stamped now; the sample is not saved and no other interface may change |
| MainApi.Api.UpdateNodeSpecsIntended | server/ryu_main_api.py:269-336 | with the timestamp passed by keyword: 404 and 400 as above with no change; otherwise 200, the node's figures applied, every reported existing port marked, its sample saved and its specs set at the body's timestamp; every link at those ports is stamped with it; no other interface or link may change |
| MainApi.Api.ApplyNodeSpecsIntended | server/ryu_main_api.py:334-336 | the node's figures are the specs applied; then every interface as in UpdateInterfacesIntended |
| MainApi.Api.UpdateInterfacesIntended | server/ryu_main_api.py:335-336 | with the timestamp passed by keyword: every interface in order; the reported existing ports are marked, their samples saved and their specs set, and the links at them stamped; no other interface or link may change |
| MainApi.Api.UpdateInterfaceIntended | server/ryu_main_api.py:446-454 | with the timestamp passed by keyword: an unknown interface changes nothing; a known one is marked, has its specs applied and its sample saved, and the link at its port gets the min capacity, the min bandwidth, the window's loss rate and the timestamp |
| UdpServer.FirstLine | server/udp_server.py:25 | the prefix up to and including the first newline |
| UdpServer.StripLeft | server/udp_server.py:25 | drops exactly the leading whitespace |
| UdpServer.StripRight | server/udp_server.py:25 | drops exactly the trailing whitespace |
| UdpServer.ClientKeyOfLine | server/udp_server.py:25 | a datagram whose first line is a trimmed name is keyed by that name |
| UdpServer.ClientTable.constructor | server/udp_server.py:11 | an empty client table |
| UdpServer.ClientTable.Handle | server/udp_server.py:24-25 | a first line that decodes registers its name at now, overwriting any previous time; one that does not decode registers nothing |
| UdpServer.OverlongNameRegistersNothing | server/udp_server.py:25 | a name in an overlong encoding does not decode, so it is not a client key |
| UdpServer.ClientTable.Sweep | server/udp_server.py:14-20 | removes exactly the clients older than the timeout; the rest keep their times |
| UdpServer.SweepIdempotent | server/udp_server.py:17-20 | a second sweep at the same time removes nothing |
| UdpServer.LaterSweepKeepsFewer | server/udp_server.py:14-20 | a later sweep keeps no more clients |
| UdpServer.FreshClientSurvives | server/udp_server.py:17-25 | a client seen within the timeout survives the sweep |
| Unicode.Utf8RoundTrip | server/ryu_main_api.py:347-348 | UTF-8 encoding decodes back to the string |
| Unicode.DecodeUtf8Canonical | server/udp_server.py:25 | strict decoding accepts only encodings: whatever decodes is the encoding of its result |
| Unicode.MalformedRefused | server/udp_server.py:25 | an overlong form, a bad continuation byte and an encoded surrogate do not decode |

## Left out

- Threads, `Event.wait` and the blocking `Queue.get`: `insert`, `update` and `select` are modelled as enqueueing, and the worker as single sequential steps.
- SQLite execution: the outcome of each statement (rows, or an exception) is a parameter of the worker step. The connection singleton, `definitions.sql`, `cos.json` and `executescript` are not modelled.
- CSV file writing: `as_csv` yields the header and the rows; no file is written.
- The Model façade wrappers (`server/model.py`:92-170): their positional arguments do not match dblib's signatures, so dblib's own functions are modelled instead.
- `Request.new_attempt`: it calls the Attempt constructor without its required attempt number.
- The flat keys of `Model.as_dict`: only the key naming is modelled, not the dictionary comprehension.
- networkx:
  - `shortest_path`, `single_source_dijkstra` and `all_simple_paths` are inputs (lengths, paths, costs, a path oracle);
  - the weight functions and cutoff are not modelled.
- The LeastCost `calc_cost` formula: a path's cost is a parameter, and a failure becomes `inf`.
- NodeSelector: its only algorithm is SIMPLE, so every name selects `_SimpleNodeSelection`. There is no choice to model.
- The bandwidth-test branch of `_update_link_specs_at_port` (`server/ryu_apps/topology_state.py`:202-218): floating-point numerics over timed samples.
- The periodic loops `_update_delay_jitter` and `_update_bandwidth_loss_rate`, including the delay halving, and `_update_node_state`, whose body does nothing.
- The iperf3 bandwidth test itself: which ports it holds is a map the model reads; nothing in the model starts one.
- OpenFlow message construction: `add_flow`, `delete_flow`, packet-out and the switch's own `_switch_enter_handler` (flow installation only).
- UDP sockets, `hub.spawn` loops, timers and the retry sleeps: time is the parameter `now`, and sweeps and passes are single calls.
- `upper()` is modelled on ASCII letters only. `int(s, 16)` is modelled without surrounding whitespace or digit underscores.
- REST plumbing: JSON parse errors, the generic exception path that answers 500, `get_config`, the root page, the topology PNG, `_get_path`, and the database inserts and lookups of `add_request` (only its field validation is modelled).
- MainApi.Iterate: a non-empty object raises TypeError at once. Python iterates its keys and then raises TypeError on the first one, so both handlers answer the same.
- DbFacade.IdFilters: an id name is found only among the data attributes of the record's class. Python's `getattr` also finds private fields, methods and class attributes; no caller passes such a name.
- DbFacade.Update: refuses an id name outside the data attributes, for the same reason, where Python would enqueue the update with that attribute's value (a method, say) as the filter value.
- TopologyEvents.TopologyApp.AddHostLinks: the MACs are visited in any order, not in dictionary insertion order. When two MACs share a node and a switch, that order decides which ports the link uses, and the contract does not say which.
- MainApi.Api.UpdateInterfacesIntended: for the whole loop, and so for ApplyNodeSpecsIntended and UpdateNodeSpecsIntended, only the new timestamp of each refreshed link is stated. Its capacity, bandwidth and loss rate are stated per interface, by UpdateInterfaceIntended, at the moment that interface is updated. The loss rate depends on the samples saved so far, so the loop's contract does not carry these values forward.
- MainApi.IdOf: a `None` or float id is refused with TypeError. Python would look such an id up in the graph.
- TopologyState.StateUpdater.constructor: `MONITOR_SAMPLES` and `MONITOR_PERIOD` are taken as given numbers. They are not read from the environment.
- Metrics, logging, configuration and process wiring are not part of this model. These are `server/ryu_apps/metrics.py`, `server/ryu_apps/logging.py`, `server/config.py`, `server/ryu_apps/common.py`, `server/server.py` and `server/ryu_main.py`.

## Findings

| source | as written | input that shows it | evidently intended | confidence | as-written member | corrected member |
|---|---|---|---|---|---|---|
| server/dblib.py:195-213 | the `oid not in (select oid … limit (page-1)*page_size)` exclusion counts rows of the whole table and ignores the caller's filters | a table with oids 1-4, filter `oid >= 3`, page size 1: pages 1 and 2 both return oid 3 | the exclusion applies the same filters, so page p is the p-th slice of the passing rows | not executed | DbPagination.FilteredPagesRepeat | DbPagination.FilteredPageIsSlice |
| server/ryu_main_api.py:446-454 | the body's timestamp is the eighth positional argument of `update_interface_specs`, which is `tx_bytes`; Interface has no `set_tx_bytes`, so the first existing interface raises AttributeError outside the handler's `try` | `PUT /node_specs/<id>` with `{"interfaces": [{"name": "eth0"}, {"name": "eth1"}]}` on a node with both ports: eth0 is stamped with the current time, eth1 is never updated, no link is refreshed, and no 200 is sent | the timestamp is passed by keyword, so every interface is updated at the body's timestamp and the answer is 200 | not executed | MainApi.AbortSkipsLaterPorts | MainApi.MarkPortsMarks |
