# Drift-tube event building and track selection, in Dafny

This project models the offline analysis of a four-chamber drift-tube muon
telescope (`process_hits_v2.py` with its constants in `config.py`). Each raw
hit is an (FPGA, TDC_CHANNEL) address with orbit, bunch-crossing and TDC
counters. The analysis does the following:

- decodes a hit's chamber (SL), layer, wire height and stagger;
- builds events, in one of two ways:
  - **trigger mode**: groups the event-number and trigger signals by time
    gaps, reads a 16-bit event id from four 4-bit counters, and walks the
    groups while carrying the last accepted id;
  - **trigger-less mode**: cuts the whole hit stream at time gaps larger
    than 1.1 × TDRIFT.
- keeps the events that pass the acceptance cuts, using meantimer triplets
  and t0 clusters, and commits their t0;
- computes the left/right drift positions of each hit;
- reconstructs tracks, in two stages:
  - the **local stage** finds the best straight line in each chamber, with
    one point per wire height, a slope gate and a running chi-squared
    minimum below 20;
  - the **global stage** checks the agreement of the four chambers in 2D
    and 3D.

  This runs per event during processing, and over a whole event text file
  written by `save_root` and parsed back.

Modules follow the source's structure:

- `Config`: the constants.
- `Channels`: channel decoding.
- `Hits`: the hit record and its row filters.
- `Positions`: the drift positions.
- `Segmentation`: the diff / threshold / cumulative-sum grouping, shared by
  all three uses.
- `TriggerlessEvents`: event building without a trigger.
- `EventNumbers`: `event_nr`, trigger bits and `calc_event_numbers`.
- `Tables`: the hit table and the event table, as classes updated in place.
- `Meantimer`: `meantimer_results`.
- `Acceptance`: `event_accepted` and `select_accepted_events`.
- `LocalFit`: `removezeros`, `allowed_slope` and `find_fit`.
- `Reconstruction`: the per-event local and global stages.
- `EventLines`: the text line layout and its parser.
- `AllReconstruction`: the whole-file reconstruction.
- `Common`: sorting, extremes and set helpers.

The source's loops and in-place updates are modelled imperatively; each is
proved against a specification function:

- the group walk of `calc_event_numbers`;
- the nested triplet loops of `meantimer_results`;
- the cluster loop and commits of `select_accepted_events`;
- the running minimum of `find_fit`;
- the array-filling parser of `local_reconstruction_all`;
- the column assignments of `analyse`.

Things outside the source become parameters:

- the least-squares fits (`np.polyfit`, `np.linalg.lstsq`);
- the pattern module (`PATTERN_NAMES`, `meantimereq`, `mean_tzero`,
  `tzero_clusters`, `ACCEPTANCE_CHANNELS`);
- the command-line options (`--events`, `--chambers`, `--max_hits`,
  `--event`, `--update_tzero`, the ranges).

Times and positions are exact reals.

## Model

| member | source | states |
|---|---|---|
| Config.ChannelTriggerIsThird | config.py:9-10 | the anchoring trigger channel is the third trigger channel, (1, 129) |
| Config.EventNrChannelsDistinct | config.py:8-9 | four distinct event-number channels, none of them a trigger channel |
| Config.ChannelRanges | config.py:6-9 | NCHANNELS is a multiple of 4 and every control channel (129..138) lies above 2·NCHANNELS |
| Config.DriftCoversHalfCell | config.py:12-23 | TDRIFT = 390 ns, VDRIFT·TDRIFT = XCELL/2 = 21 mm, and 1.1·TDRIFT = 429 ns |
| Config.Durations | config.py:16-26 | an orbit is 3564 × 25 ns = 89100 ns, the event gap is 40 bunch crossings, 30 TDC ticks make a bunch crossing |
| Config.AngleWindows | config.py:29 | one non-empty angle window per chamber 0..3 |
| Config.TimeWindow | config.py:35-37 | the event window −25 < 0 < 500 is non-empty and no chamber has extra latency |
| Config.SlopeAndCeilings | config.py:40-43 | max_slope is the double below √3 and the chi-squared ceilings increase 20 < 200 < 500 |
| Channels.LayerIsBijection | process_hits_v2.py:827-838 | LAYER is 1..4 and equal layers mean equal channel residues mod 4, both directions |
| Channels.StaggerAndHeightFollowLayer | process_hits_v2.py:833-841 | the stagger is half a cell exactly on layers 2 and 4; the wire height drops one cell per layer from layer 1 on top |
| Channels.WireColumn | process_hits_v2.py:143-144 | `(norm − 0.5) floordiv 4` is the wire column `(norm − 1) div 4` |
| Channels.CentersMatchCellDiagram | process_hits_v2.py:82-86 | the cell centres reproduce the drawn numbering scheme, layers 2 and 4 shifted half a cell right of layers 1 and 3 |
| Channels.PhysicalIffInChamber | process_hits_v2.py:845-858 | on FPGA 0 or 1, a hit has a chamber exactly when its normalised channel is at most NCHANNELS |
| Channels.ControlChannelsAreNotPhysical | process_hits_v2.py:845-858 | event-number and trigger channels decode to SL −1 and a normalised channel 65..74 |
| Hits.Decode | process_hits_v2.py:823-858 | a read hit has layer 1..4, SL −1..3, a byte channel, height and stagger following the layer, no event and TIME0 0 |
| Hits.Filter | process_hits_v2.py:887-897 | a row drop keeps only rows satisfying the predicate and every such row, as a sub-multiset of the table |
| Hits.FilterAppend | process_hits_v2.py:887-897 | the row drop distributes over concatenation, so kept rows stay in table order |
| Hits.FilterMultiplicity | process_hits_v2.py:887-897 | a kept row survives with its full multiplicity, a dropped one not at all |
| Hits.DropUnassignedAndIrrelevant | process_hits_v2.py:887-897 | after the drops, exactly the hits with an event number on a chamber channel or the trigger channel remain |
| Hits.ControlHitsDropped | process_hits_v2.py:894-897 | every control hit has SL −1 and survives the channel clean-up only if it is on the trigger channel |
| Positions.Positioned | process_hits_v2.py:136-144 | TIMENS = TIME_ABS − TIME0; X_POS_LEFT and X_POS_RIGHT are the cell centre minus and plus the drift distance max(TIMENS, 0)·VDRIFT, so they lie symmetrically around it; nothing else changes |
| Positions.DriftLaw | process_hits_v2.py:143-144 | the drift distance is 0 for a negative time, VDRIFT·t after it, and never decreases |
| Positions.PositionsInsideCell | process_hits_v2.py:143-144 | with a time of at most TDRIFT both positions stay within half a cell of the wire |
| Segmentation.GroupIdSteps | process_hits_v2.py:866-870 | group ids start at 0 and step by exactly one where the gap exceeds the threshold, else stay |
| Segmentation.GroupIdsMonotone | process_hits_v2.py:168-172 | group ids never decrease and element i has an id in 0..i |
| Segmentation.SameGroupIffNoBreak | process_hits_v2.py:301-305 | two elements share a group exactly when no gap between them exceeds the threshold |
| TriggerlessEvents.LabelKeepsHit | process_hits_v2.py:866-871 | row k of the labelled table is the k-th hit in time order with only EVENT_NR changed |
| TriggerlessEvents.LabelIsSelectedGroup | process_hits_v2.py:872-880 | EVENT_NR is the gap-group id when the group has enough chambers, at least 6 channels and at most max_hits hits, otherwise −1, both directions |
| TriggerlessEvents.LabelSorted | process_hits_v2.py:866 | the labelled table is in time order |
| TriggerlessEvents.EventNumbersIncrease | process_hits_v2.py:866-871 | event numbers never decrease along the table and row i has a number at most i |
| TriggerlessEvents.EventsAreTimeChains | process_hits_v2.py:866-871 | no gap between consecutive hits of one event exceeds 1.1·TDRIFT |
| EventNumbers.EventNr | process_hits_v2.py:151-152 | any four byte counters give an id below 2^20 |
| EventNumbers.NibblesRoundTrip | process_hits_v2.py:151-152 | with 4-bit counters the id is the hexadecimal number a b c d, below 2^16, and the counters read back from it |
| EventNumbers.NibblesDetermineId | process_hits_v2.py:151-152 | two sets of 4-bit counters with the same id are equal |
| EventNumbers.EventNrExample | process_hits_v2.py:151-152 | counters 3, 5, 9, 2 give 0x3592 |
| EventNumbers.PackBits | process_hits_v2.py:220 | packbits of n ≤ 8 flags is at most 256 − 2^(8−n), so it fits in a byte |
| EventNumbers.TriggerCodeRoundTrip | process_hits_v2.py:218-220 | the trigger code is 4·p0 + 2·p1 + p2 below 8 and each flag reads back from its bit |
| EventNumbers.TriggerCodesFlagPresence | process_hits_v2.py:266-269 | the trigger code flags exactly the trigger channels present in the group |
| EventNumbers.FirstIndex | process_hits_v2.py:199-206 | the first hit on a channel, or −1 exactly when the channel is absent (duplicates keep the first entry) |
| EventNumbers.Summarize | process_hits_v2.py:197-227 | a group's id is its decoded counters, its trigger flag says the trigger channel is present, and its trigger time is that of a hit on it |
| EventNumbers.Decide | process_hits_v2.py:208-246 | a group is excluded exactly when --events is given without its id, recorded without trigger (with its measured trigger bits) exactly when it is not excluded and lacks the trigger channel, skipped as a backward jump exactly when its id is not above the last, and accepted otherwise; t0 is trigger time + TIME_OFFSET; the forward-jump flag exactly when no --events, last > 0 and the jump exceeds 20 |
| EventNumbers.SkipKeepsLast | process_hits_v2.py:228-246 | a skipped group keeps last_evt_id and an accepted one raises it to its id |
| EventNumbers.LastNeverDecreases | process_hits_v2.py:183-246 | last_evt_id never decreases along the groups |
| EventNumbers.AcceptedIdsIncrease | process_hits_v2.py:229-246 | the ids that receive a TIME0 strictly increase |
| EventNumbers.SortedSignals | process_hits_v2.py:160-168 | the signal hits sorted by bunch-crossing count, as a permutation |
| EventNumbers.GroupColumn | process_hits_v2.py:172-175 | every hit that is not a signal hit gets evt_group −1 |
| EventNumbers.GroupOfSignalHit | process_hits_v2.py:168-174 | a signal hit's group is the gap-group id at its sorted position |
| EventNumbers.SignalHitsAreGrouped | process_hits_v2.py:168-174 | every signal hit is in one of the groups 0..n−1 |
| EventNumbers.GroupsFollowBxOrder | process_hits_v2.py:168-172 | group numbers follow the bunch-crossing order |
| EventNumbers.GroupRows | process_hits_v2.py:180-197 | the hits of one group are exactly the rows carrying its id |
| EventNumbers.Members | process_hits_v2.py:257-278 | the members of an event are exactly the rows in its open window or its group, ascending |
| EventNumbers.BufferSound | process_hits_v2.py:277-279 | every buffered assignment comes from an accepted group with its id and t0, and names a row in its window or group |
| EventNumbers.BufferPrefix | process_hits_v2.py:277-279 | the buffer only grows: what earlier groups add stays in front of what later groups add |
| EventNumbers.BufferComplete | process_hits_v2.py:277-279 | every row in an accepted group's window or group is buffered with its id and t0 |
| EventNumbers.RowOf | process_hits_v2.py:185-191 | a group leaves an event-table row numbered −1 exactly when it was excluded or jumped backward |
| EventNumbers.DropUnnumbered | process_hits_v2.py:288-291 | the event table keeps exactly the rows with an event number |
| EventNumbers.JumpLosersPositive | process_hits_v2.py:236-241 | a forward jump only invalidates positive ids, so it changes nothing while every hit still has EVENT_NR −1 |
| EventNumbers.GroupStep | process_hits_v2.py:194-279 | one group extends the last id, the buffer and the invalidated ids by its decision |
| EventNumbers.MarkStep | process_hits_v2.py:241 | invalidating one more id adds it to the invalidated ids |
| EventNumbers.WalkedSkip | process_hits_v2.py:209-232 | an excluded group or a backward jump leaves the loop state unchanged |
| EventNumbers.WalkedNoTrigger | process_hits_v2.py:213-223 | a group without the trigger channel only fills its own row of the event table |
| EventNumbers.WalkedAccept | process_hits_v2.py:234-279 | an accepted group fills its row, buffers its members, becomes the last id and, after a forward jump, resets the previous event |
| EventNumbers.MarkedAccept | process_hits_v2.py:234-241 | after an accepted group the hit table has reset exactly the ids invalidated by forward jumps so far |
| EventNumbers.VisitGroup | process_hits_v2.py:197-279 | one pass of the group loop keeps the walk invariant |
| EventNumbers.WalkGroups | process_hits_v2.py:194-291 | the loop yields the event table of its decisions and the buffer, and resets only hits of invalidated ids |
| EventNumbers.Seed | process_hits_v2.py:158 | the buffer starts with the leading rows labelled 0 or 1, each with the EVENT_NR and TIME0 it holds on entry |
| EventNumbers.CalcEventNumbers | process_hits_v2.py:155-292 | calc_event_numbers returns the decided event table and the buffer (the seed rows, then every accepted group's members with its id and t0); the hit table only loses ids to forward jumps, and is unchanged while unassigned |
| Tables.WindowEdges | process_hits_v2.py:260 | the open and the closed event windows differ only at their two edges, and contain t0 |
| Tables.InvalidateAbsentId | process_hits_v2.py:241 | invalidating an id no hit carries changes nothing |
| Tables.EventTime0Effect | process_hits_v2.py:1047-1049 | the trigger-mode commit sets TIME0 on exactly the event's hits and changes nothing else |
| Tables.RewindowEffect | process_hits_v2.py:1050-1057 | after the trigger-less commit a hit belongs to the event exactly when it is in the closed window, with TIME0 t0; the event's other hits lose their number; others are unchanged |
| Tables.KeptRows | process_hits_v2.py:1058 | the event rows kept are rows of accepted events, and every such row is kept |
| Tables.KeptRowsAppend | process_hits_v2.py:1058 | the drop distributes over concatenation, so kept rows stay in table order |
| Tables.HitTable.AssignPositions | process_hits_v2.py:136-145 | every row with TIME0 > 0 gets its drift positions, the rest is unchanged |
| Tables.HitTable.InvalidateEvent | process_hits_v2.py:241 | hits of the id get EVENT_NR −1, others unchanged |
| Tables.HitTable.SetEventTime0 | process_hits_v2.py:1049 | the event's hits take TIME0 t0 |
| Tables.HitTable.RewindowEvent | process_hits_v2.py:1052-1057 | the event's hits lose their number, then hits in the closed window take it with t0 |
| Tables.HitTable.KeepAcceptedEvents | process_hits_v2.py:1059 | the hit table becomes the row drop keeping the hits of accepted events |
| Tables.EventTable.SetTime0 | process_hits_v2.py:1046 | the event's row takes TIME0 t0 |
| Tables.EventTable.KeepAccepted | process_hits_v2.py:1058 | the event table becomes exactly its rows of accepted events |
| Meantimer.AngleWindow | process_hits_v2.py:336 | the chamber's angle window is one of MEANTIMER_ANGLES, Python's negative index included |
| Meantimer.SpreadIsLargestDifference | process_hits_v2.py:329 | `max - min` of three times is non-negative and is the largest of their pairwise differences |
| Meantimer.ChannelRows | process_hits_v2.py:321-324 | the hits of a sub-group on one channel are exactly those positions, in order |
| Meantimer.FlattenMembers | process_hits_v2.py:322-339 | a loop that appends each item's results produces a value exactly when one of the items produces it |
| Meantimer.NestedMembers | process_hits_v2.py:324-339 | the nested loops over t1, t2 and t3 produce a value exactly when one combination of one hit per channel produces it |
| Meantimer.StepQualifies | process_hits_v2.py:325-339 | a combination of hits on the triple's channels contributes (t0, angle) exactly when its spread is at most 1.1·TDRIFT, meantimereq gives (t0, angle) and the angle is strictly inside the window |
| Meantimer.TripletSound | process_hits_v2.py:323-339 | every result of a triple's loops is the solution of a qualifying combination of that triple in that sub-group |
| Meantimer.TripletComplete | process_hits_v2.py:323-339 | the solution of every qualifying combination of the triple in the sub-group is among the triple's results |
| Meantimer.ThirdHits | process_hits_v2.py:326-339 | the t3 loop appends exactly the results of its combinations, in loop order |
| Meantimer.SecondHits | process_hits_v2.py:325-339 | the t2 loop appends exactly the results of its t3 loops, in loop order |
| Meantimer.TripletResults | process_hits_v2.py:323-339 | the lists built by one triple's nested loops are exactly its results, every combination in loop order |
| Meantimer.PatternTriplets | process_hits_v2.py:317-319 | the triples tried are exactly the pattern keys of three distinct present channels |
| Meantimer.LeastTriple | process_hits_v2.py:317-322 | the least triple of a non-empty set belongs to it and is lexicographically below every other member |
| Meantimer.Enumerate | process_hits_v2.py:317-322 | a set of triples is listed with every member exactly once, in strictly ascending lexicographic order |
| Meantimer.TripletOrder | process_hits_v2.py:317-322 | the triples of a sub-group are listed once each, in ascending lexicographic order, and are exactly the pattern keys of three distinct channels of the sub-group |
| Meantimer.GroupSound | process_hits_v2.py:314-339 | every result of a sub-group with three or more channels is the solution of a qualifying combination in that sub-group |
| Meantimer.GroupComplete | process_hits_v2.py:314-339 | the solution of every qualifying combination in a sub-group is among the sub-group's results |
| Meantimer.TripletsOver | process_hits_v2.py:322-339 | the loop over the triples concatenates their results in the order they are tried |
| Meantimer.GroupResults | process_hits_v2.py:314-339 | a sub-group's lists are exactly the results of its triples, concatenated in ascending triple order |
| Meantimer.FewChannelsNoTriplet | process_hits_v2.py:307-308 | a sub-group with fewer than three channels has no pattern triple, so dropping it changes nothing |
| Meantimer.SolutionsSound | process_hits_v2.py:307-339 | every result of sub-groups 0..n−1 is the solution of a qualifying combination in one of them |
| Meantimer.SolutionsComplete | process_hits_v2.py:307-339 | the solution of every qualifying combination in sub-groups 0..n−1 is among their results |
| Meantimer.SubGroupResults | process_hits_v2.py:307-339 | the loop over the sub-groups yields exactly their results in sub-group order, those with fewer than three channels adding nothing |
| Meantimer.SubGroupsBounded | process_hits_v2.py:300-305 | a chamber's sub-group ids run from 0 up to the last hit's id |
| Meantimer.AllGroupsMember | process_hits_v2.py:307-339 | with ids between 0 and the last one, a value is a result of all sub-groups exactly when a qualifying combination produces it |
| Meantimer.MeantimerMember | process_hits_v2.py:294-341 | (t0, angle) is a result of meantimer_results exactly when a qualifying combination of the time-sorted hits in one sub-group produces it |
| Meantimer.MeantimerSolutionsExact | process_hits_v2.py:294-341 | the results of meantimer_results are exactly the solutions of qualifying combinations |
| Meantimer.QualifiedAngles | process_hits_v2.py:336-339 | every qualifying result has its angle strictly inside the chamber's MEANTIMER_ANGLES window |
| Meantimer.SolutionNeedsPattern | process_hits_v2.py:313-339 | a result only exists where a pattern triple is present |
| Meantimer.ResultsQualify | process_hits_v2.py:294-341 | lists equal to the results hold only solutions of qualifying combinations |
| Meantimer.ResultsComplete | process_hits_v2.py:294-341 | lists equal to the results hold the solution of every qualifying combination |
| Meantimer.ResultsMeaning | process_hits_v2.py:294-341 | lists equal to the results hold exactly the solutions, are empty without a pattern triple, and keep every angle inside the window |
| Meantimer.MeantimerResults | process_hits_v2.py:294-341 | the two lists have equal length and are exactly the meantimer results in loop order: every (t0, angle) is the solution of a qualifying combination, every such solution is returned, both are empty without a pattern triple, and every angle lies strictly inside the chamber's window |
| Acceptance.ChamberHits | process_hits_v2.py:958 | the hits of one chamber are exactly the event's hits with that SL |
| Acceptance.MultiLayerChambers | process_hits_v2.py:932-934 | the chambers with three layers are chambers of the event |
| Acceptance.FilledChambers | process_hits_v2.py:937-940 | the chambers with enough channels are chambers of the event |
| Acceptance.MeantimerOrderCoversMultiLayer | process_hits_v2.py:950 | the meantimer runs on exactly the chambers with three or more layers, each once |
| Acceptance.MeantimerOrderIsByHitCount | process_hits_v2.py:950 | the meantimer runs in ascending hit count, ties by chamber |
| Acceptance.ChamberTzerosMember | process_hits_v2.py:958 | a present chamber's t0 list holds exactly the t0 values of the solutions on its time-sorted hits |
| Acceptance.ChamberMeantimer | process_hits_v2.py:958 | a chamber's t0 list is exactly the first list meantimer_results returns on its hits |
| Acceptance.MeantimersOver | process_hits_v2.py:954-961 | the loop pairs each chamber of the order, in that order, with its t0 list |
| Acceptance.ChamberMeantimers | process_hits_v2.py:950-961 | `tzeros_all` is exactly each chamber of the meantimer order with its t0 list, in that order |
| Acceptance.EventAccepted | process_hits_v2.py:929-965 | an event is accepted exactly when the three multiplicity cuts pass and mean_tzero keeps at least 2 of the runs' t0 values; an acceptance returns mean_tzero's result and the runs |
| Acceptance.MaxHitsCutNarrows | process_hits_v2.py:942-945 | an event passes the whole acceptance with --max_hits exactly when it passes without it and no chamber has more than 10 hits |
| Acceptance.MultiLayerHasThreeHits | process_hits_v2.py:932-950 | a chamber with three layers holds at least three hits |
| Acceptance.MeanWithinCluster | process_hits_v2.py:1031-1032 | the t0 candidate lies between the cluster's smallest and largest t0 |
| Acceptance.FirstLarge | process_hits_v2.py:1028-1030 | the first cluster with at least 2 values, every earlier one smaller, or −1 when there is none |
| Acceptance.FirstLargeAt | process_hits_v2.py:1028-1030 | a large cluster preceded only by small ones is the first large cluster |
| Acceptance.RefusedIffNoCandidate | process_hits_v2.py:1017-1041 | the event loop drops an event exactly when no t0 is a candidate for it, and the candidate, when there is one, is unique |
| Acceptance.PickTzero | process_hits_v2.py:1027-1039 | a t0 is returned exactly when some cluster is large and the re-acceptance with the max-hits cut passes, and it is then the mean of the first large cluster |
| Acceptance.EventTzero | process_hits_v2.py:1017-1041 | no t0 exactly when the event is refused (a first-acceptance cut, no large cluster, a failed re-acceptance or a negative mean); otherwise the t0 is the candidate |
| Acceptance.EventHits | process_hits_v2.py:971-974 | an event's examined hits are exactly its hits on acceptance channels |
| Acceptance.Committed | process_hits_v2.py:1045-1057 | the commits keep the hit table's length |
| Acceptance.CommittedTimes | process_hits_v2.py:1046 | the commits keep the event table's length |
| Acceptance.CommittedStep | process_hits_v2.py:1045-1057 | committing one more event applies its trigger-mode or trigger-less update after the earlier ones |
| Acceptance.AcceptedTzero | process_hits_v2.py:1027-1039 | the t0 committed for an accepted event is its candidate |
| Acceptance.KeepIfMembers | process_hits_v2.py:984-1043 | a filter over the examined events keeps an event exactly when it is examined and passes |
| Acceptance.KeepIfIncreasing | process_hits_v2.py:984-1043 | filtering strictly increasing event numbers keeps them strictly increasing |
| Acceptance.AcceptedEventsMeaning | process_hits_v2.py:984-1043 | an event is accepted exactly when it is examined, selected by `--events` (or none given) and not refused, and events examined in ascending order are accepted in ascending order |
| Acceptance.KeepMapPairs | process_hits_v2.py:1042-1047 | when every passing event stands in a relation to its value, the kept events and their values stand in it position by position |
| Acceptance.AcceptedTzerosAreCandidates | process_hits_v2.py:1027-1047 | every accepted event is committed with its candidate t0 |
| Acceptance.CommitEvent | process_hits_v2.py:1045-1057 | the commit of one accepted event in both tables, none without --update_tzero in trigger mode |
| Acceptance.EventVerdict | process_hits_v2.py:987-1041 | the loop's decision gives a t0 exactly when the event is accepted, and that t0 is the one committed |
| Acceptance.AcceptedStep | process_hits_v2.py:984-1043 | examining one more event appends it, with its t0, to the accepted lists exactly when the loop's verdict on it is an acceptance |
| Acceptance.RecordVerdict | process_hits_v2.py:1042-1057 | an accepting verdict appends the event and its t0 and commits it, keeping both tables equal to the commits so far; any other verdict changes nothing |
| Acceptance.ExamineAll | process_hits_v2.py:984-1057 | the event loop's lists are exactly the accepted events in key order with their t0, and both tables hold their commits |
| Acceptance.SelectAcceptedEvents | process_hits_v2.py:968-1059 | the accepted events are exactly the examined events that are selected and not refused, in strictly ascending order, each with its candidate t0; only their committed hits and rows remain |
| LocalFit.RemoveZeros | process_hits_v2.py:343-346 | keeps only points that are not all zero, and every such point |
| LocalFit.RemoveZerosAppend | process_hits_v2.py:343-346 | removezeros distributes over concatenation |
| LocalFit.RemoveZerosOfZeros | process_hits_v2.py:584-587 | an unwritten zero buffer leaves nothing |
| LocalFit.RemoveZerosKeepsNonZero | process_hits_v2.py:343-346 | a list without zero rows is kept, so removezeros is idempotent |
| LocalFit.Around | process_hits_v2.py:352 | np.around lies within 0.5 of its argument and is 0 exactly for −0.5..0.5 |
| LocalFit.AroundHalfToEven | process_hits_v2.py:352 | a half rounds to the even neighbour |
| LocalFit.Spread | process_hits_v2.py:350-355 | the spread is non-negative |
| LocalFit.SlopeGate | process_hits_v2.py:352-359 | the slope passes exactly when the height spread exceeds 0.5 and the position spread is at most max_slope times it |
| LocalFit.AllowedSlope | process_hits_v2.py:348-359 | allowed exactly when the height spread does not round to 0 and spread x / spread y ≤ max_slope |
| LocalFit.Xs | process_hits_v2.py:378 | the x values of the points |
| LocalFit.Ys | process_hits_v2.py:379 | the heights of the points |
| LocalFit.Dedup | process_hits_v2.py:364 | the same values, strictly ascending |
| LocalFit.Heights | process_hits_v2.py:364 | exactly the distinct heights, ascending |
| LocalFit.AtHeight | process_hits_v2.py:364-367 | exactly the points at one height |
| LocalFit.Groups | process_hits_v2.py:364-367 | one group per distinct height, in height order |
| LocalFit.GroupsPartition | process_hits_v2.py:364-367 | every group is non-empty and holds exactly its height's points |
| LocalFit.Prepend | process_hits_v2.py:368 | |ps|·|tails| combinations |
| LocalFit.PrependMembers | process_hits_v2.py:368 | a combination is a point followed by a tail, both directions |
| LocalFit.Product | process_hits_v2.py:368 | every combination has one point per group |
| LocalFit.ProductMembers | process_hits_v2.py:368 | the combinations are exactly the choices of one point from each group |
| LocalFit.ProductSize | process_hits_v2.py:368 | the product lists every choice once |
| LocalFit.Eval | process_hits_v2.py:381 | one fitted value per height |
| LocalFit.Trials | process_hits_v2.py:377-384 | one trial per combination |
| LocalFit.TrialAt | process_hits_v2.py:377-384 | the i-th trial is that of combination i |
| LocalFit.Search | process_hits_v2.py:377-395 | a pick is one of the trials seen |
| LocalFit.SearchPick | process_hits_v2.py:371-395 | no pick leaves the ceiling 20; a pick is an allowed trial with the best score below 20 |
| LocalFit.SearchNone | process_hits_v2.py:383-395 | without a pick every allowed trial scored at least 20 |
| LocalFit.SearchNonNegative | process_hits_v2.py:383-395 | the best score is never negative |
| LocalFit.SearchMinimal | process_hits_v2.py:383-395 | the best score is at most that of every allowed trial |
| LocalFit.SearchLastExact | process_hits_v2.py:386-390 | the last allowed exact fit is the pick, with score 0 |
| LocalFit.CombinationsOf | process_hits_v2.py:364-368 | every combination has one point per distinct height |
| LocalFit.FindFit | process_hits_v2.py:362-398 | find_fit is the best fit of the chamber's combinations |
| LocalFit.FitCombinations | process_hits_v2.py:370-398 | the loop returns the running best |
| LocalFit.Consider | process_hits_v2.py:377-395 | one pass replaces the best exactly by the search step, keeping the picked points and line |
| LocalFit.BestOfNone | process_hits_v2.py:371-398 | no fit means empty points, score 20, and every allowed combination had a residual of at least 40 |
| LocalFit.BestOfPick | process_hits_v2.py:377-398 | a fit is an allowed combination's points and fitted positions with score below 20 |
| LocalFit.BestOfMinimal | process_hits_v2.py:383-398 | the score returned is at most that of every allowed combination |
| LocalFit.BestOfLastExact | process_hits_v2.py:386-390 | the last allowed exact fit is returned with score 0 |
| LocalFit.CombinationShape | process_hits_v2.py:364-368 | a combination takes one chamber point per distinct height, heights ascending |
| Reconstruction.LeftsThenRights | process_hits_v2.py:405-409 | the left points of the hits, then their right points |
| Reconstruction.Chambers | process_hits_v2.py:405-424 | four chambers, each with two points per hit |
| Reconstruction.LocalFits | process_hits_v2.py:426-441 | an accepted event has four fits |
| Reconstruction.LocalFitsContract | process_hits_v2.py:426-441 | accepted exactly when every chamber has points and a fit; the fits are then the chambers' best fits, each one point per height below 20 |
| Reconstruction.LocalFitsEven | process_hits_v2.py:426-441 | accepted fits have as many heights as positions |
| Reconstruction.FitShape | process_hits_v2.py:432-438 | a chamber fit has one point per distinct height and a score below 20 |
| Reconstruction.LocalGate | process_hits_v2.py:426-441 | the gate rejects an empty chamber before fitting, then a chamber without a fit |
| Reconstruction.Shift | process_hits_v2.py:470-472 | every height moved by the chamber offset |
| Reconstruction.Records | process_hits_v2.py:469-477 | four rows per accepted event |
| Reconstruction.TaggedRecords | process_hits_v2.py:637-645 | four rows each led by the event number |
| Reconstruction.Slice | process_hits_v2.py:493-496 | Python slicing agrees with the plain slice in range |
| Reconstruction.SplitRecord | process_hits_v2.py:469-472 | reading a row back gives its positions and shifted heights, tagged or not |
| Reconstruction.SplitTagged | process_hits_v2.py:674-677 | the tagged reading of a tagged even row is the plain reading |
| Reconstruction.RecordsEven | process_hits_v2.py:469-496 | each row has even length and reads back as its fit |
| Reconstruction.RecordsTagged | process_hits_v2.py:637-645 | the tagged rows are the plain rows led by the event number |
| Reconstruction.LocalReconstruction | process_hits_v2.py:400-479 | four rows and 1 exactly when the event passes the local gate, no rows and 0 otherwise |
| Reconstruction.Verdicts | process_hits_v2.py:483-486 | one verdict per four rows |
| Reconstruction.CountInRange | process_hits_v2.py:667-668 | the count is at most the size of the range, and equal to it when every event passes |
| Reconstruction.VerdictsTagged | process_hits_v2.py:674-677 | both global stages reach the same verdicts on tagged and plain rows |
| Reconstruction.TotalReconstruction | process_hits_v2.py:481-560 | counts the events passing the global gate |
| Reconstruction.CountEvents | process_hits_v2.py:667-732 | counts the passing events whose index lies in the range |
| Reconstruction.ReadEvent | process_hits_v2.py:670-699 | four rows from j are the k-th event's global verdict |
| Reconstruction.Halves | process_hits_v2.py:493-496 | a row read back into positions and heights |
| Reconstruction.Passes | process_hits_v2.py:511-536 | the 2D gate, then the 3D gate, as the global verdict |
| Reconstruction.Reconstruct | process_hits_v2.py:562-569 | local is 1 exactly when the local gate passes, and the global count is at most local |
| EventLines.ChamberOf | process_hits_v2.py:589-612 | every hit goes to one of the four buffers |
| EventLines.Written | process_hits_v2.py:588-612 | at most two points per hit |
| EventLines.WrittenNext | process_hits_v2.py:588-612 | one more hit adds its two points to its own chamber only |
| EventLines.Parsed | process_hits_v2.py:614-617 | four chambers per line |
| EventLines.HitFields | process_hits_v2.py:579-580 | the line after its first two numbers |
| EventLines.Put | process_hits_v2.py:590-594 | a hit's two points are written at the counter |
| EventLines.FilledRemoveZeros | process_hits_v2.py:614-617 | removezeros on a filled buffer keeps the non-zero written points |
| EventLines.ParseLine | process_hits_v2.py:579-617 | the parser gives every chamber its parsed points |
| EventLines.ScatterLine | process_hits_v2.py:588-612 | the parser loop writes every hit into its chamber's buffer |
| EventLines.ScatterHit | process_hits_v2.py:589-612 | one pass writes the hit's two points into its chamber only |
| EventLines.HitTokens | process_hits_v2.py:775-776 | five numbers per hit |
| EventLines.LineTokens | process_hits_v2.py:773-776 | five numbers per hit, hit after hit |
| EventLines.Pairs | process_hits_v2.py:775-776 | two points per hit |
| EventLines.InChamber | process_hits_v2.py:768-776 | only hits of that chamber |
| EventLines.InChamberAppend | process_hits_v2.py:768-776 | the chamber selection distributes over concatenation, so its hits stay in order |
| EventLines.WrittenOfLine | process_hits_v2.py:588-612 | reading a written line gives each chamber exactly its hits' points, in order |
| EventLines.LastHitTokens | process_hits_v2.py:775-776 | the last hit's numbers follow the earlier ones |
| EventLines.ChamberOfSl | process_hits_v2.py:589-606 | SL 0..3 goes to its own chamber |
| EventLines.WrittenPrefix | process_hits_v2.py:588-612 | the points of the first hits depend only on their numbers |
| EventLines.ParseOfLine | process_hits_v2.py:579-617 | parsing a line written by save_root gives each chamber the non-zero points of its hits |
| AllReconstruction.LineFits | process_hits_v2.py:579-633 | an accepted line has four fits |
| AllReconstruction.LinesFits | process_hits_v2.py:576-633 | one verdict per line |
| AllReconstruction.AcceptedLines | process_hits_v2.py:632-651 | the accepted count, events − rej_count, is at most the number of lines |
| AllReconstruction.AllLinesAccepted | process_hits_v2.py:632-651 | the accepted count equals the number of lines exactly when every line passes the local gate |
| AllReconstruction.LocalReconstructionAll | process_hits_v2.py:571-653 | the rows of the accepted lines, in order, each led by its line number; the count of accepted lines, at most the number of lines |
| AllReconstruction.ReadLine | process_hits_v2.py:576-633 | one line's verdict extends the verdicts before it |
| AllReconstruction.GrowGated | process_hits_v2.py:637-649 | accepted lines keep four even fits |
| AllReconstruction.RowsBlocks | process_hits_v2.py:637-649 | four rows per accepted line |
| AllReconstruction.TaggedAppend | process_hits_v2.py:637-649 | tagging commutes with appending blocks |
| AllReconstruction.RowsTagged | process_hits_v2.py:637-649 | the tagged rows are the plain rows led by their number |
| AllReconstruction.NumberedAppend | process_hits_v2.py:641-649 | a block numbered above the earlier ones keeps the numbering |
| AllReconstruction.RowsTags | process_hits_v2.py:641-649 | every row starts with its line number, the four rows of a block share it, and it increases between blocks |
| AllReconstruction.TotalReconstructionAll | process_hits_v2.py:655-734 | counts the passing events of the block range |
| AllReconstruction.GlobalAll | process_hits_v2.py:655-734 | the whole-file count equals that of the trigger-mode global gate on the same fits, and is at most the range |
| AllReconstruction.ReconstructAll | process_hits_v2.py:736-739 | the count is that of the trigger-mode global gate on the accepted lines' fits in the range, at most the range size |

## Left out

- Command-line parsing, file checks, the driver loop, multiprocessing, plotting and progress printing: these are I/O and orchestration.
- CSV ingestion, the HEAD and channel-139 row drops, dtype coercion and the floating-point TIME_ABS computation (process_hits_v2.py:792-821): TIME_ABS is an input real.
- Floating point: times and positions are exact reals, so 1.1·TDRIFT is exactly 429 rather than the double 429.00000000000006. The float16 and float32 column storage is not modelled.
- Integer widths: the uint64 (line 168), uint16 (line 305) and int32 (line 870) group-id casts never wrap here.
- The least-squares numerics (`np.polyfit`, `np.poly1d`, `np.linalg.lstsq`) are parameters: a fitter returning a line and an optional residual, and residual functions for the 2D and 3D gates.
- Reconstruction.Passes: the global gate takes the residual as a number. An empty residual array, on which the source's `float(...)` would raise, is not modelled.
- The pattern module (`PATTERN_NAMES`, `meantimereq`, `mean_tzero`, `tzero_clusters`, `ACCEPTANCE_CHANNELS`) is foreign code and becomes uninterpreted parameters.
- Meantimer.GroupResults: tries a sub-group's pattern triples in ascending lexicographic order. Python iterates its `set` of triples (process_hits_v2.py:317-322) in hash order, so the source may list a sub-group's results in another order. The results themselves are the same, and the contract states them exactly; only their order within a sub-group may differ.
- Meantimer.MeantimerResults: lists results in the order GroupResults fixes, for the same reason; sub-groups are taken in the source's order, and hits with equal TIME_ABS in input order, where pandas' default sort leaves their order unspecified.
- EventNumbers.CalcEventNumbers: returns the buffer of (row, EVENT_NR, TIME0) assignments. The final write-back into the hit table (process_hits_v2.py:283) is not modelled, because it relies on pandas duplicate-label alignment. Index labels are not modelled either: the number of leading rows whose label is 0 or 1, which `allhits.loc[:1]` seeds the buffer with (line 158), is a parameter of at most two.
- process_hits_v2.py:177 indexes the hit table by group-id values. Only the gap-grouping rule and the per-group logic are modelled: each signal hit belongs to its own gap group.
- The exception handler around the window at process_hits_v2.py:259-263 is not modelled.
- The forward-jump invalidation (process_hits_v2.py:241) runs before any EVENT_NR is written. The model proves that it changes nothing then and does not promise that the previous event loses its hits.
- The candidate re-acceptance at process_hits_v2.py:1034 takes `.index` of a boolean Series, which is every row of the event. The model therefore runs the re-acceptance on the whole event, so every cluster gets the same verdict.
- Acceptance.SelectAcceptedEvents: models select_accepted_events without `--double_hits` (process_hits_v2.py:991-1006). With that flag an event in which no cell has two hits is skipped, every other event is appended to the accepted list before any cut (and a second time when it then passes them), and the per-cell multiplicity and time-difference columns are written; the model has no such setting, so with the flag the selection is decided by the double-hit test and not as stated here.
- `sl_channels` is always None, so its check (1009-1016) never applies.
- The TIME0_BEFORE/TIME0_AFTER columns, the `sync_triplets` statistics, the per-event loop of `analyse` (120-133), and the constant-column event table of the trigger-less mode (881-886) are not modelled.
- Acceptance.SelectAcceptedEvents: requires a non-empty ACCEPTANCE_CHANNELS, because the source's `pd.concat` of an empty list raises.
- Reconstruction.TotalReconstruction: requires whole blocks of four rows, as every event writes four; other inputs make the source fail.
- AllReconstruction.LocalReconstructionAll: requires every line to hold whole hits of five numbers; other lines make the source's parser fail. It also returns the accepted count, which the source computes and discards.
- AllReconstruction.ReconstructAll: `end=None` is not modelled, so the range is given as integers; `int()` truncation of the range arguments is taken as done.
- The range of the whole-file global stage is over positions of row blocks (accepted lines), as the source's `start*4 <= j < end*4` is. The tag leading each row is the line number.
- total_reconstruction_all returns nothing. The model returns its count, which the source only prints in a commented-out line.
- Text formatting and reading: only the five-numbers-per-hit layout of `save_root` is modelled; the decimal text and its parsing are not. The hit selection and counters of `save_root` are also not modelled.
- Rows of different lengths are padded with NaN in the source's DataFrame and read back with `dropna`. The model keeps rows of their own length and does not model NaN coordinate values.
