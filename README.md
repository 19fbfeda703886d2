# OFDMA multi-user scheduling for an 802.11ax access point, in Dafny

This project models the integer and sequence logic of three variants of the
ns-3 round-robin multi-user scheduler of an 802.11ax (HE) access point:

- `dlulratio_scheduler.cpp` is the DL/UL-ratio scheduler. It has:
  - the duty-cycle gate of `SelectTxFormat` (about ten downlink transmissions per uplink one, plus a BSRP limiter);
  - the per-AC station registry;
  - the uplink candidate walk of `GetTxVectorForUlMu`;
  - the demand-proportional RU packer `prop_scheduler_fun`, with its budget, shares, selection, correction and placement passes;
  - the equal split of `FinalizeTxVector`, used by `ComputeDlMuInfo`;
  - `TrySendingBasicTf`, with its buffer-status fold and grant duration.
- `ns3.41/rr-multi-user-scheduler.cc` is the ns-3.41 scheduler. It has:
  - the BSRP limiter of `SelectTxFormat`;
  - the registry without duplicate checks;
  - `TrySendingBasicTf`: the Block Ack filter, the capped multimap admission, the RU type pass and its truncation, `AssignRuIndices` and the duration choice;
  - the RU assignment of `ComputeDlMuInfo`.
- `Old/basictf.cc` is an earlier `TrySendingBasicTf`. Every station is a candidate, every non-null report is admitted, and the RU count is not clamped.

The buffer reports follow the Queue Size encoding of section 9.2.4.5.6 of IEEE Std 802.11-2020:

- 0 means empty;
- k in 1..253 means k×256 octets;
- 254 means unbounded (0xffffffff);
- 255 means unknown, and counts as `UlPsduSize`.

The RU classes and their counts per channel are the HE tone plan of section 27.3.2.2 of IEEE Std 802.11ax-2021. Costs are counted in 26-tone units: 26→1, 52→2, 106→4, 242→9, 484→18, 996→37.

The model has three kinds of parts:

- Code that mutates state step by step is written as Dafny classes and methods with `while` loops:
  - the `Scheduler` classes hold the counters, the station lists, `m_ul_candidates` and `m_candidates`;
  - the packer, the placement, the folds, the admission loop and the RU hand-out loops are methods.
- Each of those methods is proved equal to a function that states its result, and that function's properties are proved as lemmas. For the packer:
  - `Select` returns `Selection`, `Correct` returns `Correction`;
  - `Place20`, `Place40` and `Place80` return `Placement` for their width;
  - `PackOn` returns `PackIn`, and `PropSchedulerFun` returns `Pack`, the composition of shares, selection, correction and placement.
- Every ns-3 call whose body is not part of this model is an input: the `TrySending*` answers, `TryAddMpdu`, `CalculateTxDuration`, the HE RU library, `GetMaxBufferStatus`, the Block Ack agreement query and `canBeSolicited`.

Modules (one per file):

- `Wrappers`: `Option`, `Result`.
- `HeRu`: tone classes, costs and the tone plan.
- `Stations`: registry records and the STA-ID-ordered user table.
- `Ordering`: the stable descending sort and `std::multimap` emplace.
- `BufferStatus`: report decoding and the `maxBufferSize` fold.
- `Grant`: the grant-duration decision.
- `Central26`: `std::size_t` arithmetic and the central 26-tone count.
- `RuPacker`, `RuPlacement`, `PropScheduler`: the packer.
- `RuAssignment`: hands RUs out in candidate order.
- `EqualSplit`: the type pass and `AssignRuIndices`.
- `MuScheduler`: TX formats, trigger types and attempt outcomes.
- `UlAdmission`: the fold and the multimap admission.
- `BasicTf`: the shared end of `TrySendingBasicTf`.
- `UlSolicitation`: `GetTxVectorForUlMu`, `FinalizeTxVector` and `TrySendingBasicTf` of the DL/UL-ratio file.
- `DlUlRatio`, `RrScheduler`, `OldBasicTf`: one per source file.

## Model

| member | source | states |
|---|---|---|
| HeRu.WidthOf | dlulratio_scheduler.cpp:786-799 | the packer handles exactly the 20, 40 and 80 MHz channels; every other width is a channel it leaves unallocated |
| HeRu.RankCost | dlulratio_scheduler.cpp:176-177 | tone plan: a class belongs to a channel iff the channel has at least one RU of it; it costs no more than the budget (9, 18, 37 units); the full-channel class costs exactly the budget and occurs once; every smaller class costs strictly less |
| RuPacker.ProportionalShares | dlulratio_scheduler.cpp:180-184 | each candidate's share is floor(demand·units/total demand), and the shares never add up to more than the channel |
| RuPacker.SharesBound | dlulratio_scheduler.cpp:180-184 | rounding down loses, in total, no more than exact division would give: Σshares·Σdemand ≤ units·Σdemand |
| RuPacker.SharesFit | dlulratio_scheduler.cpp:180-184 | one share per candidate, and the shares add up to no more than the channel's 26-tone units |
| RuPacker.WholeDemandWholeShare | dlulratio_scheduler.cpp:180-184 | a candidate holding all of the demand (in particular a single candidate) gets the whole budget as its share |
| RuPacker.SelectedClassIsLargestFit | dlulratio_scheduler.cpp:195-220 | the share-to-class chain picks, for every share between 1 and the budget, the largest class of the channel whose cost does not exceed the share, nothing for other shares, and the full-channel class exactly for the whole budget |
| RuPacker.SelectionSpec | dlulratio_scheduler.cpp:190-222 | the selected array holds classes of the channel within the per-class caps, a full-channel class only alone, costs no more than the budget, has at most one entry per share, and is exactly the full-channel class when the first share is the whole budget |
| RuPacker.SelectionOnlyPicks | dlulratio_scheduler.cpp:190-222 | every selected entry is the class the chain picks for its share, in share order: the selection only leaves picks out |
| RuPacker.SelectionCapsPicks | dlulratio_scheduler.cpp:195-215 | a pick is left out only at its class's cap: of every class the selection keeps min(picks of that class, tone-plan count) entries |
| RuPacker.SelectionKeepsEveryPick | dlulratio_scheduler.cpp:190-222 | when the picks respect the caps and the full-channel class comes alone, the selection is exactly the picks |
| RuPacker.Select | dlulratio_scheduler.cpp:190-222 | the selection loop returns the array `Selection` describes and the unspent units, so the spent cost plus the remaining units equal the budget, within the caps and the channel |
| RuPacker.AddOne | dlulratio_scheduler.cpp:195-215 | pushing a class whose counter is below its tone-plan count keeps the caps and adds exactly its cost |
| RuPacker.UpgradeTableSound | dlulratio_scheduler.cpp:223-268 | the correction guards are the cost table: each guard tests exactly the cost difference of its upgrade, every larger class is offered largest first, the first is the full-channel upgrade, and each cap is the tone-plan count of its target (the 80 MHz 106→484 guard counts 242-tone RUs instead) |
| RuPacker.GuardIsFirst | dlulratio_scheduler.cpp:227-268 | the else-if chain of guards for a class takes the first upgrade of its table whose cost difference the remaining units cover, and none when no guard holds |
| RuPacker.CorrectionSpec | dlulratio_scheduler.cpp:223-270 | the correction keeps the array's length, the channel, the caps and a lone full-channel entry; the total cost never drops and never exceeds the budget; each entry stays or becomes a target of one of its own upgrades, so entries only grow |
| RuPacker.LoneEntryWidens | dlulratio_scheduler.cpp:223-270 | a lone selected entry, with the rest of the budget unspent, is widened to the whole channel |
| RuPacker.CorrectionIdle | dlulratio_scheduler.cpp:223-270 | when no guard holds for any entry, the correction leaves the array as it is |
| RuPacker.Correct | dlulratio_scheduler.cpp:223-270 | the correction loop returns the array `Correction` describes, with the length, the channel, the caps and the growth that `CorrectionSpec` proves |
| RuPacker.UpgradeOne | dlulratio_scheduler.cpp:238-265 | a charged upgrade keeps the channel and the caps, adds no whole-channel entry, and changes the total cost by exactly the cost difference of the two classes |
| RuPlacement.RangeIndexFirst | dlulratio_scheduler.cpp:292-305 | the index lookup names the first listed range holding the cursor, and nothing exactly when no range holds it |
| RuPlacement.Index20 | dlulratio_scheduler.cpp:289-306 | at 20 MHz, the 52-tone RUs 1 to 4 cover units 1-2, 3-4, 6-7 and 8-9 and the 106-tone RUs 1 and 2 cover units 1-4 and 6-9 |
| RuPlacement.RangesCover | dlulratio_scheduler.cpp:289-306 | whenever the "still fits" guard lets a wider RU through, the cursor, after stepping over the centre unit, lies in a listed range, so the index is a valid RU index and the raw-cursor fall-through is never taken |
| RuPlacement.TableTiles | dlulratio_scheduler.cpp:289-306 | every range table tiles its channel from unit 1 past the last start, one range per RU of its class, centre units excepted |
| RuPlacement.Placement20Spec | dlulratio_scheduler.cpp:276-322 | the 20 MHz walk places a class-preserving prefix of the array with valid RU indices, and a final 26-tone entry on RU 5 |
| RuPlacement.Placement40Spec | dlulratio_scheduler.cpp:460-536 | the 40 MHz walk places a class-preserving prefix with valid indices; 26-tone entries among the last two take RU 5, then RU 14 |
| RuPlacement.PlacementSpec | dlulratio_scheduler.cpp:276-785 | on every channel the walk places a class-preserving prefix with valid RU indices, and a lone full-channel entry on RU 1 |
| RuPlacement.Quarters40StepOverCentres | dlulratio_scheduler.cpp:460-536 | four 106-tone entries at 40 MHz take RUs 1 to 4: the cursor steps over unit 5 and unit 14 |
| RuPlacement.CentreTones40 | dlulratio_scheduler.cpp:460-536 | four 52-tone entries and two 26-tone entries at 40 MHz take 52-tone RUs 1 to 4, past unit 5, and the centre 26-tone RUs 5 and 14 |
| RuPlacement.Eighths80StepOverCentres | dlulratio_scheduler.cpp:708-785 | eight 106-tone entries at 80 MHz take RUs 1 to 8: the cursor steps over units 5, 14, 19, 24 and 33 |
| RuPlacement.Place20 | dlulratio_scheduler.cpp:276-322 | the 20 MHz loop returns the walk `Placement` describes: a class-preserving prefix with valid RU indices, a final 26-tone entry on RU 5, a lone 242-tone entry on RU 1 |
| RuPlacement.Place40 | dlulratio_scheduler.cpp:460-536 | the 40 MHz loop returns the walk `Placement` describes: a class-preserving prefix with valid indices, 26-tone entries among the last two on RU 5, then 14, a lone 484-tone entry on RU 1 |
| RuPlacement.Place80 | dlulratio_scheduler.cpp:708-785 | the 80 MHz loop returns the walk `Placement` describes: a class-preserving prefix with valid indices, a lone 996-tone entry on RU 1 |
| PropScheduler.PackSpec | dlulratio_scheduler.cpp:153-800 | the packer's allocation is empty for other widths; otherwise it has valid RU indices within the budget and the caps, at most one RU per candidate, and one full-channel RU 1 for a single candidate |
| PropScheduler.PackOn | dlulratio_scheduler.cpp:153-785 | shares, selection, correction and the width's placement loop compose to `PackIn`, the placement of the corrected selection |
| PropScheduler.PropSchedulerFun | dlulratio_scheduler.cpp:786-800 | `prop_scheduler_fun` returns `Pack(demands, width)`: nothing for other widths, and otherwise the guarantees of `PackSpec` |
| PropScheduler.TwoEqualDemands20 | dlulratio_scheduler.cpp:153-322 | two equal demands at 20 MHz get the two 106-tone RUs |
| PropScheduler.OverlappingRus20 | dlulratio_scheduler.cpp:276-322 | demands 2, 4, 2 at 20 MHz get 52-tone RU 1, 106-tone RU 1 and 52-tone RU 3, and the 106-tone RU 1 covers the 52-tone RU 1 |
| PropScheduler.NineEqualDemandsReuseRu5 | dlulratio_scheduler.cpp:305-316 | nine equal demands at 20 MHz get 26-tone RUs 1 to 8 and then RU 5 a second time |
| BufferStatus.FoldStep | dlulratio_scheduler.cpp:1347-1372 | one step of the fold as written (254 assigns 0xffffffff, 255 takes `UlPsduSize`, k takes k·256) is the maximum with the decoded report |
| BufferStatus.NotLimitedDominates | dlulratio_scheduler.cpp:1347-1372 | one report of 254 makes `maxBufferSize` 0xffffffff |
| BufferStatus.MaxBufferIsMax | Old/basictf.cc:39-58 | `maxBufferSize` bounds every decoded report and is one of them, or 0 when there is none |
| BufferStatus.MaxBufferPositive | dlulratio_scheduler.cpp:1347-1378 | with a non-null `UlPsduSize`, `maxBufferSize` is positive exactly when some station reported a non-empty buffer |
| Central26.SizeSub | ns3.41/rr-multi-user-scheduler.cc:726-733 | `std::size_t` subtraction: the difference when it is non-negative, otherwise the difference wrapped modulo 2^64 |
| Central26.CentralCountFits | ns3.41/rr-multi-user-scheduler.cc:726-733 | no central RUs when disabled; with no more equal-sized RUs than candidates, min(remaining candidates, library count) central RUs, which never push the served total past the candidates; with more RUs than candidates the wrapped difference lets the library count through |
| Grant.ChooseDuration | ns3.41/rr-multi-user-scheduler.cc:875-935 | the two folds over the trigger's users and the choice between them compute the grant decision: NO_TX when the TXOP remainder is negative, the buffer time when it is shorter, otherwise NO_TX when the remainder is below the shortest `UlPsduSize` time, else the remainder |
| Grant.LongestIsMax | ns3.41/rr-multi-user-scheduler.cc:897-904 | `bufferTxTime` is non-negative and at least every user's buffer time |
| Grant.MinFoldIsMin | ns3.41/rr-multi-user-scheduler.cc:915-922 | with positive durations, the fold that restarts from zero is the true minimum and is attained |
| Grant.GrantFits | ns3.41/rr-multi-user-scheduler.cc:875-935 | a grant is never longer than the maximum PPDU duration nor, with a limited TXOP, than what is left of it after the overhead; it is non-negative whenever the TXOP is limited or the maximum PPDU duration is non-negative |
| Grant.GrantServes | ns3.41/rr-multi-user-scheduler.cc:906-935 | a grant either covers every station's buffer or lets at least one station send `UlPsduSize` octets |
| Ordering.SortDescSpec | dlulratio_scheduler.cpp:983-987 | the stable descending sort returns the same entries in non-increasing key order, entries with equal keys in their original order |
| Ordering.EmplaceSorted | ns3.41/rr-multi-user-scheduler.cc:669-672 | an emplace keeps the `greater` multimap in non-increasing key order |
| Ordering.EmplacePermutes | ns3.41/rr-multi-user-scheduler.cc:669-672 | an emplace adds exactly the new entry |
| Ordering.EmplaceStable | ns3.41/rr-multi-user-scheduler.cc:669-672 | among equal keys the emplaced entry goes last |
| Stations.SetUserSpec | Old/basictf.cc:97-101 | `SetHeMuUserInfo` on the STA-ID-keyed user map keeps it ordered, adds the STA-ID and maps it to the new RU, leaving the others alone |
| UlAdmission.CollectWithAgreement | ns3.41/rr-multi-user-scheduler.cc:593-608 | `m_ul_candidates` is the registry entries with a Block Ack agreement on some TID 0..7, in registry order |
| UlAdmission.CollectedSpec | ns3.41/rr-multi-user-scheduler.cc:593-608 | that list is a subsequence of the registry, holds exactly the entries with an agreement, and keeps AIDs unique |
| UlAdmission.AdmitStep | ns3.41/rr-multi-user-scheduler.cc:669-672 | one more candidate is admitted exactly when it qualifies and the cap is not reached |
| UlAdmission.FoldAndAdmit | ns3.41/rr-multi-user-scheduler.cc:634-674 | the loop yields the fold of the decoded reports and the multimap of the admitted candidates in stable non-increasing report order |
| UlAdmission.AdmittedPrefix | ns3.41/rr-multi-user-scheduler.cc:669-672 | the admitted stations are the first qualifying candidates, as many as the cap allows |
| UlAdmission.AdmittedQualify | ns3.41/rr-multi-user-scheduler.cc:669-672 | every admitted station is a candidate whose report qualifies |
| UlAdmission.MultimapSpec | ns3.41/rr-multi-user-scheduler.cc:669-672 | the multimap holds exactly the admitted stations, by non-increasing report, equal reports in candidate order |
| UlAdmission.MultimapEntries | ns3.41/rr-multi-user-scheduler.cc:669-672 | each multimap entry is a qualifying candidate keyed by its own report |
| UlAdmission.KnownUpToNineSpec | ns3.41/rr-multi-user-scheduler.cc:634-712 | at most nine stations are admitted, so the full-band switch never fires; uplink proceeds exactly when some candidate reported 1..254; a report of 255 raises the fold to `UlPsduSize` |
| UlAdmission.ServeNonEmptySpec | Old/basictf.cc:39-69 | every station with a non-null report is admitted, and with a non-null `UlPsduSize` the fold is positive exactly when somebody was, so the assertion of line 69 holds |
| EqualSplit.AssignTypes | ns3.41/rr-multi-user-scheduler.cc:741-835 | the type loop builds the type pass's table and served prefix, or trips its assertion |
| EqualSplit.TypePassSpec | ns3.41/rr-multi-user-scheduler.cc:741-835 | the type pass fails only when it asserts and runs out of candidates; it serves the first min(candidates, count + nCentral) of them, listed by ascending STA-ID, the first `count` with the equal size and the rest with 26 tones |
| EqualSplit.TypePassTypes | ns3.41/rr-multi-user-scheduler.cc:775-779 | every user of the type pass holds the equal size or 26 tones |
| EqualSplit.TypesOf | ns3.41/rr-multi-user-scheduler.cc:1443-1447 | `ruTypeSet` holds exactly the RU types present in the table |
| EqualSplit.Smallest | ns3.41/rr-multi-user-scheduler.cc:1458-1462 | `*ruTypeSet.begin()` is the smallest type of the set |
| EqualSplit.MainTypeSpec | ns3.41/rr-multi-user-scheduler.cc:1452-1461 | `AssignRuIndices` accepts one type alone or one type beside 26 tones, and then the main type is not 26 tones |
| EqualSplit.CollectTypes | ns3.41/rr-multi-user-scheduler.cc:1443-1447 | the first loop computes the set of types in the table |
| EqualSplit.PlaceUsers | ns3.41/rr-multi-user-scheduler.cc:1467-1481 | the second loop sets the RU of every user, by ascending STA-ID |
| EqualSplit.AssignRuIndices | ns3.41/rr-multi-user-scheduler.cc:1436-1483 | the method computes `AssignRuIndices`' table or its assertion failure |
| EqualSplit.RuIndicesSpec | ns3.41/rr-multi-user-scheduler.cc:1436-1483 | it keeps the users and their order and only sets RUs: main-type users take successive entries of `GetRusOfType`, the others successive central 26-tone RUs |
| EqualSplit.RuIndicesDistinct | ns3.41/rr-multi-user-scheduler.cc:1467-1481 | with duplicate-free RU lists that share no RU, no two users get the same RU |
| EqualSplit.TypePassAccepted | ns3.41/rr-multi-user-scheduler.cc:835-837 | the type pass never trips the type assertions of `AssignRuIndices` |
| RuAssignment.AssignRus | dlulratio_scheduler.cpp:2122-2149 | the hand-out loop computes the served prefix and the user table, or the failure when an RU list runs out |
| RuAssignment.UsersUpToSpec | dlulratio_scheduler.cpp:2131-2146 | the table lists exactly the served candidates by ascending AID, each with the RU of its position |
| RuAssignment.AssignmentSpec | dlulratio_scheduler.cpp:2122-2149 | the served candidates are the first min(candidates, total), each in the table with the RU of its position and nobody else; the hand-out fails only when the RU lists run out, so it succeeds on a non-empty list whenever the lists hold nRus and total - nRus entries |
| RuAssignment.NoSharedRu | dlulratio_scheduler.cpp:2131-2146 | with duplicate-free RU lists that share no RU, no two served candidates share an RU |
| DlUlRatio.StepKeepsCounters | dlulratio_scheduler.cpp:881-927 | with the duty cycle on, a step keeps the uplink credit in 0..1, the downlink credit at most 10 and the BSRP counter in 1..10 |
| DlUlRatio.UplinkNeedsCredit | dlulratio_scheduler.cpp:881-915 | both uplink branches are entered only with uplink OFDMA on and an uplink credit left after the refill; BSRP only with BSRP on and no BSRP trigger pending |
| DlUlRatio.RefillOnlyWhenSpent | dlulratio_scheduler.cpp:881-885 | the counters are refilled only when both are spent |
| DlUlRatio.CreditsSpent | dlulratio_scheduler.cpp:849-930 | the downlink credit drops by one exactly on a DL_MU_TX, the uplink credit exactly on a Basic trigger frame that went out; the returned format becomes the last format unless it is NO_TX, which leaves the last format as it was |
| DlUlRatio.BsrpLimiter | dlulratio_scheduler.cpp:897-910 | with the limiter on, a BSRP trigger goes out only when the counter runs out, which resets it to 10; otherwise it counts down and the scheduler tries downlink |
| DlUlRatio.RunKeepsCounters | dlulratio_scheduler.cpp:64-70 | from start-up on, whatever the attempts answer, the counters stay in range |
| DlUlRatio.AddOnceSpec | dlulratio_scheduler.cpp:1529-1564 | association keeps AIDs unique, leaves the list unchanged up to its old end, and appends the station with no credits when its AID is new |
| DlUlRatio.AddOnceUnique | dlulratio_scheduler.cpp:1529-1564 | association never puts an AID twice in a list |
| DlUlRatio.RemoveAidSpec | dlulratio_scheduler.cpp:1567-1592 | disassociation removes every entry with the AID and keeps every other entry in order |
| DlUlRatio.RemoveAidUnique | dlulratio_scheduler.cpp:1567-1592 | disassociation keeps a list free of duplicate AIDs |
| DlUlRatio.AssociateThenDeassociate | dlulratio_scheduler.cpp:1529-1592 | associating a new station and disassociating it restores the list |
| DlUlRatio.AddToAll | dlulratio_scheduler.cpp:1529-1564 | the loop over the access categories applies the association to every list and keeps each free of duplicate AIDs |
| DlUlRatio.RemoveFromAll | dlulratio_scheduler.cpp:1567-1592 | the loop over the access categories removes the AID from every list and keeps each free of duplicate AIDs |
| DlUlRatio.Scheduler.constructor | dlulratio_scheduler.cpp:64-70 | start-up: counters at 10, 1 and 10, empty lists for every AC, no candidates |
| DlUlRatio.Scheduler.SelectTxFormat | dlulratio_scheduler.cpp:849-930 | the returned format and the new counters are those of the gate step, and the lists are untouched |
| DlUlRatio.Scheduler.TryBsrpTf | dlulratio_scheduler.cpp:889-913 | the BSRP branch returns its attempt's answer or hands the gate to the downlink attempt |
| DlUlRatio.Scheduler.TryBasicTf | dlulratio_scheduler.cpp:914-927 | the Basic trigger branch returns its attempt's answer, spending the uplink credit on success, or hands the gate to the downlink attempt |
| DlUlRatio.Scheduler.NotifyStationAssociated | dlulratio_scheduler.cpp:1529-1564 | non-HE stations are ignored; an HE station is appended once to every list; a missing address fails the assertion |
| DlUlRatio.Scheduler.NotifyStationDeassociated | dlulratio_scheduler.cpp:1567-1592 | non-HE stations and multi-link stations still associated elsewhere are ignored; otherwise the AID leaves every list |
| DlUlRatio.Scheduler.GetTxVectorForUlMu | dlulratio_scheduler.cpp:934-1218 | `m_staListUl` is left in walk order (sorted by buffer status for a Basic trigger frame with BSRP on); the TXVECTOR is that of the candidate walk and `FinalizeTxVector`; for a Basic trigger frame with the proportional packer the allocation is `Pack` of the candidates' buffer reports for the channel width, and otherwise there is none; `m_candidates` holds the served stations, or all candidates when finalizing fails |
| DlUlRatio.Scheduler.ComputeDlMuInfo | dlulratio_scheduler.cpp:2281-2293 | no DL MU information without candidates, otherwise the equal split of the downlink branch of `FinalizeTxVector` (lines 1933-2042), which keeps the served candidates |
| DlUlRatio.Scheduler.TrySendingBasicTf | dlulratio_scheduler.cpp:1309-1526 | the answer is the specified one; the early exits leave the lists alone; otherwise the uplink list is left in walk order, and a grant leaves its served stations in `m_candidates` |
| UlSolicitation.SortByStatusSpec | dlulratio_scheduler.cpp:983-987 | sorting `m_staListUl` by buffer status gives a permutation in non-increasing status, with ties in their old order |
| UlSolicitation.CandidatesSpec | dlulratio_scheduler.cpp:992-1064 | the candidates are the registry entries that may be solicited and have a Block Ack agreement on some TID 0..7 (and, when filtering, a non-empty buffer), in registry order |
| UlSolicitation.SortedCandidates | dlulratio_scheduler.cpp:983-1064 | candidates drawn from the sorted list come in non-increasing status |
| UlSolicitation.WalkOrderPermutes | dlulratio_scheduler.cpp:983-987 | the in-place sort keeps the list's entries and its unique AIDs |
| UlSolicitation.UlCandidates | dlulratio_scheduler.cpp:937-1074 | the walk never yields more candidates than the list has entries |
| UlSolicitation.UlCandidatesSpec | dlulratio_scheduler.cpp:937-1074 | the candidates are a subsequence of the walked list, exactly the solicitable registry entries, by non-increasing status after the sort, with unique AIDs |
| UlSolicitation.UlCandidatesUnique | dlulratio_scheduler.cpp:992-1064 | with unique AIDs in the list, no AID is a candidate twice |
| UlSolicitation.CollectCandidates | dlulratio_scheduler.cpp:992-1064 | the loop with its status skip, `canBeSolicited` and TID scan appends exactly the eligible stations, in walk order |
| UlSolicitation.Limit | dlulratio_scheduler.cpp:950-962 | the limit is the channel's count of 26-tone RUs: the packer budget for 20/40/80 MHz, twice the 80 MHz one for 160, and 9 otherwise |
| UlSolicitation.EqualSplitServed | dlulratio_scheduler.cpp:2101-2119 | the equal split serves nRusAssigned + nCentral candidates, or all of them, never more central RUs than offered, and succeeds when both RU lists are long enough |
| UlSolicitation.EqualSplitFinalizeSpec | dlulratio_scheduler.cpp:2101-2149 | on success the first n candidates are served, candidate j with the j-th equal-sized RU or, past nRusAssigned, the next central 26-tone RU, listed by STA-ID; the downlink branch (lines 1992-2041) is the same code |
| UlSolicitation.PropFinalizeSpec | dlulratio_scheduler.cpp:2073-2099 | the proportional branch serves the first min(candidates, allocation) candidates with the RU of their position and never fails on a non-empty list |
| UlSolicitation.Demands | dlulratio_scheduler.cpp:165-173 | the packer reads each uplink candidate's raw buffer status, in candidate order |
| UlSolicitation.BsrpDemandsPositive | dlulratio_scheduler.cpp:992-1064 | with BSRP on, every Basic trigger candidate reported a non-empty buffer, so the packer's division never meets a zero sum |
| UlSolicitation.TxVectorServes | dlulratio_scheduler.cpp:2045-2225 | the TXVECTOR serves a prefix of the candidates, its users exactly the served ones by STA-ID; with BSRP on the proportional branch never fails |
| UlSolicitation.BuildTxVector | dlulratio_scheduler.cpp:934-1074 | the walk order and the TXVECTOR are those specified; for a Basic trigger frame with the proportional packer the allocation is `Pack` of the candidates' buffer reports for the channel width, otherwise there is none |
| UlSolicitation.FinalizeTxVector | dlulratio_scheduler.cpp:2045-2225 | the uplink `FinalizeTxVector` yields the specified TXVECTOR, failing on a zero demand sum; with the proportional packer the allocation is `Pack` of the candidates' buffer reports for the channel width, otherwise there is none |
| UlSolicitation.UserStatuses | dlulratio_scheduler.cpp:1347-1372 | the fold reads the report of each TXVECTOR user, found through its address |
| UlSolicitation.BufferDurations | dlulratio_scheduler.cpp:1427-1466 | one buffer time per user of the trigger frame |
| UlSolicitation.AnswerEarlyExits | dlulratio_scheduler.cpp:1320-1345 | SU_TX exactly for an empty uplink list; an abort only on a null `UlPsduSize` or a failed TXVECTOR; a fallback to downlink when nobody qualifies |
| UlSolicitation.DlFallbackIff | dlulratio_scheduler.cpp:1347-1378 | with users in the TXVECTOR, the scheduler falls back to downlink exactly when every user reported an empty buffer |
| UlSolicitation.BsrpFallbackOnlyWithoutUsers | dlulratio_scheduler.cpp:1341-1378 | with BSRP on and the AP mapping each registered AID back to its address, a fallback to downlink means the TXVECTOR had no user |
| UlSolicitation.GrantedServes | dlulratio_scheduler.cpp:1309-1526 | a grant goes to a non-empty prefix of the candidates, listed by STA-ID in the TXVECTOR |
| UlSolicitation.GrantedTakesLargest | dlulratio_scheduler.cpp:983-1064 | with BSRP on, every served station reported at least as much as every candidate left out |
| UlSolicitation.GrantedFits | dlulratio_scheduler.cpp:1390-1498 | a grant is given only when the trigger frame fits, and is never longer than the maximum PPDU duration nor than what is left of the TXOP |
| UlSolicitation.FoldUsers | dlulratio_scheduler.cpp:1347-1372 | the fold over the TXVECTOR users yields `maxBufferSize` of their reports |
| UlSolicitation.GrantFor | dlulratio_scheduler.cpp:1347-1498 | the fold, the `TryAddMpdu` check and the duration choice give the specified answer |
| BasicTf.Solicit | ns3.41/rr-multi-user-scheduler.cc:686-965 | the solicitation step (type pass, truncation, `AssignRuIndices`, receiver, duration) yields the specified outcome |
| BasicTf.RuIndicesAids | ns3.41/rr-multi-user-scheduler.cc:1467-1481 | `AssignRuIndices` keeps the STA-IDs of the table, their order and their ascending order |
| BasicTf.SolicitationServes | ns3.41/rr-multi-user-scheduler.cc:741-835 | a grant serves exactly the first count + nCentral entries of the multimap |
| BasicTf.SolicitationAids | ns3.41/rr-multi-user-scheduler.cc:741-837 | with distinct AIDs, exactly the served stations hold an RU in the granted table, which is by ascending STA-ID |
| BasicTf.SolicitationServesHead | ns3.41/rr-multi-user-scheduler.cc:741-835 | the served stations are the head of the multimap, entry by entry |
| BasicTf.SolicitationGrant | ns3.41/rr-multi-user-scheduler.cc:741-837 | a grant carries the served prefix of a successful type pass and the table `AssignRuIndices` makes of it |
| BasicTf.TypesServe | ns3.41/rr-multi-user-scheduler.cc:741-835 | a successful type pass serves the head of the multimap and, with distinct AIDs, lists exactly those stations by ascending STA-ID |
| BasicTf.SolicitationTiming | ns3.41/rr-multi-user-scheduler.cc:843-935 | the trigger is unicast exactly when one station is served, to that station; the grant fits the PPDU limit and the TXOP |
| BasicTf.TypesSucceed | ns3.41/rr-multi-user-scheduler.cc:720-760 | the type pass's assertion holds whenever the library answers no more RUs than candidates, and fails when it answers more and offers central RUs |
| BasicTf.SolicitationNeverFallsBack | ns3.41/rr-multi-user-scheduler.cc:682-967 | once the multimap is built, the scheduler no longer falls back to downlink |
| RrScheduler.StepKeepsCount | ns3.41/rr-multi-user-scheduler.cc:184-241 | the BSRP counter stays in 1..10 and never moves without the limiter |
| RrScheduler.BsrpLimiter | ns3.41/rr-multi-user-scheduler.cc:192-207 | with the limiter on, every eligible call counts down, BSRP is tried exactly when the counter runs out, which resets it to 10, and otherwise the Basic trigger is tried |
| RrScheduler.BsrpUnlimited | ns3.41/rr-multi-user-scheduler.cc:184-241 | without the limiter, BSRP is tried exactly when eligible, after a downlink transmission, and its answer is returned |
| RrScheduler.StepOutcome | ns3.41/rr-multi-user-scheduler.cc:184-241 | downlink is tried exactly when no uplink attempt was made or the Basic trigger answered DL_MU_TX; the trigger type changes only on an uplink attempt that returned UL_MU_TX |
| RrScheduler.BasicFollowsBsrp | ns3.41/rr-multi-user-scheduler.cc:184-241 | a BSRP trigger that went out is followed by a Basic trigger attempt |
| RrScheduler.RunKeepsCount | ns3.41/rr-multi-user-scheduler.cc:153-155 | from start-up on, the counter stays in 1..10 |
| RrScheduler.Append | ns3.41/rr-multi-user-scheduler.cc:978-989 | association appends the station with no credits and keeps the rest |
| RrScheduler.RemoveEntrySpec | ns3.41/rr-multi-user-scheduler.cc:991-1003 | disassociation removes the entries matching AID and address and keeps all others in order |
| RrScheduler.AssociateThenDeassociate | ns3.41/rr-multi-user-scheduler.cc:978-1003 | associating an unlisted station and disassociating it restores the list |
| RrScheduler.AssociateTwice | ns3.41/rr-multi-user-scheduler.cc:978-1003 | a station associated twice is listed twice, and one disassociation removes both |
| RrScheduler.Multimap | ns3.41/rr-multi-user-scheduler.cc:634-674 | the multimap holds no more entries than the registry |
| RrScheduler.ProceedsWithBsrp | ns3.41/rr-multi-user-scheduler.cc:634-712 | with BSRP on, uplink proceeds exactly when a station with an agreement reported 1..254, and at most nine stations are admitted |
| RrScheduler.MultimapOfRegistry | ns3.41/rr-multi-user-scheduler.cc:593-674 | every multimap entry is a registered station with an agreement and a qualifying report, by non-increasing report |
| RrScheduler.FallbackIff | ns3.41/rr-multi-user-scheduler.cc:682-973 | the scheduler falls back to downlink exactly when the fold is null or nobody was admitted |
| RrScheduler.GrantServesMultimap | ns3.41/rr-multi-user-scheduler.cc:741-835 | a grant serves the first entries of the multimap |
| RrScheduler.BasicTfWithBsrp | ns3.41/rr-multi-user-scheduler.cc:574-973 | with BSRP on, uplink is attempted exactly when an agreed station reported 1..254, and a grant serves at most nine such stations, largest reports first |
| RrScheduler.BasicTfWithoutBsrp | ns3.41/rr-multi-user-scheduler.cc:616-628 | with BSRP off and queue sizes in 1..20, every station with an agreement is admitted, and uplink is attempted exactly when there is one |
| RrScheduler.ProceedsWithoutBsrp | ns3.41/rr-multi-user-scheduler.cc:616-682 | with BSRP off and queue sizes in 1..20, the fold and the admission let uplink proceed exactly when some station has an agreement |
| RrScheduler.CollectAndAdmit | ns3.41/rr-multi-user-scheduler.cc:589-674 | the collection, the fold and the admission give `m_ul_candidates`, `maxBufferSize` and the multimap as specified |
| RrScheduler.SolicitFromList | ns3.41/rr-multi-user-scheduler.cc:574-973 | the body gives the specified outcome and refills `m_ul_candidates` with the agreed stations |
| RrScheduler.DlRuAllocationSpec | ns3.41/rr-multi-user-scheduler.cc:1232-1312 | `ComputeDlMuInfo` serves nRusAssigned + nCentral candidates, or all when the library offers more, and no more than nRusAssigned without central RUs |
| RrScheduler.DlAllocate | ns3.41/rr-multi-user-scheduler.cc:1245-1312 | the types, the truncation and the RU indices give the specified users, and the served candidates are the kept prefix |
| RrScheduler.Scheduler.constructor | ns3.41/rr-multi-user-scheduler.cc:153-155 | start-up: counter at 10, no previous format, empty lists |
| RrScheduler.Scheduler.SelectTxFormat | ns3.41/rr-multi-user-scheduler.cc:184-241 | the format and the new counter are those of the gate step; the lists are untouched |
| RrScheduler.Scheduler.NotifyStationAssociated | ns3.41/rr-multi-user-scheduler.cc:978-989 | an HE station is appended to every list; others are ignored |
| RrScheduler.Scheduler.NotifyStationDeassociated | ns3.41/rr-multi-user-scheduler.cc:991-1003 | for an HE station every entry matching its AID and address leaves every list |
| RrScheduler.Scheduler.TrySendingBasicTf | ns3.41/rr-multi-user-scheduler.cc:574-973 | the specified outcome on the primary AC's list; `m_ul_candidates` refilled unless aborted; a Basic trigger recorded on a grant |
| RrScheduler.Scheduler.ComputeDlMuInfo | ns3.41/rr-multi-user-scheduler.cc:1232-1312 | the TXVECTOR users are specified, and the candidate list is cut to the served prefix |
| OldBasicTf.OldMultimap | Old/basictf.cc:39-64 | the multimap holds at most one entry per station of the list |
| OldBasicTf.FoldMatchesMultimap | Old/basictf.cc:39-69 | with a non-null `UlPsduSize` the fold is positive exactly when a station reported a non-null buffer, exactly when the multimap is non-empty |
| OldBasicTf.OldFallbackIff | Old/basictf.cc:60-69 | the scheduler falls back to downlink exactly when every report is null, and otherwise solicits from a non-empty multimap |
| OldBasicTf.OldGrantServes | Old/basictf.cc:70-131 | a grant serves registered stations with non-null reports, largest first |
| OldBasicTf.OldMultimapEntries | Old/basictf.cc:39-64 | multimap entries are listed stations with non-null reports in non-increasing order |
| OldBasicTf.OldGrantNeedsFit | Old/basictf.cc:70-131 | without the clamp, a grant requires the library to answer no more RUs than candidates, else the assertion of lines 94 and 116 fires |
| OldBasicTf.CollectAll | Old/basictf.cc:15-34 | every station of the list becomes a candidate once, in list order |
| OldBasicTf.SolicitAll | Old/basictf.cc:6-254 | the body gives the specified outcome and collects the whole list |
| OldBasicTf.Scheduler.TrySendingBasicTf | Old/basictf.cc:1-254 | the specified outcome; the abort comes before `m_ul_candidates` is refilled; a Basic trigger recorded on a grant |

## Left out

- ns-3 plumbing is not modelled:
  - TypeId attributes, trace connections, `DoInitialize`/`DoDispose`, console output and statistics counters;
  - trigger-frame, MAC-header and packet construction, and the channel width and guard interval written into the TXVECTOR;
  - A-MSDU/A-MPDU aggregation in `ComputeDlMuInfo` and the `TryAddMpdu` assertions after it;
  - `Simulator::Now` time totals.
- Timing oracles are inputs: `TryAddMpdu` (a boolean), `CalculateTxDuration` (a function of size and STA-ID), the maximum PPDU duration and the remaining TXOP with its overhead. `ConvertHeTbPpduDurationToLSigLength` is not modelled.
- The HE RU library (`GetEqualSizedRusForStations`, `GetRusOfType`, `GetCentral26TonesRus`) is an input, and its contents are not asserted. In `prop_scheduler_fun` an RU is the (class, index) pair passed to `GetRusOfType`.
- `GetMaxBufferStatus`, the Block Ack agreement query, `canBeSolicited` and `GetMldOrLinkAddressByAid` are inputs. The last one is assumed total in the DL/UL-ratio `TrySendingBasicTf`.
- Credit bookkeeping (`UpdateCredits`) and the credit sort are left out: they are floating-point arithmetic over an external bandwidth table.
- RuPacker.ProportionalShares: the share is the integer floor(q·W/sum). The code computes `int((q/sum)*W)` in double precision, which can round one unit lower.
- RuPlacement.Place40: the contract ties the result to the cursor walk `Placement` and states indices outright only for the 26-tone entries among the last two and a lone 484-tone entry. The index of each wider entry is stated through the walk and the worked examples `Quarters40StepOverCentres` and `CentreTones40`, not as a closed formula over the array.
- RuPlacement.Place80: the contract ties the result to the cursor walk `Placement` and states an index outright only for a lone 996-tone entry. Stepping over units 5, 14, 19, 24 and 33 is stated through the walk and the worked example `Eighths80StepOverCentres`.
- PropScheduler.PackSpec: no promise that the RUs are disjoint, because the placement as written can hand out an RU inside an earlier one (`OverlappingRus20`) or the same 26-tone RU twice (`NineEqualDemandsReuseRu5`).
- The division by a zero `queue_sum` in `prop_scheduler_fun` is a failure ("queue_sum is zero") in `FinalizeFor`, not a floating-point result.
- The `rand()` queue sizes of ns-3.41 with BSRP off are an input function whose values are assumed in 1..20.
- `TrySendingBsrpTf` and `TrySendingDlMuPpdu` are only their answers, which are inputs of the gate. The uninitialised `nCentral26TonesRus` read in the ns-3.41 `TrySendingDlMuPpdu` is undefined behaviour and is not modelled.
- `GetLastTxFormat` reads state that the ns-3 base class `MultiUserScheduler` keeps, and that class is not part of this model. Its bookkeeping (a returned format other than NO_TX becomes the last format, and NO_TX leaves it alone) is written into both schedulers' `Done`.
- Dead branches guarded by `&& false` are not modelled, and neither is EHT preamble switching.
- The DL/UL-ratio member multimap `ulCandidates` is filled but never read, so it is not modelled.
- In `GetTxVectorForUlMu`, the library call whose result is unused and the count assertion are not modelled.
- DlUlRatio.Scheduler.TrySendingBasicTf: the trigger type and the `ulcount` decrement it performs are stated on the gate (`TryBasicTf`, `AfterBasicTf`), not in this method's contract.
- DlUlRatio.Scheduler.ComputeDlMuInfo: the MCS and NSS taken over from the incoming TXVECTOR are not modelled. The model covers only the users and their RUs.
- `std::size_t` overflow of `count + nCentral26TonesRus` is not modelled. The candidate lists are bounded by `IsSize`, and only the wrapped subtraction is written out.
- Old/basictf.cc holds only `TrySendingBasicTf`. That variant's `SelectTxFormat` and registry notifications are not part of this model.
