# libTclRti bridge: a Dafny model

This project models the core of `libTclRti`, the library that lets a Tcl
interpreter act as an HLA 1.3 federate. Two halves meet there:

- **the federate ambassador** (`FedAmb`). The RTI calls it back from deep
  inside `tick`. It must not run Tcl at that point, so each callback builds
  one Tcl command `[faObj, method, args…]` and appends it to `methodQueue`.
  `evalQueue` later runs the queued commands from the top level, reports each
  failure through `bgerror`, carries on, and finally replaces the queue. While
  it builds commands, it turns RTI handles into names through four name
  caches that `clearCache` empties.
- **the RTI ambassador command** (`RtiAmbInfo`). Its subcommands resolve Tcl
  tokens to RTI handles: an integer token is taken as the handle itself, and
  any other token is looked up by name. They scan the `-time`/`-tag` options
  and build the handle/value sets they send. They also keep the registry of
  DDM regions, whose tokens are named `::RTI::region<n>`.

The RTI and the Tcl interpreter are not modelled; they are oracles passed in
as values:

- `NameService`, `HandleService`, `SendService` and `ClassService` stand for
  the RTI ambassador's lookups and sends, together with the exceptions they
  throw.
- `TclConversions` stands for Tcl's object conversions.
- `Host` gives the outcome of evaluating a queued command.

Modules:

| module | file | what it holds |
|---|---|---|
| `TclValues` | tcl_values.dfy | Tcl words, 32-bit RTI handles, the conversions oracle, the errors a command can return |
| `FedAmbassador` | fed_amb.dfy | class `FedAmb`: the queue, the enqueue helpers, the callback builders, `EvalQueue`, the four name caches, the inbound flatteners |
| `Resolver` | resolver.dfy | the name-or-handle resolvers |
| `Options` | options.dfy | the `-time`/`-tag` option scanner |
| `PairSets` | pair_sets.dfy | the attribute array/set builders and the handle/value pair-set builder |
| `Regions` | regions.dfy | region tokens, the region table, `getRegionFromObj`, `getRegionArrayFromObj` |
| `SendCommands` | sends.dfy | `sendInteraction`, `updateAttributeValues`, and the request of `sendInteractionWithRegion` |
| `RtiCommands` | rti_commands.dfy | class `RtiAmbInfo`: join, resign, `createRegion`, `deleteRegion`, `cleanUpRegions`, `sendInteractionWithRegion`, `tick` |

## Model

| member | source | states |
|---|---|---|
| TclValues.HandleOf | src/libTclRti/rti.cpp:5303-5315 | the cast of a wide integer to an unsigned 32-bit RTI handle differs from it by a multiple of 2^32, and leaves a value already in range unchanged |
| TclValues.SourceMessage | src/libTclRti/rti.cpp:2032-2082 | the bridge sets its own result text exactly for a missing option value, an empty pair list and an odd-length one; every other error's text comes from Tcl or the RTI |
| FedAmbassador.FlatPairs | src/libTclRti/fed_amb.cpp:1036-1047 | an inbound handle/value set flattens to exactly 2·size words |
| FedAmbassador.FlatPairsAt | src/libTclRti/fed_amb.cpp:1123-1134 | pair i lands at position 2i as the handle's name and at 2i+1 as its bytes, in the set's order |
| FedAmbassador.NameList | src/libTclRti/fed_amb.cpp:532-560 | the attribute-name list of qmWithHAs has one name per handle |
| FedAmbassador.AttributeNameQueries | src/libTclRti/fed_amb.cpp:545-555 | qmWithHAs makes one direct attribute-name query per handle, scoped by the object's class |
| FedAmbassador.StampWords | src/libTclRti/fed_amb.cpp:1056-1104 | a timestamped callback adds exactly four words (`-time t -erh {serial federate}`), a receive-order one none |
| FedAmbassador.CommandLength | src/libTclRti/fed_amb.cpp:366-593 | every callback's command has the fixed length of its enqueue helper: qm 2; qmWithO/S/T 3; qmWithSS/SH/HAs 4; discover 5; update and interaction 10 or 6; remove 9 or 5 |
| FedAmbassador.InboundLayout | src/libTclRti/fed_amb.cpp:1024-1191 | in an inbound update or interaction, the list word holds 2·size words, with pair i at 2i and 2i+1, and `-tag tag` follows it |
| FedAmbassador.CommandsFor | src/libTclRti/fed_amb.cpp:839-1371 | a run of callbacks queues one command per callback |
| FedAmbassador.CommandsForAt | src/libTclRti/fed_amb.cpp:839-1371 | the i-th delivered callback gives the i-th queued command |
| FedAmbassador.BgError | src/libTclRti/fed_amb.cpp:1421-1449 | bgerror evaluates `bgerror <result>`, and sets ::errorInfo to the annotated result exactly when a method name is given |
| FedAmbassador.DrainReports | src/libTclRti/fed_amb.cpp:323-342 | a drain reports at most one error per snapshot entry |
| FedAmbassador.DrainReportsEmpty | src/libTclRti/fed_amb.cpp:323-342 | a drain reports nothing iff every entry succeeds |
| FedAmbassador.DrainReportsAll | src/libTclRti/fed_amb.cpp:323-342 | continue on error: there is one report per entry iff every entry fails |
| FedAmbassador.DrainReportsFailure | src/libTclRti/fed_amb.cpp:338-341 | every failing entry is reported with its own result |
| FedAmbassador.DrainReportsUnannotated | src/libTclRti/fed_amb.cpp:340 | no drain report carries the callback-name annotation, since bgerror is called with NULL |
| FedAmbassador.FailingEntriesExact | src/libTclRti/fed_amb.cpp:324-342 | the failing positions of a snapshot are exactly the entries whose evaluation fails, each once, in increasing order |
| FedAmbassador.DrainReportsInOrder | src/libTclRti/fed_amb.cpp:324-342 | over the first n entries, report k is the unannotated bgerror of the k-th failing entry, and there are as many reports as failures |
| FedAmbassador.DrainReportsExactly | src/libTclRti/fed_amb.cpp:323-342 | a whole drain reports exactly once per failing entry, in snapshot order, each with that entry's own result |
| FedAmbassador.DrainValueOf | src/libTclRti/fed_amb.cpp:324-342 | after a drain the interpreter holds the last entry's result when it succeeded; when it failed, what the last bgerror call left, and that call is the drain's last report; an empty drain leaves the initial result |
| FedAmbassador.NameTables.Insert | src/libTclRti/fed_amb.cpp:657-687 | caching a name makes its key present in the table for its query kind |
| FedAmbassador.EmptyTables | src/libTclRti/fed_amb.cpp:192-212 | empty tables satisfy the memoisation invariant with an empty fetch log, and agree with any RTI |
| FedAmbassador.MemoisedInsert | src/libTclRti/fed_amb.cpp:657-832 | a miss that fetches and caches keeps "fetches since the clear = cached keys, none twice" |
| FedAmbassador.AgreesInsert | src/libTclRti/fed_amb.cpp:657-832 | caching the RTI's own answer keeps every cached name equal to the RTI's |
| FedAmbassador.FedAmb.constructor | src/libTclRti/fed_amb.cpp:192-212 | a new ambassador has an empty queue, four empty tables and no fetches |
| FedAmbassador.FedAmb.SetFaName | src/libTclRti/fed_amb.cpp:274-286 | saves the federate-ambassador command and the RTI ambassador used for names |
| FedAmbassador.FedAmb.EvalQueue | src/libTclRti/fed_amb.cpp:305-349 | evaluates the snapshot in arrival order, each entry once; reports are DrainReports of the snapshot; the interpreter result left behind is DrainValueOf of the snapshot; the queue ends empty, even when commands were appended during the drain |
| FedAmbassador.FedAmb.Qm | src/libTclRti/fed_amb.cpp:367-378 | appends exactly `[faObj, method]` and leaves earlier entries unchanged |
| FedAmbassador.FedAmb.QmWithO | src/libTclRti/fed_amb.cpp:397-410 | appends exactly `[faObj, method, o]` |
| FedAmbassador.FedAmb.QmWithS | src/libTclRti/fed_amb.cpp:429-442 | appends exactly `[faObj, method, s]` |
| FedAmbassador.FedAmb.QmWithSS | src/libTclRti/fed_amb.cpp:462-477 | appends exactly `[faObj, method, s1, s2]` |
| FedAmbassador.FedAmb.QmWithSH | src/libTclRti/fed_amb.cpp:497-512 | appends exactly `[faObj, method, s, handle]` |
| FedAmbassador.FedAmb.QmWithT | src/libTclRti/fed_amb.cpp:580-593 | appends exactly `[faObj, method, time]` |
| FedAmbassador.FedAmb.QmWithHAs | src/libTclRti/fed_amb.cpp:532-560 | appends `[faObj, method, object, names]`; the class and the names are fetched directly, bypassing the caches |
| FedAmbassador.FedAmb.ClearCache | src/libTclRti/fed_amb.cpp:612-636 | all four tables are empty afterwards and the fetch log restarts, so every later lookup fetches again |
| FedAmbassador.FedAmb.GetAttributeTclObj | src/libTclRti/fed_amb.cpp:657-687 | a hit under (attribute, class) returns the stored name with no fetch; a miss fetches once and stores; the name is the RTI's |
| FedAmbassador.FedAmb.GetParameterTclObj | src/libTclRti/fed_amb.cpp:708-737 | the same for (parameter, interaction class) in its own table |
| FedAmbassador.FedAmb.GetObjClassTclObj | src/libTclRti/fed_amb.cpp:757-784 | the same for object classes under key (class, 0) |
| FedAmbassador.FedAmb.GetIntClassTclObj | src/libTclRti/fed_amb.cpp:805-832 | the same for interaction classes under key (class, 0) |
| FedAmbassador.FedAmb.FlattenParameters | src/libTclRti/fed_amb.cpp:1036-1047 | the parameter loop yields FlatPairs of the set with the RTI's parameter names, and keeps the cache invariants |
| FedAmbassador.FedAmb.FlattenAttributes | src/libTclRti/fed_amb.cpp:1123-1134 | the attribute loop yields FlatPairs of the set with attribute names scoped by the class |
| FedAmbassador.FedAmb.SetupReceiveInteraction | src/libTclRti/fed_amb.cpp:1025-1051 | the six words: fa, method, class name, flattened parameters, `-tag`, tag |
| FedAmbassador.FedAmb.SetupReflectAttributeValues | src/libTclRti/fed_amb.cpp:1107-1138 | the six words: fa, method, object handle, attributes flattened under the object's class, `-tag`, tag |
| FedAmbassador.FedAmb.ReceiveInteraction | src/libTclRti/fed_amb.cpp:1056-1104 | appends one command: the setup words, plus the stamp words when timestamped |
| FedAmbassador.FedAmb.ReflectAttributeValues | src/libTclRti/fed_amb.cpp:1142-1191 | appends one command: the setup words, plus the stamp words when timestamped |
| FedAmbassador.FedAmb.RemoveObjectInstance | src/libTclRti/fed_amb.cpp:1194-1252 | appends `[fa, method, object, -tag, tag]`, plus the stamp words when timestamped |
| FedAmbassador.FedAmb.DiscoverObjectInstance | src/libTclRti/fed_amb.cpp:999-1022 | appends `[fa, method, object, class name, object name]`; the class name is fetched directly, not cached |
| FedAmbassador.FedAmb.DeliverSynchronization | src/libTclRti/fed_amb.cpp:839-868 | each synchronization callback appends its one command and touches nothing else |
| FedAmbassador.FedAmb.DeliverSave | src/libTclRti/fed_amb.cpp:872-893 | each save callback appends its command |
| FedAmbassador.FedAmb.DeliverRestore | src/libTclRti/fed_amb.cpp:897-952 | each restore callback appends its command |
| FedAmbassador.FedAmb.DeliverDeclaration | src/libTclRti/fed_amb.cpp:959-992 | each declaration callback appends its command with the RTI's class name, looked up through the cache, and keeps the cache invariants |
| FedAmbassador.FedAmb.DeliverObject | src/libTclRti/fed_amb.cpp:999-1289 | each object-management callback appends CommandFor of it |
| FedAmbassador.FedAmb.DeliverOwnership | src/libTclRti/fed_amb.cpp:1294-1336 | each ownership callback appends CommandFor of it |
| FedAmbassador.FedAmb.DeliverTime | src/libTclRti/fed_amb.cpp:1341-1371 | each time-management callback appends CommandFor of it |
| FedAmbassador.FedAmb.Deliver | src/libTclRti/fed_amb.cpp:839-1371 | any callback appends exactly CommandFor of it to the end of the queue and keeps the cache invariants |
| Resolver.GetHandleFromObj | src/libTclRti/rti.cpp:5303-5315 | succeeds iff the token reads as an integer; the handle is that integer cast; otherwise a not-an-integer error |
| Resolver.ResolveHandle | src/libTclRti/rti.cpp:4828-4855 | an integer token becomes the handle with no query; any other token makes exactly one scoped query, whose exception is the error |
| Resolver.IntegerTokensIgnoreService | src/libTclRti/rti.cpp:4880-4908 | an integer token resolves the same whatever the RTI knows, so it is never validated |
| Resolver.NameTokensAskOnce | src/libTclRti/rti.cpp:5106-5134 | a name token's result depends only on the RTI's answer to its one query |
| Resolver.WideHandleResolvesToItself | src/libTclRti/rti.cpp:5253-5281 | a handle written as a wide integer resolves back to itself |
| Options.ScanOptions | src/libTclRti/rti.cpp:2017-2057 | the loop over `tag`, `gotTime` and `t` computes exactly the scan specification, including which error stops it; with no option words the tag is "" and there is no time |
| Options.ScanSucceedsIffWellFormed | src/libTclRti/rti.cpp:2022-2057 | the scan succeeds iff every option position holds `-time` or `-tag` with a value after it, and every time reads as a double |
| Options.TagKept | src/libTclRti/rti.cpp:2049-2051 | a scan with no `-tag` keeps the tag it started with |
| Options.TimeKept | src/libTclRti/rti.cpp:2041-2048 | a scan with no `-time` keeps the time it started with |
| Options.LastTagWins | src/libTclRti/rti.cpp:2049-2051 | the last `-tag` decides the tag |
| Options.LastTimeWins | src/libTclRti/rti.cpp:2041-2048 | the last `-time` decides the time |
| Options.TimeGivenIffTimeOption | src/libTclRti/rti.cpp:2108-2125 | the send is timed iff some option position holds `-time` |
| PairSets.ResolveEach | src/libTclRti/rti.cpp:4950-4962 | a list that resolves gives one handle per token |
| PairSets.ResolveEachOk | src/libTclRti/rti.cpp:4935-4970 | a list resolves iff every token does, and handle i is token i's |
| PairSets.ResolveEachFirstFailure | src/libTclRti/rti.cpp:4996-5031 | the first failing token decides the error, and no token after it is resolved |
| PairSets.AttributeList | src/libTclRti/rti.cpp:4941-4948 | a word that is not a list fails before any query; otherwise its elements are resolved as attributes of the class |
| PairSets.GetAttrArrayFromObj | src/libTclRti/rti.cpp:4936-4970 | the loop computes AttributeList: the handles in list order, or the first error with the queries up to it |
| PairSets.GetAttrSetFromObj | src/libTclRti/rti.cpp:4997-5031 | the loop builds exactly the set of the handles AttributeList resolves, or its error |
| PairSets.PairStep | src/libTclRti/rti.cpp:2088-2102 | one more pair succeeds iff all before it and its name do; it appends (handle, bytes); a failure stays |
| PairSets.PairsSnoc | src/libTclRti/rti.cpp:2088-2102 | resolving 2k+2 words is resolving 2k words and then one more pair |
| PairSets.ResolvePairsAt | src/libTclRti/rti.cpp:2084-2102 | a list of m pairs that resolves gives m pairs, pair i being (resolve(list[2i]), bytes(list[2i+1])) |
| PairSets.ResolvePairsOk | src/libTclRti/rti.cpp:2264-2282 | a list of m pairs resolves iff every name position resolves |
| PairSets.PairPrefixFailure | src/libTclRti/rti.cpp:2092-2096 | once a name fails, the rest of the list is not resolved and the failure is the result |
| PairSets.PairSetValidatesFirst | src/libTclRti/rti.cpp:2068-2082 | an empty list fails with "has no elements." and an odd one with "must have an even number of elements.", before any query |
| PairSets.BuildPairSet | src/libTclRti/rti.cpp:2059-2102 | the length checks and the loop compute PairSet: the pairs in list order, or the first error |
| PairSets.AddPairs | src/libTclRti/rti.cpp:2084-2102 | the pair loop over a checked list computes ResolvePairs |
| PairSets.FlatPairsRoundTrip | src/libTclRti/fed_amb.cpp:1025-1051 | a received parameter list, resolved back by the RTI's names, gives the same pairs |
| PairSets.PairSetRoundTrip | src/libTclRti/rti.cpp:2059-2102 | the same round trip through the whole list check of sendInteraction |
| Regions.Decimal | src/libTclRti/rti.cpp:3131 | `%d` of a number is a non-empty string of digits with no leading zero |
| Regions.DecimalRoundTrip | src/libTclRti/rti.cpp:3131 | reading the digits back gives the number |
| Regions.RegionName | src/libTclRti/rti.cpp:3131 | every token starts with `::RTI::region` and has digits after it |
| Regions.RegionNameRoundTrip | src/libTclRti/rti.cpp:3125-3133 | a region token reads back as its own number |
| Regions.RegionNameInjective | src/libTclRti/rti.cpp:3125-3133 | distinct numbers give distinct tokens |
| Regions.RegionTable.Find | src/libTclRti/rti.cpp:5157-5173 | a lookup succeeds iff the token is bound in a live table, and gives its region; an unbound token is an error; a deleted table panics |
| Regions.FindEach | src/libTclRti/rti.cpp:5216-5224 | a list that resolves gives one region per token |
| Regions.FindEachOk | src/libTclRti/rti.cpp:5201-5229 | a region list resolves iff every token is bound, and region i is token i's |
| Regions.FindEachFirstFailure | src/libTclRti/rti.cpp:5217-5223 | the first unbound token decides the error |
| Regions.GetRegionArrayFromObj | src/libTclRti/rti.cpp:5201-5229 | the loop computes RegionArray: a word that is not a list fails; otherwise the regions in order, or the first lookup error |
| SendCommands.Reply | src/libTclRti/rti.cpp:2104-2134 | a timed send returns `{serial federate}`, an untimed one the empty result, and an RTI exception becomes the error |
| SendCommands.InteractionRequest | src/libTclRti/rti.cpp:1991-2102 | a request that is sent had enough arguments and no region |
| SendCommands.UpdateRequest | src/libTclRti/rti.cpp:2158-2282 | an update that is sent had enough arguments and no region |
| SendCommands.InteractionRequestOk | src/libTclRti/rti.cpp:1991-2102 | sent iff the arity holds, the class resolves, the options are well formed and the pair list is valid; then m pairs for 2m words, and timed iff `-time` was given |
| SendCommands.UpdateRequestOk | src/libTclRti/rti.cpp:2158-2282 | the same for updates; the object token must be an integer, and its class comes from the RTI |
| SendCommands.RegionSendRequestOk | src/libTclRti/rti.cpp:3494-3536 | the region token is looked up only after the rest of the request is valid, and its region goes with the send |
| SendCommands.PrepareInteraction | src/libTclRti/rti.cpp:1991-2102 | the imperative front of the command computes InteractionRequest |
| SendCommands.SendInteraction | src/libTclRti/rti.cpp:1991-2135 | the RTI is called iff the request is valid, with that request; the result is its Reply; otherwise the request's error |
| SendCommands.UpdateAttributeValues | src/libTclRti/rti.cpp:2158-2316 | the same for updateAttributeValues |
| RtiCommands.ResignAction | src/libTclRti/rti.cpp:1132-1155 | an exact action word gives its 1-based RTI::ResignAction; any other word is a bad-index error |
| RtiCommands.RegionArguments | src/libTclRti/rti.cpp:3090-3115 | createRegion needs 4 words, a space that resolves and an integer extent count, in that order |
| RtiCommands.RtiAmbInfo.constructor | src/libTclRti/rti.cpp:474-496 | a new command starts with a fresh federate ambassador and an empty, live region table |
| RtiCommands.RtiAmbInfo.JoinFederationExecution | src/libTclRti/rti.cpp:888-921 | the RTI gets the federate and execution names; on success the callback command is saved, the caches are emptied and the region table is empty; a failed join changes nothing |
| RtiCommands.RtiAmbInfo.DeleteRegionCommands | src/libTclRti/rti.cpp:1198-1211 | the commands of every bound token are gone afterwards, and no other command is touched |
| RtiCommands.RtiAmbInfo.CleanUpRegions | src/libTclRti/rti.cpp:1191-1216 | the region commands of every bound token are deleted, and the table is left deleted (Tcl_DeleteHashTable with no re-initialisation) |
| RtiCommands.RtiAmbInfo.ResignFederationExecution | src/libTclRti/rti.cpp:1127-1170 | the action is checked before the RTI is called; only a resign the RTI accepts runs cleanUpRegions, which removes every bound token's command and leaves the table deleted; a failed resign changes nothing |
| RtiCommands.RtiAmbInfo.ResignAndReinitialise | src/libTclRti/rti.cpp:1127-1216 | the corrected resign: the same checks and RTI call, and a successful resign leaves the table empty and live |
| RtiCommands.RtiAmbInfo.CreateRegion | src/libTclRti/rti.cpp:3090-3153 | the new token is `::RTI::region<n>` with n above every earlier n, names no existing command, and every number skipped was taken; the token is bound to the new region; arguments are checked and the RTI is called first |
| RtiCommands.RtiAmbInfo.MintRegionNumber | src/libTclRti/rti.cpp:3125-3133 | the pre-incremented counter stops at the first number above the old one whose token names no command |
| RtiCommands.RtiAmbInfo.DeleteRegion | src/libTclRti/rti.cpp:3171-3220 | an unbound token is refused; the binding and the command go only once the RTI has deleted the region, so a failed delete leaves the token resolvable |
| RtiCommands.RtiAmbInfo.SendInteractionWithRegion | src/libTclRti/rti.cpp:3413-3571 | the RTI is called iff RegionSendRequest holds, with that request and region; the result is its Reply |
| RtiCommands.RtiAmbInfo.Tick | src/libTclRti/rti.cpp:4723-4768 | bad arguments stop tick before the RTI and leave the federate ambassador unchanged; the delivered callbacks are queued in order; the queue is drained unless the RTI threw; a successful tick's value is the interpreter result the drain leaves (DrainValueOf); the region table plays no part, so tick works after a resign |
| RtiCommands.RtiAmbInfo.DeliverAll | src/libTclRti/rti.cpp:4736-4757 | the callbacks delivered during tick append CommandsFor of them, in delivery order |
| RtiCommands.DeleteRegionAfterResign | src/libTclRti/rti.cpp:1157-1216 | as written, join, a successful resign and then deleteRegion panics in Tcl_FindHashEntry, whatever the token |
| RtiCommands.DeleteRegionAfterCorrectedResign | src/libTclRti/rti.cpp:5157-5173 | after join and the corrected resign, the same deleteRegion is refused as an unknown region |

## Left out

- The RTI ambassador and the Tcl interpreter are oracles. Name lookups, sends, join, resign, region creation and deletion, `Tcl_EvalObjv` and Tcl's object conversions are function values. Nothing about the RTI's own behaviour is modelled.
- Tcl's integer grammar in `Tcl_GetWideIntFromObj` is the abstract predicate `ParsesAsInt`. `Tcl_GetIndexFromObj` is modelled only with exact matching, because every call in the core passes `TCL_EXACT`.
- Floating-point times (`-time`, `tick min max`) are Dafny `real`s, passed through unchanged; no rounding is modelled.
- Reference counting, `ckalloc`/`ckfree` and memory leaks are not modelled. This covers the failure paths that return without freeing: `getRegionArrayFromObj` does not delete its partly filled `regions` array when a token fails (src/libTclRti/rti.cpp:5219-5222), its caller then returns without deleting `attrs` (src/libTclRti/rti.cpp:3343-3346), and `sendInteractionWithRegion` does not delete its parameter set when the region lookup fails.
- `Tcl_CreateObjCommand` and `Tcl_DeleteCommand` are reduced to a set of command names. Only whether a name is taken matters.
- RtiCommands.RtiAmbInfo.Tick: when the last evaluated entry failed, tick's value is what the `bgerror` evaluation left (src/libTclRti/fed_amb.cpp:1448), which depends on the script's `bgerror`; the model gives only the call (`AfterBgError`). A drain with nothing to evaluate is given the empty result that Tcl starts a command with.
- RtiCommands.RtiAmbInfo.CreateRegion: the counter is a field of each `RtiAmbInfo`, whereas the source has one static `regionNum` shared by all RTI ambassador commands in the process. The signed `int` overflow of that counter after 2^31−1 regions is not modelled either.
- RTI handles are unsigned 32-bit values (`HandleOf` reduces modulo 2^32). `Tcl_NewWideIntObj` of a handle is not otherwise constrained.
- RTI handle sets are sequences in insertion order. The duplicate handling of the RTI's own set classes is not modelled; `GetAttrSetFromObj` states only the membership of the set it builds.
- Inside callbacks, the RTI's name lookups are total functions, so the model does not capture what happens when a lookup throws:
  - `reflectAttributeValues`, `receiveInteraction`, `discoverObjectInstance`, `provideAttributeValueUpdate` and the other callbacks declare exceptions such as `ObjectNotKnown`, `AttributeNotKnown` or `InteractionParameterNotKnown`. An exception from `getObjectClass` or a name lookup escapes back to the RTI with nothing queued.
  - `qmWithHAs` is declared `throw()`, so an exception from its direct lookups ends the process through `std::unexpected`.
  - the `get*TclObj` methods create the hash entry before they fetch the name. A fetch that throws leaves an entry with no value. A later hit returns it, and a later `clearCache` calls `Tcl_DecrRefCount` on that NULL value (src/libTclRti/fed_amb.cpp:628).
- The roughly fifty pass-through subcommands of `rti.cpp` only check their arity and forward to the RTI; they are not modelled. `region.cpp`, which forwards `RTI::Region` getters and setters, is not part of this model.
- The "Software Failure: invalid option index" branch of the option scanner cannot be reached once the index lookup has succeeded, so it is left out.
- RtiCommands.RtiAmbInfo.DeleteRegion: `getRegionFromObj` returns `TCL_ERROR` with no message for an unbound token. The model labels that error `UnknownRegion(token)`, so that the token can be named in contracts.
- SendCommands.SendInteraction: the RTI name queries a send makes are computed by the resolvers and `PairSet`, but the send commands do not return them.
- `tick` with a nested `tick` from inside a drained command (re-entrant drains) is not modelled. `Host` gives each evaluation's outcome, and what a command appends is dropped when the queue is replaced.

## Findings

| source | as written | input that shows it | evidently intended | confidence | as-written member | corrected member |
|---|---|---|---|---|---|---|
| src/libTclRti/rti.cpp:1191-1216 | after a successful resign, `cleanUpRegions` calls `Tcl_DeleteHashTable` on `regionHash`, and nothing re-initialises it until the next join | after a join, `resignFederationExecution NO_ACTION` succeeds, then `deleteRegion ::RTI::region1` (or `sendInteractionWithRegion` with a valid request) looks the token up with `Tcl_FindHashEntry` on the deleted table, and Tcl panics | the lookup refuses the token as an unknown region, as it would in an empty table | not executed | RtiCommands.DeleteRegionAfterResign | RtiCommands.RtiAmbInfo.ResignAndReinitialise |

`ResignFederationExecution` models the resign as written: it ends with
`CleanUpRegions`, and `DeleteRegionAfterResign` shows the panic that follows.
`ResignAndReinitialise` is the corrected resign. It re-initialises the table
afterwards, and `DeleteRegionAfterCorrectedResign` shows the refusal that was
intended. `RtiAmbInfo.Valid` does not require a live table, so `Tick`,
`CreateRegion`, `DeleteRegion` and `SendInteractionWithRegion` are all
specified for the deleted table too.
