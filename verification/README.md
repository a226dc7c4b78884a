# A verified model of Kaduox-SSH

Kaduox-SSH is an SSH client suite: a core library with a pool of authenticated transports, a host library kept
in a small TOML file, a daemon that shares transports with short-lived clients over a local socket, and
command-line front ends. This project models the parts of it that are protocols, codecs and decision procedures,
in Dafny 4.11, and proves what they keep over every input, every run or every reachable state.

`dafny verify dfyconfig.toml` checks everything. The files fall into eight groups.

* **Connection pool** (`ReuseKeys`, `Pool`, `PoolPointers`, `PoolCounts`, `PoolFlight`, `PoolResults`,
  `PoolTheorems`, `PoolFollow`, `PoolManager`). Each lock region of the source is one step of a step system over any
  number of tasks; network results, the clock, cancellation and the death of a transport are the environment's choice.
  `PoolManager` is the same behaviour as a mutable object: every call keeps it in a state that some run reaches,
  every step of a run is one of its calls, and each call states what the theorems about runs say of it.
* **Host library** (`Text`, `SortedKeys`, `HostModel`, `HostValidity`, `HostLines`, `HostTables`, `HostItems`,
  `HostBuild`, `HostCodec`, `HostMeaning`, `HostSections`, `HostAccepted`, `HostOrder`, `HostReader`, `HostDecoder`,
  `HostWriter`, `HostStore`, `HostEffects`, `HostLibrary`). The text format is split into lines, tables, records and
  the database, with a round trip for each layer; `HostMeaning`, `HostSections` and `HostAccepted` say in the words of
  the format which texts are accepted as which library. The loops of the source are methods proved equal to the
  functions.
* **Daemon protocol** (`WireBasics`, `Wire`, `WireLayout`, `WireCodec`, `Framing`, `Conversation`,
  `ConversationHistory`). The codec works on bytes; the conversation is the product of the client and the server
  automaton over two queues of whole frames.
* **Host trust** (`Wildcard`, `HostTrust`), **command rendering** (`ShellWords`), **inventory groups**
  (`Inventory`), **jump chains** (`JumpChain`), **fleet scheduling and authentication loops** (`Fleet`,
  `Authenticate`).

Some properties one would expect turned out not to hold for all inputs. For each of them there is a concrete
counterexample and the exact condition under which the code does meet it:

* `wildcard_match` compares literally before it looks at `*`. It implements the pattern language on a candidate
  if and only if the candidate has no literal `*` (`Wildcard.ExactlyOnStarFreeCandidates`,
  `Wildcard.StarCandidateDiffers`).
* A valid library can be saved and then not be opened again: notes may hold control characters that the parser
  refuses. The round trip succeeds if and only if every note is free of control characters other than line feed,
  carriage return and tab, and the text has at most 4 MiB (`HostCodec.RoundTripExactly`,
  `HostLibrary.BelledIsLost`).
* `record_success` counts before it reads the clock, so it is not all-or-nothing. A failing operation on the store
  leaves the database unchanged if and only if it is not a `record_success` that passes its own guards and then
  finds the clock failing (`HostLibrary.Store.Perform`, `HostLibrary.FailedCountIsKept`).
* A caller that waited may be given a transport that was made before the caller first looked for one, if its maker
  had not bound it yet (`PoolFollow.FollowedMayBeOlder`). What always holds is that it was bound after that look
  (`PoolFollow.FollowedWasBoundLater`).
* A matching negated entry of a pattern list hides the empty entries behind it, so the order of a list can matter
  (`HostTrust.OrderMattersWithEmptyEntry`). All orders of a list give a host the same verdict if and only if no
  entry is empty or no well-formed negated entry matches the host (`HostTrust.OrderMattersExactlyWhen`).

Where the code and its comments differ the model follows the code: `manager/jump.rs` keeps an existing entry at
insertion whether it is dead or alive, while `manager.rs` keeps only live ones (both rules are modelled, and
neither branch is reachable), and only `folders`, not `jump_folders`, is counted against the folder limit.

## Model

| member | source | states |
|---|---|---|
| `PoolTheorems.EveryRunKeepsInv` | crates/kaduox-ssh-core/src/manager.rs:431-537 | every interleaving of connects, leases, prunes, evictions, removals, deaths and cancellations keeps the pool invariant |
| `PoolTheorems.AtMostOneSetupPerName` | crates/kaduox-ssh-core/src/manager.rs:386-403 | in every reachable state at most one task is setting up a transport for a name |
| `PoolTheorems.WaitersAreWoken` | crates/kaduox-ssh-core/src/manager.rs:175-195 | once no task leads a signal any more, through success, error or cancellation, every waiter on it can proceed |
| `PoolTheorems.InsertNeverCollides` | crates/kaduox-ssh-core/src/manager.rs:495-527 | a leader never finds its name bound at insertion, so the collision branches are unreachable |
| `PoolTheorems.CapacityIsConserved` | crates/kaduox-ssh-core/src/manager.rs:269-286 | free permits, live wrappers and dialing leaders always add up to the maximum, and the map never outgrows the rest |
| `PoolTheorems.ReturnedTransportFits` | crates/kaduox-ssh-core/src/manager.rs:330-367 | a returned transport has exactly the requested configuration; it is the caller's own, or made from the very same credential without any secret in it, or, for a caller that waited and did not come through a jump host, one whose credential cannot be shared either |
| `PoolTheorems.LookupExactly` | crates/kaduox-ssh-core/src/manager.rs:330-367 | a lookup hands out the live transport of its name exactly to those who may have it (a plain get, or the same configuration and either the same shareable key or, after a wait, two keys that cannot be shared), and fails the others; a dead one is to be evicted, and without one a leader sets up, a waiter starts over and a first lookup claims the name |
| `ReuseKeys.ReuseExactly` | crates/kaduox-ssh-core/src/auth.rs:78-117 | two credentials are interchangeable if and only if they are the same one and it is an agent, a key file without passphrase or a non-empty list of key files without passphrase; no such credential carries a secret |
| `PoolTheorems.SweptExactly` | crates/kaduox-ssh-core/src/manager.rs:555-581 | in every reachable state a sweep takes out exactly the expired names whose wrapper no task, lease or raw client refers to |
| `PoolFollow.FollowedWasBoundLater` | crates/kaduox-ssh-core/src/manager.rs:450-470 | a non-reusable transport given to a caller that waited was bound under its name after the caller's own early lookup had found no live transport there |
| `PoolFollow.EveryRunFollows` | crates/kaduox-ssh-core/src/manager.rs:443-470 | in every reachable state a call between its two lookups has such an early lookup behind it, and any live transport now under its name was bound since |
| `PoolFollow.FollowedMayBeOlder` | crates/kaduox-ssh-core/src/manager.rs:488-512 | a concrete run in which the followed transport already existed, not yet bound, when the caller looked |
| `PoolTheorems.LeaseCounterIsExact` | crates/kaduox-ssh-core/src/manager.rs:89-107 | the lease counter equals the number of live leases, so releasing never underflows |
| `PoolTheorems.BindingsLeaveForAReason` | crates/kaduox-ssh-core/src/manager.rs:376-384 | a name loses its wrapper only by explicit removal, because it is dead, or because an idle sweep found no lease, hand-off or raw client; a stale eviction never hits a rebound live transport |
| `PoolTheorems.OnlyOwnerMeansUntouched` | crates/kaduox-ssh-core/src/manager.rs:555-581 | the idle condition holds only for wrappers that no task, lease or raw client refers to |
| `PoolTheorems.GroupNeverRunsOutOfPermits` | crates/kaduox-ssh-cli/src/tui_group_open.rs:49-74 | after the preflight has seen enough free permits and while only the group asks for permits, none of its connects is refused for capacity, whether earlier ones are still running or have ended |
| `PoolCounts.ConservedStep` | crates/kaduox-ssh-core/src/manager.rs:478-512 | every step keeps permits plus wrappers plus dialing leaders constant |
| `PoolCounts.LeasesStep` | crates/kaduox-ssh-core/src/manager.rs:120-169 | every step keeps each counter equal to the number of live leases |
| `PoolFlight.FlightStep` | crates/kaduox-ssh-core/src/manager.rs:175-195 | every step keeps a name registered exactly while one live leader holds its signal |
| `PoolResults.ResultsStep` | crates/kaduox-ssh-core/src/manager.rs:431-475 | every step keeps the justification of every outcome that is under way |
| `PoolPointers.PointersStep` | crates/kaduox-ssh-core/src/manager.rs:48-68 | no step leaves a dangling handle or a wrapper without a handle |
| `PoolManager.ConnectionManager.Guarantees` | crates/kaduox-ssh-core/src/manager.rs:269-286 | between any two calls the whole invariant holds: capacity is conserved, every lease counter is exact and no call has collided |
| `PoolManager.ConnectionManager.Perform` | crates/kaduox-ssh-core/src/manager.rs:230-602 | every enabled step of the step system is a call of the object with exactly that effect |
| `PoolManager.ConnectionManager.LookUp` | crates/kaduox-ssh-core/src/manager.rs:330-367 | a lookup changes only the caller; a live transport goes exactly to those who may have it, with the conditions written out on the map, the wrappers and the calls, and one that is returned fits |
| `PoolManager.ConnectionManager.EvictDead` | crates/kaduox-ssh-core/src/manager.rs:376-384 | a name leaves the map if and only if it is still bound to the observed wrapper and that one is dead, and no other binding changes; then the call goes on as after a miss |
| `PoolManager.ConnectionManager.ClaimConnect` | crates/kaduox-ssh-core/src/manager.rs:386-403 | a name that is being connected is waited for, any other is led, and whoever comes to lead a name is the only call that leads it |
| `PoolManager.ConnectionManager.Wake` | crates/kaduox-ssh-core/src/manager.rs:450-470 | a woken call looks again, following what it waited for unless it came through a jump host |
| `PoolManager.ConnectionManager.DropLeader` | crates/kaduox-ssh-core/src/manager.rs:181-195 | the name is no longer being connected, and every call that waited for the leader can go on |
| `PoolManager.ConnectionManager.PruneIdle` | crates/kaduox-ssh-core/src/manager.rs:555-581 | a sweep takes out a name if and only if it has expired and nothing but the map refers to its wrapper |
| `PoolManager.ConnectionManager.FindIdle` | crates/kaduox-ssh-core/src/manager.rs:555-568 | the sweep finds exactly the expired names that nobody else uses |
| `PoolManager.ConnectionManager.TakeOut` | crates/kaduox-ssh-core/src/manager.rs:568-581 | exactly the given names leave the map and their wrappers are returned |
| `PoolManager.ConnectionManager.TimerPrune` | crates/kaduox-ssh-core/src/manager.rs:555-581 | the timer's sweep, too, takes out exactly the expired names that nobody uses |
| `PoolManager.ConnectionManager.TryAcquire` | crates/kaduox-ssh-core/src/manager.rs:478-488 | a permit is taken exactly if one is free, the call fails otherwise, and capacity stays conserved |
| `PoolManager.ConnectionManager.DialOk` | crates/kaduox-ssh-core/src/manager.rs:489-497 | the permit moves into a wrapper that did not exist before, with the configuration and key of the request and no lease |
| `PoolManager.ConnectionManager.DialFail` | crates/kaduox-ssh-core/src/manager.rs:489-494 | the permit comes back, and there are never more than the maximum |
| `PoolManager.ConnectionManager.Insert` | crates/kaduox-ssh-core/src/manager.rs:495-527 | the name is free at insertion, so the map gains exactly the new wrapper and no branch for an existing entry is taken |
| `PoolManager.ConnectionManager.DropArc` | crates/kaduox-ssh-core/src/manager.rs:48-68 | the last handle frees the wrapper with its permit, and capacity stays conserved |
| `PoolManager.ConnectionManager.ReleaseLease` | crates/kaduox-ssh-core/src/manager.rs:99-107 | the counter was positive, falls by one and equals the number of live leases |
| `PoolManager.ConnectionManager.FreeLease` | crates/kaduox-ssh-core/src/manager.rs:163-169 | dropping the last lease handle frees the wrapper with its permit, and capacity stays conserved |
| `PoolManager.ConnectionManager.Remove` | crates/kaduox-ssh-core/src/manager.rs:539-553 | exactly the given names leave the map |
| `PoolManager.Follow` | crates/kaduox-ssh-core/src/manager.rs:230-602 | a fresh object can follow every run of the step system and ends in its final state |
| `HostModel.CheckLabels` | crates/kaduox-ssh-hosts/src/model.rs:425-437 | the seen-set loop accepts exactly lists of valid, pairwise different labels |
| `HostModel.CheckHopList` | crates/kaduox-ssh-hosts/src/model.rs:265-273 | the hop loop accepts exactly valid hops with pairwise different names |
| `HostModel.CheckChain` | crates/kaduox-ssh-hosts/src/model.rs:250-275 | a chain is accepted exactly if it has one to eight valid hops without repetition |
| `HostModel.CheckHost` | crates/kaduox-ssh-hosts/src/model.rs:147-164 | a host is accepted exactly if each of its fields is valid |
| `HostModel.CheckDatabase` | crates/kaduox-ssh-hosts/src/model.rs:299-384 | the database is accepted exactly if folders, limits, keys, cross references, roles and routes are consistent |
| `HostValidity.ValidityExactly` | crates/kaduox-ssh-hosts/src/model.rs:299-457 | a library is valid if and only if every name, token, path, note, list, chain and reference keeps its written-out limits: versions, counts and sizes in numbers, no host of role target on a chain, no host on its own route |
| `SortedKeys.AtMostExactly` | crates/kaduox-ssh-hosts/src/model.rs:277-285 | the order of the maps is the lexicographic order of the keys |
| `HostLines.ShownLineIsReadBack` | crates/kaduox-ssh-hosts/src/codec.rs:352-490 | every written line is read as what was meant, through comment stripping, splitting, escapes and arrays, or refused exactly if a text in it has an inexpressible control character |
| `HostLines.ShownLineIsPlain` | crates/kaduox-ssh-hosts/src/codec.rs:527-564 | a written entry never breaks into two lines |
| `HostLines.ParsedLineIsClean` | crates/kaduox-ssh-hosts/src/codec.rs:401-430 | every text read from a line can be written again |
| `HostLines.UnescapeOfEscape` | crates/kaduox-ssh-hosts/src/codec.rs:410-429 | unescaping inverts escaping exactly on texts without other control characters |
| `HostAccepted.UnescapeExactly` | crates/kaduox-ssh-hosts/src/codec.rs:410-429 | a quoted text is read as a string if and only if it spells it, character by character, with the five escapes of the format and no bare control character |
| `HostAccepted.SeekExactly` | crates/kaduox-ssh-hosts/src/codec.rs:432-490 | comments, assignments and arrays are split at the first mark that stands outside of string literals |
| `HostAccepted.LineExactly` | crates/kaduox-ssh-hosts/src/codec.rs:339-490 | a line is read as nothing, a header or an assignment if and only if it says so once its comment is cut off |
| `HostLines.ItemsOfJoin` | crates/kaduox-ssh-hosts/src/codec.rs:432-466 | an array is read back item by item whatever quotes and commas the items contain |
| `HostTables.GatherTable` | crates/kaduox-ssh-hosts/src/codec.rs:133-166 | the lines of a table add exactly that table, with exactly its present fields |
| `HostSections.GatherExactly` | crates/kaduox-ssh-hosts/src/codec.rs:133-166 | lines are gathered into a document if and only if no key is given twice between the same headers, there is one table per header, and each table and the root hold exactly what is assigned in their section |
| `HostItems.TableIsReadBack` | crates/kaduox-ssh-hosts/src/codec.rs:191-317 | the table written for a host, chain or hop describes exactly that record |
| `HostMeaning.TableExactly` | crates/kaduox-ssh-hosts/src/codec.rs:191-317 | a table is accepted as a record if and only if its keys, by their names in the file, give the fields, every choice is spelled as documented, no other key is there, and each key that is left out stands for its default: port 22, role both, policy accept-new, automatic system type, count 0, empty lists, nothing elsewhere |
| `HostMeaning.PolicyMayBeLeftOut` | crates/kaduox-ssh-hosts/src/codec.rs:211-214 | any accepted host table without its `host_key_policy` is accepted as the same host with the policy accept-new |
| `HostBuild.BuildExactly` | crates/kaduox-ssh-hosts/src/codec.rs:269-336 | tables are accepted as a database if and only if it is valid and they list its hosts, chains and numbered hops once each |
| `HostBuild.OrderDoesNotMatter` | crates/kaduox-ssh-hosts/src/codec.rs:317-333 | permuting the tables changes neither acceptance nor result |
| `HostBuild.NumberedIsAssembled` | crates/kaduox-ssh-hosts/src/codec.rs:322-333 | hops in any order are put in place when their indices are 0 to n-1 |
| `HostBuild.AssembledIsNumbered` | crates/kaduox-ssh-hosts/src/codec.rs:322-333 | hops are only accepted when their indices are exactly 0 to n-1 |
| `HostBuild.WrittenIsListed` | crates/kaduox-ssh-hosts/src/codec.rs:45-122 | the tables that are written list every host, chain and hop of the database once |
| `HostCodec.RoundTripExactly` | crates/kaduox-ssh-hosts/src/codec.rs:32-122 | decoding an encoded valid database gives it back if and only if the notes are clean and the text fits 4 MiB, and an error otherwise |
| `HostCodec.AcceptedSurvives` | crates/kaduox-ssh-hosts/src/codec.rs:124-337 | every accepted text yields a valid database that survives being written and read again |
| `HostAccepted.DecodeExactly` | crates/kaduox-ssh-hosts/src/codec.rs:124-337 | a text is accepted as a library if and only if it has at most 4 MiB, every line says something, no table has a key twice, the head gives version 1 and the folders, the tables list each host, chain and numbered hop once, and the library is valid |
| `HostOrder.TablesInAnyOrder` | crates/kaduox-ssh-hosts/src/codec.rs:183-333 | permuting the table blocks of a text, hop tables among them, changes nothing |
| `HostReader.StripCommentLoop` | crates/kaduox-ssh-hosts/src/codec.rs:468-490 | the flag-driven loop cuts at the first `#` outside strings and refuses an open string |
| `HostReader.UnescapeLoop` | crates/kaduox-ssh-hosts/src/codec.rs:401-430 | the character loop computes the unescaped text or fails |
| `HostReader.ParseItemsLoop` | crates/kaduox-ssh-hosts/src/codec.rs:432-466 | the comma loop computes the items of an array or fails |
| `HostReader.ParseLineLoop` | crates/kaduox-ssh-hosts/src/codec.rs:133-166 | one turn of the line loop reads a line as the specification does |
| `HostReader.TableReader.Exhausted` | crates/kaduox-ssh-hosts/src/codec.rs:520-525 | nothing is left exactly if every key has been taken |
| `HostReader.ReadTable` | crates/kaduox-ssh-hosts/src/codec.rs:191-315 | consuming a table key by key yields exactly the record that `TableExactly` describes, and fails on unknown, missing or mistyped keys |
| `HostReader.ReadTables` | crates/kaduox-ssh-hosts/src/codec.rs:133-166 | the line loop with its open table builds the document that the lines describe |
| `HostDecoder.AssembleLoop` | crates/kaduox-ssh-hosts/src/codec.rs:322-333 | the index loop accepts exactly contiguous indices from 0 |
| `HostDecoder.DrawLoop` | crates/kaduox-ssh-hosts/src/codec.rs:190-316 | the table loop collects hosts, chain names and hops, and fails exactly on a bad table or a duplicate |
| `HostDecoder.DecodeFile` | crates/kaduox-ssh-hosts/src/codec.rs:124-337 | the loops together accept a text as a library if and only if the text describes it, and otherwise fail |
| `HostWriter.PushItems` | crates/kaduox-ssh-hosts/src/codec.rs:543-564 | the nested loops append the array's items, quoted and separated |
| `HostWriter.Writer.WriteHost` | crates/kaduox-ssh-hosts/src/codec.rs:45-85 | appends exactly the lines of the host's table |
| `HostWriter.Writer.WriteChain` | crates/kaduox-ssh-hosts/src/codec.rs:87-120 | appends exactly the lines of the chain's table and of its hops in order |
| `HostWriter.EncodeFile` | crates/kaduox-ssh-hosts/src/codec.rs:32-122 | the loops together compute the encoding that the theorems are about |
| `HostStore.EveryRunStaysValid` | crates/kaduox-ssh-hosts/src/store.rs:136-376 | every sequence of operations, failing ones included, keeps the database valid |
| `HostStore.RemovingHostsKeepsValid` | crates/kaduox-ssh-hosts/src/store.rs:294-311 | removing hosts that no chain uses needs no revalidation |
| `HostStore.RemovingChainKeepsValid` | crates/kaduox-ssh-hosts/src/store.rs:344-360 | removing a chain that no host is bound to needs no revalidation |
| `HostStore.CountingKeepsValid` | crates/kaduox-ssh-hosts/src/store.rs:362-376 | changing a host's statistics needs no revalidation |
| `HostStore.SavingFailsOnlyOnTheLimit` | crates/kaduox-ssh-hosts/src/store.rs:136-196 | after its own guards, saving a folder is refused exactly if there are too many target folders |
| `HostStore.SavingMovesOneFolder` | crates/kaduox-ssh-hosts/src/store.rs:160-192 | saving replaces the old name by the new one in the asked list and in every host's groups; every other folder keeps its list and its order, and nothing else changes |
| `HostStore.RemovingFolderKeepsValid` | crates/kaduox-ssh-hosts/src/store.rs:200-235 | a folder removal that passes its own guards is never refused by the final validation |
| `HostEffects.RemovingFolder` | crates/kaduox-ssh-hosts/src/store.rs:200-235 | when a folder may be removed and what is left, on hosts, groups, hops and lists |
| `HostEffects.SavingFolder` | crates/kaduox-ssh-hosts/src/store.rs:136-196 | when a folder may be saved, by what a caller can check before, and what results |
| `HostEffects.RecordingSuccess` | crates/kaduox-ssh-hosts/src/store.rs:362-376 | what a recorded success changes, with and without a clock |
| `HostLibrary.Store.UpsertHost` | crates/kaduox-ssh-hosts/src/store.rs:257-278 | replaces the host if and only if the changed library is valid, and otherwise rolls back to the same database |
| `HostLibrary.Store.InsertHost` | crates/kaduox-ssh-hosts/src/store.rs:280-292 | adds the host if and only if its alias is new and the changed library is valid, and otherwise rolls back |
| `HostLibrary.Store.RemoveHost` | crates/kaduox-ssh-hosts/src/store.rs:294-311 | removes and returns the host if and only if it exists and no hop of any chain is that host |
| `HostLibrary.Store.UpsertChain` | crates/kaduox-ssh-hosts/src/store.rs:313-329 | replaces the chain if and only if the changed library is valid, and otherwise rolls back |
| `HostLibrary.Store.InsertChain` | crates/kaduox-ssh-hosts/src/store.rs:331-342 | adds the chain if and only if its name is new and the changed library is valid, and otherwise rolls back |
| `HostLibrary.Store.RemoveChain` | crates/kaduox-ssh-hosts/src/store.rs:344-360 | removes and returns the chain if and only if it exists and no host is bound to it |
| `HostLibrary.Store.SaveFolder` | crates/kaduox-ssh-hosts/src/store.rs:136-196 | succeeds if and only if the request is in order and the list of target folders is not full; then the old name is cut out of both lists and renamed in every host, the new one ends the asked list, and nothing else changes |
| `HostLibrary.Store.RemoveFolder` | crates/kaduox-ssh-hosts/src/store.rs:200-235 | succeeds if and only if the folder is declared or used and no host whose first group it is stands on a chain; then exactly these hosts are gone and listed in ascending order, both folder lists lose exactly that name, and nothing else changes |
| `HostLibrary.Store.RecordSuccess` | crates/kaduox-ssh-hosts/src/store.rs:362-376 | the counter goes up by one unless the host is missing or the counter full; time and method are entered if the clock answers, and with a failing clock only the count has changed |
| `HostLibrary.Store.Perform` | crates/kaduox-ssh-hosts/src/store.rs:136-376 | any operation on the store succeeds or fails and leaves the database as specified; a failing one leaves it unchanged if and only if it is not a `record_success` whose clock failed after the count |
| `HostLibrary.Store.PerformAll` | crates/kaduox-ssh-hosts/src/store.rs:136-376 | any sequence of operations keeps the store valid and ends in the specified database |
| `HostLibrary.Store.Save` | crates/kaduox-ssh-hosts/src/store.rs:378-386 | writes the encoded database exactly if it fits the limit |
| `HostLibrary.Open` | crates/kaduox-ssh-hosts/src/store.rs:25-61 | a missing file is the empty library, any other file is decoded to a valid one or refused |
| `HostLibrary.SaveThenOpen` | crates/kaduox-ssh-hosts/src/store.rs:378-386 | a saved library opens unchanged if and only if every note is clean |
| `HostLibrary.BelledIsLost` | crates/kaduox-ssh-hosts/src/model.rs:449-457 | a concrete valid library whose saved text is refused |
| `HostLibrary.FailedCountIsKept` | crates/kaduox-ssh-hosts/src/store.rs:368-373 | a concrete valid library on which a failed `record_success` has moved the counter |
| `Wire.ClientCodecIsInverse` | crates/kaduox-ssh-daemon/src/protocol.rs:231-324 | a client frame encodes to given bytes if and only if these bytes decode to that frame |
| `Wire.ServerCodecIsInverse` | crates/kaduox-ssh-daemon/src/protocol.rs:326-440 | a server frame encodes to given bytes if and only if these bytes decode to that frame |
| `WireLayout.ClientIsLaidOut` | crates/kaduox-ssh-daemon/src/protocol.rs:231-285 | a client frame is encoded exactly if its fields keep their written-out limits, and then as its tag, from 1 to 10, and its fields byte by byte |
| `WireLayout.ServerIsLaidOut` | crates/kaduox-ssh-daemon/src/protocol.rs:326-398 | a server frame is encoded exactly if its fields keep their written-out limits, and then as its tag, from 64 to 72, and its fields byte by byte |
| `WireLayout.ReadAsLaidOut` | crates/kaduox-ssh-daemon/src/protocol.rs:287-440 | exactly these bytes are read as these frames |
| `WireBasics.TextIsUtf8` | crates/kaduox-ssh-daemon/src/protocol.rs:574-576 | the bytes of a text are accepted as UTF-8 and belong to no other text |
| `Wire.ClientFrameFits` | crates/kaduox-ssh-daemon/src/protocol.rs:8-13 | every encodable client frame has a legal payload size of 1 byte to 1 MiB |
| `Wire.ServerFrameFits` | crates/kaduox-ssh-daemon/src/protocol.rs:8-13 | every encodable server frame has a legal payload size of 1 byte to 1 MiB |
| `Wire.AuthForward` | crates/kaduox-ssh-daemon/src/protocol.rs:442-465 | a written credential is read back, whatever follows it |
| `Wire.AuthBackward` | crates/kaduox-ssh-daemon/src/protocol.rs:586-601 | bytes read as a credential are exactly its encoding |
| `WireCodec.Encoder.PutBytes` | crates/kaduox-ssh-daemon/src/protocol.rs:482-490 | appends length and bytes, or fails exactly if they do not fit |
| `WireCodec.Encoder.PutAuth` | crates/kaduox-ssh-daemon/src/protocol.rs:442-465 | appends the credential, or fails exactly if a field does not fit or the path is not UTF-8 |
| `WireCodec.EncodeClientFrame` | crates/kaduox-ssh-daemon/src/protocol.rs:231-285 | the growing vector ends up as the specified encoding |
| `WireCodec.EncodeServerFrame` | crates/kaduox-ssh-daemon/src/protocol.rs:326-398 | the growing vector ends up as the specified encoding |
| `WireCodec.Cursor.Auth` | crates/kaduox-ssh-daemon/src/protocol.rs:586-601 | the cursor reads the credential and stops right behind it |
| `WireCodec.DecodeClientFrame` | crates/kaduox-ssh-daemon/src/protocol.rs:287-324 | the advancing cursor computes the specified decoding and refuses trailing bytes |
| `WireCodec.DecodeServerFrame` | crates/kaduox-ssh-daemon/src/protocol.rs:400-440 | the advancing cursor computes the specified decoding and refuses trailing bytes |
| `Framing.WrittenPayloadsAreReadBack` | crates/kaduox-ssh-daemon/src/protocol.rs:179-229 | reading a concatenation of framed payloads gives that list, then a clean end |
| `Framing.CleanStreamsAreWritten` | crates/kaduox-ssh-daemon/src/protocol.rs:179-204 | only such concatenations are read to a clean end |
| `Framing.TruncationIsNoticed` | crates/kaduox-ssh-daemon/src/protocol.rs:179-204 | a stream cut anywhere yields the payloads wholly before the cut, and ends cleanly exactly at a frame boundary |
| `Framing.WholeFramesIsTheLastBoundary` | crates/kaduox-ssh-daemon/src/protocol.rs:179-204 | the payloads counted as whole end at the last boundary before the cut |
| `Framing.ClientStreamsAreInverse` | crates/kaduox-ssh-daemon/src/protocol.rs:143-159 | a written list of client frames is read back as that list |
| `Framing.ReadClientFramesWereWritten` | crates/kaduox-ssh-daemon/src/protocol.rs:143-151 | a stream read as a list of client frames is the one written from it |
| `Framing.ServerStreamsAreInverse` | crates/kaduox-ssh-daemon/src/protocol.rs:161-177 | a written list of server frames is read back as that list |
| `Framing.ReadServerFramesWereWritten` | crates/kaduox-ssh-daemon/src/protocol.rs:161-169 | a stream read as a list of server frames is the one written from it |
| `Framing.Stream.ReadOne` | crates/kaduox-ssh-daemon/src/protocol.rs:179-204 | one read yields a payload, a clean end or an error, and consumes exactly the payload |
| `Framing.Stream.WriteOne` | crates/kaduox-ssh-daemon/src/protocol.rs:206-229 | a payload is framed onto the stream exactly if its size is legal |
| `Conversation.EveryRunKeepsInv` | crates/kaduox-ssh-daemon/src/server.rs:92-221 | every interleaving of client, server and failures keeps the two automata and the queues in step |
| `Conversation.NobodyIsConfused` | crates/kaduox-ssh-daemon/src/client.rs:138-364 | neither side ever takes a branch for an unexpected frame |
| `Conversation.OneChallengeAtATime` | crates/kaduox-ssh-daemon/src/server.rs:178-221 | at most one challenge is unanswered and answers follow the order of the challenges |
| `Conversation.AnswersMatchTheLastChallenge` | crates/kaduox-ssh-daemon/src/server.rs:205-216 | what the server reads while asking is the answer to the challenge it asked last |
| `Conversation.AtMostFourChallengesPerHop` | crates/kaduox-ssh-daemon/src/server.rs:181-203 | no hop is challenged more than four times, never for the first attempt, and always with its own position, alias, host and port |
| `Conversation.NeverStuckBeforeStreaming` | crates/kaduox-ssh-daemon/src/server.rs:302-427 | both sides wait with empty queues only in a started shell, whose end is still possible; so never during exec |
| `Conversation.FinalFrameComesLast` | crates/kaduox-ssh-daemon/src/client.rs:312-364 | a streaming client has only output ahead of it and the final frame comes last |
| `ConversationHistory.ConnectedAfterEveryHop` | crates/kaduox-ssh-daemon/src/server.rs:92-221 | a connection that the server made itself is used only after every hop of the route has been accepted, in order |
| `ConversationHistory.ReuseIsReportedTruthfully` | crates/kaduox-ssh-daemon/src/client.rs:267-364 | a shell client is told of a reused connection exactly if the server took one from its cache, and an exec client only then |
| `Wildcard.WildcardMatch` | crates/kaduox-ssh-core/src/host_trust.rs:265-295 | the backtracking loop terminates and computes the scan that the theorems are about |
| `Wildcard.MatchesIsGlob` | crates/kaduox-ssh-core/src/host_trust.rs:265-295 | on candidates without a star one remembered star suffices: the scan is the recursive pattern language, both ways |
| `Wildcard.MatchesIsSound` | crates/kaduox-ssh-core/src/host_trust.rs:265-295 | on every candidate whatever is matched is in the pattern language |
| `Wildcard.StarCandidateDiffers` | crates/kaduox-ssh-core/src/host_trust.rs:272-278 | for every candidate with a star, a pattern of the language that is not matched |
| `Wildcard.ExactlyOnStarFreeCandidates` | crates/kaduox-ssh-core/src/host_trust.rs:265-295 | scan and language agree on all patterns if and only if the candidate has no star |
| `HostTrust.ClearPatternsMatch` | crates/kaduox-ssh-core/src/host_trust.rs:225-247 | the list loop computes the verdict of the list, a matching negation ending it at once |
| `HostTrust.OrderDoesNotMatter` | crates/kaduox-ssh-core/src/host_trust.rs:225-247 | lists without empty entries give the same verdict in every order |
| `HostTrust.OrderMattersExactlyWhen` | crates/kaduox-ssh-core/src/host_trust.rs:225-247 | all orders of a list give a host the same verdict if and only if no entry is empty or no well-formed negated entry matches it |
| `HostTrust.OrderMattersWithEmptyEntry` | crates/kaduox-ssh-core/src/host_trust.rs:229-234 | two orders of one list with different verdicts |
| `HostTrust.ListVerdict` | crates/kaduox-ssh-core/src/host_trust.rs:225-247 | a list applies to a host if and only if no entry is empty, some plain entry matches and no negated one does; it is refused if and only if an empty entry has no matching negated one before it |
| `Text.FieldsAre` | crates/kaduox-ssh-core/src/host_trust.rs:47-48 | the fields of a line are its maximal runs without ASCII white space, in order |
| `HostTrust.ReadMark` | crates/kaduox-ssh-core/src/host_trust.rs:44-95 | one line is classified as `MarkOf` says, which `PolicyExactly` ties to the words of the line |
| `HostTrust.Parse` | crates/kaduox-ssh-core/src/host_trust.rs:37-104 | the line loop computes the policy of the file, which `PolicyExactly` ties to its text |
| `HostTrust.PolicyExactly` | crates/kaduox-ssh-core/src/host_trust.rs:30-104 | a file is accepted if and only if it has at most 8 MiB and every line that starts with `@` is complete and has a known marker; a key is revoked if and only if a line starting with `@revoked` names it for this host and port, and an authority if and only if a line starting with `@cert-authority` does |
| `HostTrust.DedupPublicKeys` | crates/kaduox-ssh-core/src/host_trust.rs:297-306 | the loop computes the first occurrences |
| `HostTrust.DedupKeepsKeys` | crates/kaduox-ssh-core/src/host_trust.rs:297-306 | deduplication keeps every key, invents none and leaves none twice |
| `HostTrust.VerdictOnKey` | crates/kaduox-ssh-core/src/handler.rs:159-211 | the verdict on a plain key, by the text of the file: revocation and unreadable markers reject under every policy, only `Insecure` leaves a key unverified, only `AcceptNew` learns an unknown one |
| `HostTrust.VerdictOnCertificate` | crates/kaduox-ssh-core/src/host_trust.rs:116-168 | a certificate is accepted if and only if the policy is not `Insecure`, the file is readable, and type, subject, signer, authorities, critical options and principals are all in order |
| `HostTrust.AcceptedIsNotRevoked` | crates/kaduox-ssh-core/src/handler.rs:135-213 | under every policy no accepted key, certificate subject or signer stands on a line whose first word is `@revoked` and whose patterns match the host |
| `HostTrust.RevokingOnlyRejectsMore` | crates/kaduox-ssh-core/src/host_trust.rs:116-168 | adding a readable line that names no authority, such as any `@revoked` line, never turns a rejection into an acceptance |
| `ShellWords.ReadQuoted` | crates/kaduox-ssh-core/src/client.rs:1133-1144 | a quoted value reads back as itself in the middle of any word |
| `ShellWords.Validated` | crates/kaduox-ssh-core/src/command.rs:25-52 | the seen-set loop accepts exactly commands with NUL-free parts and distinct portable names |
| `ShellWords.RenderPosix` | crates/kaduox-ssh-core/src/command.rs:54-78 | a command is rendered exactly if it is valid, and the shell then sees the intended words |
| `ShellWords.RenderedCommandReadsBack` | crates/kaduox-ssh-core/src/command.rs:54-78 | by the word rules of POSIX.1-2017 the rendering reads, token by token, as the optional `cd DIR &&`, the assignments, the program and the arguments; DIR is the directory, with `./` before it if it starts with a dash |
| `ShellWords.SudoKeepsTheCommand` | crates/kaduox-ssh-core/src/client.rs:1109-1131 | under sudo the shell sees eight words, the last being the command unchanged |
| `ShellWords.SudoNests` | crates/kaduox-ssh-core/src/client.rs:1109-1131 | reading that eighth word again gives the words of the original command |
| `Inventory.ExpandGroup` | crates/kaduox-ssh-openssh/src/inventory.rs:53-68 | the walk with its shared seen set terminates and computes the expansion |
| `Inventory.Walk.Expand` | crates/kaduox-ssh-openssh/src/inventory.rs:278-315 | one recursive call appends the new hosts of its group in order and restores the cycle stack |
| `Inventory.ExpansionSucceedsExactlyWhen` | crates/kaduox-ssh-openssh/src/inventory.rs:278-315 | it succeeds if and only if no cycle or missing group is reachable and at most 1024 hosts are, and then lists each reachable host once |
| `Inventory.FirstsAreDistinct` | crates/kaduox-ssh-openssh/src/inventory.rs:293-304 | first-occurrence deduplication keeps every host and repeats none |
| `Inventory.FirstsKeepOrder` | crates/kaduox-ssh-openssh/src/inventory.rs:293-304 | hosts are listed in the order in which they first stand in the flattening |
| `JumpChain.AuthenticateHop` | crates/kaduox-ssh-core/src/client.rs:955-1046 | the attempt loop emits numbered attempts and succeeds exactly if one of the first five is accepted, each having had a credential and all before it having been rejected |
| `JumpChain.Connect` | crates/kaduox-ssh-core/src/client.rs:829-1097 | every run emits a beginning of the trace grammar; it succeeds exactly if every hop and the final connection work, and then keeps all hops in order |
| `JumpChain.HopsConnectInOrder` | crates/kaduox-ssh-core/src/client.rs:844-860 | a hop is only connected to after the hop before it was authenticated |
| `JumpChain.RequestsAreNumbered` | crates/kaduox-ssh-core/src/client.rs:957-964 | attempts run from 1 to at most 5 and a previous failure is reported exactly from the second on |
| `JumpChain.EveryTraceIsAsked` | crates/kaduox-ssh-core/src/client.rs:955-1046 | nothing is tried that was not asked for, and every acceptance or rejection follows its own attempt at once |
| `Fleet.CappedWhateverTheChunks` | crates/kaduox-ssh-cli/src/fleet_main.rs:700-715 | however the output is cut into writes, the buffer holds its first limit bytes and is marked exactly if there were more |
| `Fleet.CappedBuffer.Write` | crates/kaduox-ssh-cli/src/fleet_main.rs:701-715 | a write is wholly consumed and keeps the buffer the capped form of all that was written |
| `Fleet.NothingIsLost` | crates/kaduox-ssh-cli/src/fleet_main.rs:249-291 | pending, running and completed targets always add up to all targets, and at most the allowed number runs |
| `Fleet.EveryTargetRuns` | crates/kaduox-ssh-cli/src/fleet_main.rs:265-291 | when no task is left, every target has run exactly once |
| `Fleet.OutputIsItsOwn` | crates/kaduox-ssh-cli/src/fleet_main.rs:265-291 | in every run, what is kept and printed for a target is what that target wrote, stream by stream, cut at the limit |
| `Fleet.MemoryIsBounded` | crates/kaduox-ssh-cli/src/fleet_main.rs:378-400 | with validated limits the retained output never exceeds 512 MiB |
| `Fleet.Schedule` | crates/kaduox-ssh-cli/src/fleet_main.rs:249-291 | the two loops join every target once in some order, and the failures counted are the targets that failed |
| `Authenticate.Session.Interactive` | crates/kaduox-ssh-core/src/auth.rs:346-412 | against every server the conversation stays within 16 rounds, 32 prompts each and 64 in all; every response answers the question just asked, with the secret for each prompt that has a text and nothing for the others; it ends with the server's verdict, a transport error, or a question that would exceed one of these limits |
| `Authenticate.Session.Password` | crates/kaduox-ssh-core/src/auth.rs:120-143 | one password, and a conversation exactly if the server left out the method but offers the sibling; every response in it answers the question just asked |
| `Authenticate.Session.KeyboardInteractive` | crates/kaduox-ssh-core/src/auth.rs:144-158 | one conversation whose responses answer the questions asked, and a password exactly if the server left out the method but offers the sibling |
| `Authenticate.PasswordThenTalk` | crates/kaduox-ssh-core/src/auth.rs:312-344 | a password followed by a conversation stays within all limits |

## Left out

- Error texts and which of several errors is reported first: every failure is one `Err`.
- The SSH transport, keys, agents, hashed host patterns and certificate cryptography: foreign code, represented by parameters; certificate validation is given the set of trusted authorities, not their list.
- Paths that are not valid UTF-8: the host library treats a path as text.
- `char::is_alphanumeric`: any class of characters without control characters, since the Unicode tables are not part of this model.
- `Arc` reference counts: counted as the places that hold a handle (names, tasks, leases, raw clients), not as machine words.
- PoolTheorems.GroupNeverRunsOutOfPermits: a new call does not take the identity of one that asked for a permit before; `rollback_opened` is not followed.
- `connection_snapshots` and idle time stamps: the clock only says which names are expired.
- A command's split into assignments and program as the shell classifies it: the rendering property is about words, since `=` counts as a safe unquoted character.
- The rest of the shell grammar (expansions, comments, here-documents): the word reader covers quoting, blanks and `&&`, and refuses other special characters outside quotes.
- `parse_inventory`: the groups are given; the parser would only add easy members.
- The socket endpoint, partial frames inside `select!` and pipe back-pressure: one frame is read or written at a time.
- Whether a shell's exit is eventually delivered: only safety is stated for the conversation.
- HostWriter.EncodeFile: the iteration order of the ordered maps is a function on key sets, not a tree.
- `hosts_recent_first`, `folder_entries` and other views of the store: sorting and copying only.
- File permissions, symbolic-link checks and atomic replacement of the library file: operating-system calls.
- Private-key, agent and automatic authentication: a sequence of foreign calls without state of its own.
- Terminal interfaces, the desktop application, transfers, SOCKS and port forwarding, and `cmd.exe` rendering.
