# PJLIB-UTIL in Dafny

A model of the hard parts of PJLIB-UTIL, the utility library of PJSIP, with
proofs of what they promise.

* **The caching DNS resolver** (`Queries`, `QueryInvariant`, `ResponseCache`,
  `NameServers`, `ResolverRuns`, `ResolverTheorems`, `ResolverReplies`,
  `ResolverNotices`, `ResolverOutcomes`, `ResolverTiming`, `ResolverProgress`,
  `Resolver`). Every section that holds the resolver's lock
  is one step; between steps other threads may do anything that is enabled. A
  completion in progress (lock released, query out of the tables, its callback
  and those of its children being called one by one) is part of the state.
  `ResolverRuns` gives the state machine and its invariant, the next six what
  holds in all runs, stated over the calls, packets and expiries of the run,
  and the class `Resolver.DnsResolver` performs the steps on the source's tables, lists
  and counters; its `Valid()` says that its state is one that a run reaches.
* **DNS packets** (`Dns`, `DnsNames`, `DnsParse`, `DnsPrint`, `DnsRoundTrip`,
  `DnsWire`): names with compression pointers, parsing against the format of
  RFC 1035, printing with the label table.
* **JSON text** (`Scanner`, `JsonStrings`, `JsonWrite`, `JsonParse`,
  `JsonRoundTrip`, and against the grammar of RFC 8259 `JsonGrammar` and
  `JsonAccepts`).
* **Percent-escaping** (`Percent`) and **Base64** (`Base64`).
* **MD5 and HMAC** (`Md5`, `Md5Transform`) and **CRC-32** (`Crc32`).
* **Packed character sets** (`Cis`).
* **The option scanner of getopt** with its argv permutation (`Getopt`,
  `GetoptRendering`).

Specification functions come first in each module, then the loops and objects
of the source, proved against them. `dafny verify dfyconfig.toml` checks all
of it.

Where the source does less than one would expect, the model does what the
source does, and a lemma says exactly when the expected property holds:

* A cancelled query keeps its place in both tables with no timer
  (`CancelLeavesStoppedQuery`, `StoppedWaits`), so it stays pending until a
  response arrives, and then the assertion on its timer id fails in debug
  builds.
* A response with the id zero is timed for a server that nothing is
  outstanding with (`DelayIsMeasured`, `ZeroIdRun`).
* The data of the record types that are decoded is read by its own form,
  whatever its length field says (`DnsWire.RecordIsRead`).
* Destroy releases cached packets whatever their count (`SweepIsSafeIff`,
  `SweepTakesPacket`).
* The label table compares names with printed octets, in which dots have become
  label lengths, so two names may be taken for each other
  (`RoundTripIffUnambiguous`, `AmbiguousPair`).
* JSON names and unnamed strings are written escaped but read raw,
  and the keywords `true` and `null` cannot end a text, because they are
  compared with five characters (`DocumentRoundTrip`).
* A stray character at the end of Base64 text is taken for a value
  (`StrayCharacters`).
* Escaping with the percent sign left as it is can be undone only if no
  hexadecimal digit is left as it is either (`RoundTripIffSafe`).

## Model

| member | source | states |
|---|---|---|
| `ResolverTheorems.CallbacksConserved` | pjlib-util/src/pjlib-util/resolver.c:1155-1249 | In every state any run reaches, each accepted request with a callback is exactly one of: held by one node, taken by one completion, taken by a cancel, called back once, or dropped; a node that holds one is not on the free list and will still be notified |
| `ResolverTheorems.FatesAreFinal` | pjlib-util/src/pjlib-util/resolver.c:1216-1249 | In every step a delivered or dropped request stays so, and one is dropped only by a cancel of the node that holds it, or by a destroy that comes to that node, without notification |
| `ResolverNotices.CallbacksAreTold` | pjlib-util/src/pjlib-util/resolver.c:1994-2062 | In every run, each callback made is told the code k exactly if the step that ended the query it waited for, as a child or not, was the receipt of a response with flags modulo 16 equal to k; of a timeout exactly if an expiry ended it; and that it is cancelled exactly if destroy ended it or a cancel of its own request took the callback |
| `ResolverNotices.RepliesAreAnswers` | pjlib-util/src/pjlib-util/resolver.c:1994-2062 | In every run, a callback that was told the code of a response was told of one that has the response bit set and repeats, in class IN and up to letter case, the type and the name in the call that the callback was given in, or has no question and an error code |
| `ResolverReplies.AnswersExactly` | pjlib-util/src/pjlib-util/resolver.c:2002-2014 | For every type and every name that fits, what is accepted as an answer to the key of a request: the first question has class 1, the type, and the name up to its first NUL and up to letter case; or there is no question and the code is not 0 |
| `ResolverReplies.SameTextWithoutNul` | pjlib-util/src/pjlib-util/resolver.c:2003-2008 | For a name without NUL that is equality up to letter case |
| `ResolverReplies.RepliesAnswer` | pjlib-util/src/pjlib-util/resolver.c:2040-2062 | In every run a callback, the query's own or that of a child, that is about to be told of a response is told of one that answers, in that sense, the type and the name in its own call, with the transaction id of the query |
| `ResolverReplies.HeldAsks` | pjlib-util/src/pjlib-util/resolver.c:1155-1203 | In every run a callback that is held belongs to a call whose type and name make the key of the query that it waits for |
| `ResolverOutcomes.ResponseEnds` | pjlib-util/src/pjlib-util/resolver.c:1940-2040 | In every good state a packet ends a pending query for a name exactly if its source is configured (if that is checked), it is a response with the transaction id of the query, and it answers the question about the name |
| `ResolverOutcomes.ExpiryEnds` | pjlib-util/src/pjlib-util/resolver.c:1802-1840 | An expiry ends the query exactly if it was transmitted qretr_count times or the retransmission fails; otherwise it counts one more transmission |
| `ResolverOutcomes.TimesOutAfter` | pjlib-util/src/pjlib-util/resolver.c:1802-1840 | Over any run in which a query stays pending, its next expiry ends it exactly if its transmissions, one more for each expiry so far, have come to qretr_count or it does not get out again |
| `ResolverOutcomes.CallIsAccepted` | pjlib-util/src/pjlib-util/resolver.c:1135-1205 | A call without a fresh response is accepted exactly if a query for its key is pending or its own query gets out; then a query for it is pending and its callback, if any, has a ticket |
| `ResolverOutcomes.CallFindsResponse` | pjlib-util/src/pjlib-util/resolver.c:1080-1123 | A call with a fresh response starts no query and reads a copy of the packet last stored under its key |
| `ResolverOutcomes.ResponseIsFound` | pjlib-util/src/pjlib-util/resolver.c:1665-1773 | After a completion, a response that is not truncated is found under the key of its query at every later time exactly as long as the maximum and the TTLs of its answers allow, or sixty seconds for errors and empty answers; and what is found is its copy |
| `ResolverOutcomes.InjectedIsFound` | pjlib-util/src/pjlib-util/resolver.c:2116-2160 | A packet that was added is found, by the same rule or for ever if it was added without an expiry, under the name of its first answer or question in any letter case |
| `ResolverProgress.StepWorks` | pjlib-util/src/pjlib-util/resolver.c:1777-1870 | Every step the resolver makes by itself (a live expiry, a member notified, a callback called, the end of a completion) decreases one measure of all the work left |
| `ResolverProgress.RunsEnd` | pjlib-util/src/pjlib-util/resolver.c:1777-1870 | Left to itself, the resolver makes no more steps than that measure |
| `ResolverProgress.WorkGoesOn` | pjlib-util/src/pjlib-util/resolver.c:1777-1870 | While there is work left, a timer is armed or one of those steps is enabled |
| `ResolverProgress.CompletionGoesOn` | pjlib-util/src/pjlib-util/resolver.c:2040-2088 | No completion is ever stuck |
| `ResolverProgress.NothingForgotten` | pjlib-util/src/pjlib-util/resolver.c:1228-1240 | When no work is left, every accepted request has been called back or dropped, but for those that wait for a query that a cancel has stopped |
| `ResolverTheorems.TablesAndOwnership` | pjlib-util/src/pjlib-util/resolver.c:730-783 | In every reachable state the by-id and the by-key table hold the same queries, under distinct non-zero ids and distinct keys, and every node is in exactly one place: pending, child of one parent, completing, free, or abandoned by destroy |
| `ResolverTheorems.ReferenceCounts` | pjlib-util/src/pjlib-util/resolver.c:1080-1153 | In every reachable state an entry's count is its running callbacks plus one if it is in the table; no packet that a callback is reading is released or replaced; every pool is released at most once, and exactly when its entry is gone |
| `ResolverTheorems.CacheHits` | pjlib-util/src/pjlib-util/resolver.c:1665-1773 | In every reachable state a hit returns a copy of the last packet stored under the key, before store time plus the maximal TTL and plus every answer's TTL; what came from the network was not truncated, and in every run that leads to the state a call has the key's type and name, and the response was received from a configured server (if that is checked) while a query for them with its transaction id was pending, as an answer to the question about them |
| `ResolverTheorems.NetworkEntries` | pjlib-util/src/pjlib-util/resolver.c:1932-2018 | Every packet stored from the network, hit or not, has such a receipt in every run that leads to the state |
| `ResolverTheorems.LifeCycle` | pjlib-util/src/pjlib-util/resolver.c:1492-1661 | In every step but set_ns, each server changes only as the life cycle allows: out of BAD to PROBING once its time is up or to ACTIVE on a validated response, into BAD from expired PROBING or on a validated response with code 5 or 9; and the new state lasts as long as the settings say |
| `ResolverTiming.ResponseSetsState` | pjlib-util/src/pjlib-util/resolver.c:1602-1661 | A response sets the state of the first server with its address by its code and by whether it matched a query, and changes no other server |
| `ResolverTiming.DelayIsMeasured` | pjlib-util/src/pjlib-util/resolver.c:1646-1652 | In every run without a packet that has the id zero, a server's response time is the ten seconds it was configured with, or the time between a transmission to it and its response to the id of that transmission |
| `ResolverTiming.ZeroIdRun` | pjlib-util/src/pjlib-util/resolver.c:1646-1652 | The condition is needed: a run gives a response time to a server that nothing was sent to |
| `ResolverTheorems.ExpiriesBounded` | pjlib-util/src/pjlib-util/resolver.c:1802-1822 | Over any run during which a query stays pending, its transmissions grow by exactly its expiries and stay within max(1, qretr_count), and its timer stays armed unless it is cancelled |
| `ResolverTheorems.StepKeepsQuery` | pjlib-util/src/pjlib-util/resolver.c:837-962 | One step: only an expiry of the query counts a transmission, only its cancel stops its timer |
| `ResolverTheorems.CancelLeavesStoppedQuery` | pjlib-util/src/pjlib-util/resolver.c:1228-1240 | A cancel can leave a query in the tables with no timer: such a state is reachable |
| `ResolverTheorems.StoppedStays` | pjlib-util/src/pjlib-util/resolver.c:1228-1240 | In every step such a query stays in the tables, without a timer, exactly if the step is not a validated response to it or destroy |
| `ResolverTheorems.StoppedWaits` | pjlib-util/src/pjlib-util/resolver.c:1228-1240 | Over any run it stays pending exactly as long as there is no such step |
| `ResolverRuns.StepKeepsGood` | pjlib-util/src/pjlib-util/resolver.c:1032-1249 | Every lock-held section keeps the invariant of queries, cache and responses in delivery |
| `ResolverRuns.ReachableIsGood` | pjlib-util/src/pjlib-util/resolver.c:1032-2106 | The invariant holds in every state that any sequence of sections reaches |
| `QueryInvariant.JoinKeepsValid` | pjlib-util/src/pjlib-util/resolver.c:1155-1175 | A request for a pending key joins that query as a child and keeps the invariant |
| `QueryInvariant.BeginKeepsValid` | pjlib-util/src/pjlib-util/resolver.c:1177-1203 | A new query enters both tables and keeps the invariant |
| `QueryInvariant.RefuseKeepsValid` | pjlib-util/src/pjlib-util/resolver.c:1177-1203 | A query that gets no id or cannot be sent leaves no trace but a free node |
| `QueryInvariant.CancelKeepsValid` | pjlib-util/src/pjlib-util/resolver.c:1216-1249 | A cancel takes the callback out of the node and keeps the invariant |
| `QueryInvariant.CompleteKeepsValid` | pjlib-util/src/pjlib-util/resolver.c:1820-1840 | A completing query leaves both tables with its children and keeps the invariant |
| `QueryInvariant.TakeNextKeepsValid` | pjlib-util/src/pjlib-util/resolver.c:2040-2062 | Notifying the next member keeps the invariant while the lock is released |
| `QueryInvariant.FinishKeepsValid` | pjlib-util/src/pjlib-util/resolver.c:2064-2088 | Recycling a completed query and its children keeps the invariant: none of them holds a callback |
| `QueryInvariant.CollectKeepsValid` | pjlib-util/src/pjlib-util/resolver.c:536-599 | Destroy collects a pending query with its children and keeps the invariant |
| `ResponseCache.KeyFoldsCase` | pjlib-util/src/pjlib-util/resolver.c:968-985 | Two requests, for names without NUL that fit, get the same key exactly if their types agree and their names do up to letter case |
| `ResponseCache.HitKeepsValid` | pjlib-util/src/pjlib-util/resolver.c:1080-1105 | A hit counts one running callback |
| `ResponseCache.DoneKeepsValid` | pjlib-util/src/pjlib-util/resolver.c:1121-1130 | The return of a callback gives its reference back, and releases a removed entry after the last one |
| `ResponseCache.RemoveKeepsValid` | pjlib-util/src/pjlib-util/resolver.c:1142-1151 | Removing an expired entry gives the table's reference back |
| `ResponseCache.UpdateKeepsValid` | pjlib-util/src/pjlib-util/resolver.c:1665-1773 | Storing a packet keeps the counts and what is stored |
| `ResponseCache.ResetIsUnused` | pjlib-util/src/pjlib-util/resolver.c:1004-1018 | An entry is reset only when no callback uses it |
| `ResponseCache.ReaderIsSafe` | pjlib-util/src/pjlib-util/resolver.c:1080-1132 | The packet that a running callback reads is the one it was given, in a live pool |
| `ResponseCache.HitIsFaithful` | pjlib-util/src/pjlib-util/resolver.c:1096-1123 | A hit returns a copy of the last packet stored under the key, before its time is up |
| `ResponseCache.SweepIsSafeIff` | pjlib-util/src/pjlib-util/resolver.c:601-612 | The sweep of destroy, which ignores the counts, leaves every running callback its packet exactly if no entry of the table has a count above one |
| `ResolverTheorems.SweepTakesPacket` | pjlib-util/src/pjlib-util/resolver.c:601-612 | If anything is cached at all, a state is reachable in which the sweep takes a packet from under a running callback |
| `Resolver.DnsResolver.SweepCache` | pjlib-util/src/pjlib-util/resolver.c:601-612 | The loop of the sweep releases every entry of the table and no other |
| `NameServers.Select` | pjlib-util/src/pjlib-util/resolver.c:1531-1599 | The servers chosen are distinct and are the ACTIVE one of lowest delay, first on ties, and all that are PROBING after the scan |
| `NameServers.SelectionIsRight` | pjlib-util/src/pjlib-util/resolver.c:1531-1599 | No BAD server is ever chosen, and none is chosen exactly if none is ACTIVE or PROBING |
| `NameServers.BestIsUnique` | pjlib-util/src/pjlib-util/resolver.c:1540-1556 | There is only one lowest-delay ACTIVE server in this sense |
| `NameServers.Report` | pjlib-util/src/pjlib-util/resolver.c:1602-1661 | The states and delays after a response from an address |
| `NameServers.SelectionFollowsLifeCycle` | pjlib-util/src/pjlib-util/resolver.c:1556-1590 | A selection changes states only by the passing of their time |
| `NameServers.ReportFollowsLifeCycle` | pjlib-util/src/pjlib-util/resolver.c:1602-1661 | A response changes the state of its sender only, and to BAD only if validated |
| `NameServers.IsFromServer` | pjlib-util/src/pjlib-util/resolver.c:791-806 | Whether an address is that of a configured server |
| `Resolver.DnsResolver.constructor` | pjlib-util/src/pjlib-util/resolver.c:394-503 | A new resolver is in the initial state of the state machine |
| `Resolver.DnsResolver.StartRequest` | pjlib-util/src/pjlib-util/resolver.c:1032-1210 | One call of start_query is one step of the state machine |
| `Resolver.DnsResolver.CancelRequest` | pjlib-util/src/pjlib-util/resolver.c:1216-1249 | One call of cancel_query, up to the callback, is one step |
| `Resolver.DnsResolver.OnExpiry` | pjlib-util/src/pjlib-util/resolver.c:1777-1840 | One firing of a timer, up to the callbacks, is one step; it does nothing if the query is no longer in the by-id table |
| `Resolver.DnsResolver.OnPacket` | pjlib-util/src/pjlib-util/resolver.c:1874-2040 | One packet, up to the callbacks, is one step: source check, parsing, QR bit, report, id and question |
| `Resolver.DnsResolver.TakeNextCallback` | pjlib-util/src/pjlib-util/resolver.c:1838-1852 | One round of a notification loop, up to the callback, is one step: the callback of the next child is taken, in the order of the list |
| `Resolver.DnsResolver.CallCallback` | pjlib-util/src/pjlib-util/resolver.c:2040-2041 | The call of a callback that a completion has taken is one step, and is logged with its notice |
| `Resolver.DnsResolver.CallCancelledCallback` | pjlib-util/src/pjlib-util/resolver.c:1244-1246 | The call of a callback that a cancel has taken is one step |
| `Resolver.DnsResolver.NotifyMembers` | pjlib-util/src/pjlib-util/resolver.c:2040-2062 | The notification loop, with no other thread in between, calls exactly the callbacks that are due, the query's first and then its children's in order, each once and with the same notice |
| `Resolver.DnsResolver.RunCompletion` | pjlib-util/src/pjlib-util/resolver.c:2040-2088 | A completion from its first callback to its end |
| `Resolver.DnsResolver.FinishCompletion` | pjlib-util/src/pjlib-util/resolver.c:2064-2088 | The response is cached, then the query and its children go to the free list |
| `Resolver.DnsResolver.ReturnFromCallback` | pjlib-util/src/pjlib-util/resolver.c:1121-1130 | The end of a callback on a cached response is one step |
| `Resolver.DnsResolver.AddPacket` | pjlib-util/src/pjlib-util/resolver.c:2116-2160 | add_entry stores a response under its answer's or its question's key |
| `Resolver.DnsResolver.SetNameservers` | pjlib-util/src/pjlib-util/resolver.c:636-681 | set_ns replaces all servers, and leaves none if an address cannot be parsed |
| `Resolver.DnsResolver.BeginDestroy` | pjlib-util/src/pjlib-util/resolver.c:516-599 | Destroy collects every pending query, each once, and empties both tables |
| `Resolver.DnsResolver.GetQueryId` | pjlib-util/src/pjlib-util/resolver.c:763-783 | An id that is not in use and not zero, or none |
| `Resolver.DnsResolver.TransmitQuery` | pjlib-util/src/pjlib-util/resolver.c:837-962 | The servers and the outcome of one transmission, for all that timer heap and sockets may do |
| `Resolver.DnsResolver.ComputeTtl` | pjlib-util/src/pjlib-util/resolver.c:1687-1712 | The TTL of a packet to be cached: the smallest of its answers' and the maximum, or that of errors |
| `Getopt.Exchange` | pjlib-util/src/pjlib-util/getopt.c:200-255 | The swaps make exactly a rotation of the two adjacent blocks |
| `Getopt.SwapBlocks` | pjlib-util/src/pjlib-util/getopt.c:218-244 | Two blocks of equal length change places |
| `Getopt.FindLong` | pjlib-util/src/pjlib-util/getopt.c:475-514 | An exact match, else the only abbreviation, else ambiguous or none |
| `Getopt.LookupUnique` | pjlib-util/src/pjlib-util/getopt.c:475-514 | There is one such outcome for every table and name |
| `Getopt.DecodeFollowsSplit` | pjlib-util/src/pjlib-util/getopt.c:567-729 | Reading one option takes as many elements as the reference partition gives to it |
| `Getopt.Scanner.Call` | pjlib-util/src/pjlib-util/getopt.c:352-729 | One call of the resumable scanner: the option it reads is the next one of argv as it was, and the invariant of the scan is kept; when it answers -1 argv is partitioned |
| `Getopt.Scanner.Advance` | pjlib-util/src/pjlib-util/getopt.c:378-448 | Moving to the next element permutes only what was read and skipped |
| `Getopt.Scanner.DecodeLong` | pjlib-util/src/pjlib-util/getopt.c:467-565 | The outcome of a long option |
| `Getopt.Scanner.DecodeShort` | pjlib-util/src/pjlib-util/getopt.c:567-729 | The outcome of a short option |
| `GetoptRendering.SpelledIsRead` | pjlib-util/src/pjlib-util/getopt.c:352-729 | Every command line that spells intended options (flags in groups, known or not; arguments attached, in the next element or left out; long names, in full or abbreviated, with one or two dashes, with `=`, with the next element, alone, with an argument they do not take, unknown or ambiguous; an argument missing at the end; words and `--` anywhere) is read as exactly the codes, arguments, optopt values and indices that were meant, and its elements split into those of the options and the others |
| `GetoptRendering.ScanSpelled` | pjlib-util/src/pjlib-util/getopt.c:352-729 | Scanning such a command line to the end shows the caller just that, leaves argv as the option elements followed by the others, each in their order, and optind between them |
| `Getopt.ScanAll` | pjlib-util/src/pjlib-util/getopt.c:352-448 | For every argv scanned to the end, what the caller sees are the options of argv as it was, in their order and with their arguments, and argv is then its options with their arguments and after them its non-options, with optind at the boundary |
| `Getopt.OptionsUnique` | pjlib-util/src/pjlib-util/getopt.c:352-729 | A command line has one such list of options |
| `Getopt.SplitIsMerge` | pjlib-util/src/pjlib-util/getopt.c:393-423 | The partition keeps the order within both parts |
| `Getopt.PartitionIsStable` | pjlib-util/src/pjlib-util/getopt.c:352-448 | The final argv is a permutation of the original that keeps the order of the options and of the non-options |
| `DnsNames.SizeMatchesText` | pjlib-util/src/pjlib-util/dns.c:126-268 | For every packet, cyclic pointers included, length and text of a name are defined for the same starts and agree, and what is parsed lies in the packet |
| `DnsNames.GetNameLen` | pjlib-util/src/pjlib-util/dns.c:126-200 | The length scan computes the size by the reference, and terminates on every packet |
| `DnsNames.GetName` | pjlib-util/src/pjlib-util/dns.c:204-268 | The copying scan appends exactly the text by the reference, within the room that the length scan announced |
| `DnsNames.ReadName` | pjlib-util/src/pjlib-util/dns.c:283-304 | A name is read into a buffer of just its length |
| `DnsParse.ReadQuestion` | pjlib-util/src/pjlib-util/dns.c:272-314 | A question, or why there is none, stays within the packet |
| `DnsParse.ReadRecord` | pjlib-util/src/pjlib-util/dns.c:317-462 | A record, or why there is none, stays within the packet |
| `DnsParse.ReadPacket` | pjlib-util/src/pjlib-util/dns.c:465-585 | A packet by its reference definition |
| `DnsWire.MessagesAreRead` | pjlib-util/src/pjlib-util/dns.c:465-585 | A datagram is parsed to a packet exactly if it begins with that message in the format of RFC 1035, octet by octet: header words, at most 256 entries per section, questions, records of any type with class IN for those that are decoded; so everything else is refused |
| `DnsWire.RecordIsRead` | pjlib-util/src/pjlib-util/dns.c:317-462 | A record is read exactly if its name, type, class, TTL, data length and data stand there; data of a type that is not decoded is given raw, and reading goes on after it by its length |
| `DnsWire.NameIsRead` | pjlib-util/src/pjlib-util/dns.c:126-268 | A name is read exactly if its labels stand there, in up to five more places that pointers lead to |
| `DnsWire.LabelsAreRead` | pjlib-util/src/pjlib-util/dns.c:126-268 | The text of a name is its labels with dots between them (and one at the end if a pointer to a zero octet follows the last label), and there is none beyond five pointers |
| `DnsPrint.WriteLabels` | pjlib-util/src/pjlib-util/dns_server.c:248-278 | The label loop writes the uncompressed form |
| `DnsPrint.Printer.WriteName` | pjlib-util/src/pjlib-util/dns_server.c:222-281 | A name is printed in full, or as a pointer to the first slot that compares equal |
| `DnsPrint.Printer.WriteRecord` | pjlib-util/src/pjlib-util/dns_server.c:283-377 | A record with its data length filled in afterwards |
| `DnsPrint.Printer.WritePacket` | pjlib-util/src/pjlib-util/dns_server.c:380-458 | A packet by its reference definition |
| `DnsPrint.MakeQuery` | pjlib-util/src/pjlib-util/dns.c:55-117 | A query is the packet with that one question, made exactly if the size asked for is there, and never larger |
| `DnsPrint.EncodeFits` | pjlib-util/src/pjlib-util/dns.c:69-74 | The uncompressed form is at most two octets longer than any name |
| `DnsRoundTrip.EncodedDecodes` | pjlib-util/src/pjlib-util/dns.c:204-268 | The uncompressed form of a name decodes to it anywhere in a packet, at any pointer depth |
| `DnsRoundTrip.PrintedName` | pjlib-util/src/pjlib-util/dns_server.c:222-281 | A printed name, compressed or not, decodes to the name |
| `DnsRoundTrip.RoundTrip` | pjlib-util/src/pjlib-util/dns_server.c:380-458 | Parsing a packet's octets gives the packet back but for the rdlength of names, for every packet of up to 16384 octets within the section caps over names that cannot be taken for each other; its records may be those that are printed mixed with records of any other type and any data |
| `DnsRoundTrip.PlainRoundTrip` | pjlib-util/src/pjlib-util/dns_server.c:222-458 | In particular with labels of at most 44 octets, none below '-' |
| `DnsRoundTrip.PlainIsUnambiguous` | pjlib-util/src/pjlib-util/dns_server.c:233-236 | Such names are never taken for each other by the label table |
| `DnsRoundTrip.RoundTripIffUnambiguous` | pjlib-util/src/pjlib-util/dns_server.c:233-246 | Over any set of names, all packets come back exactly if no name equals another one with its dots replaced by label lengths |
| `DnsRoundTrip.AmbiguousPair` | pjlib-util/src/pjlib-util/dns_server.c:233-246 | There are such names, of three octets |
| `DnsRoundTrip.Mistaken` | pjlib-util/src/pjlib-util/dns_server.c:233-246 | For every such pair of names, the packet that asks for both does not come back |
| `DnsRoundTrip.QueryRoundTrip` | pjlib-util/src/pjlib-util/dns.c:55-117 | A query parses to a packet with its id, the recursion bit alone and its one question in class IN |
| `Dns.Duplicate` | pjlib-util/src/pjlib-util/dns.c:667-744 | A duplicate is the packet without authority and additional records, but for letter case in names |
| `Dns.Intern` | pjlib-util/src/pjlib-util/dns.c:592-621 | The name table gives a name equal up to letter case and stays within its 16 entries |
| `Scanner.TextScanner.SkipWhitespace` | pjlib-util/src/pjlib-util/scanner.c:141-200 | Skips exactly the white space at the position |
| `Scanner.TextScanner.GetQuotes` | pjlib-util/src/pjlib-util/scanner.c:370-447 | The quoted text up to the closing quote, or a syntax error if there is none on the line |
| `Scanner.TextScanner.GetUntilCh` | pjlib-util/src/pjlib-util/scanner.c:557-580 | The text up to a character |
| `Scanner.TextScanner.GetChar` | pjlib-util/src/pjlib-util/scanner.c:470-490 | One character, unless it is NUL or there is none |
| `Scanner.ClosingIsUnescaped` | pjlib-util/src/pjlib-util/scanner.c:388-424 | Counting backslashes backwards finds the quote that a reader from left to right takes for the closing one |
| `JsonStrings.Decode` | pjlib-util/src/pjlib-util/json.c:137-207 | The text of an escaped string, or an index that is never 0 where it is wrong |
| `JsonStrings.EscapeRoundTrip` | pjlib-util/src/pjlib-util/json.c:137-207 | Every octet string comes back from its escape |
| `JsonStrings.QuotedRoundTrip` | pjlib-util/src/pjlib-util/json.c:415-487 | Every octet string, written in quotes anywhere in a text, is delimited rightly and comes back |
| `JsonWrite.Writer.WriteEscaped` | pjlib-util/src/pjlib-util/json.c:415-487 | The calls of the writer have 1 to 64 octets each and concatenate to the octet-by-octet escape, or to a prefix of it if one is refused |
| `JsonGrammar.EscapeIsRight` | pjlib-util/src/pjlib-util/json.c:428-475 | How each of the 256 octets is written: eight by an escape of two octets, the other printable ones as they are, the rest by an escape of six with digits of lower case |
| `JsonWrite.Writer.WriteElem` | pjlib-util/src/pjlib-util/json.c:548-615 | An element's text, all of it or a failure because it does not fit; the indentation is restored |
| `JsonWrite.Writer.WriteChildren` | pjlib-util/src/pjlib-util/json.c:489-546 | The members' text, on one line or on lines of their own |
| `JsonWrite.Write` | pjlib-util/src/pjlib-util/json.c:373-392 | Writing succeeds exactly if the text, a NUL and one octet more fit in the buffer |
| `JsonParse.Parser.ReadHead` | pjlib-util/src/pjlib-util/json.c:218-238 | A name, or an unnamed string, read raw |
| `JsonParse.Parser.ReadElem` | pjlib-util/src/pjlib-util/json.c:209-298 | An element by its reference definition, with the depth restored |
| `JsonParse.Parser.ReadChildren` | pjlib-util/src/pjlib-util/json.c:102-134 | The members, or a failure beyond 256 levels |
| `JsonParse.ReadDocument` | pjlib-util/src/pjlib-util/json.c:306-350 | The root, and how many octets are left after it |
| `JsonGrammar.SpelledIsParsed` | pjlib-util/src/pjlib-util/json.c:102-298 | Every text that spells an element by the grammar of RFC 8259, with any tabs, line feeds, carriage returns and spaces before, between and after its tokens and any escapes in its strings, is parsed to that element with nothing left; it is refused exactly if it nests more than 256 deep or is `null` or `true` at the very end |
| `JsonGrammar.WrittenIsSpelled` | pjlib-util/src/pjlib-util/json.c:489-615 | What the writer writes is such a text, if names and unnamed strings are plain |
| `JsonGrammar.WhiteSpaceDoesNotMatter` | pjlib-util/src/pjlib-util/scanner.c:141-200 | A text with the tokens of a written document and any other white space between them is parsed as the written one |
| `JsonGrammar.IsWhiteExactly` | pjlib-util/src/pjlib-util/scanner.c:30-36 | White space is the octets 9, 10, 13 and 32 and no other |
| `JsonAccepts.ParsedIsSpelled` | pjlib-util/src/pjlib-util/json.c:102-298 | Whatever is parsed nests at most 256 deep and is spelled by the text, in a grammar that is wider only in its commas, raw names, control characters, unchecked hexadecimal digits, white space after a minus sign and empty names |
| `JsonRoundTrip.ElemParses` | pjlib-util/src/pjlib-util/json.c:209-298 | A written element parses to itself wherever it stands, and exactly if it nests within the limit |
| `JsonRoundTrip.DocumentRoundTrip` | pjlib-util/src/pjlib-util/json.c:102-298 | Every document whose numbers have digits comes back exactly if its names and unnamed strings are plain, its arrays have no named members, it nests at most 256 deep and its root is not null or true |
| `JsonRoundTrip.PlainRoundTrip` | pjlib-util/src/pjlib-util/json.c:102-298 | A document with plain names that does not come back is refused, never taken for another one |
| `JsonRoundTrip.ElemIsPlain` | pjlib-util/src/pjlib-util/json.c:209-298 | An element that is given back as it was written is plain: the first that is not is the first that differs |
| `JsonRoundTrip.NameIsLost` | pjlib-util/src/pjlib-util/json.c:552-570 | An array member is never given back with its name, which is not written |
| `JsonRoundTrip.NameComesBackIff` | pjlib-util/src/pjlib-util/json.c:218-238 | In particular, a null member comes back exactly if its name is printable, free of quotes and slashes, and does not start with a space |
| `JsonRoundTrip.StringComesBackIff` | pjlib-util/src/pjlib-util/json.c:218-243 | And an unnamed string exactly if it is, besides, not empty |
| `Percent.EscapeInto` | pjlib-util/src/pjlib-util/string.c:75-102 | Escaping succeeds exactly if the escape fits in max octets, and writes nothing beyond them |
| `Percent.UnescapeInto` | pjlib-util/src/pjlib-util/string.c:52-73 | The unescaped text, never longer than the source |
| `Percent.UnescapeNew` | pjlib-util/src/pjlib-util/string.c:24-50 | The same in a new buffer, also for text without a percent sign |
| `Percent.UnescapeIsSpelled` | pjlib-util/src/pjlib-util/string.c:24-73 | The unescaped text is exactly what the text spells with percent signs and pairs of digits of either case; a percent sign without two digits stands for itself |
| `Bytes.HexIsRight` | pjlib-util/src/pjlib-util/string.c:35-42 | The values of the 22 hexadecimal digits; those written are of lower case |
| `Percent.RoundTripIffSafe` | pjlib-util/src/pjlib-util/string.c:24-102 | All strings come back exactly if the unreserved set does not have both the percent sign and a hexadecimal digit |
| `Percent.Buffer.GetUnescape` | pjlib-util/src/pjlib-util/scanner.c:299-358 | The token is decoded in place, writing never passes reading, and nothing from its end on changes |
| `Percent.TokenIsEscape` | pjlib-util/src/pjlib-util/scanner.c:299-358 | The token at an escaped string is the string, and scanning stops at the first octet after it |
| `Base64.EncodeInto` | pjlib-util/src/pjlib-util/base64.c:91-132 | The encoded text, if the buffer has the announced size |
| `Base64.DecodeInto` | pjlib-util/src/pjlib-util/base64.c:134-181 | The decoded octets fit in three quarters of the text |
| `Base64.EncodedSize` | pjlib-util/src/pjlib-util/base64.c:91-132 | Four characters for each three octets begun, within n*4/3+3 |
| `Base64.EncodesGroups` | pjlib-util/src/pjlib-util/base64.c:24-132 | Every four characters are those of section 4 (or 5) of RFC 4648 for the 24 bits of their three octets, with `=` where there is no octet |
| `Base64.RoundTrip` | pjlib-util/src/pjlib-util/base64.c:47-181 | Every string comes back, in both alphabets |
| `Base64.StrayCharacters` | pjlib-util/src/pjlib-util/base64.c:155-176 | With characters outside the alphabet put in, a text decodes to the same string exactly if none of them is its last one or the string's length is a multiple of three |
| `Md5.Context.Update` | pjlib-util/src/pjlib-util/md5.c:72-115 | After any update the counter is the length in bits modulo 2^64, the words are the compression of all whole blocks, and the buffer holds the rest |
| `Md5.Context.Final` | pjlib-util/src/pjlib-util/md5.c:121-162 | The digest is the compression of the message padded by RFC 1321, and the context is cleared |
| `Md5.InitIsRight` | pjlib-util/src/pjlib-util/md5.c:57-66 | The chaining words begin as the sixteen octets of section 3.3 of RFC 1321 |
| `Md5.PaddingIsRight` | pjlib-util/src/pjlib-util/md5.c:121-150 | Padding: a one bit, zeros, and the number of bits modulo 2^64 with the lowest octet first, to the end of a block |
| `Md5Transform.Transform` | pjlib-util/src/pjlib-util/md5.c:186-264 | The 64 lines compute, in place, the 64 operations of section 3.4 of RFC 1321 by its formulas for functions, word indices and rotations |
| `Md5Transform.F1IsF` | pjlib-util/src/pjlib-util/md5.c:168-169 | The function with fewer operations is that of RFC 1321 |
| `Md5Transform.EmptyDigest` | pjlib-util/src/pjlib-util/md5.c:57-264 | The digest of the empty string is the published one |
| `Md5.MacIsRight` | pjlib-util/src/pjlib-util/hmac_md5.c:23-84 | The MAC with the octets 0x36 and 0x5c of RFC 2104; keys of more than 64 octets are hashed first |
| `Md5.CountIsRight` | pjlib-util/src/pjlib-util/md5.c:79-84 | The two 32-bit counters with their carry count modulo 2^64 |
| `Md5.OneLastBlock` | pjlib-util/src/pjlib-util/md5.c:144-147 | Padding that fits in the last block |
| `Md5.TwoLastBlocks` | pjlib-util/src/pjlib-util/md5.c:135-143 | Padding that takes one more block |
| `Md5.HmacContext.constructor` | pjlib-util/src/pjlib-util/hmac_md5.c:23-62 | Keys of every length become one block |
| `Md5.HmacContext.Final` | pjlib-util/src/pjlib-util/hmac_md5.c:72-84 | The MAC is H(K xor opad, H(K xor ipad, text)) of all that was fed |
| `Md5.Hmac` | pjlib-util/src/pjlib-util/hmac_md5.c:86-95 | The same in one call |
| `Md5.HashPieces` | pjlib-util/src/pjlib-util/md5.c:72-162 | However a text is split into updates, digest and MAC are those of the whole text |
| `Crc32.TableIsRight` | pjlib-util/src/pjlib-util/crc32.c:26-79 | Each of the 256 table entries is what the bit-by-bit loop computes from its index |
| `Crc32.CheckValue` | pjlib-util/src/pjlib-util/crc32.c:150-241 | The published check value, the CRC of the digits 1 to 9 |
| `Crc32.FourAtOnce` | pjlib-util/src/pjlib-util/crc32.c:165-173 | A four-byte step is four byte steps |
| `Crc32.TableCrc.Update` | pjlib-util/src/pjlib-util/crc32.c:155-182 | The table build, with data at any address |
| `Crc32.BitCrc.Update` | pjlib-util/src/pjlib-util/crc32.c:198-222 | The bit-by-bit build |
| `Crc32.CalcPieces` | pjlib-util/src/pjlib-util/crc32.c:150-241 | However data is split, and wherever the pieces are, both builds give the same CRC |
| `Cis.BitOps` | pjlib-util/include/pjlib-util/scanner_cis_bitwise.h:70-89 | Setting or clearing one bit of a word changes no other |
| `Cis.Matrix.Init` | pjlib-util/src/pjlib-util/scanner_cis_bitwise.c:31-47 | The lowest free number, with an empty set |
| `Cis.Matrix.Dup` | pjlib-util/src/pjlib-util/scanner_cis_bitwise.c:49-67 | A copy under a new number |
| `Cis.Matrix.AddRange` | pjlib-util/src/pjlib-util/scanner.c:50-59 | Adds the range to one set and changes no other |
| `Cis.Matrix.Invert` | pjlib-util/src/pjlib-util/scanner.c:105-115 | Inverts one set but for NUL and changes no other |
| `Cis.MatchAfter` | pjlib-util/src/pjlib-util/scanner_cis_bitwise.c:25-67 | After any run of operations on up to 32 sets, a set packed in the matrix and the same set in an array of its own match the same characters, and those that the run says |
| `Cis.PerformOnArrays` | pjlib-util/src/pjlib-util/scanner_cis_uint.c:26-43 | An operation on one array per set does to its set what it should, and leaves the arrays of the others as they were |
| `Cis.ArraySet.Init` | pjlib-util/src/pjlib-util/scanner_cis_uint.c:32-37 | An empty set |
| `Cis.ArraySet.CopyFrom` | pjlib-util/src/pjlib-util/scanner_cis_uint.c:39-43 | A copy of a set |
| `Cis.OnlyOne` | pjlib-util/src/pjlib-util/scanner.c:50-115 | An operation changes one set alone |

## Left out

- Sockets, the I/O queue, the timer heap, memory pools, exceptions and logging: what they do appears as parameters of the steps (`TxEnv`, candidate ids, packets, times).
- Threads: the lock-held sections are atomic steps. A timer that fires late finds its query gone from the by-id table and does nothing; a transaction id or a node that is used again while an old timer callback is in flight is not modelled.
- Resolver.DnsResolver.OnExpiry: requires, for a query that is still in the by-id table, that its timer is armed, for the reason just given.
- Resolver.DnsResolver.GetQueryId: the HMAC over time and counter that proposes ids is a list of candidates.
- ResolverTheorems.ReferenceCounts: covers all steps but the sweep of the cache at the end of destroy, which `ResponseCache.SweepIsSafeIff` and `ResolverTheorems.SweepTakesPacket` cover.
- ResolverTheorems.ExpiriesBounded: counts the expiries of queries that stay pending; that an armed timer fires is up to the timer heap.
- pj_dns_parse_a_response, pj_dns_parse_addr_response, the settings functions, the IPv6 socket's separate path and the dump functions of resolver.c: readers of packets or plain setters.
- DnsRoundTrip.RoundTrip: packets of up to 16384 octets, the reach of a compression pointer; the server's own limit is 1500. The buffer-size checks of the printer are not modelled (ample room is assumed), nor are the server's record lookup and socket handler.
- Resolver.DnsResolver.NotifyMembers: runs with no other thread in between; the interleavings are those of the single steps in `ResolverRuns`.
- Record types other than A, AAAA, CNAME, NS, PTR and SRV are parsed to raw data and not printed by the source; their form in `DnsPrint.PrintPacket` is that of RFC 1035.
- GetoptRendering.SpelledIsRead: in the mode where one dash introduces long options, groups of short options of which a later part is a long name are not spelled.
- JSON numbers are kept as sign and digits: C float formatting and parsing are not modelled. Line and column of errors are not modelled.
- Scanner options other than skipping of spaces and newlines (header continuation), and the functions that only peek.
- JsonRoundTrip.DocumentRoundTrip: numbers have at least one digit or dot and nothing else, which is what the number format gives but for infinities and the like.
- getopt: the `W;` form, the orderings chosen by `+`, `-` or POSIXLY_CORRECT, error messages, and callers that move optind during a scan.
- Md5.Context.Update: holds for any compression function; `Md5Transform.Transform` gives that of the source. The big-endian branches of md5.c and crc32.c and HMAC-SHA1 are not part of this model.
- ResolverTiming.DelayIsMeasured: one way; with a packet that has the id zero, `ResolverTiming.ZeroIdRun` shows that it can fail, but it need not.
- Crc32.TableCrc.Update: the table of little-endian builds.
- Cis.MatchAfter: characters of strings are 1 to 127, since plain `char` indexes the matrix; a set that could not be made because 32 are in use is not used.
- http_client.c, the CLI, pcap.c, dns_dump.c, errno.c, XML, the SRV resolver, STUN: input and output, user interface, or easier members.
