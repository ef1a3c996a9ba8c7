# Verified model of the scheduling and routing core of aria2-next

A Dafny model of the parts of aria2-next that decide what is fetched, from whom, and what is
remembered: the byte-range set both engines keep their progress in, the HTTP segment planner and
connection pool, the ED2K block-claim table and its checkpoints, the Kademlia lookup and routing
table, and the codecs for routing state and file links. Every property below holds for all inputs
and, where a component has state, for every sequence of operations on it.

Objects the source updates in place are classes whose methods are proved against functions on
values or sets; what those functions promise is proved by lemmas. Pure code is functions.

| file | what it models |
|---|---|
| `Ranges.dfy` | sorted coalesced intervals as a set of offsets |
| `Parts.dfy` | ED2K parts and block claims, including the endgame |
| `Checkpoint.dfy` | saving and reloading ED2K progress |
| `Dhondt.dfy`, `HostPool.dfy` | division of a server's connections, its cache and its adaptive limit |
| `SegmentPlanner.dfy` | gap filling, splitting, racing and take-over of HTTP ranges |
| `KadId.dfy` | XOR distance as a total order |
| `KadTraversal.dfy`, `KadObservers.dfy`, `KadRuns.dfy`, `KadStrays.dfy`, `KadCounters.dfy`, `KadConvergence.dfy` | the iterative lookup and all of its runs |
| `KadTransactions.dfy`, `KadClient.dfy` | the table of open requests, and a lookup behind it |
| `KadBuckets.dfy`, `KadNodes.dfy`, `KadNearest.dfy`, `KadRestore.dfy`, `KadRoutingTable.dfy` | the routing table |
| `Reader.dfy`, `KadState.dfy`, `KadReload.dfy` | the saved routing state in every version |
| `Text.dfy`, `Fields.dfy`, `Base32.dfy`, `Link.dfy` | ED2K file links |
| `Base.dfy`, `Bytes.dfy`, `Endpoint.dfy` | shared vocabulary |

Conventions. Times and speeds are reals, byte counts and clocks are integers; 16-, 32- and 64-bit
fields are bounded types where width matters (identifiers, saved integers, failure counts, the
base32 buffer). Random choices and the clock are parameters. An exception of the source is a `None`
or a false result. Text is a sequence of bytes.

What a lookup asks and searches, and when it converges, is proved for every sequence of events,
whatever is reported to it (`KadStrays.dfy`, `KadConvergence.dfy`). Its counters are right exactly as
long as every report is harmless, and so long it is done or waits for a request it made
(`KadCounters.dfy`). Behind the transaction table a lookup hears only of the ends of its own requests,
each once, provided that no transaction of the same target is left over when it starts
(`TableMakesLegal`); then it ends, if only because requests expire (`TimeFinishes`). Repeating a
keyword search breaks the proviso: the running lookup is replaced (`src/ed2k/Kad.cc:743-744`) while its
transactions stay, and their answers and expiries reach the new lookup by target id
(`src/ed2k/Kad.cc:438-442`, `474-476`, `852-861`). Such a lookup can be left waiting for nothing
but a stall (`LeftoverStrands`).

Where the code does less than its callers may expect, the exact condition is proved:

* `Parts::add` names one filled part per call, so it names all it touched exactly when the bytes lie
  in one part (`AddReportsAll`). After a restart, of adjacent full but unchecked parts only the first
  is queued for its hash check (`Restart`).
* A contact with the endpoint of one node and the id of another leaves two records of that id in a
  bucket (`DoubleId`); ids stay distinct exactly when the replaced record has the contact's id or no
  record has (`AddDistinct`).
* Restoring a routing table does not look for our own id: the table lacks it exactly when none of its
  entries still finds room in its bucket (`SelfRestored`).
* `contains` and `firstGap` need intervals that never touch: among ascending lists each is right for
  every query exactly when no two ranges touch (`ContainsNeedsCoalescing`, `FirstGapNeedsCoalescing`).
* A race compares a leader with the larger of its siblings' average and the fastest speed seen; the
  average never exceeds the latter, so it never decides (`ReferenceIsPeak`).

## Model

| member | source | states |
|---|---|---|
| Ranges.RangeSet.Add | src/http/Ranges.cc:8-23 | the contents become their union with the interval, and the list stays non-empty, ascending and non-touching |
| Ranges.RangeSet.Remove | src/http/Ranges.cc:25-49 | the contents become their difference with the interval, and the list stays coalesced |
| Ranges.Contains | src/http/Ranges.cc:51-58 | on a coalesced list, true exactly when every offset of the interval is present |
| Ranges.RangeSet.Total | src/http/Ranges.cc:60-67 | the number of offsets present |
| Ranges.RangeSet.Covered | src/http/Ranges.cc:69-81 | the number of offsets of a window that are present |
| Ranges.FirstGap | src/http/Ranges.cc:83-95 | on a coalesced list, the first maximal missing run in the window, or none when nothing is missing |
| Ranges.Canonical | src/http/Ranges.cc:8-49 | two coalesced lists with the same offsets are the same list |
| Ranges.TouchingRangesMislead | src/http/Ranges.cc:51-58 | wherever two ranges touch, an interval that is present is missed |
| Ranges.ContainsNeedsCoalescing | src/http/Ranges.cc:51-58 | among ascending lists the answers are right for all queries if and only if no two ranges touch |
| Ranges.TouchingRangesGap | src/http/Ranges.cc:83-95 | wherever two ranges touch, an empty gap between them is reported as the first |
| Ranges.FirstGapNeedsCoalescing | src/http/Ranges.cc:83-95 | among ascending lists the first gap is right for every window if and only if no two ranges touch |
| BlockClaims.PartPartition | src/ed2k/Parts.cc:23-32 | every offset of the file lies in exactly one part, the one computed for it |
| BlockClaims.Parts.constructor | src/ed2k/Parts.cc:17-21 | a new table has nothing received, verified or claimed |
| BlockClaims.Parts.Filled | src/ed2k/Parts.cc:42-46 | true exactly when no byte of the part is missing |
| BlockClaims.Parts.Completed | src/ed2k/Parts.cc:34-40 | counts the received bytes, and a download with all parts verified has received the whole file |
| BlockClaims.Parts.Add | src/ed2k/Parts.cc:48-62 | adds exactly the bytes clamped to the file and names the lowest touched part that is full but unverified |
| BlockClaims.AddReportsAll | src/ed2k/Parts.cc:48-62 | every unchecked part touched is named, in all states, if and only if the bytes lie in a single part |
| BlockClaims.Parts.Verify | src/ed2k/Parts.cc:64-69 | marks one part and makes its bytes received, so a verified part is always fully received |
| BlockClaims.Parts.Reject | src/ed2k/Parts.cc:71-76 | unmarks one part and makes exactly its bytes missing |
| BlockClaims.Parts.Wants | src/ed2k/Parts.cc:78-87 | true exactly when the source has a byte that is missing here |
| BlockClaims.Parts.Touching | src/ed2k/Parts.cc:107-115 | whether any claim, and one of the owner, meets the part |
| BlockClaims.Parts.Candidates | src/ed2k/Parts.cc:94-126 | lists exactly the eligible parts, each with its rank, for any random tie-break |
| BlockClaims.SortCandidates | src/ed2k/Parts.cc:127-129 | a permutation in rank order |
| BlockClaims.Parts.FreeStretch | src/ed2k/Parts.cc:155-173 | the earliest part of a gap without a blocking claim; everything before it is blocked |
| BlockClaims.Parts.ClaimGaps | src/ed2k/Parts.cc:145-186 | claims disjoint missing blocks, each in one grid cell of the part, and stops short only when every missing byte of the part is blocked |
| BlockClaims.Parts.ClaimPass | src/ed2k/Parts.cc:130-137 | takes blocks in rank order; a short answer means every candidate is exhausted |
| BlockClaims.PassAnswers | src/ed2k/Parts.cc:127-143 | a pass in rank order uses a part only when every better-ranked part has nothing left |
| BlockClaims.Parts.ClaimBlocks | src/ed2k/Parts.cc:89-143 | claiming is maximal: non-empty missing blocks of eligible parts, stale claims doubled only when every wanted byte is claimed, fewer than asked only when nothing unblocked is left |
| BlockClaims.EmplaceOk | src/ed2k/Parts.cc:158-183 | a block that avoids all blocking claims keeps the table sound: overlapping claims have different owners and lie at least five seconds apart |
| BlockClaims.OwnClaimsDisjoint | src/ed2k/Parts.cc:158-183 | in every reachable table one owner's claims share no byte and no begin |
| BlockClaims.OnlyNamed | src/ed2k/Parts.cc:188-197 | erasing one claim removes the only claim its owner has at that begin |
| BlockClaims.Parts.Release | src/ed2k/Parts.cc:188-197 | removes exactly the named block of the owner and keeps every other claim |
| BlockClaims.OthersKept | src/ed2k/Parts.cc:199-204 | filtering out one owner keeps exactly the claims of the others, in order |
| BlockClaims.Parts.ReleaseAll | src/ed2k/Parts.cc:199-204 | removes exactly the owner's claims |
| BlockClaims.Parts.IsClaimed | src/ed2k/Parts.cc:206-214 | true exactly when the bytes lie inside one block the owner claimed |
| Checkpoint.PackBits | src/ed2k/Store.cc:20-29 | bit i is bit 7 - i % 8 of byte i / 8, and unused bits are clear |
| Checkpoint.UnpackBits | src/ed2k/Store.cc:31-38 | reads each bit, with false where the data is too short |
| Checkpoint.BitsRoundTrip | src/ed2k/Store.cc:20-38 | unpacking what was packed gives the bits |
| Checkpoint.CellPartition | src/ed2k/Store.cc:287-295 | every offset lies in exactly one 16 KiB cell of exactly one part |
| Checkpoint.Covered | src/ed2k/Store.cc:40-49 | true exactly when one range holds the interval |
| Checkpoint.Checkpoint | src/ed2k/Ed2kTask.cc:898-909 | records the verified parts and exactly the received bytes of the others |
| Checkpoint.CellBits | src/ed2k/Store.cc:289-297 | a cell's bit is set exactly when the cell is fully received |
| Checkpoint.Save | src/ed2k/Store.cc:283-309 | stores the bit field and one row for every unverified part with a full cell, and no other row |
| Checkpoint.LoadRow | src/ed2k/Store.cc:230-245 | appends exactly the bytes of the set cells, merging neighbours |
| Checkpoint.Load | src/ed2k/Store.cc:216-246 | reads the bit field and exactly the bytes of the usable rows, coalesced when rows are in order |
| Checkpoint.RestoreVerified | src/ed2k/Ed2kTask.cc:162-179 | the recorded parts are verified and their bytes received, nothing else |
| Checkpoint.Reload | src/ed2k/Ed2kTask.cc:162-184 | the table holds the verified parts' bytes and the recorded bytes inside the file, and queues what adding reports |
| Checkpoint.LoadedSurvivors | src/ed2k/Store.cc:216-246 | after saving and loading, an offset of an unverified part is present exactly when its whole cell was received |
| Checkpoint.FirstOfRun | src/ed2k/Ed2kTask.cc:180-184 | a part is queued exactly when it waits for its check and the part before it does not |
| Checkpoint.Restart | src/ed2k/Ed2kTask.cc:162-184 | checkpoint, save, load and reload keep the verified parts and exactly the surviving bytes, and queue exactly the first of adjacent unchecked parts |
| Checkpoint.SurvivorsBound | src/ed2k/Store.cc:283-309 | no byte is invented, and a lost byte lies in a cell with a missing byte |
| Dhondt.FindBest | src/http/HostPool.cc:98-111 | the earliest of the hungry downloads with the largest quotient |
| Dhondt.Allocate | src/http/HostPool.cc:84-121 | the loops compute the sequential division |
| Dhondt.Allocation | src/http/HostPool.cc:90-117 | within every wish, all of the limit or all that is wanted, a seat for everyone when seats suffice and else for the first to come, and fair: no second seat that another below its wish would have used better |
| Dhondt.LimitCoversAll | src/http/HostPool.cc:84-117 | a limit that covers all wishes gives what no limit gives |
| Dhondt.HouseMonotone | src/http/HostPool.cc:90-117 | one more connection, or lifting the limit, takes a seat from nobody |
| Dhondt.BestWorstSeat | src/http/HostPool.cc:96-117 | any other division that seats everyone has a second seat with no more work behind it than any second seat of this one |
| HostPool.HostPool.Update | src/http/HostPool.cc:18-45 | records the wish, raises a limit below the connections served, and marks the cache stale whenever an input of the division changed |
| HostPool.HostPool.Leave | src/http/HostPool.cc:47-63 | removes the member and its host when unused, and marks the cache stale |
| HostPool.HostPool.MembersOf | src/http/HostPool.cc:65-78 | exactly the members on the host, in joining order |
| HostPool.JoinedUnique | src/http/HostPool.cc:74-76 | there is only one such order |
| HostPool.HostPool.AllocateHost | src/http/HostPool.cc:80-121 | every member of the host gets its fresh allowance and no other entry changes |
| HostPool.HostPool.Allowance | src/http/HostPool.cc:123-142 | the cached value always equals a fresh division, after any sequence of operations |
| HostPool.AllowanceUnique | src/http/HostPool.cc:80-121 | the allowance depends only on the wishes on the host and its limit |
| HostPool.FreshKept | src/http/HostPool.cc:18-63 | the cache stays fresh while no wish and no limit in use changes |
| HostPool.HostPool.Overloaded | src/http/HostPool.cc:144-169 | a refusal sets the limit to the connections transferring, at least one, with a pause that grows by strikes; a refusal of a request sent before the last drop only delays |
| HostPool.HostPool.TickHost | src/http/HostPool.cc:194-219 | one host grows by one, lifts its limit, stays or is forgotten |
| HostPool.HostPool.Tick | src/http/HostPool.cc:194-219 | every host is ticked, and the cache is stale exactly when a limit recovered |
| HostPool.AllowancesUseLimit | src/http/HostPool.cc:80-142 | the cached allowances on a limited host add up to the limit or to all that is wanted |
| HostPool.TickTakesNothing | src/http/HostPool.cc:194-219 | recovery takes no connection from any download |
| HostPool.RefusalLowers | src/http/HostPool.cc:144-169 | a refusal sets a limit, never above the one before nor below what is served, and never ends a pause early |
| HostPool.RefusalGivesNothing | src/http/HostPool.cc:144-169 | a refusal gives no download a connection more |
| Segments.MinSplitFor | src/http/SegmentPlanner.cc:93-100 | positive, at most the configured minimum and at least the floor or that minimum |
| Segments.SegmentPlanner.MeasureTypical | src/http/SegmentPlanner.cc:75-86 | the mean speed of the measured others |
| Segments.SegmentPlanner.SetLength | src/http/SegmentPlanner.cc:34-41 | clamps every worker to the length and keeps the invariants |
| Segments.SegmentPlanner.Restore | src/http/SegmentPlanner.cc:43-48 | the bytes of the ranges are received; ranges become shared only where they overlap a worker |
| Segments.SegmentPlanner.Reset | src/http/SegmentPlanner.cc:50-56 | forgets everything but the start-up time |
| Segments.SegmentPlanner.Place | src/http/SegmentPlanner.cc:58-62 | registers the worker, replacing one of the same id; ownership stays exclusive exactly when the range overlaps no other |
| Segments.SegmentPlanner.Complete | src/http/SegmentPlanner.cc:70-73 | true exactly when every byte of the file is received |
| Segments.SegmentPlanner.LargestGap | src/http/SegmentPlanner.cc:102-119 | the largest range neither received nor owned; none only when every byte is one of the two |
| Segments.SegmentPlanner.FindVictim | src/http/SegmentPlanner.cc:138-156 | the worker that would finish last among those worth splitting |
| Segments.CutPoint | src/http/SegmentPlanner.cc:162-171 | the cut leaves at least the minimum on both sides, alignment included |
| Segments.SplitHalves | src/http/SegmentPlanner.cc:161-172 | both halves are at least as long as the minimum for the speed they were chosen by |
| Segments.SplitKeeps | src/http/SegmentPlanner.cc:172-175 | a split keeps the separation of all ranges and the owned bytes, less what a replaced worker of the same id had left |
| Segments.SegmentPlanner.Split | src/http/SegmentPlanner.cc:136-176 | hands over the tail of the victim, or changes nothing when no worker is worth splitting; the id may be in use, even by the victim |
| Segments.GroupDescribed | src/http/SegmentPlanner.cc:195-218 | the group scan finds the earliest finish, the number of silent copies, the number of the others and whether one is young; ids below zero read as no leader |
| Segments.SegmentPlanner.ChooseRace | src/http/SegmentPlanner.cc:219-243 | the leader of the worthiest group, or none only when no group may be raced |
| Segments.SegmentPlanner.Race | src/http/SegmentPlanner.cc:181-250 | copies the range of the chosen leader, so with a new id the owned bytes are unchanged; the bytes get a second owner unless the leader itself restarts |
| Segments.TypicalBelow | src/http/SegmentPlanner.cc:75-86 | the average speed of any connections never exceeds the fastest seen |
| Segments.ReferenceIsPeak | src/http/SegmentPlanner.cc:225-242 | a race is decided by the fastest speed seen alone, whatever the siblings do |
| Segments.SegmentPlanner.Assign | src/http/SegmentPlanner.cc:121-134 | gives the largest free range; else the tail of a split; else a copy; nothing only when every byte is received or owned; the id may be in use |
| Segments.SegmentPlanner.Receive | src/http/SegmentPlanner.cc:252-261 | credits exactly the bytes inside the assignment and below the length, extending the worker's one run |
| Segments.ReceiveApart | src/http/SegmentPlanner.cc:252-261 | credited bytes were not received before, so the total grows by exactly their number, and ranges stay apart |
| Segments.RunGrows | src/http/SegmentPlanner.cc:252-261 | a receipt lengthens the one contiguous run credited to a worker and stays inside its request |
| Segments.ReceiveOk | src/http/SegmentPlanner.cc:252-261 | a receipt keeps every invariant of the plan, so over its life each worker is credited one run inside its request |
| Segments.SmoothedWithin | src/http/SegmentPlanner.cc:267-268 | after any samples a smoothed figure lies between the least and the greatest of them |
| Segments.SmoothedForgets | src/http/SegmentPlanner.h:62-65 | each sample shrinks the influence of the first figure by the same factor |
| Segments.SegmentPlanner.Release | src/http/SegmentPlanner.h:74 | removes the worker and keeps the separation of the others |
| Segments.SegmentPlanner.Forget | src/http/SegmentPlanner.h:76 | bad bytes are missing again and nothing else changes |
| Segments.SegmentPlanner.Extend | src/http/SegmentPlanner.cc:273-304 | grows exactly when it can: over the first idle neighbour, which is cancelled, or into free bytes up to the next owned one |
| Segments.TakeOverOk | src/http/SegmentPlanner.cc:280-288 | taking over keeps every range apart and every life one run |
| Segments.SegmentPlanner.Redundant | src/http/SegmentPlanner.cc:306-316 | exactly the workers whose remaining bytes are all received |
| Segments.RedundantCostsNothing | src/http/SegmentPlanner.cc:306-316 | dropping redundant workers leaves every byte received or owned that was |
| Segments.CompleteLeavesNoWork | src/http/SegmentPlanner.cc:70-73 | once complete, every worker with bytes left is redundant |
| Segments.SegmentPlanner.Consume | src/http/HttpTask.cc:1307-1347 | the loop over one chunk ends, consumes a contiguous run, and stops short only when the worker can be neither fed nor extended |
| KadId.DistanceCompare | src/ed2k/KadRouting.cc:64-81 | the sign of the word-wise comparison, refused for malformed ids |
| KadId.DistanceInjective | src/ed2k/KadRouting.cc:64-81 | ids at the same distance from a target are the same |
| KadId.CloserTotal | src/ed2k/KadRouting.cc:64-81 | for any target exactly one of two different ids is closer |
| KadId.CloserTransitive | src/ed2k/KadRouting.cc:64-81 | closeness is transitive |
| KadId.CloserIsNumeric | src/ed2k/KadRouting.cc:64-81 | closer means the smaller 128-bit XOR |
| KadLookup.KadTraversal.constructor | src/ed2k/KadRouting.cc:502-516 | a fresh lookup; zero parameters get their defaults |
| KadLookup.KadTraversal.Lookup | src/ed2k/KadRouting.cc:527-536 | the first observer with the id or the endpoint |
| KadLookup.LowerBound | src/ed2k/KadRouting.cc:642-646 | every observer before the position is strictly closer, the one at it is not |
| KadLookup.Trim | src/ed2k/KadRouting.cc:649-651 | a prefix; only observers never asked are dropped |
| KadLookup.KadTraversal.Add | src/ed2k/KadRouting.cc:623-652 | the loop form equals the insertion whose order and marks are proved below |
| KadLookup.KadTraversal.SearchObserver | src/ed2k/KadRouting.cc:610-621 | the step equals its specification on values |
| KadLookup.KadTraversal.Next | src/ed2k/KadRouting.cc:654-696 | both loops equal the recursive specification the run theorems are about |
| KadLookup.KadTraversal.Begin | src/ed2k/KadRouting.cc:518-525 | equals the specification of a start, on a fresh lookup or any other |
| KadLookup.KadTraversal.Respond | src/ed2k/KadRouting.cc:538-562 | equals the specification of an answer |
| KadLookup.KadTraversal.Fail | src/ed2k/KadRouting.cc:564-575 | equals the specification of a failure |
| KadLookup.KadTraversal.Stall | src/ed2k/KadRouting.cc:577-583 | equals the specification of a stall |
| KadLookup.KadTraversal.Finish | src/ed2k/KadRouting.cc:585-606 | equals the specification of a search answer or failure |
| KadObservers.AddListed | src/ed2k/KadRouting.cc:623-652 | adding keeps the list strictly sorted and distinct in id and endpoint |
| KadObservers.AddSameMarks | src/ed2k/KadRouting.cc:628-651 | hearing of a contact neither forgets nor invents that somebody was asked |
| KadObservers.FindsItself | src/ed2k/KadRouting.cc:527-536 | a contact that is listed is found at its own place |
| KadRuns.NextSound | src/ed2k/KadRouting.cc:654-696 | issuing keeps the books and budgets, done stays exactly convergence without outstanding searches, and a walk that did not converge has a request in flight |
| KadRuns.ResponseSound | src/ed2k/KadRouting.cc:538-562 | an answer keeps all of that |
| KadRuns.FailureSound | src/ed2k/KadRouting.cc:564-575 | a failure keeps all of that |
| KadRuns.StallSound | src/ed2k/KadRouting.cc:577-583 | a stall keeps all of that, with at most two more rounds of requests |
| KadRuns.SearchDoneSound | src/ed2k/KadRouting.cc:595-606 | the end of a search keeps all of that |
| KadRuns.NextConserves | src/ed2k/KadRouting.cc:654-696 | requests issued minus requests in flight are unchanged, for both kinds |
| KadRuns.EveryRun | src/ed2k/KadRouting.cc:518-696 | every reachable state keeps the books: counters equal what is outstanding, issued equals answered plus outstanding, and observers are known contacts |
| KadRuns.NeverStuck | src/ed2k/KadRouting.cc:518-696 | a lookup that is not done waits for a request that can still be answered |
| KadStrays.AskedOnce | src/ed2k/KadRouting.cc:527-536 | after any events at all no id and no endpoint was asked twice or searched twice, only nodes heard of were asked and only asked ones searched, searches stay within their budget, and at most three times the branch factor is in flight |
| KadStrays.AnyRun | src/ed2k/KadRouting.cc:518-696 | after any events at all the logs name exactly who was asked and searched, and done is convergence without searches in flight |
| KadStrays.StepSafe | src/ed2k/KadRouting.cc:518-696 | every event, expected or stray, keeps that |
| KadRuns.CountersExact | src/ed2k/KadRouting.cc:538-606 | in an expected run the number in flight is the number of requests neither answered nor failed, for both kinds |
| KadStrays.ObserversOrdered | src/ed2k/KadRouting.cc:623-652 | after any events at all observers are strictly ordered by distance and differ in id and endpoint |
| KadRuns.AnswersBounded | src/ed2k/KadRouting.cc:518-696 | a run has at most one answer per node heard of plus one per search |
| KadRuns.RunEnds | src/ed2k/KadRouting.cc:518-696 | if all nodes come from a given set, a run has a bounded number of answers; before the bound it is done or has a request to be answered, and at the bound it is done |
| KadRuns.DoneIsFinal | src/ed2k/KadRouting.cc:518-606 | from a done state any run stays done and issues no request and no search |
| KadConvergence.RunConverges | src/ed2k/KadRouting.cc:654-696 | after any events at all, the next one makes the lookup converge if and only if it leaves everyone who neither answered nor failed with the wanted number of live observers strictly closer to the target; ends of searches never do |
| KadConvergence.StartConverges | src/ed2k/KadRouting.cc:518-525 | so does the start |
| KadConvergence.StepConverges | src/ed2k/KadRouting.cc:538-606 | the same for one event in any state the events can lead to |
| KadConvergence.LiveCounted | src/ed2k/KadRouting.cc:660-685 | the live observers counted before one are exactly those strictly closer to the target |
| KadCounters.StepExact | src/ed2k/KadRouting.cc:538-606 | after any event, expected or stray, right counters are right again if and only if the event is harmless: no late answer of a node given up, no failure of a node never asked, no end of an unknown search and none that gives up a node being asked |
| KadCounters.CountersRight | src/ed2k/KadRouting.cc:518-696 | from the start of a lookup its counters are right after every event if and only if every event is harmless |
| KadCounters.RunExact | src/ed2k/KadRouting.cc:518-696 | the same from any state with right counters |
| KadCounters.NextDrift | src/ed2k/KadRouting.cc:654-696 | issuing requests moves neither counter away from what it counts |
| KadCounters.AnsweredDrift | src/ed2k/KadRouting.cc:546-554 | the mark an answer sets keeps the number in flight right if and only if the node was not given up before or nothing was in flight |
| KadCounters.FailureDrift | src/ed2k/KadRouting.cc:564-575 | a failure of anybody keeps it right if and only if the node is unknown, asked or given up already, or nothing was in flight |
| KadCounters.HarmlessWaits | src/ed2k/KadRouting.cc:518-696 | a lookup told nothing harmful has right counters and is done or waits for a request it made |
| KadCounters.LegalIsHarmless | src/ed2k/KadRouting.cc:538-606 | ends of its own open requests are harmless |
| KadCounters.LateAnswerDrifts | src/ed2k/KadRouting.cc:546-553 | two nodes asked, one given up and then answering: nothing counts as in flight while the other owes an answer |
| KadCounters.StraySearchStrands | src/ed2k/KadRouting.cc:595-606 | a stray search failure and the failure of the node asked leave the lookup neither done nor waiting, with a node never asked |
| KadRuns.StraySearchEnd | src/ed2k/KadRouting.cc:595-606 | the end of a search that was not issued leaves the searches in flight right if and only if none was, and the requests right unless it fails a node still being asked |
| KadTransactions.KadTransactionTable.Complete | src/ed2k/KadRouting.cc:719-735 | the first transaction the answer fits leaves the table, and no other; an answer that fits none changes nothing |
| KadTransactions.KadTransactionTable.Expire | src/ed2k/KadRouting.cc:737-752 | the due transactions leave the table in order, and what expires and what stays make up what was there |
| KadTransactions.SiftedEach | src/ed2k/KadRouting.cc:742-750 | exactly the due transactions expire |
| KadClient.TableMakesLegal | src/ed2k/Kad.cc:420-445 | whatever packets come and whatever expires, a lookup of a target without transactions left over is told only ends of its own open requests, each once, until it is done, and until then one of its transactions is in the table |
| KadClient.HandleGood | src/ed2k/Kad.cc:840-864 | every packet, expiry, stall and foreign change of the table keeps the transactions of the target equal to the open requests |
| KadClient.TellGood | src/ed2k/Kad.cc:792-837 | performing what the lookup issues keeps them equal |
| KadClient.TimeFinishes | src/ed2k/Kad.cc:840-894 | such a lookup among given nodes is done once everything it waits for has expired a bounded number of times, whatever happens in between |
| KadClient.LeftoverStrands | src/ed2k/Kad.cc:743-744 | with a transaction left over the lookup can be neither done nor have a transaction, with a node never asked |
| KadBuckets.BucketIndex | src/ed2k/KadRouting.cc:448-468 | the loops compute the bucket of the distance |
| KadBuckets.BucketIsRange | src/ed2k/KadRouting.cc:448-468 | an id is in a bucket if and only if its 128-bit distance is in the bucket's range; ranges do not overlap |
| KadBuckets.DrawDistance | src/ed2k/KadRouting.cc:473-489 | for every bucket and all random words the drawn distance is in the bucket |
| KadBuckets.RandomIdIn | src/ed2k/KadRouting.cc:470-498 | for every bucket and all random words the id falls into the bucket |
| KadNodes.FirstNode | src/ed2k/KadRouting.cc:83-99 | the first node that is this contact |
| KadNodes.AddFits | src/ed2k/KadRouting.cc:148-190 | adding exceeds neither capacity |
| KadNodes.AddExchanges | src/ed2k/KadRouting.cc:148-190 | adding exchanges exactly one record: the contact's own old one, or the oldest replacement of a full bucket, or none |
| KadNodes.AddKeepsLive | src/ed2k/KadRouting.cc:157-184 | no live node is displaced by another contact, and a contact that answered goes live whenever there is room |
| KadNodes.AddPatient | src/ed2k/KadRouting.cc:101-117 | hearing from a node leaves no failure count at or over the limit |
| KadNodes.AddDistinct | src/ed2k/KadRouting.cc:157-172 | ids stay distinct if and only if the replaced record has the contact's id or no record has |
| KadNodes.FailKeeps | src/ed2k/KadRouting.cc:192-219 | a failure exceeds no capacity and brings in no id that was not there |
| KadNodes.FailExchanges | src/ed2k/KadRouting.cc:192-219 | a failure removes at most the failing node, which stays only with one more failure, below the limit and without a replacement; nobody new comes in |
| KadNodes.FailPatient | src/ed2k/KadRouting.cc:202-211 | a node that failed twenty times in a row is gone |
| KadRouting.DoubleId | src/ed2k/KadRouting.cc:157-164 | a contact with one node's endpoint and another's id leaves two records of that id |
| KadRouting.DoubleIdArises | src/ed2k/KadRouting.cc:148-190 | three contacts added to a new table lead there, whenever both nodes share a bucket |
| KadRouting.KadRoutingTable.constructor | src/ed2k/KadRouting.cc:130-136 | an empty table; a bucket size of zero means ten |
| KadRouting.KadRoutingTable.Add | src/ed2k/KadRouting.cc:148-190 | only the contact's bucket changes; nodes stay in the bucket of their id within capacity, and our own id never enters |
| KadRouting.KadRoutingTable.Fail | src/ed2k/KadRouting.cc:192-219 | only the contact's bucket changes, and the same invariants stay |
| KadNearest.SortBy | src/ed2k/KadRouting.cc:245-249 | an ascending permutation for any strict order |
| KadNearest.DistanceOrders | src/ed2k/KadRouting.cc:245-249 | distance is a strict order on nodes, as sorting requires |
| KadNearest.ClosestOf | src/ed2k/KadRouting.cc:245-259 | as many as wanted, ascending, and no node left out is closer than one returned |
| KadRouting.KadRoutingTable.FindClosest | src/ed2k/KadRouting.cc:229-260 | exactly the nearest eligible live contacts in order; refused for malformed ids; no limit means all |
| KadRouting.KadRoutingTable.NeedRefresh | src/ed2k/KadRouting.cc:274-299 | our own id when due, else an id in the bucket that has been stale longest, else nothing, with the pauses kept |
| KadRouting.KadRoutingTable.Restore | src/ed2k/KadRouting.cc:396-423 | the nested loops place every saved node in order; any snapshot gives a table whose nodes are in place within capacity |
| KadRestore.PlacedByShare | src/ed2k/KadRouting.cc:405-421 | each bucket depends only on the saved nodes that belong to it |
| KadRestore.RestoreOwn | src/ed2k/KadRouting.cc:376-423 | a table restored from its own snapshot has the same lists; only the activity of empty buckets is lost |
| KadRestore.RestorePlaces | src/ed2k/KadRouting.cc:405-421 | whatever the snapshot, restored nodes are in the bucket of their id and within capacity |
| KadRestore.FillTakes | src/ed2k/KadRouting.cc:414-419 | after any entries a bucket holds exactly those that found room among the live nodes or the replacements |
| KadRestore.FillConserves | src/ed2k/KadRouting.cc:414-419 | nothing is invented, and a bucket that gets no more than its capacity loses nothing |
| KadRouting.SelfRestored | src/ed2k/KadRouting.cc:396-423 | a restored table lacks our own id if and only if no entry of it finds room in its bucket |
| KadRouting.SelfAfterRestore | src/ed2k/KadRouting.cc:396-423 | a snapshot without our id restores to a table without it, and with room only then |
| Reader.ReadLoop | src/ed2k/KadProtocol.cc:222-232 | the counting loop reads what the recursive definition says |
| Reader.AppendAll | src/ed2k/KadProtocol.cc:210-219 | the loop appends every record in order, or fails on the first that cannot be written |
| Reader.StringAt | src/ed2k/KadProtocol.cc:68-81 | a string is read back where it was written |
| Reader.Int64At | src/ed2k/KadProtocol.cc:45-53 | a signed 64-bit integer is read back where it was written |
| Reader.ManyAt | src/ed2k/KadProtocol.cc:210-232 | records that are read back one by one are read back as a list |
| Reader.ThenRestores | src/ed2k/KadProtocol.cc:750-874 | parts that are read back separately are read back in sequence |
| KadState.NodeRestores | src/ed2k/KadProtocol.cc:179-207 | a node is read back without its key |
| KadState.ContactRestores | src/ed2k/KadProtocol.cc:146-167 | a router contact is read back, with its key from version 5 on |
| KadState.BucketRestores | src/ed2k/KadProtocol.cc:786-790 | a bucket is read back with both lists and its activity |
| KadState.BodyRestores | src/ed2k/KadProtocol.cc:811-862 | everything behind the version is read back, in every version |
| KadState.RoundTrip | src/ed2k/KadProtocol.cc:750-874 | a state written as any version that is read parses to the state, less exactly what that version lacks |
| KadReload.Create | src/ed2k/KadProtocol.cc:750-793 | writes the current version, or refuses exactly states with malformed ids or something too long to count |
| KadReload.LoadedIsStable | src/ed2k/KadProtocol.cc:795-874 | any accepted payload, of any version, gives a state that can be saved, and saving and loading it changes nothing |
| KadReload.Load | src/ed2k/Kad.cc:103-109 | a payload that parses gives a sound table with its id, placed nodes, routers and times |
| KadReload.SaveAndLoad | src/ed2k/Kad.cc:161-167 | a table saved and loaded has the same live and replacement lists, routers and times, less node keys and the activity of empty buckets |
| FieldLists.FieldsOf | src/ed2k/Link.cc:21-34 | the loop gives the non-empty stretches between separators |
| FieldLists.SplitsBack | src/ed2k/Link.cc:21-34 | non-empty fields without the separator survive joining and splitting |
| Text.PercentRoundTrip | src/base/Text.cc:176-213 | decoding an encoded text gives the text, with the unreserved characters of section 2.3 of RFC 3986 |
| Text.PercentChars | src/base/Text.cc:195-213 | encoded text consists of unreserved characters and percent signs |
| Text.DecodePercent | src/base/Text.cc:176-193 | the loop computes the decoding, malformed escapes kept as they are |
| Text.HexRoundTrip | src/base/Text.cc:215-244 | bytes survive hexadecimal |
| Text.DecimalRoundTrip | src/base/Text.cc:299-309 | every non-negative 64-bit number survives decimal |
| Base32.EncodeBytes | src/ed2k/Link.cc:102-119 | the loop over a wrapping 32-bit buffer regroups all bits by five, with zero padding |
| Base32.DecodeLetters | src/ed2k/Link.cc:81-100 | the loop regroups the bits of the letters by eight, in either case, refusing other characters |
| Base32.CaseIgnored | src/ed2k/Link.cc:86-88 | letters that differ only in case decode to the same bytes |
| Base32.RoundTrip | src/ed2k/Link.cc:81-119 | every byte string, of any length, survives the base32 of section 6 of RFC 4648 |
| Links.EndpointBack | src/ed2k/Link.cc:130-167 | a printed source parses back, with crypt options and user hash |
| Links.OptionsBack | src/ed2k/Link.cc:169-210 | printed part hashes, AICH hash and sources parse back |
| Links.ToFileLink | src/ed2k/Link.cc:299-327 | the loops print the fields joined by bars, refusing hashes of the wrong length |
| Links.ParseLink | src/ed2k/Link.cc:191-210 | the loops parse the split and normalised text |
| Links.PrintedIsNormal | src/ed2k/Link.cc:36-44 | a printed link is not rewritten by the normalisation of escaped bars |
| Links.RoundTrip | src/ed2k/Link.cc:275-327 | parsing a printed link gives the link back, for every valid link |
| Links.ParsedIsValid | src/ed2k/Link.cc:169-210 | every accepted file link is valid |
| Links.PrintedIsStable | src/ed2k/Link.cc:275-327 | for every accepted text, printing the link and parsing it again gives the same link |

## Left out

- Sockets, coroutines, timers, libcurl, libtorrent, media and cryptography: calls into code without visible semantics.
- SQL statements and transactions of the ED2K store: rows are a list in index order.
- File names, sizes and modification times checked before a saved download is reused: reloading starts after those checks.
- AICH recovery, the life cycle of ED2K tasks, the engine's queue and the handling of Kad messages: not part of this model.
- Server, server-list, nodes-list and search links: only file links are printed, so only they have a round trip; other links parse to none here.
- `needBootstrap`, `findByEndpoint` and `addRouterNode`, which compare two times, scan the buckets for an endpoint and append a router once; and the index of sources published to us, a list per file.
- Completing a transaction without a target, as bootstrap and hello answers do: the form with a target is modelled.
- KadClient.TableMakesLegal: one lookup and the table; other lookups, greetings and searches for routers appear as arbitrary changes to transactions of other targets.
- The lifetime after which the client drops a lookup: runs here go on.
- Rounding of floating-point speeds and overflow of 64-bit byte counts: speeds are reals and counts are unbounded.
- Exceptions for a malformed own id or target: such a table or lookup cannot be created here.
- Memory exhaustion on a payload that announces too many nodes: reading fails here when the data ends.
- The default-constructed lookup, which is done from the start.
- KadNearest.SortBy: stands for the library sort; any ascending permutation is allowed, so the order of equal distances is not fixed.
- Reader.ReadLoop: the four lists of the state are read by this one generic loop; the other reads of the parser are functions of the offset.
- Text.HexRoundTrip: hexadecimal, percent-encoding and decimal printing are functions here, not loops that append.
- Segments.SegmentPlanner.constructor: demands a positive minimum split, as the engine always configures one.
- Segments.SegmentPlanner.Place: demands a begin that is a byte offset, not a negative number.
- KadReload.SaveAndLoad: both tables have the default bucket size, as the client creates them.
