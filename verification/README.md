# Folk core, verified models

Folk is a reactive database: programs state facts ("Claim", "Wish", "Assert"), and a `When` runs its
body for every combination of statements that matches its pattern, taking everything it said back when
one of them goes away.  The C core keeps the statements in a lock-free persistent trie, counts the
supporters of each statement, hands work to many threads through work-stealing deques, and frees memory
by epochs.  This project models that core, and the Tcl list printer and parser of its JavaScript client,
in Dafny, and proves what the code is relied on for.

    dafny verify dfyconfig.toml

| file | part of the system |
|---|---|
| `Clauses.dfy` | terms, clauses, variables, the match relation |
| `Tries.dfy`, `TrieLookup.dfy` | the persistent trie by meaning; lookup into a bounded buffer; queries |
| `TrieNodes.dfy` | the same trie with node and key addresses: what path copying allocates and retires |
| `Epoch.dfy`, `EpochSafety.dfy` | epoch-based reclamation, one atomic access per step |
| `Deque.dfy` | the Chase-Lev work-stealing deque, one atomic access per step |
| `GenRc.dfy` | generational reference counts of pool slots, one atomic access per step |
| `SupportGraph.dfy`, `Database.dfy` | support counts, cascading removal, the index; `Db` is the object |
| `Keep.dfy` | grace periods: remove-later slots, the scan, the life of a kept statement |
| `Destructors.dfy` | destructors shared by inheritance; `Registry` is the object |
| `Reaction.dfy`, `NoMissedReaction.dfy` | clause rewriting, reaction queries, concurrent insertion |
| `Unify.dfy` | unification of a pattern with a statement |
| `Inflight.dfy` | in-flight accounting of Atomically versions |
| `Versions.dfy` | the lock-free list of Atomically versions, with an explicit heap |
| `TclList.dfy` | the list printer and parser of lib/folk.js |

The concurrent parts are state machines over the code's loads, stores and compare-and-swaps, interleaved
in any order by any number of threads under sequential consistency; `Leads(s, acts, s2)` says that the
steps `acts` lead from `s` to `s2`, and the main theorems quantify over all such runs from the initial
state.  Code that loops over a buffer or updates an object is a method or a class, proved against a
function or an invariant.  Fields marked as history record what happened and are never read by a step.

## What turned out differently from what one might expect

* `trieRemove` is not deletion.  Removing a stored clause drops everything below it, and an ancestor that
  is left without branches goes too, even if it carries a value.  `Tries.RemoveGet` says exactly what
  remains, `Tries.RemoveExactIff` when that is deletion, `Tries.RemoveTakesOthers` gives the input.  What
  is dropped below a removed clause is also never retired (`TrieNodes.LeaksIff`).
* The root of the index becomes NULL when a removal leaves no entry alone, which can happen with other
  clauses stored (`Tries.RemoveNoneIff`, `Tries.RemoveLosesRoot`), and the next insertion, retraction or
  query dereferences it (`Crashed` of `Database.Db.InsertOrReuse`, `NoRoot` of `Database.Db.RetractStatements`
  and `TrieLookup.DbQuery`; `Database.CrashRun` gets there).
* The statement's claims query can find a `When` whose pattern `claimizeClause` refuses; the NULL pattern
  is then copied (`Reaction.ClaimizeRefusesIff`, `Reaction.ClaimizeRefusesExample`).
* A `When` and a statement it is meant to run for can miss each other, depending on which comes first, in
  four families and, without rest variables, in no others (`NoMissedReaction.GuaranteedIff`,
  `NoMissedReaction.MissedFamilies`): an empty pattern, whose `When` asks for no statements; a statement
  that begins with `subscribe`, which does not react; a claim whose verb is left to a variable, which the
  `When`'s query accepts and the statement's does not; and a `when` clause without `with environment`, which
  no statement asks for.
* A rest variable needs at least one term to absorb (`Clauses.MatchesIff`), and in front of a literal it
  makes the index and unification disagree: `Unify.GroundUnifyIff` is the exact condition on a pattern for
  ground clauses, `Unify.UnifyIff` for all.
* A `When` that a statement's query finds need not unify with the statement either, if rest variables are
  about; `Unify.WhenizedUnifyIff` is the exact condition on the statement.
* A variable name of exactly 100 characters is accepted, and its terminator is stored one past the end of
  the callers' 100-byte buffers (`overrun` of `Clauses.ScanVariable`; `Clauses.OverrunExample`).
* A retraction does not ask whether the statement was asserted.  Without an outstanding assert it removes a
  statement that a match still lists, or leaves a count that belongs to another supporter:
  `Database.RetractNeedsAssert` is the exact condition, `Database.RetractSaidRun` a run.
* The in-flight count of a version never understates, but it can overstate for good, and the version never
  reports convergence.  This comes of exactly three kinds of step (`Inflight.LeavesOne`, `Inflight.LeakIff`): a
  Say under the version of a clause that is already there, an item counted for it whose endpoint is gone when
  it comes up, and a second version set in a block that runs under it.  `Inflight.ReuseRun`,
  `Inflight.DropRun` and `Inflight.SecondVersionRun` are runs.
* The list printer prints some strings so that they do not read back: raw words with a backslash or a
  leading double quote, and braced strings whose braces balance only if backslashes are ignored.
  `TclList.StringRoundTrip` is the exact condition, `TclList.NotAllSurvive` gives inputs.

## Model

| member | source | states |
|---|---|---|
| `Clauses.ScanVariable` | trie.c:226-242 | recognises exactly the terms `/name/` with a name of 1 to 100 characters and no space, and copies the name into the buffer; the terminator overruns the buffer iff the name has 100 characters |
| `Clauses.OverrunExample` | trie.c:226-242 | a term whose scan overruns the buffer |
| `Clauses.MatchesIff` | trie.c:269-335 | the term-by-term walk succeeds iff both clauses agree up to a position where both end or a rest variable on either side takes at least one more term |
| `Clauses.MatchesRestFree` | trie.c:269-335 | without rest variables a match is position-wise agreement at equal length, so it is symmetric |
| `Clauses.MatchesGround` | trie.c:269-335 | between ground clauses a match is equality |
| `Tries.AddGet` | trie.c:142-223 | for every clause asked about afterwards, adding is insert-if-absent on the map |
| `Tries.AddWf` | trie.c:142-223 | adding keeps sibling keys present and distinct at every level |
| `Tries.AddTidy` | trie.c:142-223 | adding leaves no node without value and branch |
| `Tries.AddSameIff` | trie.c:142-223 | the same trie comes back iff the clause was present |
| `Tries.RemoveGet` | trie.c:337-441 | what every clause maps to after a removal: the clause and, if it was stored, all its extensions are gone; a proper prefix survives iff some other entry below it does; all else is unchanged |
| `Tries.RemoveExactIff` | trie.c:337-441 | removal is deletion of one clause iff nothing is stored below it when it is stored and every stored proper prefix keeps another entry |
| `Tries.RemoveExact` | trie.c:337-473 | on a prefix-free map that has the clause, removal is deletion |
| `Tries.RemoveTakesOthers` | trie.c:344-354 | an input on which a stored extension, and one on which a stored prefix, disappears with the removed clause |
| `Tries.RemoveNoneIff` | trie.c:427-440 | the root goes iff no entry is left alone by the removal |
| `Tries.RemoveLosesRoot` | trie.c:344-354 | a trie that loses its root with another clause stored |
| `Tries.RemoveWf` | trie.c:337-441 | removal keeps tries well formed and tidy |
| `Tries.EntriesGet` | trie.c:255-267 | enumeration lists exactly the map's entries |
| `Tries.EntriesDistinct` | trie.c:255-267 | enumeration lists no clause twice |
| `TrieLookup.LookupAll` | trie.c:255-267 | the buffer gets all values below the node, in order, cut at its size |
| `TrieLookup.LookupImpl` | trie.c:269-335 | the buffer gets exactly what a linear scan of the entries by the match relation (or by equality, for literal lookup) finds, in order, cut at its size |
| `TrieLookup.LookupBranch` | trie.c:287-333 | how one branch contributes, for each combination of term and key |
| `TrieLookup.LookupFinds` | trie.c:443-451 | a ref is among the results iff it is stored under a matching clause |
| `TrieLookup.HitsOnce` | trie.c:443-451 | if no ref is stored twice, no ref is found twice |
| `TrieLookup.LookupLiteralIsGet` | trie.c:453-461 | literal lookup finds the clause's own ref or nothing |
| `TrieLookup.DbQuery` | db.c:936-962 | a result it returns is the complete scan of the snapshot it used, never one cut at the buffer; it exits iff five snapshots in turn overflow, and dies iff it meets a NULL root |
| `TrieNodes.AddRefines` | trie.c:142-212 | with addresses, adding means the same; the old root address comes back iff the clause was present, and then nothing was allocated or retired |
| `TrieNodes.AddConserves` | trie.c:142-212 | for every address: reachable before + allocated = reachable after + retired |
| `TrieNodes.AddRetires` | trie.c:142-212 | the retired addresses are exactly the old and new ones the new root does not reach, each once |
| `TrieNodes.RemoveRefines` | trie.c:337-441 | with addresses, removing means the same |
| `TrieNodes.RemoveConserves` | trie.c:337-441 | for every address: reachable before + allocated = reachable after + retired + leaked |
| `TrieNodes.RemoveRetires` | trie.c:337-441 | nothing retired is reachable from the new root, and each address is retired once |
| `TrieNodes.AddFitsSwap` | db.c:1244-1328 | adding delivers what Epoch asks of a thread that swaps the root: a new root among its allocations, nothing retired reachable |
| `TrieNodes.RemoveFitsSwap` | db.c:669-688 | removing delivers it too |
| `TrieNodes.LeaksIff` | trie.c:344-354 | memory is leaked iff the removed clause was stored together with a longer one |
| `EpochSafety.StepKeepsInv` | epoch.c:79-203 | every step keeps: an active thread is at most one epoch behind, whoever the scan passed is current, nobody fills the bucket being drained, what a thread holds is in memory |
| `EpochSafety.CasOthers` | db.c:1244-1328 | a successful swap leaves every other thread's snapshots in memory, so the address it expects cannot come back as a new root, even if the root was read twice |
| `EpochSafety.AdvanceKeepsInv` | epoch.c:182-193 | advancing the epoch after a complete scan keeps the invariant; that the scan does advance is CollectionCompletes |
| `EpochSafety.NoUseAfterFree` | epoch.c:109-203 | in every run what an active thread holds or can reach from a root it read is in memory, and its swap succeeds only on the structure it read |
| `EpochSafety.FreesOnlyGarbage` | epoch.c:182-203 | in every run the collector frees only memory that is in use once, was retired two epochs ago, and is unreachable for the root and every thread |
| `EpochSafety.CollectionCompletes` | epoch.c:182-203 | left alone while every thread in an epoch is in the current one, an idle collector goes through a round: the epoch is one further, and everything parked in the bucket of the epoch before is out of memory |
| `EpochSafety.CollectorWorks` | epoch.c:182-203 | so in every run, wherever it has come to |
| `EpochSafety.ThreeRoundsFreeAll` | epoch.c:182-203 | left alone with no thread in an epoch, three rounds free everything that is retired |
| `EpochSafety.GivesUpOnlyAt` | epoch.c:187-189 | a scan ends without an advance only at a thread whose counter is not the current epoch |
| `EpochSafety.SawActive` | epoch.c:183-190 | in every run it had read that thread as active just before |
| `EpochSafety.SawInUse` | epoch.c:183-190 | and as in use before that |
| `EpochSafety.PassesOnly` | epoch.c:183-190 | a scan goes past a thread only if it reads it as unused, inactive or current |
| `EpochSafety.OperationEnds` | epoch.c:148-180 | left alone, a thread that has swapped the root leaves the epoch, and all it retired is in the bucket of the current epoch |
| `EpochSafety.GarbageIsKept` | epoch.c:148-170 | in every run a retired address stays on its thread's list or in the unfreed part of its bucket until it is freed |
| `EpochSafety.FailedSwapStays` | db.c:1324-1328 | a swap that fails, because the root changed or for no reason, changes nothing |
| `EpochSafety.FailedSwapUndone` | epoch.c:118-147 | in every run the reset after a failed attempt leaves the structure intact, frees each new allocation once, and takes nothing from any thread |
| `Deque.Resize` | workqueue.c:74-94 | the copy loop keeps the window of items, index by index, in an array of twice the length |
| `Deque.StepKeepsInv` | workqueue.c:42-135 | every step of owner and thieves keeps: pushed = delivered + contents + in the owner's hand |
| `Deque.ExactlyOnce` | workqueue.c:42-135 | in every run pushed items are the disjoint union of delivered and remaining ones, and none is delivered twice |
| `Deque.RefinesSequence` | workqueue.c:42-135 | in every run each step does to the abstract sequence what a push at the back, a take from the back, a steal from the front, or nothing does; a stolen item is the first and is delivered, a taken one is the last and is delivered by the owner's next step |
| `Deque.StealSucceeds` | workqueue.c:116-135 | in every run, a steal that runs alone on a deque that is not empty returns the first item |
| `Deque.TakeSucceeds` | workqueue.c:42-72 | in every run, a take that runs alone returns the last item, and nothing only if there is none |
| `Deque.PushSucceeds` | workqueue.c:74-114 | in every run, a push that runs alone puts its item at the end, growing the buffer if it has to |
| `Deque.GivesUpOnly` | workqueue.c:116-135 | in every run a thief comes back with nothing only if the deque was empty, the owner was inside a take, or top had moved past the index it was after |
| `Deque.NoneMeansDrained` | folk.c:1373-1377 | once a take has found nothing the deque stays empty, through further takes and steals, until the next push, so donating until NONE strands nothing |
| `GenRc.StepKeepsInv` | db.c:50-97 | every step keeps: rc is the number of holders, and creating, using and destroying exclude each other |
| `GenRc.HolderIsSafe` | db.c:50-97 | in every run, while a client holds a slot its generation is the client's and nobody creates or destroys it |
| `GenRc.DestroyedOnce` | db.c:66-82 | in every run each generation that ended was destroyed exactly once, in order |
| `GenRc.ReclaimedOnlyWhenVacant` | db.c:467-543 | in every run a slot is claimed only when nobody holds it and its last object is completely destroyed |
| `GenRc.StaleNeverAcquires` | db.c:50-65 | a ref of an ended generation never acquires, whatever happens later |
| `GenRc.AcquireAlone` | db.c:50-65 | undisturbed, an acquire succeeds iff the ref has the generation of the slot, marked or not |
| `GenRc.MarkAlone` | db.c:83-97 | undisturbed, marking leaves the slot dead and the holder holding |
| `GenRc.ReleaseAlone` | db.c:66-82 | undisturbed, a release destroys the slot and ends the generation iff it was the last of a marked slot, and otherwise only gives its count back |
| `GenRc.CreateAlone` | db.c:465-492 | undisturbed, a vacant slot is claimed and comes to be usable under its generation |
| `GenRc.AlwaysOne` | db.c:50-97 | in every run the slot is vacant, being created, usable or being destroyed, with the count of its holders, so one of these applies |
| `SupportGraph.KillStatementInv` | db.c:664-713 | taking a statement out of the index and the live set keeps the accounts |
| `SupportGraph.RecountInv` | db.c:605-660 | a change of parentCount that matches a change of its supporters keeps the accounts |
| `SupportGraph.CascadeTrans` | db.c:664-879 | cascades compose: a match that dies is the one killed or lost a parent statement |
| `SupportGraph.ParentsAlive` | db.c:690-712 | a live match that has not been flagged has all its parents |
| `SupportGraph.CascadeKeepsParents` | db.c:690-712 | a cascade that tells every match under what it removes keeps that |
| `Database.Db.RemoveStatement` | db.c:664-713 | the statement dies, every match under it or under a statement that dies with it is gone or pinned and flagged, nobody else's support changes unaccounted; ends on cyclic graphs because live nodes decrease |
| `Database.Db.RemoveMatches` | db.c:693-712 | the loop over the child matches |
| `Database.Db.RemoveMatch` | db.c:842-879 | an unpinned match dies and gives its support back; a pinned one is only flagged |
| `Database.Db.DecrParents` | db.c:855-878 | the loop over the child statements, each decremented once per edge |
| `Database.Db.DecrParent` | db.c:619-660 | one supporter goes: the statement stays, is scheduled or is removed, and the count equals edges + asserts + holds + timers again |
| `Database.Db.InsertOrReuse` | db.c:1192-1350 | aborts iff the parent match is gone; dies iff the root is NULL; reuses iff the index has the clause, adding one supporter; otherwise creates a statement with its keepMs and one supporter and extends the index by it; no other statement or match changes |
| `Database.Db.Reuse` | db.c:1253-1304 | the indexed statement gets the supporter |
| `Database.Db.Insert` | db.c:1330-1350 | the new statement and the extended index are committed; all other statements and matches stay as they are |
| `Database.Db.Support` | db.c:1151-1172 | one more supporter, recorded on the match if it is one; nothing else changes |
| `Database.Db.AddEdge` | db.c:821-825 | the statement goes behind the child statements the match has |
| `Database.Db.NewMatch` | db.c:1355-1413 | inserted iff all parents are alive, else removed at once; every statement's child matches are those it had and the new one once per mention among the parents, and nothing else changes |
| `Database.Db.Adopt` | db.c:1379-1385 | the loop over the parents |
| `Database.Db.Withdraw` | db.c:619-660 | losing an assert, hold or timer removes the statement iff it was the last supporter and no grace period applies; what the index is then, when no matches hang on it |
| `Database.Db.RetractStatements` | db.c:1415-1438 | dies on a NULL root, exits at 500 results, otherwise exactly the statements the pattern finds lose one assert |
| `Database.Db.RetractEach` | db.c:1420-1436 | the loop, on distinct live results |
| `Database.Db.ReapMatch` | db.c:1046-1054 | a released root match, pinned or superseded, is removed iff a parent of it was; one that is gone already is left |
| `Database.Db.Run` | db.c:1192-1438 | over any sequence of operations the accounts hold: parentCount of a live statement = edges from live matches + asserts + holds + timers; only stated clauses are ever stored; no live match that has not been flagged has a dead parent |
| `Database.RunFromNew` | db.c:1192-1438 | after any run of a new database on prefix-free clauses, without holds, the index has a ref under a clause iff it is the one live statement with it |
| `Database.CrashRun` | db.c:1244-1252 | assert, retract and assert ends in the crash, for any two clauses |
| `Database.KillLosesRootIff` | db.c:664-689 | removing a statement leaves a NULL root iff it leaves no entry alone; for the empty clause iff it is stored |
| `Database.RetractNeedsAssert` | db.c:1430-1436 | a retraction removes a statement that something else still supports iff no assert was outstanding, one supporter was left and no grace period applies; if the statement stays, the accounts hold again iff an assert was outstanding |
| `Database.Db.RetractAnyway` | db.c:619-660 | the decrement of a retracted statement, asserted or not, on which no match hangs |
| `Database.RetractSaidRun` | db.c:1430-1436 | a run in which a said statement is retracted and the live match still lists it |
| `Database.IndexAgrees` | db.c:664-689 | the same in any state that keeps the accounts, so no clause has two statements |
| `Database.IndexKeptIff` | db.c:676-684 | for any clauses: exactly when removing one statement leaves another one indexed |
| `Database.ResultsOk` | db.c:1415-1420 | a retract pattern finds distinct live statements, exactly those indexed under a matching clause |
| `Keep.ScheduleRemoveAfter` | sysmon.c:296-318 | puts the ref, with a deadline one grace period from now, into the first empty slot and no other, iff there is one |
| `Keep.Scan` | sysmon.c:83-102 | the loop over the array, with the removals scheduled while one is carried out taking slots before its own is emptied |
| `Keep.ScanConserves` | sysmon.c:83-102 | removals there before + asked for during the scan = removals there afterwards + carried out |
| `Keep.ScanFires` | sysmon.c:83-102 | only due removals are carried out, others keep their slots, and whatever is due afterwards was asked for during the scan |
| `Keep.StepKeepsInv` | db.c:619-660 | gains, losses, scans and ticks keep the count equal to support plus at most one timer, within its deadline |
| `Keep.GracePeriod` | db.c:619-660 | in every history and for every keepMs a statement is removed only unsupported, between one and two grace periods (at least a tick each for the upper bound) after its last loss, at once when it is not kept, and never outlives that |
| `Destructors.RefsUpdate` | db.c:132-138 | replacing one holder's set changes the number of references by the difference of the two sets |
| `Destructors.RefsZero` | db.c:132-138 | the reference count is zero iff no holder has the destructor |
| `Destructors.AppendKeeps` | db.c:146-156 | a new reference to a destructor that has not run keeps the accounts |
| `Destructors.ClearKeeps` | db.c:125-131 | releasing one reference keeps the accounts if the destructor runs exactly when the count comes to zero |
| `Destructors.Registry.Add` | db.c:588-592 | a new destructor gets its first reference |
| `Destructors.Registry.AddNowhere` | folk.c:354-359 | a destructor for a statement that was not made, reused or aborted, runs at once |
| `Destructors.Registry.Inherit` | db.c:161-165 | the child's set becomes its own plus the parent's; nothing runs |
| `Destructors.Registry.ReleaseAll` | db.c:167-176 | exactly the destructors that only this holder had run, and the set is gone |
| `Destructors.Registry.RunsExactlyWhenFree` | db.c:101-176 | a destructor has run iff no live holder has it, and it ran once |
| `Destructors.Run` | db.c:1387-1395 | the same over any history of creating, adding, inheriting and releasing |
| `Reaction.RewritesUndo` | folk.c:1054-1100 | unwhenize undoes whenize, unclaimize undoes claimize |
| `Reaction.DirectionsAgree` | folk.c:1199-1222 | without rest variables the whenized statement matches the When iff the When's pattern matches the statement and the When has its environment |
| `Reaction.ClaimizedMatches` | folk.c:1054-1068 | the claimized pattern matches iff the verb is claims or a variable and the pattern matches what is claimed |
| `Reaction.ClaimDirectionsAgree` | folk.c:1226-1254 | by way of claims the directions agree iff no variable stands for the verb of a statement that would match |
| `Reaction.ClaimizeRefusesIff` | folk.c:1243-1247 | exactly when the claims query finds a When whose pattern claimizeClause refuses |
| `Reaction.ClaimizeRefusesExample` | folk.c:1243-1247 | such a pair |
| `Reaction.WhenSideFinds` | folk.c:1144-1182 | how many of a When's queries find a statement, for all pairs without rest variables |
| `Reaction.StatementSideFinds` | folk.c:1199-1254 | how many of a statement's queries find a When, for all pairs without rest variables |
| `Reaction.EachSideFindsOther` | folk.c:1129-1256 | of a pair that should react, each side has exactly one query that finds the other iff the pattern is not empty, the statement no subscription, the environment there, and a claim's verb no variable |
| `NoMissedReaction.StepKeepsInv` | folk.c:1129-1256 | every insertion, query, push and removal keeps: each side pushes at most once per query that finds the other, exactly once if the other came first |
| `NoMissedReaction.NoneMissed` | folk.c:1129-1256 | in every interleaving such a pair, both staying, is pushed together once or twice, by nobody but themselves |
| `NoMissedReaction.GuaranteedIff` | folk.c:1129-1256 | over all pairs without rest variables that should react: once or twice in every interleaving iff each side finds the other |
| `NoMissedReaction.SerialRun` | folk.c:1129-1256 | the run in which one side finishes before the other begins pushes what the second finds |
| `NoMissedReaction.SubscribeIsMissed` | folk.c:1137-1142 | a statement that begins with subscribe never pushes an item for a When, and when the When came first there is none at all |
| `NoMissedReaction.MissedFamilies` | folk.c:1129-1256 | for each of the four families, a pair and a run that never pushes it |
| `Unify.ClauseUnify` | folk.c:153-187 | fails iff two different literals stand in the same place; otherwise the bindings are, place by place, those of the variable on the first side or else on the second, nothing for a non-capturing one |
| `Unify.MatchesUnify` | folk.c:153-187 | with rest variables only in last place, whatever the index matches unifies |
| `Unify.GroundUnifyIff` | folk.c:153-187 | every ground clause a pattern matches unifies with it iff only variables follow its rest variables |
| `Unify.UnifyIff` | folk.c:153-187 | every clause, variables and all, that a pattern matches unifies with it iff its literals come after plain variables only, but for the first term |
| `Unify.WhenizedUnifyIff` | folk.c:1199-1222 | every When a statement's query finds unifies with the statement iff the statement's literals come after plain variables only, but for the first term |
| `Unify.ClaimedUnify` | folk.c:1226-1254 | by way of claims, the claimized pattern conflicts with the statement exactly where the pattern conflicts with what is claimed |
| `Unify.RestInFrontConflicts` | folk.c:153-187 | an input where they disagree |
| `Unify.LookupBinding` | folk.c:160-176 | with distinct names, each variable's name is bound to the term or terms at its place |
| `Unify.LookupCaptor` | folk.c:157-180 | whichever side the variable is on, its name is bound to what stands at its place on the other side, or to all from there on, if no name is bound at two places |
| `Unify.SecondSideBinds` | folk.c:168-177 | so a variable of the second side is bound to the first side's term or terms |
| `Unify.BindingsDescribe` | folk.c:153-187 | literals are the clause's own terms and every captured position is bound to the clause's |
| `Unify.InstantiateGivesBack` | folk.c:153-187 | instantiating a fully capturing pattern that the index matched gives back the clause |
| `Inflight.StepKeepsInv` | folk.c:842-931 | every step of Say, pushRunWhenBlock and runWhenBlock keeps: count = outstanding tokens + leaked increments |
| `Inflight.CountCoversTokens` | db.c:1112-1144 | in every run a version's count is its outstanding tokens plus its leaks, so at least the tokens |
| `Inflight.LeakIff` | folk.c:842-931 | in every run an increment of a version is left behind iff some step was a reused Say under it, dropped an item counted for it, or set a second version in a block under it |
| `Inflight.ConvergesIff` | db.c:1099-1101 | in every run a version reports convergence iff nothing is outstanding and no such step happened |
| `Inflight.ReuseRun` | db.c:1288-1304 | a run from the start in which a reused Say leaves the count at one for good with nothing outstanding |
| `Inflight.SecondVersionRun` | folk.c:647-653 | a run in which a second version does |
| `Inflight.DropRun` | folk.c:847-856 | a run in which a dropped item does |
| `Inflight.ZeroMeansQuiescent` | folk.c:842-931 | in every run a zero count means no worker inserts, reacts, pushes, has taken an item or runs a block for the version, and no item that could run for it is queued; a block is for the version its statement has, or else its When, until it sets its own |
| `Inflight.BlockRuns` | folk.c:842-931 | undisturbed, an item whose endpoints are there runs under its statement's version, or else the When's, which is counted once for the block while the endpoints are counted down |
| `Inflight.PairIsQueued` | folk.c:1007-1028 | undisturbed, a pair is queued as it was found, with one increment for each endpoint that is there |
| `Inflight.LeakedNeverConverges` | folk.c:847-856 | a leaked increment keeps the version from converging in every continuation |
| `Inflight.ReuseBlocksConvergence` | db.c:1288-1304 | one Say of a present clause under a version does that |
| `Versions.StepKeepsInv` | db.c:1009-1086 | every step of pushers and reapers keeps: each node belongs to the shared list or to one thread, and the lists are chained as they should be |
| `Versions.InOnePlace` | db.c:1009-1086 | in every run each version is in exactly one of: the list from the head, one thread's private list, reaped; no freed node is accessed |
| `Versions.ReleasedOnce` | db.c:1036-1060 | in every run a root match is released once, iff its version is on no list, and only for versions below the reaper's limit and, if asked, without anything in flight |
| `Versions.LooksAndTakes` | db.c:1036-1060 | in every run a reaper that looks at a version releases it, and no node carries it any more, iff it is below the limit, or there is none, and nothing is in flight or that was not asked for |
| `Versions.ReapIsThorough` | db.c:1023-1086 | in every run, once a reap that does not ask for convergence is through its list, every version below its limit that was on the list when it was swapped out is released and on no list |
| `Versions.NoneLost` | db.c:1064-1084 | in every run, when all threads are done each version is reaped or reachable from the head |
| `Versions.PushSucceeds` | db.c:1009-1021 | undisturbed, a push puts its version in front of the list |
| `Versions.ReapEnds` | db.c:1023-1086 | undisturbed, a reap comes to an end |
| `TclList.EatBrace` | lib/folk.js:13-32 | splits after the brace that closes the first one, hiding what follows a backslash; throws iff there is none |
| `TclList.CheckBrace` | lib/folk.js:34-50 | true iff no prefix closes more braces than it opens, braces balance, and there are no more ] than [ |
| `TclList.Unescape` | lib/folk.js:53-92 | the loop computes the escape-by-escape reading |
| `TclList.NextToken` | lib/folk.js:115-154 | the parser's loop computes the token and the rest, the end, or the exception |
| `TclList.NextTokenConsumes` | lib/folk.js:115-154 | a token leaves a proper suffix that starts at a separator; the end is reported iff only separators are left |
| `TclList.QuotedReads` | lib/folk.js:115-154 | a double-quoted text before a boundary reads as the text with its escapes undone |
| `TclList.QuotedTaken` | lib/folk.js:4 | a text that does not end in a backslash is taken as a whole iff no character before its last ends a line and every double quote after its first character follows a backslash |
| `TclList.EscapeCodes` | lib/folk.js:53-92 | what each escape stands for |
| `TclList.LoadList` | lib/folk.js:166-175 | the loop collects the tokens, or throws with the first exception |
| `TclList.BraceFinds` | lib/folk.js:13-32 | a braced text is found to end at its own brace, whatever follows, iff it nests with escapes |
| `TclList.BalancedEncloses` | lib/folk.js:34-50 | without backslashes every prefix of what checkBrace accepts nests to its brace count |
| `TclList.EscapeIsWord` | lib/folk.js:95-112 | an escaped string is one word up to any boundary |
| `TclList.UnescapeEscape` | lib/folk.js:53-112 | unescaping undoes escaping |
| `TclList.StringRoundTrip` | lib/folk.js:188-199 | printed and read back before any boundary, a string comes back iff it is not a raw word with a backslash or leading quote, nor a braced string that does not nest with escapes |
| `TclList.PlainSurvives` | lib/folk.js:188-199 | every string without backslash and leading double quote comes back |
| `TclList.ItemsRead` | lib/folk.js:201-229 | loading a printed list yields one token per element, in order |
| `TclList.RoundTrip` | lib/folk.js:166-229 | for arbitrarily nested lists whose strings come back, loading dumpRaw's text by shape gives back the list |
| `TclList.DumpRoundTrip` | lib/folk.js:201-215 | dump's text is one token that loads back by shape |
| `TclList.RoundTripIff` | lib/folk.js:166-229 | for any set of strings, all values made of them load back, however nested, iff each of them comes back |
| `TclList.PlainRoundTrip` | lib/folk.js:166-229 | in particular for lists whose strings have no backslash and no leading double quote |
| `TclList.NotAllSurvive` | lib/folk.js:188-199 | three strings that do not come back, one for each reason |

## Left out

- Weak memory: the state machines interleave atomic accesses under sequential consistency, not C11 orderings.
- Concurrent updates in place: Epoch, Deque, GenRc, Inflight and Versions model shared memory as values changed one access at a time, not as Dafny heap objects.
- Concurrency of db.c operations: each operation of `Database.Db` runs without interference; the source notes open races at db.c:648 and db.c:838.  The retry paths for concurrent removers are therefore not reached.
- Database.RunFromNew: without Hold, which is counted as a supporter only; displacing the previous statement of a key, deindexing it at once, and comparing versions (db.c:1440-1523) are not modelled.
- Database.Db.RetractStatements: for patterns whose matches all have an outstanding assert; without one the accounts are lost (`Database.RetractNeedsAssert`), and what the database does from then on is not modelled.
- Database.Db.RetractEach: the same.
- Progress: stated for operations that run alone, with compare-and-swaps that do not fail for no reason; under contention only safety is stated.
- Versions.ReapIsThorough: not for a reap that asks for convergence, which may spare what has something in flight; what it does with each version it looks at is LooksAndTakes.
- Edge lists: kept as lists that only grow; the defragmentation that drops edges to dead nodes (db.c:364-425) is not modelled.
- Fixed capacities: 1024 allocations, 1048576 garbage entries, 1000 remove-later slots, 65536 pool slots, the deque's size limit; exhaustion ends the process.
- Widths: gen and rc of a slot, epoch counters, indices of the deque and counts are unbounded integers.
- Epoch users: an operation ends with an empty list of frees unless its swap succeeded, as every caller in db.c arranges.
- trieRemove's list of removed values and the non-literal removal mode: the only caller removes one literal clause and ignores the list.
- Pointer equality of terms as a shortcut in lookup: keys are copies owned by the trie, so it never decides.
- Destructors: operations on different sets run one at a time; the source serialises each set by a mutex and the counts are atomic.
- Inflight: the in-flight counts only; what convergence then reaps is in Versions, where inflightCount is read as any value.
- Versions: one Atomically key; finding or creating the key's slot under its mutex (db.c:964-995) is not modelled.
- TclList: JavaScript objects and numbers in dump and loadDict (lib/folk.js:177-215) are left out; characters are Unicode scalar values instead of UTF-16 units; loadStr (lib/folk.js:156-164) never returns, because its first check is inverted.
- TclList.RoundTrip: for one given list with a string that does not come back by itself, whether another misreading makes up for it is not stated; for all lists over a set of strings it is (RoundTripIff).
- Reaction: clauses that begin with `when` and have fewer than five terms, for which unwhenizeClause asks for a clause of negative length.
- NoMissedReaction.GuaranteedIff: for clauses without rest variables, with which matching is not symmetric.
- NoMissedReaction: a When with an empty pattern also pushes an item for itself without a statement; that item is no pair.
- Unify: bindings are a list in order, the Tcl dictionary built from it is not modelled.
- Tcl evaluation, the subscription blocks, thread spawning and signals, /proc inspection, RAM checks, tracing and metrics: foreign runtime or operating system.
- The vendored queue and hash map, GPU, camera, audio, drawing and web programs: not modelled.
