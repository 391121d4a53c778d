# DBGuard: models and proofs

DBGuard manages MySQL replica sets: it detects a dead primary, fails over without losing an
acknowledged write, rejoins or rebuilds what was left behind, switches over on request, and
changes schemas online. Its safety argument is a chain of GTID set arithmetic and ordered role
changes. This project models that chain in Dafny and proves it.

| modules | what they model |
|---|---|
| `Intervals`, `GtidSets`, `GtidCount`, `Text`, `GtidText`, `GtidTextForms`, `GtidGrammar` | GTID sets as merged intervals refining finite sets, their text form and its grammar, the agent's fallback counter |
| `Selection`, `Ranking`, `CatchUp` | the choice of a promotion target, its ranking and counts, the catch-up poll |
| `Fleet`, `FleetLaws`, `FakeFleet` | semi-sync replication as single steps on values, and the simulated fleet as objects that perform them |
| `Failover`, `FailoverSafety`, `FailoverLossless`, `FailoverProtection`, `FailoverLimits`, `FailoverChain`, `FailoverErrant`, `FailoverJobs`, `FailoverJobLimits`, `FailoverCalls`, `FailoverRun` | the failover protocol as a transition system, its theorems, how their conditions come about, their exact limits, clones and rejoins under way meanwhile, what its calls meet, and `_Failover` as the object whose executions are runs of that system |
| `Errant`, `Supply`, `Rejoin`, `Maintenance`, `MaintenanceEnds`, `FailoverHandover` | errant transactions, quiescing, what a node can still come to execute, the subset check, the watch after a repoint, clone rebuilds, and all of it across a failover |
| `Switchover`, `SwitchoverEnds`, `ColdStart`, `InPlace` | planned switchover and its outcomes, promotion in place after a whole-set restart |
| `Detector`, `Evidence`, `History`, `Controller` | the DEAD verdict, what the witnesses' votes mean, the pruned poll history, the per-set state, cooldown and tick |
| `SelfFence`, `AgentRoles` | the agent's self-fence lease, promote and repoint cut off at any statement |
| `Keys`, `OscCopy`, `OscRun`, `OscSafety`, `OscEnds`, `OscLoop`, `SqlSplit`, `SqlClauses` | online schema change: key bounds and chunk ranges, triggers and copy under writers, abort safety, how a change and its cleanup end, the copy loop, ALTER clause splitting |

How the two protocols are modelled. A failover is a transition system over the fleet's state and
the manager's: the steps of `_Failover`, the background fence and the fleet's own steps (commit,
receive and acknowledge, a torn tail, apply, crash, wake, restart, partition, SQL error)
interleave freely, and every agent call may fail before it takes effect, take effect, or take
effect and be reported as failed. A schema change is a transition system over the tables: the
application writes between any two statements, every statement may fail having taken effect or
not, and the runner may die anywhere. Code that works by loops or by updating fields is written
as methods and classes, proved against the functions and runs the theorems are about.

## What the main theorems assume

- `LosslessFailover` (predicate `Careful`, on the step where each condition matters): a member already
  viewed does not restart before the choice, nor the winner before it caught up; at the choice every
  acknowledged write shows in the view of some candidate, and the former primary is silenced, that is,
  it takes no writes and no session of it waits, or every replica of it has its IO thread stopped; the
  torn tail that ends the catch-up holds no acknowledged write. At the start only the former primary takes
  writes, behind semi-sync; nothing is asked of the stop list or of the fence. `ProceedSilences` and
  `AllCandidatesProtect` are ways to meet the conditions.
- `OneAcknowledgingNode`, `OnlyWinnerAcknowledges`: of the schedule, only that the former primary is
  silenced at the choice.
- `NoErrantTransactions`: when a node's stable set is read, the condition of `SubsetCheckDecides` holds of
  it: the check will fail anyway, or the node can come to execute nothing the primary lacks.
- `FailoverAttachesNoErrant`: every member the repoint step addresses was a candidate and can come to
  execute no more than its view showed, and the winner is sure to execute what its own view showed.
  `NoErrantAcrossFailover` asks the condition of `JointDecides` of the choice, that no job works on the
  winner, and that before the choice members replicate from the primary only.
- `SwitchoverKeepsAcked`: the fence's answer carried the final set, or the candidate was not promoted.
- `AbortSafety`: matching checksums are no collision, or no stale row was left by the trigger window.
- `RunAll`: nothing for the order of its calls and for when it promotes; that a set is promoted, every call
  taken and confirmed (`Smooth`) and every other member a candidate that has applied its relay log, their
  sets a chain (`Ready`). `UndisturbedEnds`, `SmoothSwitch`: every statement or call goes through.
- `Evaluate`, `PruningKeepsVerdict`: timestamps never go back; `probe_failures` or the window is positive.

## What the code does that its promises do not say

Each of these is stated as a lemma with the run that shows it, next to the exact condition under
which the promise holds.

- The IO threads stopped before the choice are those of members the last poll found usable and
  configured (`dbguard/manager/failover.py:222-225`). A replica outside that list can acknowledge a
  write the winner lacks, on a former primary that still takes writes, or for a session left waiting
  on one that is read-only already. `ChoiceDecides` is exact, for each of three kinds of schedule (all;
  those without an early restart of the winner; those where also the torn tail is unacknowledged): none
  loses an acknowledged write if and only if the catch-up cannot finish, or the winner is sure to
  execute every write acknowledged so far and no unstopped semi-sync replica of the former primary is
  left while that one takes writes or a session of it waits for something neither the replica has
  executed nor the winner is sure to. Cuts and crashes heal, so they are no part of the condition.
- Step 5 repoints every usable member, also those the choice excluded, without comparing sets
  (`dbguard/manager/failover.py:283-284`); the comment there speaks of candidates only. An earlier
  primary not yet rejoined is such a member. `SubsetDecides`: no schedule attaches an errant node if
  and only if the catch-up cannot finish, or whatever an addressed member can come to execute before it
  is repointed is something the winner is sure to execute: what it has executed, its relay log, and,
  where its IO thread still runs, what its chain of sources has and may yet write.
- A failover neither cancels nor waits for the clones and rejoins under way. A clone is repointed to
  whatever primary the manager then believes in, without a comparison
  (`dbguard/manager/rejoin.py:396-399`); a rejoin to the primary it read when it began
  (`dbguard/manager/rejoin.py:162`, `:186`). `JointDecides` interleaves them with the failover: no
  schedule attaches an errant node to the winner if and only if the catch-up cannot finish, or the
  winner is sure to execute what the repoint targets, the donors and the landed clones can bring, and
  also what the former primary can, if a node that a job may join to it is still to be repointed, or is
  the donor of another clone. `CloneDecides` and `RejoinDecides` are the cases of a single job.
- The torn-tail exit of the catch-up loses an acknowledged write exactly when one is among the
  unapplied transactions (`TornTailExact`). A winner restarted before it caught up loses what it held
  only in its relay log: with the former primary silenced and restarts allowed, every schedule is
  lossless if and only if the winner has already executed every acknowledged write, or its SQL thread
  failed so that the run halts (`RestartDecides`). With the former primary silenced and a winner whose
  view is current, without a torn tail and with a running SQL thread, every fair schedule is lossless
  if and only if every acknowledged write shows in some candidate (`ProtectionDecides`). `LosingRun`
  builds the losing schedule each time.
- The subset check of a rejoin compares executed sets only. With an unapplied relay log, or an IO thread
  that still runs from another source, it can pass and the node still become errant:
  `SubsetCheckDecides` gives the exact condition for any node, and `WatchExact` shows the watch
  afterwards finds exactly the errant nodes.
- The triggers of a schema change are created one after the other, INSERT, UPDATE, DELETE. A row
  inserted after the first and deleted before the last stays in the shadow. `CopyCorrectExactly`:
  the copy is correct over every interleaving if and only if no such row was left when the last
  trigger was created. The checksum before the swap catches it (`AbortSafety`).
- A trigger is recorded before it is created, the shadow only after (`dbguard/osc/runner.py:537-538`,
  `:561-564`). The cleanup of a run whose CREATE TABLE took effect without being confirmed leaves the
  shadow behind. `CleanupClears`: after any failure no trigger is left, and a shadow only then;
  `osc cleanup` removes it (`SweepClears`).
- A cold start is to act when two consecutive polls agree. A poll that calls for a halt does not reset
  the count (`dbguard/manager/controller.py:224-229`), so that after the operator's resume one more poll
  acts (`HaltDoesNotReset`). `ActsExactly` says exactly when a poll acts; with no halt in between it is
  the second of two consecutive ones (`ConsecutiveChecks`).
- The agent's fallback counter subtracts wrongly when an interval is inverted by more than one
  (`lo > hi + 1`), which its lenient parser lets through, unless the other intervals mask it:
  `CountLeftDecides` is exact for any list, `InvertedMiscounts` gives the input.
- A fence answers 200 without a GTID set when mysqld had to be killed, or when its last queries failed
  (`dbguard/agent/core.py:481-499`). The switchover then waits for the candidate's own relay log only.
  `UnknownFinalDecides`: from that answer on every run keeps the acknowledged writes if and only if the
  candidate's SQL thread has failed, so that the old primary is promoted back, or the candidate has
  executed them all and no session left waiting can have one acknowledged that it has not.

## Model

| member | source | states |
|---|---|---|
| Intervals.Normalize | dbguard/gtid.py:39-49 | refuses exactly the lists with an inverted interval, else returns sorted, disjoint, non-adjacent intervals covering the same integers |
| Intervals.SubtractIv | dbguard/gtid.py:52-71 | over sorted disjoint intervals, the two-pointer loop denotes set difference and its result is in merged form |
| Intervals.IntersectIv | dbguard/gtid.py:74-87 | the two-pointer loop denotes set intersection and its result is in merged form |
| Intervals.CanonicalUnique | dbguard/gtid.py:228-234 | merged form is canonical: two merged lists covering the same integers are equal |
| Intervals.CountIsCardinality | dbguard/gtid.py:161-164 | summing interval lengths of disjoint intervals gives the cardinality of the set |
| GtidSets.Make | dbguard/gtid.py:95-103 | the constructor denotes the union of what it is given, merged and without empty entries, or refuses |
| GtidSets.Union | dbguard/gtid.py:187-191 | denotes union and keeps the stored form |
| GtidSets.Subtract | dbguard/gtid.py:193-200 | denotes difference and keeps the stored form |
| GtidSets.Intersection | dbguard/gtid.py:202-207 | denotes intersection and keeps the stored form |
| GtidSets.IsSubset | dbguard/gtid.py:209-211 | true exactly when every transaction of the one is in the other |
| GtidSets.Contains | dbguard/gtid.py:177-185 | true exactly when the transaction is in the set, the uuid and the tag given in either case |
| GtidSets.CountGtids | dbguard/gtid.py:161-164 | the cardinality of the denoted set, over all keys |
| GtidSets.EqualIffSameGtids | dbguard/gtid.py:228-234 | equal maps if and only if equal sets of transactions |
| GtidCount.IntervalCount | dbguard/agent/gtidcount.py:34-51 | counts exactly the integers of a not in b when the intervals of a are disjoint and every interval of b that is inverted by more than one is masked by the others |
| GtidCount.CountLeftIsCardinality | dbguard/agent/gtidcount.py:34-51 | the piece-splitting count is the cardinality of the difference, for any overlapping or unordered b, inverted intervals that are masked included |
| GtidCount.CountLeftDecides | dbguard/agent/gtidcount.py:34-51 | for any list b the count is right for every a if and only if each interval of b inverted by more than one is masked: an earlier interval cuts between its bounds, or others cover all of it |
| GtidCount.CountLeftExact | dbguard/agent/gtidcount.py:34-51 | for one interval of b the count is right for every a if and only if lo <= hi + 1 |
| GtidCount.InvertedMiscounts | dbguard/agent/gtidcount.py:34-51 | for each interval of b that is not masked, the input on which it counts too much |
| GtidCount.FallbackAgrees | dbguard/agent/gtidcount.py:54-63 | under one server, on merged intervals, the fallback counter and the set difference give the same number |
| GtidCount.SubtractCount | dbguard/agent/gtidcount.py:63 | the sum over the servers of a is the number of transactions of a that b lacks, whenever the intervals of a are disjoint and the badly inverted ones of b masked |
| GtidCount.StoredIsCountable | dbguard/agent/gtidcount.py:54-63 | on the maps GTID sets store that condition holds, so fallback and exact path give the same number |
| GtidText.Parse | dbguard/gtid.py:105-149 | accepts exactly the texts whose parts are well formed, and denotes the union of their intervals |
| GtidText.ParseFields | dbguard/gtid.py:120-148 | the field loop of one part: tags, numbers and ranges, in order, with the same errors |
| GtidText.ToText | dbguard/gtid.py:241-254 | the printer builds the canonical text: keys in order, tags after the untagged intervals |
| GtidText.TextRoundTrip | dbguard/gtid.py:241-254 | for every printable set the printed text means exactly that set, character by character |
| GtidText.ParsePrinted | dbguard/gtid.py:105-149 | parse(str(s)) == s for every set with valid uuids, tags and bounds |
| GtidTextForms.MeaningIgnoresCase | dbguard/gtid.py:105-149 | lower-casing the text changes nothing it means |
| GtidTextForms.MeaningIgnoresPartOrder | dbguard/gtid.py:118-120 | any permutation of the parts means the same set |
| GtidTextForms.MeaningIgnoresIntervalOrder | dbguard/gtid.py:126-148 | reordering or repeating the intervals under one tag, wherever it stands in the part, is refused alike or means the same set |
| GtidTextForms.BlockIgnoresOrder | dbguard/gtid.py:126-148 | for any uuid and tag, numeric fields with the same elements are refused alike or mean the same set |
| GtidTextForms.BlockIgnoresPermutation | dbguard/gtid.py:126-148 | in particular a permutation of the intervals of a block means the same set |
| GtidTextForms.MeaningIgnoresPartSplit | dbguard/gtid.py:118-148 | cutting a part between two of its intervals, under any tag, into two parts: accepted if and only if both are, and then the same set |
| GtidTextForms.MeaningOfComma | dbguard/gtid.py:118-120 | a comma joins the meanings of both sides as a union |
| GtidTextForms.NormUuidIdempotent | dbguard/gtid.py:30-36 | a normalised uuid normalises to itself |
| GtidTextForms.Reparse | dbguard/gtid.py:241-254 | whatever text was accepted, printing and parsing again gives the same set |
| GtidGrammar.MeaningIgnoresWhitespace | dbguard/gtid.py:114-119 | a space, tab, newline or carriage return put in anywhere changes nothing a text means |
| GtidGrammar.MeaningOfTwoLines | dbguard/gtid.py:114-119 | a set printed over two lines means what it means on one: the union of both lines |
| GtidGrammar.AcceptedCharacters | dbguard/gtid.py:105-149 | an accepted text holds letters, digits, underscore, plus, dash, colon, comma and whitespace, and nothing else |
| GtidGrammar.UuidForms | dbguard/gtid.py:19-36 | a uuid is 32 hexadecimal digits grouped 8-4-4-4-12, each dash there or not, and nothing else; without any dash it is given all four |
| GtidGrammar.IntervalForms | dbguard/gtid.py:129-137 | of two numbers written a-b exactly those with 1 <= a <= b <= 2^63 - 1 are accepted, and they name a to b |
| GtidGrammar.NumberForms | dbguard/gtid.py:129-135 | a number is digits with single underscores between them, one more digit multiplying by ten |
| GtidGrammar.SignedBounds | dbguard/gtid.py:129-135 | a plus in front of the upper bound changes nothing, a minus is refused |
| GtidGrammar.TagForms | dbguard/gtid.py:140-143 | a tag is 1 to 32 letters, digits and underscores, not beginning with a digit; it holds for the intervals after it |
| Text.IncreasingUnique | dbguard/gtid.py:241-254 | a sorted list without repetitions is determined by its elements, so the printed order is the only one |
| Selection.Choose | dbguard/manager/selection.py:65-121 | the loops compute the specified choice: candidates, exclusions, best by key, divergences, leads |
| Selection.Compare | dbguard/manager/selection.py:106-117 | the loop over the losers finds every divergence with both counts and every lead |
| Selection.ChooseExact | dbguard/manager/selection.py:98-121 | there is a winner if and only if some candidate holds everything every candidate holds, and the winner is one |
| Selection.HaltMeansIncomparable | dbguard/manager/selection.py:106-119 | when candidates exist and none wins, two of them each hold what the other lacks |
| Selection.ChainIsChosen | dbguard/manager/selection.py:98-121 | candidates that form a chain always have a winner |
| Ranking.WinnerIsFirst | dbguard/manager/selection.py:98-102 | the winner comes first by what it holds, executed or received, then by what it executed, then by node order, and holds all any candidate holds |
| Ranking.DivergenceCounts | dbguard/manager/selection.py:106-114 | reported are exactly the candidates that hold what the first one lacks, with how much and how much the reverse; the first count is never the larger |
| Ranking.LeadCounts | dbguard/manager/selection.py:106-121 | the lead over each other candidate is the difference of what the two hold, and nobody else has an entry |
| Ranking.EachIsAccounted | dbguard/manager/selection.py:42-83 | each member but the former primary is either a candidate or excluded, with the first reason that applies |
| CatchUp.WaitCaughtUp | dbguard/manager/failover.py:66-105 | ends caught up exactly at the first poll that says so; then the target is applied and disjoint from what is left unapplied |
| CatchUp.CaughtUpHoldsTarget | dbguard/manager/failover.py:84-100 | both exits that say yes, the torn-tail one included, hold all of the target |
| CatchUp.JudgeMeans | dbguard/manager/failover.py:80-103 | an unusable status ends nothing, an SQL error ends the wait in a halt, and it ends well exactly when the target is applied and the relay log is, or the IO thread does not run and the SQL thread has read all of it |
| CatchUp.CatchUpToFinal | dbguard/manager/switchover.py:189-215 | accepted exactly when the final set is applied and, where the errant check is answered, nothing more |
| FakeFleet.FakeFleet.Step | dbguard/manager/fake.py:154-214 | in node order every writable node commits its next transaction, then every connected replica takes all its source has, then every SQL thread applies its budget; together a run of the environment actions |
| FakeFleet.FakeFleet.CommitOn | dbguard/manager/fake.py:162-185 | commits exactly when the node is writable and semi-sync has a connected replica: the next number of its server, acknowledged at once only without semi-sync |
| FakeFleet.FakeFleet.ReceiveOn | dbguard/manager/fake.py:186-195 | a connected replica takes everything its source has that it lacks, no other does; the waiting sessions it releases are acknowledged |
| FakeFleet.FakeFleet.ApplyOn | dbguard/manager/fake.py:196-214 | a running SQL thread applies what is not torn, as much of it as the budget allows |
| FakeFleet.FakeFleet.Fence | dbguard/manager/fake.py:291-305 | exactly one node changes: flagged, read-only, sessions gone, a stopped mysqld restarted |
| FakeFleet.FakeFleet.Promote | dbguard/manager/fake.py:311-323 | exactly one node changes, and only if it answers |
| FakeFleet.FakeFleet.Repoint | dbguard/manager/fake.py:334-348 | exactly one node changes, relay log purged, and only if it answers |
| FakeFleet.FakeFleet.Rebuild | dbguard/manager/fake.py:350-368 | exactly one node changes: the data of the donor, unreplicated and read-only |
| FakeFleet.FakeFleet.Start | dbguard/manager/fake.py:132-140 | a restart boots read-only and discards the relay log |
| FakeFleet.FakeFleet.StopIo | dbguard/manager/fake.py:455-462 | stops the IO thread of a node that answers |
| FakeFleet.FakeFleet.Partition | dbguard/manager/fake.py:113-115 | cuts one link and changes nothing else |
| FakeFleet.FakeFleet.HealAll | dbguard/manager/fake.py:117-120 | removes every cut and changes nothing else |
| FleetLaws.CutStopsBoth | dbguard/manager/fake.py:113-124 | a cut stops both directions until the links heal |
| FleetLaws.ReceiptAcknowledges | dbguard/manager/fake.py:186-195 | what is received is held, and a write waiting on the source is acknowledged exactly if both sides run semi-sync |
| FleetLaws.TornNeverApplies | dbguard/manager/fake.py:196-214 | a torn transaction shows as received and is never applied, the rest of the relay log is |
| FailoverSafety.EnvAcksOnlyWinner | dbguard/manager/fake.py:186-195 | once the former primary is silenced, a new acknowledgement can only release a session waiting on the winner |
| FailoverSafety.SettledStep | dbguard/manager/failover.py:140-317 | every step of the manager, the fence or the fleet after the choice keeps the invariant |
| FailoverSafety.LosslessFromChoice | dbguard/manager/failover.py:241-317 | from the choice on, a confirmed promote ends with a winner that executed every acknowledged write |
| FailoverSafety.OneAcknowledgingNode | dbguard/manager/failover.py:210-239 | from any state past the choice with the former primary silenced, at every later step of every run only the winner can have a commit acknowledged |
| FailoverSafety.PromoteAfterFence | dbguard/manager/failover.py:289-306 | over any run, promote is reached only after the fence task returned |
| FailoverLossless.ChoiceSettles | dbguard/manager/failover.py:241-258 | the winner of the choice holds every acknowledged write |
| FailoverLossless.InvStep | dbguard/manager/failover.py:140-317 | the whole-protocol invariant is inductive over every interleaving |
| FailoverLossless.LosslessFailover | dbguard/manager/failover.py:140-317 | from any set where only the former primary takes writes, behind semi-sync, every careful interleaving confirms no promote or ends with a winner that executed every acknowledged write |
| FailoverLossless.OnlyWinnerAcknowledges | dbguard/manager/failover.py:210-239 | over every run that chooses with the former primary silenced, a new acknowledgement past the choice is always on the winner |
| FailoverLossless.LosslessFromSetUp | dbguard/manager/fake.py:100-111 | the same from an empty set, whatever workload, restarts and faults came before |
| FailoverProtection.ProceedSilences | dbguard/manager/failover.py:210-231 | when the views are about to be read, the former primary is silenced if its fence left no session or every STOP succeeded on a list that covers its replicas |
| FailoverProtection.KilledIsPassive | dbguard/agent/core.py:466-490 | a fence that killed the sessions leaves the former primary passive until the choice, whatever happens meanwhile |
| FailoverProtection.AllCandidatesProtect | dbguard/manager/failover.py:241-258 | with every acknowledged write on some member, members that do not restart and all answer as candidates make both conditions of the choice hold |
| FailoverProtection.AcksAreHeld | dbguard/manager/fake.py:186-195 | semi-sync keeps every acknowledged write on some member other than the primary, until a member restarts |
| FailoverLimits.TornTailExact | dbguard/manager/failover.py:92-100 | the torn-tail exit loses nothing exactly when the unapplied transactions are unacknowledged |
| FailoverLimits.ChoiceDecides | dbguard/manager/failover.py:210-274 | at the choice: no allowed schedule loses an acknowledged write if and only if the catch-up cannot finish, or the winner is sure to execute every acknowledged write and no replica of the former primary can have one more acknowledged that it is not |
| FailoverLimits.LosingRun | dbguard/manager/failover.py:222-231 | constructs the losing schedule from every state that fails the condition |
| FailoverLimits.RestartDecides | dbguard/manager/fake.py:132-140 | when the winner may restart before it caught up, every schedule is lossless if and only if its SQL thread failed or it already executed every acknowledged write |
| FailoverLimits.ProtectionDecides | dbguard/manager/failover.py:241-258 | with the former primary silenced and the view of the winner current, every fair schedule is lossless if and only if every acknowledged write shows in some candidate |
| FailoverChain.FedByOneStep | dbguard/manager/fake.py:186-195 | each step keeps every replica of one primary, and every usable view of one, on a set that primary had executed at some earlier time |
| FailoverChain.MembersHoldSnapshots | dbguard/manager/fake.py:186-195 | from an empty set, over every run on which replicas receive whole and none restarts, what a member holds or showed is the executed set of the primary at some state of that run |
| FailoverChain.NoSpuriousHalt | dbguard/manager/selection.py:98-121 | on such runs, with any candidate, the choice finds a winner |
| FailoverErrant.FailoverAttachesNoErrant | dbguard/manager/failover.py:276-287 | with every target a candidate that can bring no more than its view showed, all followers of the winner stay within what it executed |
| FailoverErrant.ExcludedTargetErrs | dbguard/manager/failover.py:283-284 | the schedule that attaches errant a member that can come to execute more than the winner is sure to |
| FailoverErrant.SubsetDecides | dbguard/manager/failover.py:276-287 | no schedule attaches an errant node if and only if the catch-up cannot finish, or whatever an addressed member can come to execute, its relay log and its sources counted, the winner is sure to execute |
| FailoverJobs.OrderlyMove | dbguard/manager/rejoin.py:343-400 | each step of a failover, of the fleet and of the clones and rejoins under way keeps what can still be attached to the winner within what the winner is sure to execute |
| FailoverJobLimits.JointDecides | dbguard/manager/rejoin.py:386-400 | with clones and rejoins under way at the choice, no schedule attaches an errant node to the winner if and only if the catch-up cannot finish or the winner is sure to execute all that repoint targets, donors, landed clones and, through a node joined to it meanwhile, the former primary can bring |
| FailoverJobLimits.CloneDecides | dbguard/manager/rejoin.py:386-400 | one clone under way is attached clean over every schedule if and only if its donor is the winner or can come to execute only what the winner is sure to |
| FailoverJobLimits.RejoinDecides | dbguard/manager/rejoin.py:162-190 | one rejoin under way to the former primary it read harms the winner if and only if the failover repoints that node too and the former primary can bring what the winner is not sure to execute |
| FailoverHandover.HandOver | dbguard/manager/failover.py:276-317 | a failover over candidates that promotes its winner, clones and rejoins still under way, leaves a set the rejoin theorems apply to |
| FailoverHandover.NoErrantAcrossFailover | dbguard/manager/failover.py:140-317 | rejoins, a failover interleaved with clones and rejoins under way, rejoins under the new primary: after each part every replica of the new primary has executed only what it has, and of the old primary too when no job was under way |
| FailoverCalls.PolledIsJudged | dbguard/manager/failover.py:78-105 | the step of the transition system does with a status what the polling loop does, and asks for the state of the SQL thread exactly when the answer could end the wait |
| FailoverCalls.SmoothGoes | dbguard/manager/failover.py:140-317 | on a ready set with every call taken and confirmed each status ends the wait with a yes and every promote is confirmed |
| FailoverCalls.FenceLandsWhenever | dbguard/manager/failover.py:203-239 | the fence of a failover that has begun may land at any time, and only then can its task return an answer |
| FailoverCalls.CallsReach | dbguard/manager/failover.py:276-287 | calls reach nodes that are up; the repoints go to every member but the winner that was found usable |
| Fleet.WritesGoOn | dbguard/manager/fake.py:162-195 | a primary left so takes a write, and the first follower that receives it has it acknowledged |
| FailoverRun.FailoverRun.RunAll | dbguard/manager/failover.py:140-160 | its calls in order: fence begun, stops, looks, choice, statuses of the winner, repoints, promote; promoted exactly when a winner was chosen, its last status ended the wait with a yes and the promote was confirmed; a ready set whose calls all go through is promoted after one status, every other member following the winner; a run of the transition system, so the lossless theorem applies |
| FailoverRun.FailoverRun.FenceAndStopIo | dbguard/manager/failover.py:210-231 | starts the fence, then calls STOP once on each listed member and on no other; if one failed, goes on only with the fence finished |
| FailoverRun.FailoverRun.ChooseWinner | dbguard/manager/failover.py:241-258 | reads every other member exactly once, then goes on with the choice of their views, or halts if that has no winner; a halt waits for the fence |
| FailoverRun.FailoverRun.CatchUp | dbguard/manager/failover.py:260-274 | reads at least one status and no more than fit, stops at the first that ends the wait, goes on exactly if that one says caught up; gives up only after all of them; a halt waits for the fence |
| FailoverRun.FailoverRun.RepointAll | dbguard/manager/failover.py:276-287 | sends exactly one repoint to each target and none to any other node |
| FailoverRun.FailoverRun.PromoteWinner | dbguard/manager/failover.py:289-317 | joins the finished fence, then sends one promote; promoted exactly when the call was taken and confirmed |
| Errant.CleanEnv | dbguard/manager/rejoin.py:243-247 | every follower within its primary is inductive over every step of the fleet |
| Errant.ExcessRun | dbguard/manager/rejoin.py:151-204 | a transaction the primary lacks and another node executed never reaches that primary |
| Errant.AttachDecides | dbguard/manager/rejoin.py:183-195 | a repoint decides for good whether the node is within its primary |
| Errant.SubsetCheckExact | dbguard/manager/rejoin.py:171-204 | for every interleaving a repointed node is clean if and only if its stable read passes the check and the primary holds what the node executed since; nothing, for a quiet node with its relay log applied |
| Supply.SubsetCheckDecides | dbguard/manager/rejoin.py:171-204 | of any node, over all schedules: the check is right if and only if it fails anyway, or whatever the node can still come to execute, out of its relay log or from its sources, is in the primary |
| Supply.QuietCheckDecides | dbguard/manager/rejoin.py:171-204 | of a node that receives nothing: if and only if its relay log adds nothing the primary lacks |
| Supply.ContainedEnv | dbguard/manager/rejoin.py:171-204 | what a node can come to execute other than through the primary grows by no step of the fleet |
| Rejoin.Quiesce | dbguard/manager/rejoin.py:116-148 | settles exactly at the first two adjacent calm reads with equal sets |
| Rejoin.SettledIsQuiet | dbguard/manager/rejoin.py:116-148 | whatever the fleet does around the reads, a node found settled is up, no session of it waits, and if it is read-only none ever waits again |
| Rejoin.VerifyAfterRepoint | dbguard/manager/rejoin.py:243-266 | flags exactly at the second errant read in a row while the primary has not moved |
| Rejoin.WatchExact | dbguard/manager/rejoin.py:243-266 | the watch flags a node, whatever moves around its reads, if and only if it was attached errant and two rounds found both usable |
| Maintenance.SaneStep | dbguard/manager/rejoin.py:151-204 | fence, reads, repoint, clone and repoint after it each keep every follower within the primary |
| Maintenance.NoErrantTransactions | dbguard/manager/rejoin.py:151-204 | no errant transaction over any interleaving of rejoins, rebuilds and fleet steps under one primary |
| Maintenance.SaneClone | dbguard/manager/rejoin.py:343-400 | a clone from the primary, one of its followers or a donor it contains leaves a node that can be attached |
| MaintenanceEnds.CheckDecides | dbguard/manager/rejoin.py:171-186 | read after the node, the primary decides: a repoint exactly if it has executed all the node has, no earlier answer counting |
| MaintenanceEnds.RepointEnds | dbguard/manager/rejoin.py:183-195 | a repoint that was taken leaves the node following the primary with what it had executed |
| MaintenanceEnds.RebuildEnds | dbguard/manager/rejoin.py:343-400 | a rebuild that goes through leaves the node with the data of the donor, following the primary; one whose clone failed changes nothing |
| Switchover.InvStep | dbguard/manager/switchover.py:124-215 | one writer, and every write that is or can still be acknowledged kept, inductive over every step |
| Switchover.SwitchoverKeepsAcked | dbguard/manager/switchover.py:124-186 | wherever the run stops, the node that takes writes has executed every acknowledged write and nobody else takes writes |
| Switchover.PromotedHoldsFinal | dbguard/manager/switchover.py:189-215 | the candidate is promoted only holding all of the final set, on the waiter, polling and torn-tail paths |
| Switchover.AcceptedExactly | dbguard/manager/switchover.py:200-214 | when the errant check is answered, the accepted candidate holds exactly the final set |
| Switchover.UnknownFinalDecides | dbguard/manager/switchover.py:134-138 | a fence answer without the set: every run keeps the acknowledged writes if and only if the SQL thread of the candidate failed, or it already executed them all and no session left waiting can add one it has not |
| SwitchoverEnds.OneOutcome | dbguard/manager/switchover.py:124-186 | a run promotes the candidate or the old primary back, never both and never twice, and each outcome has its call |
| SwitchoverEnds.PromoteEnds | dbguard/manager/switchover.py:164-171 | a confirmed promote leaves the candidate writable behind semi-sync, an unconfirmed one halts |
| SwitchoverEnds.PromoteBackEnds | dbguard/manager/switchover.py:141-151 | the same of the old primary, promoted back |
| SwitchoverEnds.PollLeads | dbguard/manager/switchover.py:189-215 | a poll of the candidate does what the polling loop does with the status, the final set its target |
| SwitchoverEnds.WaiterLeads | dbguard/manager/switchover.py:194-206 | the waiter: done with exactly the set leads on, done with more or late leads back, broken leads to polling |
| SwitchoverEnds.SmoothSwitch | dbguard/manager/switchover.py:124-186 | with every call going through the candidate is found to hold exactly the set of the fenced primary and is promoted |
| ColdStart.ColdStartChoice | dbguard/manager/bootstrap.py:81-121 | promotes a read-only unfenced node holding all any reachable member holds, the believed primary first, else the first in order; halts exactly when nobody does |
| ColdStart.PickFull | dbguard/manager/bootstrap.py:114-117 | finds a qualifying member exactly when there is one, the first in member order |
| ColdStart.KeepersAgree | dbguard/manager/bootstrap.py:108-117 | all qualifying nodes hold the same set |
| InPlace.OneWriterInPlace | dbguard/manager/bootstrap.py:81-121 | after the promotion exactly that node takes writes among those that answered, fenced ones apart, and it has executed whatever one of them has executed or received |
| InPlace.RestartMeans | dbguard/manager/bootstrap.py:81-104 | of the fleet the views were read from: when the whole set counts as restarted |
| Detector.Evaluate | dbguard/manager/detector.py:112-204 | DEAD exactly when a suffix at least a window old was lost throughout with enough failed probes; SUSPECT and REPLICAS_ONLY exactly; and the streak, votes, witnesses and both durations it reports |
| Detector.VotesAt | dbguard/manager/detector.py:147-159 | counts the witnesses and the voters among them |
| Detector.ScanProbe | dbguard/manager/detector.py:127-138 | finds where the newest run of failed probes begins |
| Detector.ScanQuorum | dbguard/manager/detector.py:167-176 | finds where the newest run of strict witness majorities begins |
| Detector.TwoRuns | dbguard/manager/detector.py:195-199 | two unbroken runs are both a window old exactly when their common part is |
| Evidence.VoteMeans | dbguard/manager/detector.py:61-98 | a replica not of this primary never votes, one that lost its connection does, a connected one exactly when its row was written more than one and at most ten windows ago, apply lag not counted |
| Evidence.HungIsDead | dbguard/manager/detector.py:112-204 | a hung primary, its connections standing and its heartbeats stale, is declared dead after a window and enough probes |
| Evidence.LaggingIsNotDead | dbguard/manager/detector.py:84-97 | replicas that lag and rows left from before a restart never make a primary dead |
| Evidence.HalfIsNotDead | dbguard/manager/detector.py:145-165 | failed probes alone, without a strict majority of witnesses, make nobody dead |
| History.KeptStep | dbguard/manager/controller.py:161-163 | pruning at every poll keeps exactly what pruning the whole log at the end would |
| History.PruningKeepsVerdict | dbguard/manager/controller.py:155-166 | DEAD on the kept history if and only if DEAD on the whole log with enough polls kept, one a full window old |
| Controller.SetController.Poll | dbguard/manager/controller.py:155-166 | the history is the pruned log of everything since the primary was adopted |
| Controller.SetController.Tick | dbguard/manager/controller.py:168-215 | one decision, exact in every case: halted, locked, cold start, dead in and out of cooldown, suspect, stalled, reconcile; a failover starts only for a dead primary and exactly when the evidence is kept |
| Controller.SetController.ColdStartCheck | dbguard/manager/controller.py:217-235 | the count of polls seen and the decision, exact in every case; acts only on a node that keeps everything |
| Controller.ActsExactly | dbguard/manager/controller.py:217-235 | over any sequence of checks: one acts exactly when it found a keeper, and so did, without acting, the last check before it that called for no halt |
| Controller.ConsecutiveChecks | dbguard/manager/controller.py:217-235 | without a halt in between these are two consecutive checks, and the second of a pair that starts from a reset count acts |
| Controller.HaltDoesNotReset | dbguard/manager/controller.py:224-233 | the sequence keeper, halt, keeper acts at its third check |
| Controller.RegularPollsKeepEvidence | dbguard/manager/controller.py:160-164 | polls at most two windows apart, the newest probe_failures of them within three windows or ten seconds, keep the evidence of every death |
| Controller.SetController.RecordFailover | dbguard/manager/failover.py:319-327 | counts the failover, starts the cooldown, leaves the set degraded under the winner |
| Controller.SetController.SetPrimary | dbguard/manager/controller.py:114-119 | adopting a primary drops the history |
| Controller.SetState.To | dbguard/manager/state.py:59-85 | HALTED is left by no move and HEALTHY entered only with a primary |
| Controller.SetState.Resume | dbguard/manager/state.py:91-107 | the one way out of HALTED |
| Controller.HaltedIsSticky | dbguard/manager/state.py:59-107 | over any sequence of calls |
| SelfFence.Lease.Run | dbguard/agent/core.py:1086-1142 | one lease check: outcome and count |
| SelfFence.FencesExactly | dbguard/agent/core.py:1086-1142 | a tick fences if and only if mysqld confirms it and the node has been cut off at every tick since one begun at least the bound ago |
| SelfFence.WholeBoundCutOff | dbguard/agent/core.py:1086-1142 | every tick of the preceding bound found the manager unreachable and none saw read-only or a semi-sync client |
| AgentRoles.WritableOnlySemisync | dbguard/agent/core.py:601-683 | over any requests cut off anywhere, fences, kills, boots and agent restarts, super_read_only off implies the semi-sync source side on |
| AgentRoles.FlagSurvives | dbguard/agent/core.py:619-644 | a fence flag survives unless a promote passed its writable statement |
| AgentRoles.CompletePromote | dbguard/agent/core.py:619-652 | an undisturbed promote ends writable behind semi-sync, unflagged, replicating from nobody |
| AgentRoles.CompleteRepoint | dbguard/agent/core.py:647-683 | an undisturbed repoint ends read-only, semi-sync replica, replicating from its source, the fence flag as it was |
| AgentRoles.FenceLeavesReadOnly | dbguard/agent/core.py:466-499 | a fence leaves the node flagged and read-only, whatever the request it interrupts had done |
| AgentRoles.InterruptedSendsNothing | dbguard/agent/core.py:601-613 | a request cut off, or whose agent restarted, sends nothing more; once mysqld was killed nothing of it takes effect but the flag |
| AgentRoles.RoleChanger.Change | dbguard/agent/core.py:601-683 | the statements that landed are a prefix, success means all of them, writes stay behind semi-sync, and where a promote or a repoint that succeeded leaves the node |
| Keys.BoundFor | dbguard/osc/chunks.py:13-36 | the expanded column-by-column predicate equals lexicographic > or <= for every arity, with exactly bound_arg_count(k) arguments |
| Keys.RangePredicate | dbguard/osc/chunks.py:39-47 | the joined predicate selects exactly lo < key <= hi, arguments in placeholder order |
| Keys.ArgCount | dbguard/osc/chunks.py:22-29 | the OR-terms of an expanded bound hold k(k+1)/2 placeholders and arguments; bound_arg_count, the leading argument included, is in BoundFor |
| Keys.ChunkRanges | dbguard/osc/chunks.py:108-117 | the loop builds the ranges between consecutive boundaries |
| Keys.RangesPartition | dbguard/osc/chunks.py:108-117 | for non-decreasing boundaries, repeated ones included, every key lies in exactly one range |
| OscCopy.WriteMirrored | dbguard/osc/runner.py:190-209 | with its trigger in place a write makes nothing worse at any key |
| OscCopy.CopyFills | dbguard/osc/chunks.py:77-88 | a chunk copy fills exactly what is missing in its range |
| OscCopy.PartsAgree | dbguard/osc/runner.py:678-701 | equal parts of a range are agreement at each of its keys, so equal tables never mismatch |
| OscSafety.InvStep | dbguard/osc/runner.py:545-777 | every statement of run, cleanup and osc cleanup, and every write, keeps the invariant |
| OscSafety.AbortSafety | dbguard/osc/runner.py:703-802 | in every reachable state the live table holds exactly the acknowledged writes and no trigger of it lacks its shadow |
| OscSafety.SwapOnlyWhenEqual | dbguard/osc/runner.py:581-598 | the swap is reached only with the shadow equal to the source |
| OscSafety.WritesAccepted | dbguard/osc/runner.py:190-209 | no write of the application ever fails on a trigger |
| OscSafety.CopyLeavesOnlyStale | dbguard/osc/runner.py:615-668 | when the copy loop ends the tables are equal exactly when no stale row is left |
| OscSafety.CopyCorrectExactly | dbguard/osc/runner.py:561-571 | the copy is correct over every interleaving if and only if no stale row was there when the last trigger was created |
| OscSafety.TriggerWindow | dbguard/osc/runner.py:561-564 | the run between two trigger creations that leaves a stale row |
| OscEnds.UndisturbedEnds | dbguard/osc/runner.py:545-613 | a change whose statements all go through, whatever is written meanwhile, ends without trigger and shadow, swapped unless a checksum differed; and with no stale row at the last trigger always swapped |
| OscEnds.Nearer | dbguard/osc/runner.py:545-668 | every statement that goes through brings the change nearer to its end, the chunks of the copy included |
| OscEnds.TheRest | dbguard/osc/runner.py:545-613 | from any point of such a change the remaining statements end it |
| OscEnds.CleanupClears | dbguard/osc/runner.py:742-777 | after any failure, a cleanup that goes through takes one statement per trigger recorded and one more, and leaves no trigger; a shadow only if its creation was never confirmed |
| OscEnds.SweepClears | dbguard/osc/runner.py:780-802 | osc cleanup that got to the shadow has left no trigger and no shadow, one that got to the old table nothing of the change |
| OscEnds.ChecksumCoversCopy | dbguard/osc/runner.py:581-598 | the checksum runs over the chunks copied, one range each, and over what lies beyond: every key exactly once |
| OscEnds.OrphanTriggerRefuses | dbguard/osc/runner.py:742-745 | a write that fires a trigger whose shadow is gone fails, and no other applicable write does |
| OscLoop.Copier.Copy | dbguard/osc/runner.py:615-668 | the copy loop terminates over finitely many keys; then nothing is missing and, with no stale row before, the tables are equal |
| OscLoop.Boundary | dbguard/osc/chunks.py:56-63 | the chunk-th key after lo up to the largest, or none when fewer are left |
| OscLoop.MaxKey | dbguard/osc/chunks.py:66-69 | the largest key, none exactly for an empty table |
| OscLoop.ChunkSizer.Update | dbguard/osc/chunks.py:130-137 | a short chunk changes nothing, a full one moves the size into its bounds |
| OscLoop.ResizedMeans | dbguard/osc/chunks.py:130-137 | within the bounds: a fast chunk doubles the size, a slow one halves it, any other leads to the largest size that at its speed stays within the target |
| SqlSplit.SplitTopLevel | dbguard/osc/sqlutil.py:44-80 | the loop returns the pieces between top-level commas, stripped, without empty ones |
| SqlSplit.PiecesJoin | dbguard/osc/sqlutil.py:44-80 | the pieces joined by commas are the text |
| SqlSplit.PiecesWhole | dbguard/osc/sqlutil.py:44-80 | no piece holds a top-level comma and all but the last are balanced |
| SqlSplit.PiecesUnique | dbguard/osc/sqlutil.py:44-80 | there is no other way to cut the text so |
| SqlSplit.SplitUndoesJoin | dbguard/osc/sqlutil.py:44-80 | splitting any comma join of clauses, blank padding allowed, returns the clauses |
| SqlSplit.IdentQuoted | dbguard/osc/sqlutil.py:19-21 | reading a quoted identifier back gives the name, whatever it contains |
| SqlSplit.QuotedIsClause | dbguard/osc/sqlutil.py:19-21 | a quoted identifier is never cut |
| SqlClauses.SplitsAtOwnCommas | dbguard/osc/sqlutil.py:44-80 | a text written from characters, quoted strings and groups nested to any depth is cut at exactly the commas outside all of them |
| SqlClauses.SplitItems | dbguard/osc/sqlutil.py:44-80 | and split_top_level returns those clauses, stripped, without empty ones |
| SqlClauses.ParenthesesKeep | dbguard/osc/sqlutil.py:65-71 | a comma inside parentheses does not cut |
| SqlClauses.QuotesKeep | dbguard/osc/sqlutil.py:51-64 | nor one inside quotes, where neither a doubled quote nor an escaped one ends the string |
| SqlClauses.OwnCommaCuts | dbguard/osc/sqlutil.py:71-73 | a comma outside of all does cut |
| SqlClauses.CutsAtDepthZero | dbguard/osc/sqlutil.py:65-73 | without quotes, balanced or not: a comma cuts exactly where as many parentheses were closed as opened |

## Left out

- Naive and Orchestrator modes, HTTP, TLS, Docker, metrics, the CLI, the chaos harness and the
  reports: unsafe baselines and plumbing.
- Acknowledgement accounting of the simulation: dbguard/manager/fake.py:193-194 counts every
  transaction a semi-sync replica receives as acknowledged, also after the fence killed its session.
  The model counts those whose session still waits, which is what the guarantee is about; the set
  `waiting` of a node is that refinement.
- `FakeNode.pending`, `hide_waiting`, delays and failure injection: staging for the repository's own
  tests. A session that commits on a node that is read-only already is not modelled.
- FakeFleet.FakeFleet.Step: keeps the transaction counters by server uuid in the fleet instead of in each node.
- Switchover.Run: the switchover is a transition system on values, its polling and final check are
  methods (CatchUp); the object that fills `steps` and `notes` is not modelled.
- FailoverRun.FailoverRun.RunAll: a question for the state of the SQL thread that is not answered with yes
  leaves no step in the run.
- Controller.SetController.Tick: whether a stalled primary is alive is a parameter; discovery and reconcile
  are named in its decision, not modelled in it.
- AgentRoles.RoleChanger.Change: a repoint without a source, or to the node itself, is refused before any
  statement and not modelled.
- OscRun.Run: the whole schema change is a transition system on values; its copy loop is a class
  (OscLoop), the other phases are not methods.
- AgentRoles.WritableOnlySemisync: a statement abandoned by its client takes effect at once or never,
  not later; `configure`, `rebuild` and `unfence` change writability or the flag on purpose.
- OscSafety.AbortSafety: no UNIQUE index is added and no column changes its type; with
  `byCheck` a matching checksum is no CRC32 collision, without it no stale row is left by the trigger
  window. A RENAME or CREATE TRIGGER its client gave up on takes effect before the cleanup starts or never,
  and `osc cleanup` sweeps only when no run is alive.
- FailoverJobLimits.JointDecides: the jobs are fixed beforehand, each clone with its donor: a rejoin that turns
  into a clone during the failover counts as that clone. The watch after a rejoin's repoint is not part of it
  (WatchExact).
- FailoverHandover.NoErrantAcrossFailover: rejoins and rebuilds begun under the new primary start once it is
  promoted and are not interleaved with joins to the old primary still outstanding. Of the old primary's
  replicas it promises nothing after a failover with jobs under way.
- GtidCount.SubtractCount: takes the two parsed texts; the lenient parser itself is not modelled.
- GtidTextForms.MeaningIgnoresPartSplit: each half names an interval, since `parse` refuses a part that
  names none.
- GtidText.Parse: ASCII only; other Unicode whitespace and digits are not modelled.
- Keys.BoundFor: column values are integers, standing for any totally ordered type without NULL.
- Detector.Evaluate: the `now` argument only tests pass, and the trigger label, are not modelled.
- OscLoop.ChunkSizer.Update: real numbers instead of floating point.
- SelfFence.FencesExactly: times are whole milliseconds, the precision the agent rounds to.
- `discover`, `bootstrap`, `rejoin_actions`, donor choice among replicas, replacement of members:
  decisions that read off their inputs.
- `parse_alter`, `instant_verdict`, preflight and `validate_shadow`: branch-by-branch readings.
- Events, notes, durations and log lines; deadlines are a number of polls.
