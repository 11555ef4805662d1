# Unbounded proofs for the mesh core

The Rust core of the mesh (`crates/meta-mesh-core`) is a deterministic protocol engine: hosts do the
input and output, the core decides. This project models its deciding parts in Dafny and proves what
they promise for every input, every run and every reachable state.

`dafny verify dfyconfig.toml` checks the whole project.

| file | what it models |
|---|---|
| `Basics.dfy` | results, roles, orders, a stable sort, finite-set facts |
| `CausalAdmission.dfy`, `CausalOrder.dfy`, `AdmissionPlan.dfy` | admission of a graph of changes: the fixpoint, the layered topological sort, quarantine, cascade and the shortcut |
| `CausalRoles.dfy` | which role a change gets from the signed records that cover it |
| `Automation.dfy`, `AutomationExact.dfy`, `AutomationRanks.dfy`, `AutomationAssignments.dfy`, `AutomationSample.dfy` | what an automation grant may do to a board, one card or several; which one-card steps are allowed, read from the board alone; how rank changes are shared among the cards, against every other way of sharing them; and a board on which the two differ |
| `Coownership.dfy`, `CoownershipWalk.dfy`, `CoownershipMerge.dfy`, `CoownershipReplicas.dfy`, `CoownershipSample.dfy` | the shared-owner ledger: its validator, the authority walk, planning, the merge, replicas that receive ledgers in different orders, and ledgers at the limits on which they diverge |
| `Succession.dfy`, `OwnershipChain.dfy`, `WriteAuthorization.dfy` | owner succession by vote, the ownership chain, and revocation boundaries on signed writes |
| `Coverage.dfy`, `Base64Url.dfy`, `ArchiveIndex.dfy` | the archive coverage tree built in a stream, the text of its digests, and the authenticated archive index |
| `Delivery.dfy`, `DeliveryLog.dfy`, `DeliveryRounds.dfy`, `SyncEngine.dfy` | batch delivery with fallback and retry, what it asks of its host, how often one report is heard, and the sync engine's optimistic receive |
| `CanonicalJson.dfy`, `JsonReader.dfy`, `SignatureCache.dfy` | canonical JSON with a reader that undoes it, signature inputs and the cache of verified signatures |

How the source is represented:

- Code that updates fields or walks a worklist is a `method` or a `class`, proved against a
  specification function or predicate; code made of expressions is a function.
- Signatures, certificate chains, clocks, byte sizes and the Automerge library are parameters:
  function-typed fields of an environment value, or verdicts carried by the data. Nothing is assumed
  of them except where a lemma says so in its `requires`.
- A hash is injective. A certificate hash of the ledger is the payload it hashes, so references
  cannot form a cycle. A set digest and a cached digest are their preimages. The order of encoded
  hashes and of archive keys is a parameter that must be a strict total order.
- A document is the set of changes it holds.
- Fixed-width counters (revisions, rounds, epochs, counts) are written out where they can saturate or
  overflow.

Where a property is false of the code, there is an input on which it fails and the exact condition
under which it holds:

| property | fails on | holds exactly when |
|---|---|---|
| an answer or a timer of an earlier round is ignored | `DeliveryRounds.SaturatedAnswerHeard` | `Delivery.StaleResultIgnored`, `Delivery.StaleTimerIgnored` |
| one answer is heard once | `DeliveryRounds.SaturatedAnswerRepeats` | `DeliveryRounds.AnswerHeardOnceExactly` |
| one fallback report is heard once | `Delivery.RepeatedFallbackHeard`, `DeliveryRounds.SaturatedFallbackHeard` | `DeliveryRounds.FallbackHeardOnceExactly` |
| one retry report is heard once | `DeliveryRounds.SaturatedRetryHeard` | `DeliveryRounds.RetryHeardOnceExactly` |
| a commit is computed from the document it replaces | `SyncEngine.SaturationReached` | `SyncEngine.CommitIsCurrent`, `SyncEngine.ReloadNoticed` |
| merging commutes on whole ledgers | `CoownershipSample.GenesisKept` | `CoownershipMerge.MergeCommutes` |
| replicas of two ledgers agree in both orders | `CoownershipSample.OrdersDiverge` | `CoownershipReplicas.OrdersAgreeIffMergeable` |
| the several-card validator takes every allowed one-card step | `AutomationSample.AllowedStepRefused` | `Automation.OneCardExact` |
| the several-card validator takes every transition for which some assignment of rank changes works | `AutomationSample.AllowedStepRefused` | `AutomationAssignments.RankGap` |
| what is signed determines the payload | `CanonicalJson.OneSignatureTwoPayloads` | `CanonicalJson.SignedInputExact` |

## Model

| member | source | states |
|---|---|---|
| `CausalAdmission.Resolve` | crates/meta-mesh-core/src/causal_admission.rs:302-460 | the passes end, and every status and the evaluated set are the ones that the dependency graph and the evidence on each change determine, whatever the order of the changes |
| `CausalAdmission.OwnStatus` | crates/meta-mesh-core/src/causal_admission.rs:372-441 | a change whose dependencies are admitted is admitted with a role if and only if its proofs give it that role and its checks allow it, and refused with a reason if and only if its evidence shows that reason |
| `CausalAdmission.AdmittedIffClean` | crates/meta-mesh-core/src/causal_admission.rs:302-441 | a settled, justified state admits a change if and only if every change on every dependency path from it is present, met once, and the basis or vetted for some role |
| `CausalAdmission.FixpointExact` | crates/meta-mesh-core/src/causal_admission.rs:302-460 | each status of a settled state, with its reason (missing, outside the projection, unresolved or own verdict), is a function of the graph |
| `CausalAdmission.Pass` | crates/meta-mesh-core/src/causal_admission.rs:306-449 | a pass either shrinks the unresolved set or leaves a state in which no rule applies |
| `CausalOrder.OrderedAdmittedHashes` | crates/meta-mesh-core/src/causal_admission.rs:615-664 | succeeds if and only if the admitted hashes are listed changes and their subgraph has no cycle; the result is the order of the slow rescan of every layer |
| `CausalOrder.RescanPermutes` | crates/meta-mesh-core/src/causal_admission.rs:615-664 | no hash is listed twice and none comes from outside the graph |
| `CausalOrder.RescanTopological` | crates/meta-mesh-core/src/causal_admission.rs:615-664 | every change comes after all its dependencies |
| `CausalOrder.RescanCompleteIffAcyclic` | crates/meta-mesh-core/src/causal_admission.rs:660-662 | the order covers a closed graph if and only if the graph has no cycle |
| `CausalOrder.RescanByDepth` | crates/meta-mesh-core/src/causal_admission.rs:639-658 | the order is by longest dependency chain, and by hash among equals |
| `CausalOrder.OrderIndependent` | crates/meta-mesh-core/src/causal_admission.rs:615-664 | listing the same changes differently gives the same graph, hence the same order |
| `CausalOrder.BuildIndex` | crates/meta-mesh-core/src/causal_admission.rs:621-637 | the child lists reverse the dependencies and each indegree counts the dependencies still to come |
| `CausalOrder.OrderLayer` | crates/meta-mesh-core/src/causal_admission.rs:644-658 | a frontier is emitted in hash order and the next frontier is exactly what it releases |
| `AdmissionPlan.Evaluate` | crates/meta-mesh-core/src/causal_admission.rs:295-588 | fails if and only if the trusted basis is absent or not the only root; otherwise the plan is the one the graph and the conflicts determine, also through the shortcut without replay |
| `AdmissionPlan.PlanExact` | crates/meta-mesh-core/src/causal_admission.rs:462-588 | a change is finally admitted if and only if every change on every dependency path from it is present, met once, the basis or vetted for some role, and hit by no source, rebind or move conflict |
| `AdmissionPlan.PlanUnique` | crates/meta-mesh-core/src/causal_admission.rs:495-588 | there is one plan per graph: neither arrival order nor the shortcut shows |
| `AdmissionPlan.ShortcutExact` | crates/meta-mesh-core/src/causal_admission.rs:495-511 | when nothing is refused and no card moved, the loaded document with its statuses is the replayed plan |
| `AdmissionPlan.Cascade` | crates/meta-mesh-core/src/causal_admission.rs:543-574 | what stays admitted is the greatest dependency-closed subset; everything else keeps its status or becomes pending, and nothing is admitted again |
| `AdmissionPlan.Settle` | crates/meta-mesh-core/src/causal_admission.rs:543-588 | after the cascade the final document is that greatest closed subset, whether kept or rebuilt |
| `AdmissionPlan.BuildProjection` | crates/meta-mesh-core/src/causal_admission.rs:666-699 | fails if and only if there is a cycle among the admitted changes; otherwise the projected document is their greatest dependency-closed subset |
| `AdmissionPlan.CleanProjects` | crates/meta-mesh-core/src/causal_admission.rs:512-521 | clean changes have no such cycle, so their projection never fails |
| `AdmissionPlan.PlanSafe` | crates/meta-mesh-core/src/causal_admission.rs:543-588 | the final document holds exactly the admitted changes, all clean and with all their dependencies |
| `AdmissionPlan.PlanRoles` | crates/meta-mesh-core/src/causal_admission.rs:372-588 | it is admitted with a role if and only if, besides that, it is the basis and the role is the owner's, or it is vetted for that role |
| `AdmissionPlan.PlanQuarantines` | crates/meta-mesh-core/src/causal_admission.rs:385-541 | a change is quarantined with a reason if and only if its own evidence shows it, it creates a conflicted source, it replaces a map in which a source is created, or it moves a card that conflicts in the projection, in the order of precedence of the source |
| `AdmissionPlan.HitsByEvidence` | crates/meta-mesh-core/src/causal_admission.rs:462-493 | the source and rebind rules hit a change exactly when evaluated changes create such sources |
| `AdmissionPlan.BasisDescends` | crates/meta-mesh-core/src/causal_admission.rs:295-301 | from a trusted basis, the basis stays admitted and every admitted change descends from it |
| `AdmissionPlan.CheckBasis` | crates/meta-mesh-core/src/causal_admission.rs:295-301 | no error if and only if the basis is present and the single root |
| `CausalRoles.Absorb` | crates/meta-mesh-core/src/causal_admission.rs:219-292 | after one record each change has the role the record gives it, unless an owner's stands, its verdict fails or its automation scope conflicts; other changes are untouched |
| `CausalRoles.GatherRoles` | crates/meta-mesh-core/src/causal_admission.rs:206-293 | fails if and only if a record that covers a change is not admitted; otherwise a change has a role exactly when some record counts for it, an owner's if any record is an owner's, else that of the last one that counts |
| `CausalRoles.OwnersOrderFree` | crates/meta-mesh-core/src/causal_admission.rs:287-290 | which changes have a role, and which have an owner's, does not depend on the order of the records |
| `CausalRoles.RolesAuthored` | crates/meta-mesh-core/src/causal_admission.rs:206-293 | every gathered role is one that the author of a covering record holds |
| `CausalRoles.AdmittedHasAuthor` | crates/meta-mesh-core/src/causal_admission.rs:206-588 | whatever the plan admits beside the basis was written by an author of a covering record who may write it in the role the plan gives; less than owner only without an owner's record |
| `Automation.ValidateTransitions` | crates/meta-mesh-core/src/causal_admission.rs:1508-1630 | accepts exactly what replays card by card, and then there is a finite chain of individually allowed one-card steps from before to after |
| `Automation.ReplayEach` | crates/meta-mesh-core/src/causal_admission.rs:1571-1628 | the loop computes the replay, each step allowed, or stops at the first step that is not |
| `Automation.OneCardExact` | crates/meta-mesh-core/src/causal_admission.rs:1508-1630 | an allowed one-card step is accepted by the several-card validator if and only if the card was there before or every rank change is in the new card's own column |
| `AutomationSample.AllowedStepRefused` | crates/meta-mesh-core/src/causal_admission.rs:1508-1630 | a step that adds a card in one column and changes a rank in another is allowed as one step and refused by the several-card validator |
| `AutomationRanks.StepExact` | crates/meta-mesh-core/src/causal_admission.rs:1577-1624 | on a partly replayed board a step with rank changes is allowed if and only if it is without them and each is in the column that its card leaves or enters, where a new card leaves Lead; which ranks were replayed before does not matter |
| `AutomationAssignments.NoSourceCards` | crates/meta-mesh-core/src/causal_admission.rs:1550-1560 | a replay whose steps are all allowed has no changed source among its cards |
| `AutomationAssignments.AssignableExactly` | crates/meta-mesh-core/src/causal_admission.rs:1571-1628 | some assignment of the rank changes to the cards works if and only if the cards replay without rank changes and each rank change is in a column that some card leaves or enters, where a new card leaves Lead |
| `AutomationAssignments.AcceptsExactly` | crates/meta-mesh-core/src/causal_admission.rs:1508-1630 | the several-card validator accepts if and only if the transition decomposes, the cards replay without rank changes and each rank change is in a column that some card leaves or enters |
| `AutomationAssignments.RankGap` | crates/meta-mesh-core/src/causal_admission.rs:1597-1622 | the validator accepts only what some assignment accepts; of that it refuses exactly the transitions with a rank change in Lead whose column no card leaves or enters, hence none without a new card |
| `AutomationAssignments.OneStepAssignable` | crates/meta-mesh-core/src/causal_admission.rs:1508-1630 | every allowed one-card step has an assignment that works |
| `AutomationAssignments.WorksChain` | crates/meta-mesh-core/src/causal_admission.rs:1571-1628 | an assignment that works is a chain of allowed one-card steps from before to after |
| `Automation.StepPreserves` | crates/meta-mesh-core/src/causal_admission.rs:1714-1966 | one allowed step deletes nothing, changes no setting and no existing source, and of an existing card changes only times, workflow, approved values, rank and parent, which stays or becomes the Interview, Rejected or approved Applied column; new are only sources under a version 2 grant and cards in Lead or Applied |
| `Automation.ChainPreserves` | crates/meta-mesh-core/src/causal_admission.rs:1508-1630 | the same holds across any chain of allowed steps, however long, where a new card may have moved on to Interview or Rejected |
| `Automation.OthersUnchanged` | crates/meta-mesh-core/src/causal_admission.rs:1505-1507 | an entity that is not a card is identical before and after, unless it is a new source |
| `AutomationExact.OneCardStep` | crates/meta-mesh-core/src/causal_admission.rs:1846-1910 | a step that changes one existing card is allowed if and only if settings agree, the board is ready, the card is an active leaf of an active column, its protected parts are the same, and it either stays with new values and its workflow, or moves to one of three columns with a workflow that is kept, dropped or names that column |
| `AutomationExact.MoveExact` | crates/meta-mesh-core/src/causal_admission.rs:1877-1882 | moving an active leaf card, its parent alone changed, on a ready board is allowed if and only if the new column is Interview, Rejected or the approved Applied column |
| `AutomationExact.NewCardStep` | crates/meta-mesh-core/src/causal_admission.rs:1911-1954 | a step that adds one card is allowed if and only if the board is ready and the card is an active leaf in Lead or Applied, with known properties, approved values and a workflow that names its column |
| `AutomationExact.LandsOnBoard` | crates/meta-mesh-core/src/causal_admission.rs:1733-1787 | whatever a step creates or moves, sources aside, lies in an active column of the approved board that is not its archive |
| `AutomationExact.LeadOnlyLoses` | crates/meta-mesh-core/src/causal_admission.rs:1508-1630 | along any chain of steps a card in Lead was in Lead before or is new, when Lead is none of the columns to move to |
| `AutomationExact.FrozenExact` | crates/meta-mesh-core/src/causal_admission.rs:2089-2148 | the protected parts agree if and only if every other field, every value that is not approved, and every part of the placement but rank and parent agree |
| `AutomationExact.WorkflowExact` | crates/meta-mesh-core/src/causal_admission.rs:2015-2040 | a workflow matches if and only if there is none or its record, an object or its text, has the column, a time and nothing else |
| `AutomationExact.SourceOfStep` | crates/meta-mesh-core/src/causal_admission.rs:1968-1997 | a step adds at most one source, under a version 2 grant; it belongs to the step's card, an original with a new card, a refresh of a retained original with a card that was there |
| `AutomationExact.ItemExact` | crates/meta-mesh-core/src/causal_admission.rs:2042-2047 | a card is an entity with a text for a body and an object of values |
| `AutomationExact.SourceIdExact` | crates/meta-mesh-core/src/causal_admission.rs:1816-1822 | a source is an entity whose id starts with the prefix of sources |
| `Automation.RankKept` | crates/meta-mesh-core/src/causal_admission.rs:2062-2087 | a rank change keeps the card in all its protected parts |
| `Automation.OverlayIs` | crates/meta-mesh-core/src/causal_admission.rs:1577-1624 | taking some differences from the target gives the target if and only if all of them were taken |
| `Coownership.BuildGraph` | crates/meta-mesh-core/src/coownership.rs:444-566 | accepts if and only if payloads are distinct, every record reaches the genesis through parents, each is locally valid and quorum-approved under its parent, and resolutions name retained siblings; the graph is a function of the payload set |
| `Coownership.VerifyApprovals` | crates/meta-mesh-core/src/coownership.rs:688-729 | accepts if and only if the approvals are distinct and well formed, each is by exactly one owner, and the different people are more than half of the owners, or all of them when the policy is unanimous |
| `Coownership.MatchOwner` | crates/meta-mesh-core/src/coownership.rs:711-721 | answers the person at an index if and only if the key of that owner, root or device, and of no other made the approval |
| `Coownership.OneMatch` | crates/meta-mesh-core/src/coownership.rs:711-721 | the count of matching owners is one exactly when one index signs |
| `Coownership.CheckOwners` | crates/meta-mesh-core/src/coownership.rs:656-671 | comparing neighbours is enough: accepts if and only if there are 1 to 64 valid owners with strictly increasing person ids, in the size limit |
| `Coownership.CheckPayload` | crates/meta-mesh-core/src/coownership.rs:593-654 | accepts if and only if kind, version, scope, parent, epoch, owners, conflict references and size are those of a child of this parent |
| `Coownership.CheckConflict` | crates/meta-mesh-core/src/coownership.rs:619-631 | accepts if and only if 2 to 8192 references of hash size increase from each to the next |
| `Coownership.CheckGenesis` | crates/meta-mesh-core/src/coownership.rs:451-454 | accepts if and only if the genesis has a scope, the first epoch and a valid creator whose key signed it |
| `Coownership.Index` | crates/meta-mesh-core/src/coownership.rs:466-489 | succeeds if and only if payloads are distinct and fit; each record is filed once under its parent |
| `Coownership.Explore` | crates/meta-mesh-core/src/coownership.rs:491-540 | the breadth-first search ends, and succeeds if and only if every record is good and reachable |
| `Coownership.CheckReferences` | crates/meta-mesh-core/src/coownership.rs:542-558 | accepts if and only if every resolution names at least two retained siblings and not itself |
| `CoownershipWalk.EpochIsDepth` | crates/meta-mesh-core/src/coownership.rs:635-654 | in a valid ledger a certificate's epoch is one plus its distance from the genesis |
| `CoownershipWalk.SharedApprover` | crates/meta-mesh-core/src/coownership.rs:30-37 | any two accepted children of one parent share an approving owner, counting people and not devices |
| `CoownershipWalk.AtMostOneResolver` | crates/meta-mesh-core/src/coownership.rs:786-805 | whatever the ledger, at most one certificate resolves all its siblings |
| `CoownershipWalk.ResolverIdsExact` | crates/meta-mesh-core/src/coownership.rs:786-805 | the resolvers read from the graph are the certificates that name exactly all other children |
| `CoownershipWalk.ValidateLedger` | crates/meta-mesh-core/src/coownership.rs:360-399 | the walk ends, and its status depends only on the set of certificates |
| `CoownershipWalk.PlanTransition` | crates/meta-mesh-core/src/coownership.rs:285-307 | plans a transition if and only if the walk is unambiguous, the new owners are valid and differ, and epoch and size allow it |
| `CoownershipWalk.DraftTransition` | crates/meta-mesh-core/src/coownership.rs:285-307 | gives the payload that follows a certificate if and only if the owners are valid and differ, the epochs last and it fits |
| `CoownershipWalk.TransitionAdvances` | crates/meta-mesh-core/src/coownership.rs:285-307 | a planned transition, approved and added, keeps the ledger valid and becomes the authorized certificate |
| `CoownershipWalk.PlanResolution` | crates/meta-mesh-core/src/coownership.rs:309-345 | plans only for an open conflict and names all siblings; with valid owners it refuses an open conflict only when the payload does not fit |
| `CoownershipWalk.ResolutionResolves` | crates/meta-mesh-core/src/coownership.rs:309-345 | a planned resolution, approved and added, keeps the ledger valid and is the one resolver, and the walk passes its parent |
| `CoownershipWalk.ResolutionSettles` | crates/meta-mesh-core/src/coownership.rs:378-398 | it turns the ambiguous walk into one authorized at the resolution |
| `CoownershipWalk.LaterSiblingReopens` | crates/meta-mesh-core/src/coownership.rs:378-398 | a later sibling that does not cover all others leaves no resolver and makes the parent ambiguous again |
| `CoownershipWalk.AppendValid` | crates/meta-mesh-core/src/coownership.rs:444-566 | a good record with a new payload extends a valid ledger |
| `CoownershipMerge.MergeLedgers` | crates/meta-mesh-core/src/coownership.rs:402-426 | merges if and only if both ledgers are valid, share the genesis payload and their union is within limits; the result is that union in canonical form, and valid |
| `CoownershipMerge.MergeValid` | crates/meta-mesh-core/src/coownership.rs:402-426 | the union of valid ledgers of one genesis is valid whenever it fits, and holds every certificate of both |
| `CoownershipMerge.MergeCommutes` | crates/meta-mesh-core/src/coownership.rs:402-426 | both orders give the same records; the whole ledgers agree if and only if the genesis records do |
| `CoownershipMerge.MergeAssociates` | crates/meta-mesh-core/src/coownership.rs:402-426 | grouping does not matter |
| `CoownershipMerge.MergeIdempotent` | crates/meta-mesh-core/src/coownership.rs:402-426 | merging again changes nothing, and a canonical ledger merged with itself is itself |
| `CoownershipReplicas.Receive` | crates/meta-mesh-core/src/coownership.rs:402-426 | a replica stores a first valid ledger in canonical form, merges a later one if that is possible, and otherwise keeps what it has |
| `CoownershipReplicas.ReceivedFacts` | crates/meta-mesh-core/src/coownership.rs:402-426 | receiving gives up nothing and adds nothing but what is received, accepted or refused |
| `CoownershipReplicas.ReplicaHoldsOnly` | crates/meta-mesh-core/src/coownership.rs:402-426 | whatever was refused on the way, a replica holds only certificates and approvals of ledgers it received, in canonical form |
| `CoownershipReplicas.ReplicaHoldsAll` | crates/meta-mesh-core/src/coownership.rs:402-426 | if the union of all received ledgers fits, every ledger is accepted in every order, and the replica holds exactly that union |
| `CoownershipReplicas.ReplicasConverge` | crates/meta-mesh-core/src/coownership.rs:402-426 | if that union fits, replicas that received the same ledgers, in any order and any number of times, hold the same records |
| `CoownershipReplicas.HeldAfterTwo` | crates/meta-mesh-core/src/coownership.rs:402-426 | after two ledgers a replica holds both, or only the first when the two do not merge |
| `CoownershipReplicas.OrdersAgreeIffMergeable` | crates/meta-mesh-core/src/coownership.rs:402-426 | replicas that receive two valid ledgers in opposite orders hold the same records if and only if in each order the second is merged or adds nothing; under one genesis record, if and only if the two merge |
| `CoownershipReplicas.FullRefuses` | crates/meta-mesh-core/src/coownership.rs:444-449 | a ledger with 4096 transitions merges with no ledger that has another one, in either order |
| `CoownershipReplicas.FullOrdersDiverge` | crates/meta-mesh-core/src/coownership.rs:402-449 | so replicas that receive the two in opposite orders each stay with the first, whatever the environment |
| `CoownershipSample.OrdersDiverge` | crates/meta-mesh-core/src/coownership.rs:402-449 | two valid ledgers of one genesis with 4096 transitions, the limit of the source, and with one further transition, with no serialized size exceeded, on which the orders diverge |
| `CoownershipReplicas.MergeExists` | crates/meta-mesh-core/src/coownership.rs:402-426 | any two ledgers have a merge in canonical form; only its size can refuse it |
| `CoownershipSample.GenesisKept` | crates/meta-mesh-core/src/coownership.rs:402-426 | two valid ledgers with differently signed genesis records merge into different ledgers in the two orders |
| `CoownershipMerge.MergeRecords` | crates/meta-mesh-core/src/coownership.rs:858-878 | certificates and approvals of the two lists are united, payloads stay distinct |
| `CoownershipMerge.MergeApprovals` | crates/meta-mesh-core/src/coownership.rs:880-891 | the union of the approvals, distinct and sorted |
| `CoownershipMerge.SortLedger` | crates/meta-mesh-core/src/coownership.rs:893-914 | a canonical ledger with the same certificates and approvals |
| `CoownershipMerge.CanonicalUnique` | crates/meta-mesh-core/src/coownership.rs:893-914 | a canonical list is determined by what it holds |
| `Succession.VerifyClaim` | crates/meta-mesh-core/src/authority.rs:809-927 | accepts if and only if the claim is well formed and its candidate is the active named successor or, without one, has the votes of more than half of the active editors |
| `Succession.CountVotes` | crates/meta-mesh-core/src/authority.rs:876-909 | accepts if and only if every vote is valid, nobody votes twice and the voters are a majority of the active editors |
| `Succession.VerifyPolicy` | crates/meta-mesh-core/src/authority.rs:711-747 | sorting a copy and counting different ids decides whether the editors strictly increase; accepts if and only if they do, none is the owner and the named one is among them, signed by the owner |
| `Succession.VerifyVote` | crates/meta-mesh-core/src/authority.rs:749-807 | accepts if and only if an active listed editor, with a grant of the owner, signed a vote for this candidate under this very policy |
| `Succession.RivalsShareVoter` | crates/meta-mesh-core/src/authority.rs:872-909 | two accepted claims under one policy and revocation set that name different successors contain votes of one active editor for both |
| `OwnershipChain.Ancestry` | crates/meta-mesh-core/src/authorization.rs:759-775 | ends, and returns exactly the hashes reachable from the heads, or fails if and only if one of them is absent |
| `OwnershipChain.VerifyChain` | crates/meta-mesh-core/src/authorization.rs:670-757 | accepts an unordered bag if and only if, sorted by epoch, it links owner to owner with rising epochs and valid links; owner, history and frontiers are a function of that order and not of the revoked people |
| `OwnershipChain.NextLink` | crates/meta-mesh-core/src/authorization.rs:699-753 | returns the one next transition with what its heads cover, or fails if and only if none is both the only candidate and usable |
| `OwnershipChain.PickNext` | crates/meta-mesh-core/src/authorization.rs:699-722 | picks the one transition of the owner with the least later epoch, or fails when there is none or two |
| `OwnershipChain.ChainIsByEpoch` | crates/meta-mesh-core/src/authorization.rs:670-757 | a bag has at most one chain: itself in epoch order |
| `OwnershipChain.AncestorsClosed` | crates/meta-mesh-core/src/authorization.rs:759-775 | an ancestry is closed under dependencies |
| `WriteAuthorization.FromSnapshot` | crates/meta-mesh-core/src/authorization.rs:326-439 | accepts exactly the valid snapshots; the context has one boundary per effective record, and its owner after the second pass is the expected one although it is compared once |
| `WriteAuthorization.CheckAuthority` | crates/meta-mesh-core/src/authorization.rs:590-598 | accepts if and only if the person id is the id of the public key |
| `WriteAuthorization.BuildRevocations` | crates/meta-mesh-core/src/authorization.rs:801-839 | accepts if and only if every revocation is by an owner within its own frontier and its heads are present; boundaries and revoked people are exactly theirs |
| `WriteAuthorization.CheckRevocation` | crates/meta-mesh-core/src/authorization.rs:811-829 | accepts if and only if the first owner with that id, within its own frontier, signed it and its heads are present; what it leaves is what they reach |
| `WriteAuthorization.CheckControl` | crates/meta-mesh-core/src/authorization.rs:841-851 | accepts if and only if the person is the current owner, or a former one whose frontier has all the heads |
| `WriteAuthorization.BuildDepartures` | crates/meta-mesh-core/src/authorization.rs:853-876 | accepts if and only if every departure is valid with its heads present; one boundary each |
| `WriteAuthorization.RestoredDevices` | crates/meta-mesh-core/src/authority.rs:141-169 | fails if and only if some restoration may not undo what it names; otherwise exactly the named signatures |
| `WriteAuthorization.CheckRestore` | crates/meta-mesh-core/src/authority.rs:153-165 | accepts if and only if the first record with that signature is a removal of the same device, and the owner or the remover restores it |
| `WriteAuthorization.BuildDevices` | crates/meta-mesh-core/src/authorization.rs:375-427 | accepts if and only if restorations are permitted, records authentic and effective heads present; only effective removals bound anything |
| `WriteAuthorization.CheckDevice` | crates/meta-mesh-core/src/authorization.rs:385-417 | accepts if and only if the signer's key is its own and the record verifies for an owner with this key within its frontier, or for the current owner |
| `WriteAuthorization.Admitted` | crates/meta-mesh-core/src/authorization.rs:229-294 | a hash is admitted if and only if the proof covers it, it is needed, and all boundaries and the owner frontier allow it |
| `WriteAuthorization.AdmittedExact` | crates/meta-mesh-core/src/authorization.rs:229-534 | over the records of a valid snapshot: a change is admitted with a role if and only if the proof is well formed, signed, covers it and it is needed, the author writes under that role, each revocation and departure of the author reaches it or is of an access epoch below the grant's, each effective removal of the device reaches it, and a former owner wrote it below the heads of a transition that ended the own ownership |
| `WriteAuthorization.WritesAsExact` | crates/meta-mesh-core/src/authorization.rs:441-502 | the role is the owner's for the current owner; else that of the first owner, current before earlier, under whom the grant verifies, automation only if it verifies under the current owner with a sound and unexpired scope; else the owner's for a former owner |
| `WriteAuthorization.RevocationsExact` | crates/meta-mesh-core/src/authorization.rs:511-528 | the revocation boundaries allow a hash if and only if every revocation of the person reaches it or has a smaller epoch than the grant |
| `WriteAuthorization.DevicesExact` | crates/meta-mesh-core/src/authorization.rs:530-534 | the device boundaries allow a hash if and only if every effective removal of the device reaches it |
| `WriteAuthorization.FrontierIsOwnTerm` | crates/meta-mesh-core/src/authorization.rs:745-753 | a former owner's frontier is what the heads of the transitions away from that owner reach |
| `WriteAuthorization.WriterAuthorized` | crates/meta-mesh-core/src/authorization.rs:229-502 | an admitted change is signed by its author and written by the current owner, by a former owner within the own frontier, or under a role that an owner's grant gives; automation only by the current owner's unexpired grant |
| `WriteAuthorization.AdmittedCloses` | crates/meta-mesh-core/src/authorization.rs:511-534 | if a proof admits a change it admits every ancestor of it that it also covers |
| `WriteAuthorization.TighterAdmitsLess` | crates/meta-mesh-core/src/authorization.rs:229-294 | adding revocations, departures or device removals to a snapshot that still validates keeps verdict and role and never admits a new hash |
| `WriteAuthorization.FrontierClosed` | crates/meta-mesh-core/src/authorization.rs:745-753 | a former owner's frontier is closed under dependencies |
| `Coverage.Derive` | crates/meta-mesh-core/src/history_archive_coverage.rs:104-156 | succeeds if and only if the root is valid, the epoch positive and the ids are 1 to 1,048,576 valid and strictly increasing; the summary is that of the simple build by 64 and then by 8 |
| `Coverage.SummaryExact` | crates/meta-mesh-core/src/history_archive_coverage.rs:187-240 | count, first and last id are those of the list, and the root is covered if and only if it is in the list |
| `Coverage.SummaryHeight` | crates/meta-mesh-core/src/history_archive_coverage.rs:141-155 | the height is the least h of at least 1 with 64 times 8 to the h at least the count, so at most 5 |
| `Coverage.SummaryInjective` | crates/meta-mesh-core/src/history_archive_coverage.rs:178-240 | equal summaries force the same archive root, key epoch and object list |
| `Coverage.ReceiptCoversExactly` | crates/meta-mesh-core/src/history_archive_coverage.rs:262-324 | a verified receipt over some list covers exactly the expected list, root included |
| `Coverage.VerifyReceipt` | crates/meta-mesh-core/src/history_archive_coverage.rs:262-324 | accepts if and only if the service's key signed, for this authority, root and preparation, exactly the expected summary, covering the root at a height of 1 to 31 |
| `Coverage.CheckDigest` | crates/meta-mesh-core/src/history_archive.rs:77-88 | looking at 43 digits decides whether a text is the canonical base64 of 32 bytes |
| `Base64Url.Is32BytesExact` | crates/meta-mesh-core/src/history_archive.rs:77-88 | the texts of 32 bytes are exactly those of 43 digits whose last has two zero bits |
| `Coverage.CarryRepresents` | crates/meta-mesh-core/src/history_archive_coverage.rs:241-261 | the carry keeps the buckets equal to the base-8 digits of the nodes pushed so far |
| `Coverage.CarrySucceeds` | crates/meta-mesh-core/src/history_archive_coverage.rs:241-261 | pushing ordered nodes never exceeds the depth within its capacity |
| `Coverage.Push` | crates/meta-mesh-core/src/history_archive_coverage.rs:241-261 | the loop computes the recursive carry, with its errors |
| `Coverage.Branch` | crates/meta-mesh-core/src/history_archive_coverage.rs:210-240 | succeeds if and only if the children are 1 to 8 of one height, in order, with a bounded count |
| `Coverage.Fold` | crates/meta-mesh-core/src/history_archive_coverage.rs:141-155 | folding the buckets gives the root of the simple build |
| `Coverage.Stream` | crates/meta-mesh-core/src/history_archive_coverage.rs:114-140 | the stream accepts exactly increasing valid ids up to the limit, and its buckets represent their leaves |
| `Coverage.Screen` | crates/meta-mesh-core/src/history_archive_coverage.rs:119-130 | an id that passes keeps the list so far valid, increasing and within the limit; one that does not makes the whole list unacceptable |
| `ArchiveIndex.VerifyPage` | crates/meta-mesh-core/src/history_archive.rs:228-253 | accepts a page if and only if the bytes are the canonical text of a valid page with exactly this link and hash |
| `ArchiveIndex.CheckPage` | crates/meta-mesh-core/src/history_archive.rs:167-225 | accepts if and only if the page has the expected schema, context, size, and increasing entries or children |
| `ArchiveIndex.CheckChildren` | crates/meta-mesh-core/src/history_archive.rs:200-222 | comparing neighbours is enough: all children are valid, different, and their ranges increase pairwise |
| `ArchiveIndex.CheckEntries` | crates/meta-mesh-core/src/history_archive.rs:185-198 | comparing neighbours is enough: all keys are valid and increase pairwise |
| `ArchiveIndex.CheckRoot` | crates/meta-mesh-core/src/history_archive.rs:111-130 | accepts if and only if the link is bounded and either empty without a range or has two valid keys in order |
| `ArchiveIndex.CheckContext` | crates/meta-mesh-core/src/history_archive.rs:97-104 | accepts if and only if both names are given within their sizes and the epoch is positive and safe |
| `ArchiveIndex.ComputeRoot` | crates/meta-mesh-core/src/history_archive.rs:132-165 | the loop over the children gives the link that the page deserves, or none when that is not a valid link |
| `ArchiveIndex.TreeMatches` | crates/meta-mesh-core/src/history_archive.rs:132-253 | if every page verifies against its link, all leaf keys are strictly increasing, as many as the root counts, from its first to its last |
| `ArchiveIndex.DescentDecides` | crates/meta-mesh-core/src/history_archive.rs:132-253 | descending at most height + 1, hence 32, pages finds the entry of a key if and only if the tree holds one |
| `ArchiveIndex.OneChild` | crates/meta-mesh-core/src/history_archive.rs:200-222 | at most one child's range can hold a key |
| `ArchiveIndex.RootAuthenticates` | crates/meta-mesh-core/src/history_archive.rs:228-253 | with a collision-free hash, two stores that verify under one root hold the same entries |
| `ArchiveIndex.VerifiedTree` | crates/meta-mesh-core/src/history_archive.rs:106-253 | under the UTF-16 key order, the leaf keys of a verified tree increase, as many as the root counts, from its first to its last |
| `ArchiveIndex.VerifiedDescent` | crates/meta-mesh-core/src/history_archive.rs:106-253 | under the UTF-16 key order, a descent of at most height + 1 pages decides membership |
| `ArchiveIndex.Utf16Orders` | crates/meta-mesh-core/src/history_archive.rs:106-109 | an environment that compares keys by UTF-16 code units meets what the results on trees ask of the order |
| `ArchiveIndex.KeyOrder` | crates/meta-mesh-core/src/history_archive.rs:106-109 | comparing UTF-16 code units is a strict total order of texts |
| `ArchiveIndex.UnitsExact` | crates/meta-mesh-core/src/history_archive.rs:107-109 | a character has one code unit, or a high and a low surrogate that hold its offset |
| `ArchiveIndex.Utf16Injective` | crates/meta-mesh-core/src/history_archive.rs:106-109 | texts with equal code units are equal |
| `ArchiveIndex.NotScalarOrder` | crates/meta-mesh-core/src/history_archive.rs:106-109 | the order differs from the order of scalar values on characters beyond the basic plane |
| `Delivery.New` | crates/meta-mesh-core/src/delivery_flow.rs:455-489 | makes a flow if and only if target, routes and delays are valid |
| `Delivery.Flow.Begin` | crates/meta-mesh-core/src/delivery_flow.rs:491-497 | starts once; the first route is launched and the new state is the one whose runs the lemmas below cover |
| `Delivery.Flow.ReportResult` | crates/meta-mesh-core/src/delivery_flow.rs:499-541 | state and actions are those of the step on this result: ignored, accepted, failed with a launch, or failed as the last of its round |
| `Delivery.Flow.ReportFallback` | crates/meta-mesh-core/src/delivery_flow.rs:543-557 | state and actions are those of the step on this timer: ignored unless armed in this round |
| `Delivery.Flow.ReportRetry` | crates/meta-mesh-core/src/delivery_flow.rs:559-571 | state and actions are those of the step on this timer: a new round from the first route, the counter saturating |
| `Delivery.Flow.Cancel` | crates/meta-mesh-core/src/delivery_flow.rs:573-589 | ends any delivery that has not ended, once |
| `Delivery.Flow.LaunchRouteNext` | crates/meta-mesh-core/src/delivery_flow.rs:591-611 | one launch and at most one fallback timer, or the end of the round |
| `Delivery.Flow.EndRound` | crates/meta-mesh-core/src/delivery_flow.rs:613-644 | with nothing in flight, the next retry or the final report; otherwise nothing |
| `Delivery.RunKeeps` | crates/meta-mesh-core/src/delivery_flow.rs:491-644 | every run keeps the accounting and phase invariants |
| `Delivery.LaunchesConserved` | crates/meta-mesh-core/src/delivery_flow.rs:499-644 | in every run, launches = retries times routes + next route = failures + routes in flight (+ 1 when accepted); running always has a route in flight and a fallback armed if routes remain; the last word is said once and only at the end |
| `Delivery.ExhaustedExactly` | crates/meta-mesh-core/src/delivery_flow.rs:613-644 | giving up means that every route failed once in the first round and once in every retry |
| `Delivery.StaleResultIgnored` | crates/meta-mesh-core/src/delivery_flow.rs:506-513 | an answer to a launch is heard at most once, and if and only if its route is in flight in the round of that launch or the round counter is saturated |
| `Delivery.StaleTimerIgnored` | crates/meta-mesh-core/src/delivery_flow.rs:543-571 | a report of an armed timer is heard if and only if a timer of its kind is awaited in the round of that timer or the round counter is saturated |
| `Delivery.TimersConserved` | crates/meta-mesh-core/src/delivery_flow.rs:543-611 | in every run fallback and retry timers are heard no more often than they were armed, and one that is armed still waits to be heard |
| `DeliveryLog.RunFaithful` | crates/meta-mesh-core/src/delivery_flow.rs:491-644 | in every run the k-th launch names route k modulo their number, the k-th retry timer carries the k-th retry delay, every fallback timer the fallback delay, and the last word reports all attempts in order, when giving up those of all rounds |
| `DeliveryLog.HeardExactly` | crates/meta-mesh-core/src/delivery_flow.rs:499-644 | in every run, a heard failure is kept with its route, a heard failure or fallback launches the next route at once if there is one, a retry starts over, and the delivery ends on the first accepted answer, which cancels the others, on an abort, which cancels all, or when the last route in flight fails, with all kept failures in the report |
| `DeliveryLog.JoinSnoc` | crates/meta-mesh-core/src/delivery_flow.rs:630-634 | the report separates failures by a semicolon and a space |
| `Delivery.RepeatedFallbackHeard` | crates/meta-mesh-core/src/delivery_flow.rs:543-557 | the first fallback timer, reported twice, launches the third route early exactly when there are at least three routes |
| `DeliveryRounds.FallbackHeardOnce` | crates/meta-mesh-core/src/delivery_flow.rs:543-557 | with at most two routes and no more retries than the counter can tell apart, a fallback report that was heard is never heard again in any continuation of any run |
| `DeliveryRounds.SaturatedFallbackHeard` | crates/meta-mesh-core/src/delivery_flow.rs:543-571 | with two routes and more retries than that, a run hears one fallback report in two rounds |
| `DeliveryRounds.FallbackHeardOnceExactly` | crates/meta-mesh-core/src/delivery_flow.rs:543-557 | no run hears a fallback report twice if and only if there is one route, or there are two and the counter can tell all rounds apart |
| `DeliveryRounds.RetryHeardOnceExactly` | crates/meta-mesh-core/src/delivery_flow.rs:559-571 | no run hears a retry report twice if and only if the counter can tell apart the rounds that await one |
| `DeliveryRounds.AnswerHeardOnceExactly` | crates/meta-mesh-core/src/delivery_flow.rs:499-541 | no run hears the answer of a route twice if and only if the counter can tell all rounds apart |
| `DeliveryRounds.RoundsReach` | crates/meta-mesh-core/src/delivery_flow.rs:499-644 | every round that the retries allow is reached by some run, whatever the number of routes |
| `DeliveryRounds.SaturatedAnswerHeard` | crates/meta-mesh-core/src/delivery_flow.rs:559-571 | a run that saturates the round counter hears the answer to a launch of the round before |
| `Delivery.NoEffectNoAction` | crates/meta-mesh-core/src/delivery_flow.rs:506-513 | an event that leaves the state alone asks nothing of the host |
| `Delivery.EffectLowersRank` | crates/meta-mesh-core/src/delivery_flow.rs:491-644 | every event with an effect lowers one measure |
| `Delivery.EffectsBounded` | crates/meta-mesh-core/src/delivery_flow.rs:491-644 | in every run the number of events with an effect is at most a budget computed from routes and retries |
| `Delivery.NeverStuck` | crates/meta-mesh-core/src/delivery_flow.rs:491-644 | until the delivery ends there is an event other than abort that has an effect, and with at most 2^32 routes it is one that a host can report |
| `SyncEngine.New` | crates/meta-mesh-core/src/automerge.rs:56-75 | makes an empty engine if and only if the device id is given and the frame limit is not zero |
| `SyncEngine.Engine.LoadDocument` | crates/meta-mesh-core/src/automerge.rs:77-103 | installs a readable document; a reload raises the revision, saturating, and touches no peer |
| `SyncEngine.Engine.GenerateFrame` | crates/meta-mesh-core/src/automerge.rs:125-164 | refused while a receive awaits admission; the peer state advances only when the frame fits |
| `SyncEngine.Engine.PrepareReceive` | crates/meta-mesh-core/src/automerge.rs:166-238 | the merge is stored with the revision it was computed at; document and peer are untouched |
| `SyncEngine.Engine.CommitPrepared` | crates/meta-mesh-core/src/automerge.rs:240-258 | installs the prepared receive if the revision is unchanged, discards it otherwise |
| `SyncEngine.Engine.AbortPrepared` | crates/meta-mesh-core/src/automerge.rs:260-263 | forgets the prepared receive and nothing else |
| `SyncEngine.Engine.ResetPeer` | crates/meta-mesh-core/src/automerge.rs:119-123 | forgets the peer state and its prepared receive and nothing else |
| `SyncEngine.Engine.ReceiveFrame` | crates/meta-mesh-core/src/automerge.rs:265-276 | with nothing in between a prepared receive always commits; a failed one changes nothing |
| `SyncEngine.CommitIsCurrent` | crates/meta-mesh-core/src/automerge.rs:240-258 | after any interleaving, a successful commit below the last revision installs the merge of the current document, the current peer state and the message |
| `SyncEngine.OneCommitPerRevision` | crates/meta-mesh-core/src/automerge.rs:240-258 | of the receives prepared at one revision of a document at most one commits |
| `SyncEngine.FailureIsClean` | crates/meta-mesh-core/src/automerge.rs:166-263 | preparing, failing and aborting leave every document and peer state as they were |
| `SyncEngine.FramesAreTaken` | crates/meta-mesh-core/src/automerge.rs:125-238 | every frame that one engine sends, by itself or in answer, is valid for the engine of the device it is meant for, if that has the document in the same scope and no smaller limit |
| `SyncEngine.ReceiptExact` | crates/meta-mesh-core/src/automerge.rs:166-238 | a receive is prepared only for an authorized frame addressed to this device, and the receipt has the merged document, exactly its new changes as accepted, and the reply that the merge generates |
| `SyncEngine.LoadExact` | crates/meta-mesh-core/src/automerge.rs:77-103 | a load succeeds if and only if scope and id are given and the bytes are readable; it installs that document in that scope with a new revision and touches no other |
| `SyncEngine.ReloadNoticed` | crates/meta-mesh-core/src/automerge.rs:88-91 | a reload between prepare and commit is noticed if and only if the revision was not the last |
| `SyncEngine.SaturatedCommitIsStale` | crates/meta-mesh-core/src/automerge.rs:250-256 | from any state at the last revision, a reload between prepare and commit goes unnoticed and the commit replaces a document it was not computed from |
| `SyncEngine.SaturationReached` | crates/meta-mesh-core/src/automerge.rs:88-258 | a run from the empty engine reaches such a state and commits over the reloaded document |
| `SyncEngine.RunKeeps` | crates/meta-mesh-core/src/automerge.rs:77-263 | in every run each prepared receive is the merge of its recorded basis, current unless the revision moved on |
| `CanonicalJson.CanonicalizeExact` | crates/meta-mesh-core/src/identity.rs:87-128 | canonicalization fails if and only if some number, however deep, is refused, and prints every other value |
| `CanonicalJson.TextsExact` | crates/meta-mesh-core/src/identity.rs:77-102 | a value has a signed text if and only if all its integers are within the JavaScript safe range; every value has a stored text |
| `CanonicalJson.PrintExact` | crates/meta-mesh-core/src/identity.rs:87-128 | two values print the same if and only if they differ in nothing but numbers that are formatted alike |
| `CanonicalJson.StoredInjective` | crates/meta-mesh-core/src/identity.rs:77-79 | different values have different stored texts |
| `JsonReader.StoredReads` | crates/meta-mesh-core/src/identity.rs:77-128 | a reader written from RFC 8259 gets every value back from its stored text |
| `JsonReader.SignedReads` | crates/meta-mesh-core/src/identity.rs:83-128 | from a signed text it gets the value back with each number as its format reads |
| `JsonReader.PrintReads` | crates/meta-mesh-core/src/identity.rs:87-128 | it reads a printed value to its end and stops there, whatever follows |
| `JsonReader.EscapeReads` | crates/meta-mesh-core/src/identity.rs:103-105 | it reads an escaped string back, whatever follows the closing quotation mark |
| `JsonReader.EscapeForm` | crates/meta-mesh-core/src/identity.rs:103-105 | a character with a two-character escape takes it, the solidus aside; other control characters take a six-character escape in lower case; any other stands for itself |
| `CanonicalJson.PrintUnique` | crates/meta-mesh-core/src/identity.rs:87-128 | a printed value can be told from what follows it, so nothing inside a text is ambiguous |
| `CanonicalJson.EscapeUnique` | crates/meta-mesh-core/src/identity.rs:103-105 | a quoted string determines its characters and where it ends |
| `CanonicalJson.KeysSorted` | crates/meta-mesh-core/src/identity.rs:114-115 | object keys are printed in strictly increasing scalar order |
| `CanonicalJson.PrintNoNul` | crates/meta-mesh-core/src/identity.rs:87-128 | a canonical text has no NUL character |
| `CanonicalJson.StoredInputInjective` | crates/meta-mesh-core/src/identity.rs:221-230 | the input that the cache digests determines both the domain and the payload |
| `CanonicalJson.SignedInputExact` | crates/meta-mesh-core/src/identity.rs:87-175 | two payloads have the same signed input if and only if the domains agree and the payloads differ in nothing but numbers that are formatted alike |
| `CanonicalJson.OneSignatureTwoPayloads` | crates/meta-mesh-core/src/identity.rs:100-101 | with 1 and 1.0 formatted alike, one signed input stands for two payloads whose stored texts differ |
| `SignatureCache.Cache.Insert` | crates/meta-mesh-core/src/identity.rs:22-33 | first in, first out: set and duplicate-free queue agree and stay within 512 |
| `SignatureCache.Cache.Verify` | crates/meta-mesh-core/src/identity.rs:202-244 | the answer, errors included, is the uncached one, and the cache stays sound |
| `SignatureCache.Cache.VerifyAll` | crates/meta-mesh-core/src/identity.rs:202-244 | every run of verifications through one cache answers as if there were none |
| `SignatureCache.AcceptedAlike` | crates/meta-mesh-core/src/identity.rs:236-239 | a signature over signed text is accepted for every payload that differs in nothing but how equal numbers are written |
| `SignatureCache.SignedVerifies` | crates/meta-mesh-core/src/identity.rs:157-239 | what a key signs over signed text verifies under it |
| `SignatureCache.DigestInjective` | crates/meta-mesh-core/src/identity.rs:221-230 | a digest determines key, signature, payload and domain |
| `SignatureCache.VouchedAnswer` | crates/meta-mesh-core/src/identity.rs:231-233 | a cached digest can only stand for a signature that verifies |

## Left out

- Cryptography (Ed25519, SHA-256, AES-GCM, key derivation, certificate chains): uninterpreted predicates and injective digests.
- Automerge: a document is a set of changes, receiving and generating sync messages are uninterpreted functions, hydration of a JSON board is the identity.
- The per-change content checks (application sources, avatars, visitor profiles): verdicts carried by the change, as causal admission reads them once per change.
- Serialized byte sizes, timestamps and URL parsing: uninterpreted predicates.
- Lengths of identifiers in the ledger and in receipts are counted in characters.
- Error texts: errors are grouped into a few constructors; which one is returned first is modelled only where a later step reads it.
- `verify_workspace_ownership_transfer`, `verify_workspace_revocation`, `verify_workspace_departure`, `verify_workspace_device_revocation`: one verdict each; the succession claim, vote and policy checks are modelled in full.
- Coownership.Env: the order of encoded hashes is any strict total order, since base64 text of distinct hashes is distinct.
- ArchiveIndex.VerifyPage: the key order is any strict total order; KeyOrder proves that the UTF-16 order is one.
- ArchiveIndex.DescentDecides: the descent is the reading the page format permits; the repository leaves the walk over fetched pages to its hosts.
- CanonicalJson.StoredInjective: texts are sequences of characters, whose UTF-8 encoding is injective; a float is given by its stored text.
- CanonicalJson.SignedInputExact: the ECMAScript number format of signed text is a parameter that prints number text; which numbers it formats alike is not modelled.
- JsonReader.StoredReads: the reader takes text without insignificant whitespace, of which canonical text has none.
- Delivery.New: delays are reals or not finite.
- Delivery.StaleTimerIgnored: two fallback timers of one round carry the same report, so it speaks of a timer of that round; FallbackHeardOnceExactly says when that shows.
- Delivery.Flow.LaunchRouteNext: the route index of the launch action is truncated to 32 bits as in the source, so a route beyond that cannot be answered.
- WriteAuthorization.TighterAdmitsLess: says nothing about restorations, which are meant to admit more.
- CoownershipReplicas.ReplicasConverge: asks that a part of a ledger that fits in bytes fits in bytes, which the length of a text has and the uninterpreted size predicate need not.
- CausalRoles.GatherRoles: the identity, provenance and visitor checks of one proof are one verdict per proof and change.
- CoownershipMerge.MergeLedgers: the first ledger a replica stores is sorted but not checked again against the size limit, as in the source.
- The order in which the several-card validator takes the cards (by id): its steps are characterized for any order, but orders are not compared; a source that refreshes an original created with another card of the same transition depends on it.
- History locator, baseline, capture and rebase, handshake, gossip, transfer selection and ingress: the same arguments again or single decisions.
- Hosts, adapters, user interface, TLA+ checks and examples.
