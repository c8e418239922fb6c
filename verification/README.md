# Migration planner: verified models

The migration planner is a service that takes inventories of VMware estates, assesses and sizes
their migration, and lets customers share the assessments with partners. This project models the
parts of it whose correctness is not visible from any one function, and proves what they promise.
`dafny verify dfyconfig.toml` checks everything.

## What is modelled

| file | the planner's part | main result |
|---|---|---|
| `SeekableTar.dfy` | the OVA served as a virtual, seekable TAR | any run of `Seek` and `Read` answers as a flat byte array with a cursor, whatever the section readers do; the bytes are an archive that reads back as its entries |
| `Sizer.dfy`, `BatchLaws.dfy` | splitting a cluster into batches, avoid lists, checking a placement, the node size guard | split, then avoid, then validate: any placement that respects the avoid lists passes; the number of batches is the least that fits, in terms of the load alone; the guard's advice is the least node that passes |
| `Authz.dfy` | relationship tuples and permissions | the listing and the single-resource query both answer exactly the permissions the tuples mean |
| `Lifecycle.dfy`, `CallLaws.dfy` | groups, members, partner requests, assessments and their sharing | an invariant over all runs of thirteen service calls, from which: access is exactly ownership or a partnership accepted right now; what each call needs and changes, read off the rows and permissions |
| `Transactions.dfy` | transactions carried in contexts | only the outermost scope commits, at any nesting depth and wherever the database fails; the multi-statement service calls are one step or nothing |
| `StorageResolution.dfy`, `ResolutionLaws.dfy` | the CTEs that attribute disks to datastores | the per-VM query is the full query restricted to the VM; when a disk resolves, exactly, in the columns of the base tables |
| `Aggregation.dfy`, `AggregationLaws.dfy` | merging cluster inventories and estimation parameters | sums, maxima and tiers do not depend on map order or duplicate IDs |
| `Metadata.dfy`, `MetadataLaws.dfy` | reading VM metadata from the vInfo sheet | the stateful loop keeps exactly the non-blank cells of VM IDs that stand in one row |
| `SqlLiterals.dfy` | IN lists and VALUES tuples built as SQL text | a lexer of ISO/IEC 9075-2 reads back exactly the strings that were printed |
| `Common.dfy`, `Strings.dfy` | | small shared datatypes and lemmas |

Code that changes state is modelled as classes and methods with loops; each is tied to a
specification function or predicate, and the lemmas are about those. Code that only computes is
modelled as functions. The files named `...Laws` say what these functions mean without using them:
in terms of the inputs, the stored rows, the permissions or the columns of the tables.

### Reading the models

* **TAR.** A `ReadSeeker` is either a reader over fixed contents, which may answer short, or the
  repository's `zeroReader`. `SeekableTarReader.Flat()` is the byte string the sections promise.
  `Valid()` says that the sections tile it and that each reader holds the bytes of its section;
  `Read` needs that to terminate, because the loop neither returns nor advances on `(0, io.EOF)`
  (`ReadOnce`, last clause). Headers come from an arbitrary `HeaderWriter`; the round trip needs it
  to be injective and never to write a zero block (`Ustar`), as the ustar Interchange Format does.
* **Sizer.** CPU and memory are reals, VM counts integers, division of counts truncates as in Go.
  `Split` is what the splitter answers. The external sizer is an arbitrary placement.
* **Authorisation and life cycle.** `State` is the stored rows and tuples; `Apply` is one call;
  `Planner` is the code, a method per call, each proved to do exactly what `Apply` says.
* **Transactions.** A `Program` is a tree of operations and scopes, each of which may fail;
  `Effects` is what it does inside a transaction, `Committed` what it leaves behind on its own, and
  `Published` what it leaves behind in each of the four states a context can be in.
* **Storage.** Tables are sequences of rows with nullable columns. TRIM, LOWER and the extraction of
  the datastore's name from a path are arbitrary functions: the results hold for any. vhost and
  vdatastore may repeat rows; `Keyed` says that the VM ID is the primary key of vinfo.
* **Aggregation.** Walks over Go maps take keys in an arbitrary order.

### Where the code differs from what it says

* The splitter's comment says it "enforces minimum batch sizes"
  (`internal/service/sizer.go:1287`). The re-split takes a maximum of counts, so re-split batches are at
  *most* the minimum size: `Sizer.MinimumSizeExactly` says when the minimum is met, and the batches of
  `Sizer.EmptyBatchesExample` are below it.
* The comment on the cap to one batch per VM reads "prevent empty batches" (`internal/service/sizer.go:1345`); the
  re-split comes later and can leave batches without VMs: `Sizer.EmptyBatchesExactly`,
  `Sizer.EmptyBatchesExample`. It can also exceed the limit of 1000 batches:
  `Sizer.TooManyBatchesExactly`, `Sizer.TooManyBatchesExample`.
* The compact-mode guard accepts a control plane of 14 GB, which leaves 0 GB for batches; the splitter
  then refuses: `Sizer.CompactModeAcceptedExactly`, `Sizer.CompactModeRefusedExactly`,
  `Sizer.CompactModeExample`.
* A batch of relationship updates inserts first and deletes last, whatever order they were added in:
  `Authz.BatchIsInOrderExactly` says when that is the same, `Authz.BatchOrderExample` shows a batch where it
  is not.
* A context left over from a closed transaction is still joined, and its scopes are not atomic:
  `Transactions.ScopesAtomicExactly`, `Transactions.StaleScopeExample`.

Two service functions would also treat calls that request validation refuses in a way of their own:

* `CreateGroup` stores any kind of group, and a member of a group that is neither partner nor admin
  could hold a partner request (`Lifecycle.RolesOverlapExample`, `Lifecycle.MemberMayRequestExactly`). Requests with
  another kind are refused (`api/v1alpha1/openapi.yaml:3700`, `internal/api_server/server.go:223`), and over all
  runs of validated calls no group member holds a request: `Lifecycle.MembersHoldNoRequest`,
  `Lifecycle.IdentityExactly`.
* The cluster path lets user parameters win over the inventory, the bucket path the inventory over the
  user (`Aggregation.PathsAgreeExactly`). Validation refuses user parameters with inventory keys
  (`internal/handlers/v1alpha1/estimation.go:109`, `internal/handlers/v1alpha1/estimation.go:221`), and for
  validated parameters the paths agree: `Aggregation.ValidatedPathsAgree`.

## Model

| member | source | states |
|---|---|---|
| `SeekableTar.ReadSeeker.Read` | internal/image/seekable_tar.go:41-53 | `zeroReader` answers min(len(p), remaining) zeroes and io.EOF only at its end; a content reader may answer short; either way exactly the bytes at the cursor arrive, the cursor moves by as many, and the rest of the buffer is untouched |
| `SeekableTar.ReadSeeker.Seek` | internal/image/seekable_tar.go:55-72 | lands where the three whences say, refuses negative positions and unknown whences without moving |
| `SeekableTar.SectionWindow` | internal/image/seekable_tar.go:213-221 | the bytes of a section's reader are the bytes of the flat string from that section's offset |
| `SeekableTar.SectionsPartition` | internal/image/seekable_tar.go:81-125 | the sections partition [0, total): every position below total lies in exactly one, no other in any |
| `SeekableTar.TilesOrdered` | internal/image/seekable_tar.go:81-125 | an earlier section ends at or before the start of a later one |
| `SeekableTar.SeekableTarReader.FindSection` | internal/image/seekable_tar.go:213-221 | finds the section covering a position, and none exactly at or past the end |
| `SeekableTar.SeekableTarReader.ReadOnce` | internal/image/seekable_tar.go:151-182 | one turn of the loop delivers the flat string's bytes at the cursor, however short the reader answers and wherever it stood; on a section reader shorter than its section it makes no progress and reports nothing |
| `SeekableTar.SeekableTarReader.Read` | internal/image/seekable_tar.go:143-184 | delivers flat[pos..pos+n] with n = min(len(p), total-pos), moves by n, leaves the rest of the buffer; io.EOF exactly at the end; on a fault what was delivered is right; terminates |
| `SeekableTar.SeekableTarReader.Seek` | internal/image/seekable_tar.go:187-204 | moves the cursor as on a stream of length total, and not at all on an error |
| `SeekableTar.RunCalls` | internal/image/seekable_tar.go:143-204 | every sequence of Seek and Read calls answers, and ends, as the same calls on a flat byte array with a cursor |
| `SeekableTar.SizeBySeeking` | internal/handlers/v1alpha1/image.go:119 | seeking to the end answers the length of the flat string, as http.ServeContent relies on, and seeking back starts over |
| `SeekableTar.ReadRange` | internal/handlers/v1alpha1/image.go:119 | a byte range of the flat string, as an HTTP range request asks for it |
| `SeekableTar.ReadTail` | internal/image/seekable_tar.go:187-204 | seeking to k bytes before the end and reading k delivers the last k bytes |
| `SeekableTar.ReadTwice` | internal/image/seekable_tar.go:187-204 | stepping back over what was read delivers it again |
| `SeekableTar.AppendEntry` | internal/image/seekable_tar.go:84-113 | an entry adds header, content and zero padding to the flat string, with no empty sections |
| `SeekableTar.AppendEntries` | internal/image/seekable_tar.go:81-114 | succeeds exactly if every header can be written in one block, and then holds the encoded members in order |
| `SeekableTar.NewSeekableTarReader` | internal/image/seekable_tar.go:77-132 | builds a reader at 0 whose bytes are the archive of the entries, and which unarchives to exactly those entries |
| `SeekableTar.UnarchiveMember` | internal/image/seekable_tar.go:84-113 | a ustar parser takes one member off the front, whatever follows it |
| `SeekableTar.ArchiveRoundTrip` | internal/image/seekable_tar.go:77-132 | reading header, content, skipping to 512 and stopping at two zero blocks recovers the files, for any number and any sizes |
| `SeekableTar.HeadersAligned` | internal/image/seekable_tar.go:84-113 | each header starts on a 512 boundary, where the members before it end |
| `SeekableTar.ContentAndGaps` | internal/image/seekable_tar.go:84-125 | each content follows its header; all bytes up to the next header, and the last 1024, are zero |
| `SeekableTar.RoundUpIsPadding` | internal/image/builder.go:543-553 | rounding a size up by division is padding it by remainder |
| `SeekableTar.EncodedLength` | internal/image/builder.go:543-553 | the encoded members are as long as the sum of their announced sizes, a multiple of 512 |
| `SeekableTar.ComputeSizeIsArchiveLength` | internal/image/builder.go:398-425 | the size announced in advance is the length of the archive of the same three members |
| `Sizer.BatchNameInjective` | internal/service/sizer.go:1393-1411 | different batches have different printed names |
| `Sizer.CountBatches` | internal/service/sizer.go:1325-1373 | the count follows the plan: needed by capacity and VM limit, capped to one per VM, refused above 1000, re-split for the minimum size |
| `Sizer.AggregateVMsIntoServices` | internal/service/sizer.go:1306-1412 | answers the specified split, including each refusal |
| `BatchLaws.LeastCountsExist` | internal/service/sizer.go:1330-1373 | for every load there is a least count that fits the node, and one that fits the minimum size |
| `BatchLaws.SplitExactly` | internal/service/sizer.go:1330-1373 | the split has the least count whose batches fit the given part of the node and hold at most 200 VMs, not more than there are VMs, refused above 1000; unless that leaves a batch less than a CPU or two GB: then the least count whose batches take no more |
| `BatchLaws.NothingToSplit` | internal/service/sizer.go:1316-1323 | a split is empty exactly without VMs, and refused for the node exactly if that is not positive |
| `BatchLaws.OneBatchSuffices` | internal/service/sizer.go:1339-1343 | a load that one batch holds is one batch with all its VMs |
| `BatchLaws.RatiosAsWritten` | internal/service/sizer.go:1415-1440 | a known over-commit ratio stands for the number behind its colon, all others are unknown |
| `BatchLaws.FirstBatchName` | internal/service/sizer.go:1402 | batches are named from 1 on, in decimal |
| `Sizer.SplitConservesVMs` | internal/service/sizer.go:1381-1411 | the batches' VMs add up to the total, exactly if that is not a negative non-multiple of the count |
| `Sizer.SplitEvenAndLimited` | internal/service/sizer.go:1335-1411 | batch VM counts differ by at most one, are ordered, and never exceed 200 |
| `Sizer.SplitNamesDistinct` | internal/service/sizer.go:1393-1411 | no two batches share a name |
| `Sizer.SplitConservesResources` | internal/service/sizer.go:1375-1411 | count times limit is the total, CPU and memory; request times ratio is the limit |
| `Sizer.SplitSizes` | internal/service/sizer.go:1325-1373 | the dichotomy: left alone at most 1000 batches within 80% of the node and at least the minimum; capped, one VM each; re-split, at most the minimum |
| `Sizer.MinimumSizeExactly` | internal/service/sizer.go:1361-1373 | the minimum size is met if and only if no re-split fired or the totals divide exactly |
| `Sizer.EmptyBatchesExactly` | internal/service/sizer.go:1345-1373 | a batch without VMs exists if and only if a re-split wants more batches than there are VMs |
| `Sizer.EmptyBatchesExample` | internal/service/sizer.go:1345-1373 | two VMs with 10 cores and 1 GB give ten batches, eight without a VM and all below the minimum memory |
| `Sizer.TooManyBatchesExactly` | internal/service/sizer.go:1355-1373 | more than 1000 batches come out if and only if a re-split asks for more |
| `Sizer.TooManyBatchesExample` | internal/service/sizer.go:1355-1373 | two VMs with 2000 cores and 1 GB give 2000 batches |
| `Sizer.CompactModeBatchFits` | internal/service/sizer.go:1934-1960 | an undisturbed batch's request fits beside the 3.5 CPU and 13.39 GB reserve |
| `Sizer.CompactModeAcceptedExactly` | internal/service/sizer.go:1934-1960 | a sized control plane is accepted if and only if it has at least 4 CPUs and 14 GB and both ratios are known |
| `Sizer.CompactModeRefusedExactly` | internal/service/sizer.go:1934-1960 | of the accepted ones, the splitter refuses the node size exactly at 14 GB |
| `Sizer.CompactModeExample` | internal/service/sizer.go:1934-1960 | 4 CPUs and 14 GB are accepted, leave 0 GB, and are refused by the splitter |
| `BatchLaws.BatchingNodeExactly` | internal/service/sizer.go:1934-1960 | in compact mode batches are made for what 3.5 CPUs and 13.39 GB, rounded up, leave of the control plane, over-committed; otherwise for the node itself |
| `BatchLaws.StandardModeBatchFits` | internal/service/sizer.go:1934-1960 | outside compact mode an undisturbed batch takes at most 80% of a worker node |
| `BatchLaws.EffectiveCPUs` | internal/service/sizer.go:1447-1459 | effective CPUs are halfway between cores and threads, or the cores if there are no more threads |
| `BatchLaws.AdviceInRange` | internal/service/sizer.go:1462-1496 | advice stays between 2 and 384 CPUs, 4 and 4096 GB, and is the least of these for invalid input |
| `Sizer.BuildServiceAvoidLists` | internal/service/sizer.go:1527-1574 | one avoid list per batch: the names of the batches of other groups, in order; empty lists if no batch has a VM |
| `Sizer.AvoidsOtherGroups` | internal/service/sizer.go:1527-1574 | a batch avoids exactly the batches of other groups, so avoidance is symmetric |
| `BatchLaws.GroupSizeIsGreatest` | internal/service/sizer.go:1540-1552 | as many batches may share a node as the largest allows: one more would exceed 200 VMs |
| `Sizer.CountsByName` | internal/service/sizer.go:557-594 | the name lookup holds each batch's VM count, the last of a repeated name, and nothing for strangers |
| `Sizer.ValidateVMDistribution` | internal/service/sizer.go:557-594 | returns the largest VM load of a checked node and refuses exactly if it is above 200 |
| `BatchLaws.VMsOnExactly` | internal/service/sizer.go:557-594 | the VMs counted on a node are those of the batches it names |
| `BatchLaws.RefusedExactly` | internal/service/sizer.go:557-594 | a placement is refused if and only if a worker node, or any node of a single-node cluster, is given more than 200 VMs |
| `Sizer.LoadBounded` | internal/service/sizer.go:557-594 | a node whose services come from n batches, listed once, holds at most n times the largest batch |
| `Sizer.NodeWithinLimit` | internal/service/sizer.go:1527-1574 | a node that respects the avoid lists holds at most 200 VMs |
| `Sizer.RespectfulPlacementPasses` | internal/service/sizer.go:557-594 | end to end: any placement of an accepted split that respects the avoid lists passes the validation |
| `Sizer.CheckNodeSize` | internal/service/sizer.go:657-700 | refuses exactly if the node leads to more than 1000 estimated batches, and says the computed minimum |
| `Sizer.RoundUpLeast` | internal/service/sizer.go:1462-1496 | the rounded size is the least multiple that is large enough |
| `Sizer.AdviceIsLeast` | internal/service/sizer.go:1462-1496 | advice passes the guard exactly if it was not capped, and no smaller even CPU count or multiple-of-4 memory does; capped advice means that no size within the cap passes |
| `Sizer.AdvisedNodePasses` | internal/service/sizer.go:657-700 | a node of the advised size with the refused node's SMT multiplier passes the guard that refused it, exactly if neither size was capped |
| `Sizer.SameThreadsPerCore` | internal/service/sizer.go:1447-1459 | nodes with the same whole number of threads per core have the same SMT multiplier |
| `Sizer.GuardIsBothConditions` | internal/service/sizer.go:677-700 | the guard passes exactly if CPU and memory each suffice, at the node's own SMT multiplier |
| `Sizer.GuardedSplitRejection` | internal/service/sizer.go:1325-1358 | behind the guard, the splitter finds too many batches exactly above 200000 VMs |
| `Authz.PermittedByRelation` | internal/store/doc.go:51-65 | owners hold every permission, viewers can read, nobody else holds any |
| `Authz.WriteOne` | internal/store/authz.go:38-77 | a single touch adds its tuple, a single delete removes it |
| `Authz.InOrderByLast` | internal/store/authz_builder.go:15-31 | in-order updates leave a tuple present exactly if its last update touched it, or none concerned it and it was there |
| `Authz.BatchIsInOrderExactly` | internal/store/authz.go:38-77 | a batch equals its updates in order if and only if every tuple it deletes has a deletion last |
| `Authz.BatchOrderExample` | internal/store/authz.go:38-77 | removing a tuple and touching it again in one batch loses it |
| `Authz.RelationshipBuilder.With` | internal/store/authz_builder.go:16-22 | appends one touch |
| `Authz.RelationshipBuilder.Without` | internal/store/authz_builder.go:25-31 | appends one delete |
| `Authz.AuthzStore.WriteRelationships` | internal/store/authz.go:38-77 | the table gains every touched tuple, then loses every deleted one |
| `Authz.AuthzStore.DeleteRelationships` | internal/store/authz.go:79-86 | the table loses exactly the tuples of the resource, or of the whole type for an empty ID |
| `Authz.QueriesAreHolds` | internal/store/authz.go:124-196 | both UNION queries answer exactly the relations held directly or through an org |
| `Authz.AuthzStore.GetPermissions` | internal/store/authz.go:172-207 | adds exactly the permissions the tuples grant, without duplicates |
| `Authz.AuthzStore.ListResources` | internal/store/authz.go:124-170 | lists exactly the resources on which the user holds a permission, once each, with exactly those permissions |
| `Authz.ListThenGet` | internal/store/authz.go:124-207 | a resource is listed exactly if its resolved permission set is non-empty, and with the same set |
| `Lifecycle.AccessExactly` | internal/store/doc.go:51-65 | in every invariant state: the owner may do everything, a member of a partner may read what is shared while the owner's request to it is accepted, and nobody else may do anything |
| `Lifecycle.EndingRevokesAccess` | internal/service/partner.go:174-287 | after LeavePartner or RemoveCustomer nobody but the customer has any permission on the customer's assessments |
| `Lifecycle.IdentitiesExclusive` | internal/service/accounts.go:145-175 | in one invariant state: a user with an active request is regular or a customer; a customer is one of exactly one partner |
| `Lifecycle.MembersHoldNoRequest` | internal/service/authz_partner.go:31-40 | in every state reachable by validated calls no group member has a pending or accepted request |
| `Lifecycle.IdentityExactly` | internal/service/accounts.go:145-175 | in every such state group members are exactly the partners and admins, of their own group; customers are exactly the users with an accepted request, of that one partner; the rest are regular |
| `CallLaws.IdentitiesByRows` | internal/service/accounts.go:145-175 | partners and admins are the members of groups of that kind, customers those with an accepted request |
| `Lifecycle.MembershipExactly` | internal/service/accounts.go:296-432 | in every reachable state a member row (u,g) exists exactly when the member tuple does |
| `Lifecycle.ApplyKeepsInv` | internal/service/partner.go:81-287 | every call keeps: one active request per user, every tuple accounted for, owners and members recorded, roles exclusive, references, dates |
| `Lifecycle.MemberCallsKeepInv` | internal/service/accounts.go:296-432 | a member row (u,g) exists exactly when the member tuple does, after any member call |
| `Lifecycle.EndPartnershipKeepsInv` | internal/service/partner.go:15-28 | cancelling the accepted request together with revoking the shares leaves no viewer tuple without a partnership |
| `Lifecycle.RunKeepsInv` | internal/service/partner.go:81-287 | the invariant holds after any sequence of calls |
| `Lifecycle.SharedOnlyWithCurrentPartner` | internal/service/assessment.go:305-391 | in every reachable state a viewer tuple for an org means that the owner's request to it is accepted right now |
| `Lifecycle.ApplyMoves` | internal/service/partner.go:217-249 | a request only moves from pending to an answer or cancellation, or from accepted to cancelled, and never changes hands |
| `Lifecycle.TerminalRequestsFrozen` | internal/service/partner.go:125-146 | over any run no request is lost or reassigned, and a rejected or cancelled one never changes |
| `Lifecycle.UnshareUndoesShare` | internal/service/assessment.go:305-391 | unsharing after sharing succeeds and leaves everything as before, without the viewer tuple |
| `Lifecycle.RolesOverlapExample` | internal/service/accounts.go:246-255 | the service stores any kind of group, so with a kind that request validation refuses a member could hold an active request |
| `Lifecycle.MemberMayRequestExactly` | internal/service/authz_partner.go:31-40 | among group members the guard lets through exactly those of a group of another kind without an active request |
| `CallLaws.RequestExactly` | internal/service/partner.go:81-122 | who may ask whom, and that a waiting request is stored and nothing else |
| `CallLaws.AnswerExactly` | internal/service/partner.go:217-249 | an answer succeeds if and only if a member of the asked partner gives it, to a waiting request, with a reason if it rejects; the row then says what was answered, and nothing else changes |
| `CallLaws.AcceptanceOpensSharing` | internal/service/partner.go:239-247 | an accepted user is the partner's customer, and what they share every member of the partner can read |
| `CallLaws.RejectionFrees` | internal/service/partner.go:228-247 | a rejected user is told why, has no active request, and may ask again |
| `CallLaws.WithdrawalExactly` | internal/service/partner.go:125-146 | a user withdraws exactly their own waiting request, and has no active request left |
| `CallLaws.LeaveExactly` | internal/service/partner.go:174-205 | exactly a customer of the partner can leave it; the request is closed with the date and nothing else changes but tuples |
| `CallLaws.RemovalExactly` | internal/service/partner.go:252-287 | exactly a member of the customer's partner can remove the customer |
| `CallLaws.EndingLeavesOthers` | internal/service/partner.go:15-28 | the end of a partnership takes nothing from owners and nothing on other users' assessments |
| `CallLaws.GroupExactly` | internal/service/accounts.go:246-255 | a new group is stored with its kind, and nothing else |
| `CallLaws.JoiningExactly` | internal/service/accounts.go:296-359 | who may join a group, and that it opens exactly what was shared with the group |
| `CallLaws.LeavingGroupExactly` | internal/service/accounts.go:393-432 | exactly a member of the group is removed, and keeps exactly the permissions of an owner |
| `CallLaws.MemberUpdateExactly` | internal/service/accounts.go:361-391 | a member's row changes in its email only, and an empty one leaves it |
| `CallLaws.CreationExactly` | internal/service/authz_assessment.go:155-184 | a new assessment is its creator's with every permission and nobody else's; no other access changes |
| `CallLaws.DeletionExactly` | internal/service/authz_assessment.go:206-245 | exactly the owner deletes; nobody has any permission on the assessment afterwards; no other access changes |
| `CallLaws.ShareExactly` | internal/service/assessment.go:305-347 | exactly an owner who is a customer shares, and exactly the members of that partner gain, to read |
| `CallLaws.UnshareExactly` | internal/service/assessment.go:349-391 | exactly an owner who is a customer unshares, and then only the owner has any permission |
| `Lifecycle.Planner.GetIdentity` | internal/service/accounts.go:145-175 | customer if a request is accepted, else partner or admin by group kind, else regular; any accepted row gives the same answer |
| `Lifecycle.Planner.CreateMember` | internal/service/accounts.go:296-359 | stores row and tuple together, or reports the first of: unknown to IAM, no such group, member elsewhere or already, active request |
| `Lifecycle.Planner.UpdateGroupMember` | internal/service/accounts.go:361-391 | changes only the member's email, and only in the member's own group |
| `Lifecycle.Planner.RemoveGroupMember` | internal/service/accounts.go:393-432 | removes row and tuple together |
| `Lifecycle.Planner.CreateRequest` | internal/service/partner.go:81-122 | stores one pending request for a regular user without an active one, to an existing partner |
| `Lifecycle.Planner.CancelRequest` | internal/service/partner.go:125-146 | cancels the user's own pending request, nothing else |
| `Lifecycle.Planner.UpdateRequest` | internal/service/authz_partner.go:79-102 | only the addressed partner answers, only a pending request, and a rejection needs a reason |
| `Lifecycle.Planner.RevokeSharedAssessments` | internal/service/partner.go:15-28 | removes the viewer tuples of exactly that user's assessments for exactly that org |
| `Lifecycle.Planner.LeavePartner` | internal/service/partner.go:174-205 | cancels the accepted request and revokes the shares, or changes nothing |
| `Lifecycle.Planner.RemoveCustomer` | internal/service/partner.go:252-287 | the same from the partner's side, only for its own customers |
| `Lifecycle.Planner.CreateAssessment` | internal/service/authz_assessment.go:155-184 | stores the assessment and its owner tuple |
| `Lifecycle.Planner.DeleteAssessment` | internal/service/authz_assessment.go:206-245 | removes the assessment and every tuple about it, with the delete permission only |
| `Lifecycle.Planner.ShareAssessment` | internal/service/assessment.go:305-347 | adds the viewer tuple of the customer's partner, with the share permission only |
| `Lifecycle.Planner.UnshareAssessment` | internal/service/assessment.go:349-391 | removes that tuple |
| `Transactions.Tx.Commit` | internal/store/transaction.go:108-120 | publishes the session exactly once; a failed commit publishes nothing |
| `Transactions.Tx.Rollback` | internal/store/transaction.go:122-135 | closes an open transaction and publishes nothing; after a commit it does nothing |
| `Transactions.NewTransactionContext` | internal/store/transaction.go:60-81 | joins the context's transaction without owning it, or begins and owns one, or reports a failed begin |
| `Transactions.Commit` | internal/store/transaction.go:23-35 | does nothing unless the scope owns the transaction; then commits and clears it |
| `Transactions.Rollback` | internal/store/transaction.go:37-49 | does nothing unless the scope owns the transaction; then rolls back and clears it |
| `Transactions.Run` | internal/store/transaction.go:23-81 | running scopes with deferred rollbacks: in an open transaction nothing is published; without one each outermost scope is all or nothing; in a stale context every operation is published by itself; after a failed commit every operation fails |
| `Transactions.InnerScopesInvisible` | internal/store/transaction.go:60-81 | inside a transaction, scopes to any depth change nothing |
| `Transactions.EffectsExactly` | internal/store/transaction.go:60-81 | inside a transaction a program is its operations in order, up to the first failure |
| `Transactions.CommittedExactly` | internal/store/transaction.go:23-81 | without an enclosing transaction, operations and outermost scopes take effect in order, each all or nothing, up to the first that fails |
| `Transactions.OutermostScopeAtomic` | internal/store/transaction.go:23-81 | the outermost scope publishes all of its operations exactly if none of them, the begin and the commit failed, and otherwise nothing |
| `Transactions.ScopesAtomicExactly` | internal/store/transaction.go:51-81 | scopes are all or nothing, for every body, failure and start, if and only if their context is not left over from a closed transaction |
| `Transactions.StaleScopeExample` | internal/store/transaction.go:51-81 | in a stale context a write before a failing write stays, although the scope reports failure |
| `Transactions.CreateAssessmentIsAtomic` | internal/service/authz_assessment.go:155-184 | the two nested scopes leave assessment and owner tuple, or neither, wherever the database fails |
| `Transactions.DeleteAssessmentIsAtomic` | internal/service/authz_assessment.go:206-245 | the assessment goes with all its tuples, or stays with them |
| `Transactions.EndPartnershipIsAtomic` | internal/service/partner.go:182-204 | a partnership ends with its shares, or not at all |
| `Transactions.CreateMemberIsAtomic` | internal/service/accounts.go:319-356 | a member row is stored with its tuple, or neither is |
| `StorageResolution.HostReferenceUnique` | pkg/duckdb_parser/storage.go:113-122 | a host reference denotes at most one host |
| `ResolutionLaws.HostReferenceExactly` | pkg/duckdb_parser/storage.go:87-122 | a reference stands for a host exactly if it is a trimmed piece of some Hosts column or the trimmed host of some VM, and names that host, by object ID or by name in any case, and no other; the host is known by its first row |
| `ResolutionLaws.HostMatchExactly` | pkg/duckdb_parser/storage.go:123-147 | VM and datastore match exactly if the VM's host and a piece of the datastore's Hosts stand for one host |
| `StorageResolution.HostRowsSingle` | pkg/duckdb_parser/storage.go:133-147 | the outer joins to hosts never multiply rows: one candidate per datastore and VM row |
| `StorageResolution.FilterPushdown` | pkg/duckdb_parser/storage.go:77-155 | the query with the per-VM WHERE clause yields exactly the rows of the unfiltered query for that VM |
| `ResolutionLaws.QueryForVMExactly` | pkg/duckdb_parser/storage.go:77-155 | the query for one VM answers that VM's rows as often as the query for all, and no other row |
| `ResolutionLaws.RowsCarryVM` | pkg/duckdb_parser/storage.go:133-139 | each row carries its own disk's VM ID |
| `StorageResolution.AtMostOneDatastore` | pkg/duckdb_parser/storage.go:148-154 | a disk resolves to at most one row, whatever the candidates |
| `StorageResolution.SingleCandidateResolves` | pkg/duckdb_parser/storage.go:148-154 | a disk with one candidate resolves to it |
| `StorageResolution.ResolutionExact` | pkg/duckdb_parser/storage.go:77-155 | for any tables: a disk resolves to a datastore if and only if its path names it and it is the only named pair of datastore and VM row, or the only host match among them |
| `StorageResolution.JoinedOnce` | pkg/duckdb_parser/templates/create_schema.go.tmpl:13-14 | as the VM ID is vinfo's primary key, the outer join gives each disk exactly one row: its VM's, or NULL |
| `StorageResolution.SingleNameResolves` | pkg/duckdb_parser/storage.go:133-154 | a disk whose path names exactly one datastore resolves to it and to no other |
| `StorageResolution.UniqueVMResolution` | pkg/duckdb_parser/storage.go:77-155 | a disk resolves to the only datastore its path names, or to the only one of that name that lists the VM's host |
| `ResolutionLaws.ResolvesExactly` | pkg/duckdb_parser/storage.go:77-155 | the same in the columns of the base tables: path and disk path, names, trimmed host lists, object IDs and host names |
| `ResolutionLaws.HostSettles` | pkg/duckdb_parser/storage.go:77-155 | if the VM's host is one host and of the named datastores exactly one lists it, by name or by object ID, the disk resolves to that one |
| `ResolutionLaws.HostSettlesExample` | pkg/duckdb_parser/storage.go:77-155 | two datastores of one name, one of which lists the VM's host by name: the disk resolves to it and not to the other |
| `Aggregation.MergeTiers` | internal/service/estimation.go:365-395 | adds a source's tiers to the accumulated ones, keeping absent distinct from empty |
| `Aggregation.MergeOsInfo` | internal/service/estimation.go:346-363 | per OS: counts add, supported is sticky, the greater support tier wins, the first recommendation stays |
| `Aggregation.AggregateStep` | internal/service/estimation.go:316-396 | merging one more cluster into an aggregate of a set gives an aggregate of the larger set |
| `Aggregation.AggregateClusters` | internal/service/estimation.go:297-404 | for any walk: sums conserved, OS support and greatest tier, disk tiers and complexity buckets, over exactly the unique clusters |
| `Aggregation.AggregateInventoryData` | internal/service/estimation.go:274-404 | accepts exactly lists of known clusters, reports the first unknown one, passes single clusters and vCenter data through, else aggregates |
| `AggregationLaws.TiersSummed` | internal/service/estimation.go:365-395 | a disk tier sums the clusters' complexity tiers, and the size tiers of exactly those clusters without any; a bucket of the distribution sums the clusters' buckets |
| `AggregationLaws.GetAggregatedInventoryData` | internal/service/estimation.go:143-165 | the same on the aggregate that complexity estimation uses |
| `AggregationLaws.SizeTiersIrrelevant` | internal/service/estimation.go:365-369 | of clusters with complexity tiers, the size tiers do not matter |
| `Aggregation.OrderIrrelevant` | internal/service/estimation.go:297-404 | two walks in any orders agree on everything but the choice of an upgrade recommendation |
| `Aggregation.ResolveEstimationInventoryData` | internal/service/estimation.go:184-211 | skips empty and repeated IDs, reports the first unknown one, and sums VM and disk totals of the rest |
| `Aggregation.TotalsAgree` | internal/service/estimation.go:184-404 | for real IDs both paths accept the same lists and give the same totals |
| `Aggregation.MergeParams` | internal/service/estimation.go:482-495 | lists every key of the layers once, with the value of the last layer that has it |
| `AggregationLaws.LastWins` | internal/service/estimation.go:482-495 | of all listed parameters with one key, the last one of the last layer wins |
| `AggregationLaws.OnlyListedKeys` | internal/service/estimation.go:482-495 | merging invents no keys |
| `Aggregation.BucketParamsLayer` | internal/service/estimation.go:543-554 | a bucket's parameters over the merged base are the three layers merged at once |
| `Aggregation.PathsAgreeExactly` | internal/service/estimation.go:89-93 | cluster path and bucket path agree if and only if the user sets no inventory parameter to another value |
| `Aggregation.ValidateParams` | internal/service/estimation.go:559-588 | accepts exactly parameters with a known key, a numeric value, a whole one where asked for, and at least the minimum |
| `Aggregation.ValidatedPathsAgree` | internal/service/estimation.go:498-554 | for validated parameters cluster path and bucket path agree, whatever the defaults |
| `AggregationLaws.InventoryReachesCalculators` | internal/service/estimation.go:498-554 | both paths hand on the inventory's VM count and disk size under their keys, whatever the validated user sets |
| `AggregationLaws.AllowedExactly` | internal/service/estimation.go:421-468 | the bound of each user parameter |
| `Strings.LessExactly` | internal/service/estimation.go:355 | the order of strings is the lexicographic one |
| `Metadata.CountedOnce` | pkg/duckdb_parser/rvtools_metadata.go:40-63 | a count of one and a last index find the only occurrence of a header |
| `Metadata.ChooseColumns` | pkg/duckdb_parser/rvtools_metadata.go:40-83 | chooses exactly the columns framed by headers that occur once, in order, from left to right and none twice; none without an unambiguous frame or a VM ID |
| `Metadata.CompactSorted` | pkg/duckdb_parser/rvtools_metadata.go:116-123 | compacting a sorted list gives its values, strictly increasing |
| `Metadata.CollectRow` | pkg/duckdb_parser/rvtools_metadata.go:97-114 | one row's non-blank cells under each header, in column order; no entry if there are none |
| `Metadata.CollectRows` | pkg/duckdb_parser/rvtools_metadata.go:84-114 | the loop with its seen set keeps exactly the cells of VM IDs with one row |
| `Metadata.DuplicateRow` | pkg/duckdb_parser/rvtools_metadata.go:84-96 | a repeated VM ID drops its entry for good |
| `Metadata.ReadMetadata` | pkg/duckdb_parser/rvtools_metadata.go:84-124 | exactly the non-blank VM IDs of one row with a non-blank metadata cell, each list strictly increasing and exactly that row's cells under that header |
| `Metadata.ReadRVToolsMetadata` | pkg/duckdb_parser/rvtools_metadata.go:20-125 | from headers and rows to the metadata of exactly those columns, and nothing where the headers are ambiguous |
| `MetadataLaws.KeptExactly` | pkg/duckdb_parser/rvtools_metadata.go:84-124 | a VM has metadata exactly if its ID is not blank and stands in one row only, and that row has a non-blank metadata cell |
| `MetadataLaws.ListedExactly` | pkg/duckdb_parser/rvtools_metadata.go:104-123 | its metadata are that row's non-blank cells, under their headers, each once and in lexicographic order |
| `MetadataLaws.AsciiBlanks` | pkg/duckdb_parser/rvtools_metadata.go:94 | which ASCII characters are blank |
| `Metadata.RowOrderIrrelevant` | pkg/duckdb_parser/rvtools_metadata.go:84-124 | any order of the same rows gives the same metadata |
| `SqlLiterals.BuildVMListFilter` | pkg/duckdb_parser/builder.go:511-531 | the loop prints the filter that the lemmas below read back; nothing for an empty list |
| `SqlLiterals.FilterText` | pkg/duckdb_parser/builder.go:524-530 | the filter's text around the list, with and without alias |
| `SqlLiterals.LiteralExactly` | pkg/duckdb_parser/concern.go:69-72 | a text is one character literal with value s if and only if it is s escaped and quoted |
| `SqlLiterals.EscapedInQuery` | pkg/duckdb_parser/builder.go:108-122 | a value escaped into a quoted place of any query is read there as that literal, and the rest of the query as before |
| `SqlLiterals.FilterInQuery` | pkg/duckdb_parser/builder.go:511-531 | in any query the IN list is read back as exactly the VM IDs, in order, and the text after it as before |
| `SqlLiterals.ConcernValuesBuilder.Append` | pkg/duckdb_parser/concern.go:23-35 | adds one row of five fields per concern, in order |
| `SqlLiterals.ConcernValuesBuilder.Build` | pkg/duckdb_parser/concern.go:38-43 | prints all rows, and nothing if there are none |
| `SqlLiterals.ConcernValuesBuilder.IsEmpty` | pkg/duckdb_parser/concern.go:46-48 | true exactly if no row was added |
| `SqlLiterals.ValuesInStatement` | pkg/duckdb_parser/concern.go:23-43 | in any statement the VALUES clause is read back as exactly the appended rows, in order |
| `SqlLiterals.InsertConcerns` | pkg/duckdb_parser/concern.go:51-67 | executes nothing for an empty builder, else a statement that inserts exactly the appended rows |
| `SqlLiterals.InsertedRows` | pkg/duckdb_parser/concern.go:51-67 | the printed INSERT is read as its five columns, exactly the given rows, and a semicolon |
| `SqlLiterals.ConcernInColumns` | pkg/duckdb_parser/concern.go:23-35 | each field of a concern is inserted under its own column |

## Left out

- SeekableTar.SeekableTarReader.Read: requires every entry's reader to hold at least the size its header announces, because the loop does not terminate otherwise; `ReadOnce` states what happens then.
- SeekableTar.SeekableTarReader.ReadOnce: section readers are assumed to write only the bytes they report, and their contents are fixed.
- SeekableTar.NewSeekableTarReader: header bytes of `archive/tar` are an arbitrary writer that refuses negative sizes; modification times are whole seconds; sizes and offsets are unbounded, not 64 bits wide.
- SeekableTar.ComputeSizeIsArchiveLength: reading the files and the ISO, and `Close`, are not modelled.
- Sizer.AggregateVMsIntoServices: exact reals instead of floating point, so no rounding, infinities or NaN; the capacity multiplier is positive, as the constant 0.8 is.
- Sizer.CheckNodeSize: is the guard of clusters that are neither single-node nor compact; a node has at least one core and one GB.
- Sizer.ValidateVMDistribution: the external sizer's reply is an arbitrary placement; replies that ignore the avoid lists are only refused, as in the code.
- Utilisation, single-node and compact-mode fit messages, fail-over nodes, the sizer payload and its HTTP client: mostly field mapping.
- Authz.AuthzStore.WriteRelationships: database errors and the plain relationship listings are not modelled; failures are in Transactions.
- Lifecycle.MembersHoldNoRequest: request validation is a condition on the calls; its middleware is not modelled.
- Lifecycle.ApplyKeepsInv: each call is one atomic step; DeleteGroup, Initialize and UpdateInventory are outside the calls; names of groups and assessments, which are unique in the database, are not part of the state; an assessment belongs to its caller; IDs are printed UUIDs in one spelling.
- CallLaws.RequestExactly: when several reasons to refuse apply, which one is reported is said by `Lifecycle.Apply` only.
- Lifecycle.Planner.CreateMember: the answer of the identity service is a parameter.
- Transactions.Run: savepoints, isolation between concurrent transactions, a failed rollback and commits whose outcome is unknown are not modelled; an operation that fails changes nothing.
- Transactions.CreateAssessmentProgram: event wrappers would be further nested scopes, which InnerScopesInvisible covers.
- StorageResolution.FilterPushdown: SQL text functions are arbitrary functions on strings; the topology query built on top of these CTEs is not modelled.
- StorageResolution.DiskCandidates: row order stands for rowid.
- Aggregation.OrderIrrelevant: the upgrade recommendation is only promised to be some cluster's value; integers are unbounded and tier sizes exact reals.
- Aggregation.ValidateParams: which of the faults is reported is not modelled.
- Metadata.ReadMetadata: opening and streaming the spreadsheet, its read errors and cancellation are not modelled; sorting is insertion sort, whose result is the same.
- SqlLiterals.BuildVMListFilter: the query templates around it are arbitrary text.
- SqlLiterals.FilterInQuery: the alias contains no quote or hyphen, as the constants passed by the callers; block comments and prefixed literals are not lexed.
- HTTP handlers, authentication, Kafka, notifications, policies, ISO download and the command line: plumbing around libraries.
