# Auth-scope: a verified model of the mission authority

Auth-scope decides what an agent may do on behalf of a principal. A *mission* is an approved,
versioned grant of authority. It can be delegated to other agents, widened by approved
*expansions*, projected into tokens that are exchanged for short-lived credentials, leased,
restricted by policy bundles, and stopped by containment rules. This project models that state
machine in Dafny and proves what it keeps over every run.

The store and the service are classes whose methods read and write their fields in the order
the Go code does. Each method is proved to do what a function on the store's contents says, and
the theorems are about those functions, about every run made of them, and about every
interleaving of concurrent decisions.

| file | subject |
|---|---|
| `Basics.dfy` | results, text order, trimming, sorting |
| `Patterns.dfy` | `path.Match` and resource identifier patterns |
| `Authority.dfy` | regions: scope, subset, merge, intersection, negotiation |
| `Model.dfy` | the records, the store's contents as one value, how a mission may evolve |
| `Cascade.dfy` | what revoking a mission does to its descendants, as a set |
| `Containment.dfy` | the guard, the blast radius, the tenant filter of the SQL snapshot |
| `Policy.dfy`, `Bundles.dfy` | the first-applicable engine; which bundle is active |
| `Lineage.dfy` | the connected component computed by the lineage fixpoint |
| `Operations.dfy` | what each service call answers and stores |
| `Fields.dfy` | exactly when each operation succeeds and what it stores, spelled out in the fields of the records |
| `Replay.dfy` | the event log as the history of every mission |
| `Runs.dfy` | the invariant, kept by every operation and so in every run |
| `Evaluation.dfy` | evaluation and resumption, and what an allowing answer means |
| `Guarantees.dfy` | history, credentials, approvals and containment over whole runs |
| `Attenuation.dfy` | delegated missions against all their ancestors |
| `Interleaving.dfy` | concurrent decisions on expansion requests, step by step |
| `Store.dfy`, `Service.dfy` | the in-memory store and the service, updated in place |

## How the parts fit

The predicates that the code shares between its operations are shared here too. What they mean is
therefore also proved in the fields of the records, without those predicates: `Fields` says for every
operation exactly when it succeeds and what it then stores, and lemmas named `...InFields`, beside
the definitions and in `Fields`, do so for scope, patterns, containment, policy rules and the rest.

`Operations.Apply` performs one operation on the store's contents; `Runs.Run` performs a list of
them. Every changing method of `Service.Service` is proved to take the store's contents to the
`After...` function of its operation, so a sequence of service calls is a run; an evaluation is
at most one operation followed by a note in the log (`Evaluation.EvaluationIsRun`). Identifiers
that the source draws at random are parameters; a repeated one takes the store's conflict
branch. The clock is a parameter of each call. A request's context enters as the values it gives
to condition expressions and constraints. Signing is a set of issued tokens: a token verifies
exactly if the service signed it.

## What the proofs found in the code

* A delegation is checked by matching patterns against pattern *text*. Below any plain path the
  one-star glob accepts the two-star pattern, so a child can reach resources its parent cannot
  (`Authority.GlobSubsetEscapes`); no glob ever holds a tree (`Patterns.GlobNeverHoldsTree`). The
  error message of `internal/mission/service.go:468` speaks of a strict subset. What the code meets
  is exactly `Authority.Attenuable`, a finite check of grants against grants, except that where a
  glob stands against a glob the check is only enough (`Authority.SubsetAttenuates`).
* Approving an expansion of a delegated mission compares it with that mission only. It stays
  within its parent exactly if the parent allows every action of every request that the merge
  takes up (`Attenuation.ExpansionWithinParent`, `Attenuation.ExpansionMayEscape`); the service does
  not check this.
* A proposal's parent reference and depth are stored unchecked, so an approved proposal can place
  a mission of any authority under any parent, or under none that exists
  (`Attenuation.ProposalParentUnchecked` with the exact check, `Attenuation.OrphanBreaksTree`).
* A mission evaluated or resumed before its start counts as expired, and being expired is final
  (`Evaluation.WindowDecidesExpiry`, `Evaluation.ExpiryIsFinal`).
* Merging a request with constraints into an unconstrained grant constrains what was granted
  before, so an approved expansion can withdraw authority: exactly when every grant that gave an
  action collects requests, had no constraints and takes on some that fail, and no request gives
  the action (`Authority.MergeWithdraws`, `Authority.MergeMayWithdraw`).
* The guard enforces more than the blast radius lists: rules that name a mission by its identifier
  (`Containment.ProjectionGuardIsRadius`, `Containment.ExpansionGuardIsRadius`), and on leases also
  rules on the lease operation or on the mission as a resource (`Containment.LeaseGuardIsRadius`).
* Negotiating authority does not consult the guard (`Operations.Negotiated`).
* Revoking or completing a mission that is already terminal leaves it unchanged and still
  revokes its live descendants (`Cascade.CascadeExact`).

## Model

| member | source | states |
|---|---|---|
| Basics.LessMeans | internal/mission/policy.go:237-239 | text order: the first difference decides, and a proper beginning comes first |
| Basics.TrimMeans | internal/mission/evaluator.go:80-81 | trimming drops spaces at both ends and nothing else |
| Patterns.IdMatchesInFields | internal/mission/evaluator.go:79-94 | when an identifier matches a pattern: everything, the same text, at or below a tree's root, or a glob |
| Patterns.StarSplits | internal/mission/evaluator.go:89-92 | a star matches any stretch without a slash |
| Patterns.OneCharacter | internal/mission/evaluator.go:89-92 | a question mark, an escaped and an ordinary character match one character |
| Patterns.ClassMatches | internal/mission/evaluator.go:89-92 | a class of any characters and ranges matches one character in them, or with the caret out of them; an empty class matches nothing |
| Patterns.PatternContainment | internal/mission/evaluator.go:79-94 | if the parent pattern matches the child pattern's text, then every identifier the child matches the parent matches, for parents that are `*`, empty, literal or a plain path with two stars, or for literal children |
| Patterns.TextualTestExact | internal/mission/evaluator.go:73-94 | on those patterns the textual test holds if and only if the child's identifiers are contained in the parent's |
| Patterns.PatternWithinExact | internal/mission/evaluator.go:73-94 | a check on the two texts is enough for containment, and exact for every child that is a literal, everything or a tree, and for globs against any other parent |
| Patterns.GlobNeverHoldsTree | internal/mission/evaluator.go:83-92 | every glob parent is escaped by every tree |
| Patterns.WideningMatches | internal/mission/evaluator.go:79-94 | outside them it fails: the one-star glob below any plain path matches the text of the two-star pattern, which matches more |
| Patterns.PlainAndStar | internal/mission/evaluator.go:89-92 | plain text matches itself only, and a star after it anything that continues without a slash |
| Authority.ScopeInFields | internal/mission/evaluator.go:12-31 | an action is in scope iff neither it nor its name is forbidden and some grant has its type, identifier and operation |
| Authority.ScopeForInFields | internal/mission/evaluator.go:16-44 | and in a context iff that grant's constraints are all met |
| Authority.SubsetInFields | internal/mission/evaluator.go:46-77 | the subset test, type, identifier and actions of each child grant and each prohibition spelled out |
| Authority.AuthoritySubset | internal/mission/evaluator.go:46-77 | the loops answer true iff for every child grant some parent grant has its type, identifier and every action, and every parent prohibition is kept |
| Authority.ProhibitionsExact | internal/mission/evaluator.go:20-64 | the second half of the subset test holds if and only if everything the parent forbids the child forbids |
| Authority.AttenuableExact | internal/mission/evaluator.go:12-65 | a finite check of the child's grants and named actions is enough for its scope and prohibitions to lie within the parent's, and needed but for globs against globs |
| Authority.SubsetAttenuates | internal/mission/evaluator.go:12-65 | a child region that passes the subset test allows no action its parent does not if it passes that check, and only if so but for globs against globs |
| Authority.SubsetIsAttenuable | internal/mission/evaluator.go:46-65 | it passes where each child grant lies within some parent grant whose pattern holds its textual matches, or names one resource |
| Authority.GlobSubsetEscapes | internal/mission/evaluator.go:46-94 | where it does not pass the subset test lets authority escape, for a family of regions below every plain path |
| Authority.MergeAuthority | internal/mission/governance_service.go:336-365 | the nested loops compute the merge: one requested grant after the other joins the first grant of its resource or is appended |
| Authority.MergeExact | internal/mission/governance_service.go:336-365 | an action is in the merged scope iff the base does not forbid it and the base or a well-formed requested grant covers it |
| Authority.ConflictInFields | internal/mission/governance_service.go:367-376 | a request conflicts iff some requested action is forbidden |
| Authority.ApprovedActionsInScope | internal/mission/governance_service.go:247-254 | every requested action of an approved expansion is in scope on its own resource afterwards |
| Authority.MergeExactFor | internal/mission/governance_service.go:336-365 | in a context too: an action is in the merged scope iff the base does not forbid it and a base grant or a well-formed request covers it where the constraints it ends with hold |
| Authority.MergeWithdraws | internal/mission/governance_service.go:345-362 | the merge withdraws a granted action iff every grant that gave it is the first of its type and id, had no constraints and takes on the first request's that fail, and no request gives it |
| Authority.OneRequestWithdraws | internal/mission/governance_service.go:345-362 | for one request: iff the first grant of its type and id was unconstrained, its constraints fail, and no other grant gives the action |
| Authority.MergeMayWithdraw | internal/mission/governance_service.go:350-358 | a witness: reading is refused after writing was granted under a constraint |
| Authority.UnconstrainedMergeKeeps | internal/mission/governance_service.go:336-365 | so requests without constraints withdraw nothing, in any context |
| Authority.AuthorityIntersection | internal/mission/grand_governance_service.go:302-325 | the loops split each requested grant into the permitted and the refused actions and drop empty parts |
| Authority.PermitsInFields | internal/mission/grand_governance_service.go:302-336 | when a requested action is permitted |
| Authority.PartInFields | internal/mission/grand_governance_service.go:306-323 | a part differs from its grant in its actions only |
| Authority.SplitKeepsOrder | internal/mission/grand_governance_service.go:302-325 | the two parts are the requested actions filtered by permission, in their order |
| Authority.SplitConserves | internal/mission/grand_governance_service.go:302-325 | the two parts together have every requested action with its multiplicity |
| Authority.NothingDenied | internal/mission/grand_governance_service.go:302-336 | the denied part is empty iff all requested actions are in scope |
| Authority.ProposalWithin | internal/mission/grand_governance_service.go:302-325 | the proposed region allows nothing beyond the mission if every permitted action is allowed by a grant that holds the requested pattern, and only if so but for globs against globs |
| Authority.Negotiate | internal/mission/grand_governance_service.go:24-38 | accepted iff everything is in scope, otherwise a nonempty counter-offer, otherwise denial or approval by risk, each with its parts |
| Authority.OfferIsAccepted | internal/mission/grand_governance_service.go:24-38 | negotiating a nonempty proposal again is a valid request and is accepted |
| Service.Service.TransitionCascade | internal/mission/service.go:638-663 | the main result: the recursion over the store it mutates ends on any parent graph, cyclic ones included, with exactly the set-defined cascade stored and a log of every move |
| Cascade.CascadeExact | internal/mission/service.go:638-692 | the root changes unless it has ended, and every other mission from which parent links lead to it through active and suspended missions is revoked, each by one version, and no other; spelled out by paths and states |
| Cascade.ChildrenRevoked | internal/mission/service.go:643-661 | in particular every active or suspended child is revoked |
| Cascade.BelowRoot | internal/mission/service.go:643-661 | below a mission that is no longer live lies the disjoint union of its live children's subtrees, on any parent graph |
| Cascade.BelowStep | internal/mission/service.go:643-661 | each child's subtree is untouched by its siblings' cascades, so children listed before the loop are still current when visited |
| Containment.BlastRadius | internal/mission/grand_governance_service.go:145-187 | the loops collect the radius from the snapshot |
| Containment.RadiusMembers | internal/mission/grand_governance_service.go:145-187 | an item is listed iff it is in the snapshot and the rule matches it |
| Containment.PrefilterLosesNothing | internal/mission/store/governance_read.go:25-65 | the radius computed from the tenant-filtered rows equals the radius computed from all rows, for every rule and store |
| Containment.PrefilterMembers | internal/mission/store/governance_read.go:25-65 | the rows loaded are those of the tenant the rule has or, having none, targets |
| Containment.MissionOfLoaded | internal/mission/store/governance_read.go:25-65 | the mission behind an item decides alike whether or not its own row was loaded |
| Containment.ProjectionGuardIsRadius | internal/mission/grand_governance_service.go:347-402 | the guard stops a projection iff the radius lists it, or the rule names its mission by identifier |
| Containment.MissionInRadius | internal/mission/grand_governance_service.go:347-384 | a mission in the radius is stopped for every actor and action |
| Containment.LeaseInRadius | internal/mission/grand_governance_service.go:404-420 | a lease in the radius is stopped by the guard on its mission |
| Containment.ExpansionInRadius | internal/mission/grand_governance_service.go:422-442 | an expansion request in the radius is stopped by the guard on its mission |
| Containment.LeaseGuardIsRadius | internal/mission/grand_governance_service.go:347-420 | the guard stops a lease iff the radius lists it, or the rule names its mission by identifier, the lease operation as a tool, or the mission as a resource |
| Containment.ExpansionGuardIsRadius | internal/mission/grand_governance_service.go:347-442 | the guard stops an expansion request iff the radius lists it, or the rule names its mission by identifier |
| Policy.EvaluateConditions | internal/mission/evaluator.go:114-134 | conditions are evaluated in order up to the first that fails or cannot be evaluated, and exactly those are recorded |
| Policy.CheckPrefix | internal/mission/evaluator.go:114-134 | a list of conditions holds only where all of its beginning does |
| Policy.RuleOrder | internal/mission/policy.go:226-248 | priority, then rule identifier, is a strict weak order |
| Policy.EvaluateRule | internal/mission/policy.go:250-278 | what becomes of one rule and what is recorded of it |
| Policy.ApplyBundle | internal/mission/policy.go:226-281 | decisions outside the four are left alone; otherwise the answer is that of the first applicable rule in sorted order |
| Policy.NeverMorePermissive | internal/mission/policy.go:283-329 | no bundle makes a decision more permissive |
| Policy.RecordedUpToApplied | internal/mission/policy.go:226-281 | the recorded results are the sorted rules up to the applied one; only the last is applied, each earlier one was disabled, unmatched, failed a condition or could not apply |
| Policy.AppliedRuleNamed | internal/mission/service.go:628-636 | a decision names exactly the one rule that was applied, or none |
| Policy.OrderIrrelevant | internal/mission/policy.go:226-281 | with distinct priority and identifier pairs every permutation of the rules gives the same answer and the same record |
| Policy.RuleMatchesInFields | internal/mission/policy.go:349-381 | when a rule matches a request |
| Policy.EvidenceMeans | internal/mission/evaluator.go:114-134 | one result for each condition up to the first that does not hold |
| Policy.RecordInFields | internal/mission/policy.go:250-275 | what is recorded of a rule |
| Policy.SortedByPriority | internal/mission/policy.go:237-246 | smaller priorities stand first, and under one priority smaller identifiers |
| Policy.ApplicableMeans | internal/mission/policy.go:250-300 | a rule applies iff it is enabled, matches, its conditions hold, and its effect is deny, approval, or one open to an allowing decision |
| Policy.AppliedInFields | internal/mission/policy.go:302-347 | the decision of each effect, and what else the applied rule adds |
| Policy.FirstApplicableDecides | internal/mission/policy.go:226-281 | the first applicable rule decides, and without one the answer stands |
| Bundles.BundleStore.SavePolicyBundle | internal/mission/store.go:453-466 | refused iff the identifier or the tenant's version is taken |
| Bundles.BundleStore.StoreActivated | internal/mission/store.go:497-512 | the bundle is active, every other active one of its tenant archived, nothing else changed, in whatever order the map is walked |
| Bundles.BundleStore.ActivatePolicyBundle | internal/mission/policy_service.go:45-66 | keeps one active bundle per tenant, and the activated one is then selected |
| Bundles.BundleStore.ActiveForTenant | internal/mission/store.go:528-541 | finds an active bundle of the tenant that no other is preferred to, or there is none |
| Bundles.BundleStore.GetActivePolicyBundle | internal/mission/store.go:514-526 | the tenant's bundle, else the one of no tenant, else not found |
| Bundles.SelectionUnique | internal/mission/store.go:528-541 | the selection does not depend on the order of iteration |
| Bundles.InUseUnique | internal/mission/store.go:514-526 | at most one bundle is in use for a tenant |
| Bundles.ActivationIsSelected | internal/mission/store.go:497-541 | an activated bundle is the one selected, whatever the activation times |
| Bundles.AlwaysOneActive | internal/mission/store.go:453-512 | in every reachable state a tenant has at most one active bundle |
| Bundles.AlwaysDistinctVersions | internal/mission/store.go:453-466 | in every reachable state the bundles of one tenant have different versions |
| Bundles.SelectedInFields | internal/mission/store.go:528-541 | the selected bundle is the tenant's, active, activated last, and of the smallest identifier among the last |
| Bundles.InUseInFields | internal/mission/store.go:514-526 | a tenant uses its own active bundle, else that of no tenant |
| Bundles.ActivatedInFields | internal/mission/store.go:497-512 | what activation does to each bundle |
| Lineage.RelatedMissionClosure | internal/mission/governance_read.go:174-202 | terminates and returns exactly the connected component of the target in the graph of parent links between stored missions |
| Lineage.Fixpoint | internal/mission/governance_read.go:182-200 | a map to which no turn of the loop adds holds everything connected to the target |
| Lineage.ConnectedIsLeast | internal/mission/governance_read.go:174-202 | the component lies in every set that holds the target and is closed under stored parents and children, and holds all that does |
| Operations.DecisionEffect | internal/mission/governance_service.go:216-296 | a successful decision found the request pending; an approval merges into the stored authority of an active mission at the next version, a denial only decides |
| Operations.SubmissionEffect | internal/mission/advanced_governance_service.go:304-392 | a recorded submission is by a new approver, and either waits or is decided on by the number of records |
| Operations.SubmissionStored | internal/mission/advanced_governance_service.go:343-391 | the record joins the request's records; the answer counts what is required and received, and with enough of them it is the decision's |
| Operations.BrokerExpiryIsEarliest | internal/mission/credential_broker_service.go:400-416 | a credential ends by its requested time, 300 seconds, the projection's end and the mission's end, and at one of them |
| Fields.UsableInFields | internal/mission/advanced_governance_service.go:407-421 | a mission is usable iff it is active, in its window, called by its agent and not stale |
| Fields.ContainedInFields | internal/mission/grand_governance_service.go:347-384 | an operation is contained iff a stored, active, unexpired rule names what it touches |
| Fields.StopsInFields | internal/mission/grand_governance_service.go:347-384 | and one given rule refuses it iff it is stored and does so |
| Fields.ProjectionContainedInFields | internal/mission/grand_governance_service.go:347-402 | and so for a projection |
| Fields.RadiusInFields | internal/mission/grand_governance_service.go:368-483 | what the radius of a rule lists of each kind |
| Fields.ApprovalSucceeds | internal/mission/service.go:228-297 | exactly when a proposal is approved, and the mission stored |
| Fields.ApprovedOnce | internal/mission/store.go:223-239 | a proposal is approved at most once |
| Fields.DelegationSucceeds | internal/mission/service.go:445-525 | exactly when a delegation succeeds, and the child stored |
| Fields.AskedInFields | internal/mission/governance_service.go:314-327 | without an authority of its own a request is for its action's one resource and operation |
| Fields.RequestSucceeds | internal/mission/governance_service.go:164-214 | exactly when an expansion is requested, and the request stored |
| Fields.FirstMatchInFields | internal/mission/advanced_governance_service.go:394-405 | the first governing rule, its tenant, type, identifier, operation and risk spelled out |
| Fields.SomeRuleIsFirst | internal/mission/advanced_governance_service.go:394-405 | where a rule governs a request one of them is the first |
| Fields.DecisionSucceeds | internal/mission/governance_service.go:216-296 | exactly when a decision succeeds, the version the request saw included |
| Fields.SubmissionSucceeds | internal/mission/advanced_governance_service.go:304-354 | exactly when a submission is recorded, and what it needs |
| Fields.RulesStay | internal/mission/store.go:641-651 | a saved approval rule is stored and never replaced by another of its identifier |
| Fields.CleanInFields | internal/mission/credential_broker_service.go:247-257 | which scopes a list of texts names |
| Fields.ScopesOfInFields | internal/mission/credential_broker_service.go:332-344 | the scopes of a region |
| Fields.AllowedScopesInFields | internal/mission/credential_broker_service.go:312-325 | the scopes a projection may pass on |
| Fields.CleanResourceInFields | internal/mission/credential_broker_service.go:436-445 | the resource of a request |
| Fields.ExpiryInFields | internal/mission/advanced_governance_service.go:427-440 | the exact end of a projection and of a lease |
| Fields.BrokerExpiryInFields | internal/mission/credential_broker_service.go:400-416 | the exact end of a credential |
| Fields.ProjectionSucceeds | internal/mission/advanced_governance_service.go:15-117 | exactly when a projection is created |
| Fields.ProjectionStored | internal/mission/advanced_governance_service.go:59-117 | the projection stored, its binding in the mission's scope |
| Fields.ProjectionVerifies | internal/mission/advanced_governance_service.go:127-151 | exactly when a projection verifies |
| Fields.RevocationStored | internal/mission/advanced_governance_service.go:153-185 | what a revocation stores |
| Fields.BindingAllowedMeans | internal/mission/credential_broker_service.go:259-298 | a request may only fill in what the projection leaves open, within the mission's scope |
| Fields.ExchangeSucceeds | internal/mission/credential_broker_service.go:21-115 | exactly when an exchange succeeds |
| Fields.ExchangeStored | internal/mission/credential_broker_service.go:62-127 | the credential signed and the record stored |
| Fields.FindRecordMeans | internal/mission/credential_broker_service.go:427-434 | the first record of those identifiers |
| Fields.CredentialVerifies | internal/mission/credential_broker_service.go:147-245 | exactly when a credential verifies, what the caller expects included |
| Fields.LeaseSucceeds | internal/mission/advanced_governance_service.go:187-225 | exactly when a lease is created, and the lease stored |
| Fields.RefreshSucceeds | internal/mission/advanced_governance_service.go:227-271 | exactly when a lease is refreshed, and the lease stored |
| Fields.NegotiationSucceeds | internal/mission/grand_governance_service.go:11-68 | exactly when a negotiation is stored, and its outcome |
| Replay.CascadeLogFollows | internal/mission/service.go:638-692 | the log of a cascade leads the replayed histories exactly to the missions after it |
| Replay.CascadeLogOnce | internal/mission/service.go:638-692 | a cascade logs exactly one event for every mission it changes and none for any other |
| Replay.VersionCounts | internal/mission/service.go:665-692 | a mission's version is one, plus its approved expansions, plus its state changes, of which there are at most two |
| Replay.LogInFields | internal/mission/service.go:665-692 | each change of a mission goes one version up from the changes before it, and the last tells version and state |
| Runs.StepKeeps | internal/mission/service.go:228-692 | every operation keeps the invariant and changes missions, projections, leases, requests and records only as they may evolve |
| Runs.RunKeeps | internal/mission/service.go:228-692 | so does every run |
| Runs.CreatedKeeps | internal/mission/service.go:275-283 | a new mission enters at version one with its event |
| Runs.TransitionKeeps | internal/mission/service.go:665-692 | a transition bumps the version with its event and never leaves a terminal state |
| Runs.EndKeeps | internal/mission/service.go:527-541 | a cascade keeps the log faithful to every mission it moves |
| Runs.ProjectKeeps | internal/mission/advanced_governance_service.go:15-117 | creating a projection keeps the invariant |
| Runs.ExchangeKeeps | internal/mission/credential_broker_service.go:21-145 | an exchange adds a record within every bound and a credential whose binding the mission allows at that version |
| Runs.RevokeKeeps | internal/mission/advanced_governance_service.go:153-185 | revoking a projection revokes its records and keeps their bounds |
| Runs.DecideKeeps | internal/mission/governance_service.go:216-296 | decisions keep the invariant |
| Runs.SubmitKeeps | internal/mission/advanced_governance_service.go:304-392 | submissions keep approvers distinct and keep the invariant |
| Evaluation.AllowedIffAuthorized | internal/mission/service.go:299-398 | before any bundle, the answer allows iff the mission is active and in its window, the actor bound, the version seen current, no rule in force matches, the action is in scope with its constraints, and every condition holds |
| Evaluation.CallerAnswers | internal/mission/service.go:299-370 | which other answer is given when: denial, refresh, expansion, approval |
| Evaluation.ConditionAnswers | internal/mission/service.go:371-389 | the first condition that does not hold denies, suspends, or is an error |
| Evaluation.ApprovalIsAsked | internal/mission/service.go:340-362 | where approval is required the action's own authority has been asked for |
| Evaluation.ConditionsRecorded | internal/mission/service.go:300-389 | the evidence holds condition results of exactly the requests that are heard, current and in scope |
| Evaluation.AnswersMatchStore | internal/mission/service.go:299-398 | a mission is suspended exactly by the answer that says so, expires exactly outside its window, and else stays |
| Evaluation.EvidenceInFields | internal/mission/service.go:591-610 | the evidence says what was answered to whom and why |
| Evaluation.FinalAllowIsAuthorized | internal/mission/service.go:551-561 | whatever bundles are stored, under the one in use for the mission's tenant a final allowing answer implies all of that |
| Evaluation.FinalizedStricter | internal/mission/policy_service.go:133-146 | the bundle in use only makes an answer stricter |
| Evaluation.FindingUnique | internal/mission/policy_service.go:133-146 | where rule keys are distinct, the stored bundles decide answer, bundle and rule results |
| Evaluation.ResumedInFields | internal/mission/service.go:400-443 | resumption is allowed iff the mission is active and in its window, the actor bound, the version seen current, and no rule in force matches; stale only, it must be refreshed; else denied |
| Evaluation.RadiusBlocksEvaluation | internal/mission/grand_governance_service.go:145-187 | a mission in the radius of a rule in force is denied evaluation and resumption |
| Evaluation.EvaluationIsRun | internal/mission/service.go:299-398 | whatever an evaluation does to the store is at most one operation |
| Evaluation.WindowDecidesExpiry | internal/mission/service.go:304-311 | an evaluation, and a resumption, expires a live mission iff it has not started or its set end has passed |
| Evaluation.ExpiryIsFinal | internal/mission/service.go:707-716 | and the mission stays as it is for the rest of every run |
| Guarantees.LogTellsAll | internal/mission/service.go:665-692 | in every reachable state replaying the version-changing events, without a gap, yields every mission's state and version |
| Guarantees.LogIsGapless | internal/mission/service.go:665-692 | so in every reachable state |
| Guarantees.VersionDeterminesMission | internal/mission/store.go:261-269 | a mission read twice under one version is the same mission |
| Guarantees.ValidCredentialIsCurrent | internal/mission/credential_broker_service.go:147-245 | a credential that verifies was issued at the present version, and any action it is bound to is in the present authority |
| Guarantees.IssuedCredentialVerifies | internal/mission/credential_broker_service.go:21-245 | a credential with fresh identifiers verifies where it was just issued iff its end is not already reached |
| Guarantees.CreatedProjectionVerifies | internal/mission/advanced_governance_service.go:15-151 | a projection verifies where it was just created: containment that did not stop its creation does not stop it |
| Guarantees.RevocationIsFinal | internal/mission/advanced_governance_service.go:153-185 | once a projection is revoked, for the rest of every run it neither verifies nor exchanges, and no credential drawn from it verifies |
| Guarantees.OverForever | internal/mission/service.go:665-692 | a version that has passed, or a mission that has left active, stays so for the rest of every run |
| Guarantees.InvalidForever | internal/mission/credential_broker_service.go:182-245 | from then on no credential of that version verifies, no projection exchanges, no lease refreshes |
| Guarantees.ExchangesBounded | internal/mission/credential_broker_service.go:41-115 | in every reachable state exchange nonces differ, scopes and expiries are within projection, mission and 300 seconds, the projection ends no later than its mission, and a revoked projection has every record revoked and stays revoked |
| Guarantees.LeasesBounded | internal/mission/advanced_governance_service.go:187-271 | in every reachable state a lease ends within 300 seconds of its creation or last refresh and no later than its mission |
| Guarantees.QuorumReached | internal/mission/advanced_governance_service.go:304-405 | when a step approves a request that a rule matches, at least as many records of pairwise distinct approvers exist as the first governing rule requires |
| Guarantees.GovernedNeedsQuorum | internal/mission/advanced_governance_service.go:304-405 | no step approves a request that a stored rule governs without the records the first such rule asks |
| Guarantees.DirectNeedsNoRule | internal/mission/governance_service.go:227-233 | a direct decision approves only where every stored rule names another tenant, type, identifier, operation or risk |
| Guarantees.SubmissionQuorum | internal/mission/advanced_governance_service.go:304-392 | a submission approves only with enough records |
| Guarantees.RadiusBlocksMission | internal/mission/authority_guard.go:33-63 | a mission in the radius of a rule in force neither delegates nor has an expansion requested |
| Guarantees.RadiusBlocksProjection | internal/mission/authority_guard.go:33-63 | a projection in the radius neither verifies nor exchanges, and no credential drawn from it verifies |
| Guarantees.BlockedProjectionInRadius | internal/mission/authority_guard.go:33-63 | conversely a projection the guard stops is in such a radius, or the rule names its mission by identifier |
| Guarantees.RadiusBlocksLease | internal/mission/advanced_governance_service.go:227-271 | a lease in the radius is not refreshed |
| Guarantees.RadiusBlocksApproval | internal/mission/governance_service.go:298-312 | a request in the radius is neither approved nor given a record |
| Guarantees.BlockedLeaseInRadius | internal/mission/authority_guard.go:33-63 | conversely a lease the guard stops is in such a radius, or the rule is of one of the three omitted kinds |
| Guarantees.BlockedExpansionInRadius | internal/mission/authority_guard.go:33-63 | conversely for expansion requests, with the identifier case named |
| Attenuation.InheritsExact | internal/mission/evaluator.go:12-65 | being within a parent, in scope, prohibitions, conditions and expiry, is what a caller can check, but for globs against globs |
| Attenuation.DelegationAttenuates | internal/mission/service.go:445-525 | what a delegation stores lies one level below its parent within its depth, keeps its prohibitions and conditions and ends no later; and its scope lies within iff the sharper check passes, but for globs against globs |
| Attenuation.ExpansionWithinParent | internal/mission/governance_service.go:247-254 | an approved expansion of a delegated mission, malformed grants included, keeps it within its parent iff the parent allows every action of every well-formed grant, but for globs against globs |
| Attenuation.ExpansionMayEscape | internal/mission/governance_service.go:241-254 | a witness: both may read, and the child is granted writing |
| Attenuation.ProposalParentUnchecked | internal/mission/service.go:199-214 | an approved proposal keeps delegated missions in order iff it names no parent, or passes the finite checks of a delegation from the one it names; with scope, but for globs against globs |
| Attenuation.OrphanBreaksTree | internal/mission/service.go:199-214 | a witness: any proposal that names a parent, approved in the empty store |
| Attenuation.RunAttenuated | internal/mission/service.go:445-525 | runs whose proposals name no parent keep each delegated mission in order below its parent, whatever is delegated and approved; and within its scope, where delegations and expansions pass the check against the parent |
| Attenuation.ChainAttenuated | internal/mission/service.go:486-507 | attenuation carries along any chain of parent links, and the depth counts the links |
| Attenuation.NoCycles | internal/mission/service.go:479-481 | in every run whose proposals name no parent, no mission is its own ancestor |
| Attenuation.AncestorsBound | internal/mission/service.go:445-525 | in every state of every such run a delegated mission serves each ancestor's tenant and principal, lies as deep below it as there are links, and is within its prohibitions, conditions and expiry; and within its scope, where the checks pass |
| Interleaving.SuccessIsCurrent | internal/mission/store.go:341-373 | where the compare-and-set succeeds, what the call read is what is stored |
| Interleaving.NextKeeps | internal/mission/governance_service.go:216-296 | every step of every interleaving keeps the invariant and what calls in flight have read |
| Interleaving.AdvanceKeeps | internal/mission/governance_service.go:216-296 | concurrent decisions break nothing that holds of atomic ones |
| Interleaving.ApprovalMergesIntoPresent | internal/mission/governance_service.go:247-289 | in every interleaving a successful approval merges into the authority now stored, on an active mission, one version up, and writes nothing else |
| Interleaving.SuccessDecides | internal/mission/store.go:341-373 | a successful commit decides its request |
| Interleaving.DecidedOnce | internal/mission/store.go:341-373 | in every interleaving each request is decided at most once and keeps its decision |
| Store.SortedKeys | internal/mission/store.go:271-290 | listings are in the order of their keys and complete |
| Store.MemoryStore.CommitProposalApproval | internal/mission/store.go:223-239 | all three writes or none |
| Store.MemoryStore.SaveMission | internal/mission/store.go:241-249 | inserts, or conflicts on a stored reference |
| Store.MemoryStore.UpdateMission | internal/mission/store.go:261-269 | overwrites whatever is stored under the reference |
| Store.MemoryStore.ChildrenOf | internal/mission/store.go:271-290 | exactly the stored missions with that parent, each once, in order |
| Store.MemoryStore.SaveExpansionRequest | internal/mission/store.go:311-319 | inserts, or conflicts |
| Store.MemoryStore.CommitExpansionDecision | internal/mission/store.go:341-373 | compares status and version, then writes request, mission and event, or nothing |
| Store.MemoryStore.SaveProjection | internal/mission/store.go:543-551 | inserts, or conflicts |
| Store.MemoryStore.UpdateProjection | internal/mission/store.go:563-571 | overwrites a stored projection |
| Store.MemoryStore.SaveMissionLease | internal/mission/store.go:592-600 | inserts, or conflicts |
| Store.MemoryStore.UpdateMissionLease | internal/mission/store.go:612-620 | overwrites a stored lease |
| Store.MemoryStore.SaveAuthorityNegotiation | internal/mission/store.go:692-700 | inserts, or conflicts |
| Store.MemoryStore.SaveEvaluationEvidence | internal/mission/store.go:394-402 | inserts, or conflicts |
| Store.MemoryStore.SaveApprovalRecord | internal/mission/store.go:670-681 | appends, or conflicts iff that subject and issuer already approved |
| Store.MemoryStore.MatchingApprovalRule | internal/mission/advanced_governance_service.go:394-405 | the matching rule of least identifier, or none matches |
| Store.MemoryStore.ListActiveContainmentRules | internal/mission/governance_read.go:32-51 | exactly the rules in force, in the order of their identifiers |
| Store.MemoryStore.Check | internal/mission/authority_guard.go:33-63 | answers the rule in force of least identifier that matches the mission or the projection, or none; not found if the projection's mission is not stored |
| Service.Service.Transition | internal/mission/service.go:665-692 | the mission moves with its event, a terminal one stays |
| Service.Service.Revoke | internal/mission/service.go:527-533 | not found, or the cascade to revoked |
| Service.Service.Complete | internal/mission/service.go:535-541 | not found, or the cascade to completed |
| Service.Service.ApproveProposal | internal/mission/service.go:228-297 | the proposal becomes an active mission at version one |
| Service.Service.Delegate | internal/mission/service.go:445-525 | each refusal in its order, or the child mission and its event |
| Service.Service.Evaluate | internal/mission/service.go:299-398 | the assessed answer, finalized by the bundle in use for the mission's tenant and kept as evidence; allowing answers are authorized; the store changes by at most one operation, the evidence and a note |
| Service.Service.Assess | internal/mission/service.go:299-338 | every refusal before the action is looked at, in its order, and what it stores |
| Service.Service.AssessAction | internal/mission/service.go:339-370 | outside the scope a risky action asks for expansion, another is told to |
| Service.Service.AssessConditions | internal/mission/service.go:371-397 | the conditions allow, deny or suspend, and their results are recorded |
| Service.Service.Finalize | internal/mission/service.go:551-626 | the bundle's answer, kept with its condition and rule results as evidence and noted in the log, unless a rule could not be evaluated |
| Service.Service.Resume | internal/mission/service.go:400-443 | every answer in its order; the store changes only by expiry |
| Service.Service.ActivatePolicyBundle | internal/mission/policy_service.go:45-83 | not found, or the bundle is activated, in use for its tenant and logged |
| Service.Service.CreateAuthorityNegotiation | internal/mission/grand_governance_service.go:11-68 | each refusal in its order, or the stored outcome and its event |
| Service.Service.CreateExpansionRequest | internal/mission/governance_service.go:164-214 | each refusal in its order, or the pending request |
| Service.Service.DecideExpansionRequest | internal/mission/governance_service.go:216-296 | the decision, its error, and its whole effect |
| Service.Service.PrepareDecision | internal/mission/governance_service.go:240-287 | the commit computed from one reading |
| Service.Service.RecordSubmission | internal/mission/advanced_governance_service.go:304-354 | each refusal, or the record and the number required |
| Service.Service.SubmitExpansionApproval | internal/mission/advanced_governance_service.go:304-392 | record, then wait or decide, answering the approvals required and received; the record stays when the decision fails |
| Service.Service.CreateProjection | internal/mission/advanced_governance_service.go:15-117 | each refusal, or the projection and its token |
| Service.Service.IssueProjection | internal/mission/advanced_governance_service.go:100-117 | the projection is stored and its token signed, or the identifier is taken |
| Service.Service.Admit | internal/mission/credential_broker_service.go:21-88 | each refusal of an exchange, or the credential's payload |
| Service.Service.ExchangeProjectionToken | internal/mission/credential_broker_service.go:21-145 | the credential is signed and recorded on the projection |
| Service.Service.RevokeProjection | internal/mission/advanced_governance_service.go:153-185 | the loop revokes every record; a revoked projection is left alone |
| Service.Service.VerifyProjection | internal/mission/advanced_governance_service.go:127-151 | valid iff signed, stored, unrevoked, not contained and unexpired |
| Service.Service.VerifyCredentialAccessToken | internal/mission/credential_broker_service.go:147-245 | valid iff signed, recorded and usable on the present mission, and not contained |
| Service.Service.CreateMissionLease | internal/mission/advanced_governance_service.go:187-225 | each refusal, or the lease with its bounded expiry |
| Service.Service.RefreshMissionLease | internal/mission/advanced_governance_service.go:227-271 | each refusal, or the renewed expiry |

## Left out

- SubsetAttenuates: exact but where a glob of the child stands against a glob of the parent, that is, where the child's pattern is neither a literal nor everything nor a tree and a pattern of the parent with glob characters of its own matches its text (Authority.Comparable); there the check is only enough, as inclusion of glob languages is not modelled. The same holds of AttenuableExact, PatternWithinExact, ProposalWithin, InheritsExact, DelegationAttenuates, ExpansionWithinParent and ProposalParentUnchecked.
- RunAttenuated: supposes of the run that proposals name no parent and references are not empty, and for scope that the checks pass; ProposalParentUnchecked, ExpansionWithinParent and SubsetAttenuates say exactly what happens otherwise.
- AncestorsBound: does not bound a child's maximum depth, because the code takes it from the request unchecked.
- VerifyProjection: like the code it looks at neither the mission's version nor its state.
- EvaluateConditions: a condition's value is an arbitrary function of its expression; parsing, dotted lookups and value comparison are not modelled.
- Evaluate: hashes, signatures, the decision artifact and the time of the evidence are not modelled.
- Runs: assumes that the tokens a caller presents were signed by the service exactly if the service issued them; HMAC, base64 and JSON are not modelled.
- Interleaving: only decisions on expansion requests are split into reads and a commit; other calls are atomic, since `UpdateMission` and `UpdateProjection` are blind writes that concurrent calls could overwrite. Whether the guard stops a call in flight is left open, as is the direct path's look at approval rules.
- RelatedMissionClosure: is the in-memory closure; the SQL lineage query omits siblings and is not modelled. References are nonempty, as the service generates them.
- MatchingApprovalRule: rules apply to expansions only, so the filter on what a rule applies to is not modelled.
- CreateProposal's validation and defaults, and the creation of approval rules and containment rules: values that runs may add to the store.
- normalizePolicyBundle: bundles enter as drafts with their rules; ActivatePolicyBundle neither hashes nor signs.
- Signed decision artifacts, human-readable reasons, escalation addresses, rationales and metadata fields.
- Scope lists are sets where the code keeps them sorted and without repetitions; claims of a projection are the scope list read from them.
- One clock reading per call, where the code sometimes reads twice.
- `path.Match` is modelled on characters after its documentation, as Go's standard library is not part of this repository: the model looks for a match over all ways to place the stars, where Go's matcher commits to the first place each part after a star fits. They differ only where a class that can match a slash follows a star: `*[ax/]*b` matches `xx/b` here and not there. No result depends on such patterns.
- Go's aliasing of slices and maps, locking, cancellation of contexts, and store failures.
- HTTP handlers, administrator authentication, PostgreSQL beyond the tenant filter, the outbox, pagination and list filters, the lineage graph builder, agent and tool registration, and the connectors to other products.
