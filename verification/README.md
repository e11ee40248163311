# A model of basement's restore engine, elevation protocol, role menu, service accounts and usage page

basement is a self-hosted console for object-storage clusters. This project models five pieces of its
`internal/api` package whose correctness is not visible in any one function body, and proves what they
promise over every interleaving, every run or every input.

**Snapshot restore** (`Restore*.dfy`). A listing loop pages through a snapshot and starts one goroutine per
object, throttled by a 4-slot semaphore, counting under a mutex and drained by a WaitGroup. `RestoreModel`
holds the sequential reference, `RestoreMachine` the atomic steps of all threads, `RestoreSafety` the
invariant, `RestoreRuns` deadlock freedom and termination, `RestoreRefinement` the theorem that every
interleaving computes the sequential restore, `RestoreResume` re-running, `RestorePaging` the continuation
loop, `RestoreRequest` key mapping and the copy of one object, `RestoreDestination` what a run does in terms of the request alone, and `RestoreEngine` the engine as a class whose
fields the threads update.

**Elevation** (`ElevationStore`, `Sessions`, `SessionRuns`, `SessionRequests`, `AuthServer`). Sessions enter admin mode by a
password or by an OIDC round trip through a single-use, five-minute state store. `Sessions` says what each
request decides and does; `SessionRuns` proves properties of whole runs, where a request may present any cookie
ever issued and administrators change settings at any time; `SessionRequests` states in plain terms when each
request succeeds and what it issues; `AuthServer` has the handlers as methods of a class
that update the server's state and refine those steps, and a driver that serves any series of requests.

**Role menu and role gate** (`RoleMenu`). The list of roles offered to a user, built by nested loops, against
the separately written check that guards a switch.

**Service accounts** (`Scopes`, `Policy`, `ServiceAccounts`, `ServiceAccountRequests`, `ServiceAccountServer`). The scope grammar, the
capability registry and its wildcards, role-based and grant-based decisions, and the rule that a grant may not
exceed what its minter holds when it is written.

**Usage overview** (`Bags`, `Sorting`, `Usage`, `UsageProperties`). A fan-out whose results arrive in any order,
then totals, a sorted table and two top-ten lists.

## What is assumed

- Restore: the listing does not change during a run, keys carry the snapshot prefix and do not repeat
  (`StrayKeyCollides` shows what goes wrong otherwise); the destination is disjoint from the snapshot; a copy
  either writes the source's content or changes nothing; a stat never succeeds on an absent key, though it may
  fail on a present one. Each key is statted and copied at most once in a run, so the drivers' answers are
  fixed beforehand without losing behaviour.
- Elevation: a server starts having issued no cookie; its clock does not go backwards; one handler reads one
  time. No assumption is made that minted states differ.
- Service accounts: a new account gets an identifier not yet in use. A handler is one atomic step; in the code the
  authority check and the store's write are separate, so a policy change could fall between them.
- Service accounts: `Machine` callers over-approximate who reaches the handlers. A bearer token's session has the
  role service_account (internal/auth/bearer.go:163-170), which the route's own gates refuse
  (internal/api/server.go:523-525), so only `Human` callers get that far; what holds for every run of the larger
  set holds for theirs.

## Where the code differs from what it says

- The OIDC callback is said to prove that the user has signed in again (internal/api/auth_elevate_oidc.go:305-308).
  It discards the verified token's subject (line 298), so what it proves is that someone has, in a browser holding a
  session of that user; the subject stored with the user (internal/store/users.go:26) is not compared. Admin mode
  always goes back to the user's own re-authentication if and only if OIDC is not configured: `OwnReauthIff`, and
  `OtherSubjectAccepted` shows a run where it does not.
- A restore without overwriting is documented to leave every existing key alone
  (internal/api/backup_restore.go:22-27). The code takes any error of the stat call for absence, so an existing
  key survives exactly when its stat does not fail: `ExistingKeyKeptIff`, and `ExistingKeyLost` shows a
  run that replaces one.
- A page marked truncated but without a token ends the loop with no error, and the run reports success. A
  successful run is complete exactly when no such page was served: `SuccessIsCompleteIff`, and
  `IncompleteSuccess` shows a run that copies one of two objects.
- Were the server's policy field nil, the gate would let every user switch to any cluster while the menu would list
  none for ordinary users: `GateOpenWithoutPolicy`. For connected clusters the two agree exactly when the field is
  set or the user is a UI admin: `AgreementIff`. No server built by `New` has a nil field (internal/api/server.go:161
  installs the permissive enforcer, which has no assignments and so counts as a policy without grants), so this
  concerns the handlers' own guards, not a deployment.
- The scope grammar's documentation (internal/api/admin_service_accounts.go:120-131) gives a bucket or key scope a
  named cluster. The validator also accepts `*` there: `bucket:*:photos` is valid (`UndocumentedAccepted`), and a
  valid scope is documented exactly when it is not a bucket or key scope whose first segment is `*`
  (`DocumentedIff`). The model follows the validator.

## What a promise rests on

- The usage table is said to render consistently across refreshes because it is sorted by label. The sort is not
  stable, so this rests on the connection store refusing duplicate labels (internal/store/connections.go:518-527):
  it holds exactly when no two connections share a label (`TableStableIff`), and `OneLabelTwoTables` shows two that
  do.

## Model

| member | source | states |
|---|---|---|
| RestoreRefinement.RunRefinesSequential | internal/api/backup_restore.go:202-270 | Every finished interleaving of the listing loop and the copy goroutines ends with the destination, the three counters and the capped error count of the sequential fold over the visited objects |
| RestoreRefinement.RestoredDestination | internal/api/backup_restore.go:187-270 | Key by key: a target holds the source content if its object was eligible, overwriting was set or the stat did not find the key before the run, and its copy succeeded; every other key is as before |
| RestoreDestination.RestoredAt | internal/api/backup_restore.go:195-264 | With keys spelled out: a listed object at prefix + rel, neither directory nor the prefix itself, not skipped and with a copy that goes through (server-side or by streaming), is at the end at `rel`, or at `p/rel` for a destination prefix `p` or `p/`, with its source content; every key no such object lands on is as before |
| RestoreDestination.LandsAtIff | internal/api/backup_restore.go:195-233 | The key the code computes is the one spelled out |
| RestoreDestination.OneSlash | internal/api/backup_restore.go:195-233 | Under `restored` and `restored/` alike, `rel` lands at `restored/rel` |
| RestoreDestination.FateIs | internal/api/backup_restore.go:220-264 | Which objects are ignored, skipped, copied or fail, spelled out on the request |
| RestoreDestination.ErrorsAreReal | internal/api/backup_restore.go:207-262 | There are as many messages as failures, at most ten, and each is of a listing call or a copy that failed |
| RestoreDestination.WaitsOnlyForFour | internal/api/backup_restore.go:246-250 | A copy waits for a slot exactly while four goroutines hold one |
| RestoreRefinement.SuccessAndConservation | internal/api/backup_restore.go:132-138 | The run reports no error exactly when no listing call and no copy failed; copied + skipped + failed is the number of eligible visited objects, copied the number of those whose fate is to be copied and bytesCopied the sum of their sizes |
| RestoreRefinement.ExistingKeyKeptIff | internal/api/backup_restore.go:235-245 | Without overwriting, an existing key whose copy would go through and whose content differs keeps its content if and only if its stat does not fail |
| RestoreRefinement.ExistingKeyLost | internal/api/backup_restore.go:238-245 | A concrete request, listing and finished run without overwriting in which an existing key's content is replaced |
| RestoreRefinement.Settled | internal/api/backup_restore.go:202-267 | Once the goroutines of the first n objects are done, their writes and tallies add up to the sequential restore of those objects |
| RestoreRefinement.FinalState | internal/api/backup_restore.go:267-270 | After the wait returns, the shared variables are those of the sequential restore |
| RestoreRuns.PoolSafeAndLive | internal/api/backup_restore.go:202-267 | In every reachable state at most 4 goroutines hold a slot; until the call returns some step is enabled; after it returns every goroutine is done and no step exists; run length is bounded by the listing |
| RestoreRuns.Finish | internal/api/backup_restore.go:202-267 | Any partial interleaving extends to a finished one |
| RestoreRuns.QuietAfterReturn | internal/api/backup_restore.go:267-270 | Once the call has returned, every goroutine is done and no thread can step |
| RestoreRuns.SomeStepEnabled | internal/api/backup_restore.go:202-267 | No deadlock between semaphore, mutex and WaitGroup: under the invariant, an unreturned engine can step |
| RestoreRuns.NextPreserves | internal/api/backup_restore.go:202-267 | Every step of every thread keeps the invariant and strictly decreases the measure |
| RestoreRuns.RunInv | internal/api/backup_restore.go:202-267 | The invariant holds in every state of every run |
| RestoreRuns.RunBounded | internal/api/backup_restore.go:214-266 | Step k of a run leaves at most 12 per visited object, 5 per page and 4, less k, steps |
| RestoreSafety.InitInv | internal/api/backup_restore.go:202-214 | The invariant holds when the loop starts |
| RestoreSafety.MainPreserves | internal/api/backup_restore.go:214-267 | Every step of the listing thread keeps listing position, goroutines, decision, mutex, counters, destination and errors consistent |
| RestoreSafety.WorkerPreserves | internal/api/backup_restore.go:248-264 | Every step of a copy goroutine keeps the same |
| RestoreSafety.StatSeesStart | internal/api/backup_restore.go:235-245 | When an object's skip check runs, its target still is as it was before the run, whatever goroutines have written |
| RestoreMachine.OverlayUpdate | internal/api/backup_restore.go:248-264 | A write landing at any time equals the same write in listing order, because targets differ |
| RestoreMachine.TotalIdle | internal/api/backup_restore.go:246-267 | The WaitGroup count of goroutines is zero exactly when all are done, and slots in use never exceed it |
| RestoreModel.RestoreAllMeaning | internal/api/backup_restore.go:187-270 | The sequential fold writes snapshot content at exactly the targets of copied objects and leaves all other keys |
| RestoreModel.FateStable | internal/api/backup_restore.go:235-245 | No write of the fold changes the skip decision of a later object |
| RestoreModel.FateTotals | internal/api/backup_restore.go:202-270 | The three counters of the fold count the objects by fate, bytes is the sum of sizes of the copied ones, and every eligible object is counted once |
| RestoreRequest.DstKeyInjective | internal/api/backup_restore.go:195-233 | Two keys under the prefix map to one destination key only if they are equal |
| RestoreRequest.TargetsDistinct | internal/api/backup_restore.go:219-233 | Objects of a well-formed listing have distinct targets |
| RestoreRequest.StrayKeyCollides | internal/api/backup_restore.go:224-233 | A key outside the prefix can share a target with one inside |
| RestoreResume.RestoreResumes | internal/api/backup_restore.go:214-260 | Without overwriting: a run cut off anywhere by a listing error and with any failed copies, then a complete failure-free run, leaves the destination of one complete run; the second skips instead of copying exactly what the first copied; a third copies nothing and skips every eligible object; under any interleaving of each |
| RestoreResume.ResumesFromAnywhere | internal/api/backup_restore.go:214-260 | Without overwriting: a run stopped in any reachable state, its process killed even, then one complete failure-free run, leaves the destination of that complete run alone |
| RestoreResume.LandedIsRestore | internal/api/backup_restore.go:248-264 | In every reachable state the writes landed so far are a sequential restore of the objects gone by |
| RestoreResume.SecondRunOnlyRetries | internal/api/backup_restore.go:235-260 | The second run starts a copy only for objects the first failed on or never reached |
| RestoreResume.SameDestination | internal/api/backup_restore.go:235-260 | Resuming after any prefix of the listing and not having been interrupted give the same destination |
| RestoreResume.CountsAfter | internal/api/backup_restore.go:235-260 | What the first run copied turns from copied to skipped in the second, and nothing else changes |
| RestorePaging.WalkVisits | internal/api/backup_restore.go:214-266 | For every way of cutting a listing, the empty one included, into pages, an empty last page included, the loop visits a prefix of it, each object once and in order; if no call failed, all of it exactly when no truncated page lacked a token |
| RestorePaging.Walk | internal/api/backup_restore.go:214-266 | The loop ends when each page that leads to another has an object, with the unlisted objects as measure |
| RestorePaging.ListingUnique | internal/api/backup_restore.go:214-266 | The lister determines the chain of pages the loop sees |
| RestorePaging.SuccessIsCompleteIff | internal/api/backup_restore.go:263-266 | A run without errors has handled the whole snapshot if and only if no page was truncated without a token, and then restored it as the sequential fold over the whole listing would |
| RestorePaging.IncompleteSuccess | internal/api/backup_restore.go:263-266 | A concrete listing of two objects and finished run that reports no error and copies one |
| RestoreEngine.CopyRestoreTree | internal/api/backup_restore.go:187-270 | Under any scheduler the engine returns, without getting stuck, with the results of the sequential restore |
| RestoreEngine.Engine.ListingStep | internal/api/backup_restore.go:214-267 | One step of the listing loop on the shared fields refines the machine's step |
| RestoreEngine.Engine.CopyStep | internal/api/backup_restore.go:248-264 | One step of a goroutine on the shared fields refines the machine's step; slot before WaitGroup, as deferred |
| RestoreMachine.EarliestKept | internal/api/backup_runner.go:337-346 | Of any series of messages exactly the first ten are kept, in order |
| ElevationStore.StateStore.Put | internal/api/auth_elevate_oidc.go:95-105 | Inserts the entry and drops exactly the expired others: all that remain are within the TTL |
| ElevationStore.StateStore.Take | internal/api/auth_elevate_oidc.go:110-122 | Removes the entry and returns it only within the TTL |
| ElevationStore.SweepUnobservable | internal/api/auth_elevate_oidc.go:95-122 | Refinement: for every history under a clock that does not retreat, each take answers as in a store that never sweeps |
| ElevationStore.SweepObservableIfClockRetreats | internal/api/auth_elevate_oidc.go:95-122 | A concrete history under a retreating clock in which the sweep shows |
| ElevationStore.TakeAnswersExactly | internal/api/auth_elevate_oidc.go:110-122 | A take answers the latest put of its state if no take of it came since and it is at most five minutes old, and nothing otherwise |
| ElevationStore.SingleUse | internal/api/auth_elevate_oidc.go:107-122 | After a take, the state is dead until it is put again |
| SessionRuns.AdminDescends | internal/api/auth_elevate.go:199-228 | In every run, every issued admin session carries the expiry fixed by a re-authentication made in a session of its user (the user's correct password, or a callback with a pending state of that user, its nonce and auth_time within 60 s either way); role switches hand mode and expiry on, drops reset them |
| SessionRuns.AdminWindow | internal/api/auth_elevate.go:199-228 | Whenever a session's effective mode is admin, such a re-authentication lies less than the TTL then in force, hence less than 24 hours, back |
| SessionRuns.OwnReauthIff | internal/api/auth_elevate_oidc.go:298-314 | From any fresh server, every admin session of every run goes back to its user's own re-authentication (password, or a token with the user's stored subject) if and only if OIDC is not configured |
| SessionRuns.OtherSubjectAccepted | internal/api/auth_elevate_oidc.go:225-371 | A concrete run in which a callback whose token has another subject puts the user's session in admin mode |
| SessionRuns.AdminIssuers | internal/api/auth.go:541-566 | A session is in admin mode if and only if a re-authentication issued it or an admin session was switched into it, which hands its expiry on; sessions from signing in and from dropping are user-mode at all times |
| SessionRuns.TTLBounds | internal/store/org_capabilities.go:217-228 | The admin session lasts between 60 seconds and 24 hours whatever is stored |
| SessionRuns.ActiveRoleEarned | internal/api/auth.go:481-559 | In every run, a ui-admin session belongs to a UI admin and was issued while the mode was admin; a cluster-admin session names a cluster for which, with policy wired, its user was a UI admin or held a matching grant at the switch; the switch kept mode and expiry |
| SessionRuns.UIAdminNeedsReauth | internal/api/auth.go:516-536 | A ui-admin session goes back to a re-authentication in a session of its user within 24 hours before the switch |
| SessionRuns.IssuedBy | internal/api/auth.go:543-566 | Every session was issued by one successful request of the run |
| SessionRuns.CallbackCompletesStart | internal/api/auth_elevate_oidc.go:225-371 | Every successful callback completes an earlier start of the same user, at most five minutes before, for admin mode, with that start's nonce; its entry lay untouched in between |
| SessionRuns.CompletionInjective | internal/api/auth_elevate_oidc.go:225-371 | No start is completed by two callbacks |
| SessionRuns.PendingHasStart | internal/api/auth_elevate_oidc.go:141-213 | Every pending entry was made by a start of the run and has been there since |
| SessionRuns.StartStaysPending | internal/api/auth_elevate_oidc.go:95-122 | A start whose state no other request names stays pending for five minutes, sweeps notwithstanding |
| SessionRuns.CallbackIff | internal/api/auth_elevate_oidc.go:225-371 | A callback succeeds if and only if a start of the same user, at most five minutes old and neither replaced nor consumed since, minted its state and the nonce of its verified token, whose auth_time is within 60 seconds |
| SessionRequests.LoginIff | internal/api/auth.go:70-140 | A login succeeds exactly with the administrator's name and password and issues that administrator's user-mode session |
| SessionRequests.ElevateIff | internal/api/auth_elevate.go:94-275 | A password elevation succeeds exactly for a target that means admin, a user not known through the provider only, and that user's stored password; it issues an admin session of that user with the configured length; provider-only users are sent to the provider |
| SessionRequests.StartIff | internal/api/auth_elevate_oidc.go:141-213 | A start succeeds exactly for a session where OIDC is configured; it records user, nonce and time under its state and forgets exactly the other entries older than five minutes |
| SessionRequests.CallbackIssues | internal/api/auth_elevate_oidc.go:225-371 | A successful callback issues an admin session of its user with the configured length; any callback that gets as far spends the state |
| SessionRequests.CallbackRefusals | internal/api/auth_elevate_oidc.go:231-330 | Each way a callback is refused, with its condition and in the order of the checks |
| SessionRequests.ModeIff | internal/api/policy_gates.go:64-112 | The effective mode of an issued session is admin exactly before the expiry of an admin session |
| SessionRequests.WindowIff | internal/api/auth_elevate.go:199-228 | At any later moment of the run, the session an elevation issued is in admin mode if and only if the configured length has not passed |
| SessionRequests.SwitchIff | internal/api/auth.go:443-575 | When a switch succeeds: always to user; to a cluster for UI admins and holders of a matching grant; to ui-admin for a UI admin whose admin window is in force, who is otherwise told to elevate; user, mode and expiry stay |
| SessionRequests.DropIff | internal/api/auth.go:326-376 | A drop issues a user-mode session of the same user |
| SessionRequests.NoSessionRefused | internal/api/auth.go:449-453 | A request without a session is refused and changes nothing |
| SessionRequests.LegacyMode | internal/api/policy_gates.go:64-112 | A cookie without a mode is in admin mode until the end of 2024; "elevated" means admin |
| AuthServer.Serve | internal/api/auth_elevate.go:199-228 | A server that dispatches any series of requests to its handlers ends, in its own fields, with every cookie now in admin mode going back to a re-authentication, less than 24 hours ago, in a session of its user, and every active role earned |
| AuthServer.Server.LoginHandler | internal/api/auth.go:70-140 | Success means the administrator's name and password, and adds one session that neither time nor a role switch takes into admin mode; failure adds none |
| AuthServer.Server.ElevateHandler | internal/api/auth_elevate.go:94-247 | The handler is the password elevation step, OIDC pivot included |
| AuthServer.Server.ElevateOIDCStartHandler | internal/api/auth_elevate_oidc.go:141-213 | The handler is the OIDC start step, through the swept store |
| AuthServer.Server.ElevateOIDCCallbackHandler | internal/api/auth_elevate_oidc.go:225-371 | The handler is the OIDC callback step: the state is consumed before code, token and freshness are checked |
| AuthServer.Server.ActiveRoleHandler | internal/api/auth.go:443-590 | The handler is the role switch step, with its grant search loop |
| AuthServer.Server.LogoutElevationHandler | internal/api/auth.go:326-376 | Success replaces the cookie by one of the same user that neither time nor a role switch takes into admin mode; pending elevations stay |
| AuthServer.FindGrant | internal/api/auth.go:498-512 | The search loop answers whether some assignment is a wildcard or exact grant |
| RoleMenu.ComputeAvailableRoles | internal/api/auth.go:158-255 | The nested loops build a canonical menu: user first, each offered cluster once under its label, ui-admin once and last exactly for UI admins; empty without a session |
| RoleMenu.AppendGrant | internal/api/auth.go:172-223 | One assignment adds every unlisted connection, or the unlisted cluster it names, under its label |
| RoleMenu.AppendConnections | internal/api/auth.go:176-195 | The inner loop adds each connection not yet listed, once |
| RoleMenu.FirstLabel | internal/api/auth.go:202-213 | The first connection with an id gives the label |
| RoleMenu.WhatOneOffers | internal/api/auth.go:172-223 | A grant offers every connected cluster or the one it names |
| RoleMenu.ListsCluster | internal/api/auth.go:158-255 | A cluster is on a canonical menu exactly when it is offered |
| RoleMenu.MenuIs | internal/api/auth.go:158-255 | The menu entry by entry: "User", one entry for each cluster offered by a grant, a wildcard or UI administration, captioned with the label of the first connection with its id or else the id, and "UI Admin" |
| RoleMenu.MenuMatchesGate | internal/api/auth.go:481-536 | User is listed and accepted; ui-admin is listed exactly when the gate answers success or a demand to elevate; with policy wired a cluster is listed exactly when the gate accepts it and it is connected or named by a grant |
| RoleMenu.AgreementIff | internal/api/auth.go:486-514 | For connected clusters menu and gate agree if and only if policy is wired or the user is a UI admin |
| RoleMenu.GateOpenWithoutPolicy | internal/api/auth.go:496-511 | A concrete server with a nil policy on which the gate accepts a connected cluster that the menu does not list |
| RoleMenu.MenuIgnoresOrder | internal/api/auth.go:163-254 | Menus for assignment lists with the same members, in any order and number, have the same entries and length |
| Scopes.ValidateServiceAccountScope | internal/api/admin_service_accounts.go:135-166 | The validator accepts exactly the strings that well-formed scopes print as |
| Scopes.ParsePrint | internal/api/admin_service_accounts.go:135-166 | Parsing by colon split undoes printing |
| Scopes.ValidIffParses | internal/api/admin_service_accounts.go:135-166 | Exactly the valid strings parse, and printing undoes parsing |
| Scopes.OneReading | internal/api/admin_service_accounts.go:135-166 | A scope string has one reading |
| Scopes.ValidIffSpelled | internal/api/admin_service_accounts.go:135-166 | The valid scopes, letter by letter |
| Scopes.DocumentedIff | internal/api/admin_service_accounts.go:120-166 | A valid scope has a documented form if and only if it is not a bucket or key scope with a wildcard cluster |
| Scopes.DocumentedIsValid | internal/api/admin_service_accounts.go:120-166 | Every documented form is accepted |
| Scopes.UndocumentedAccepted | internal/api/admin_service_accounts.go:155-162 | `bucket:*:photos` is accepted and not documented |
| Scopes.JoinSplit | internal/api/admin_service_accounts.go:139-139 | Joining undoes splitting, and no part contains a colon |
| Policy.ScopeMatchesTransitive | internal/auth/policy/enforcer.go:791-816 | Scope covering is transitive |
| Policy.ScopeMatchesIff | internal/auth/policy/enforcer.go:791-816 | A granted scope covers everything if `*`, itself, or all that continues its prefix before `:*` |
| Policy.ExpandIff | internal/auth/policy/capabilities.go:93-123 | An expression expands to exactly the registered capabilities it names, singly, by domain or all |
| Policy.CanIff | internal/auth/policy/enforcer.go:246-345 | A user may do what the role of an assignment covering the scope includes |
| Policy.GrantsAllowIff | internal/auth/policy/sa_check.go:58-124 | A live account may do what one of its capabilities includes at a scope that it and one of the account's scopes cover |
| Policy.RegisteredIsLeaf | internal/auth/policy/capabilities.go:93-123 | A registered capability expands to itself alone |
| ServiceAccounts.GrantWithinMinter | internal/api/admin_service_accounts.go:195-235 | A grant that passed the write-time check never allows a request its minter's role assignments did not cover at that moment |
| ServiceAccounts.CapabilitiesWereHeld | internal/api/admin_service_accounts.go:218-235 | In every reachable state each account's capabilities go back to one write at which its owner held every leaf at its scope; no event since has changed them, role changes and updates without capabilities included |
| ServiceAccounts.NeverExceedsOwner | internal/auth/policy/sa_check.go:58-81 | Whatever the grants decision allows a service account, its owner was allowed at its last capability write |
| ServiceAccounts.StepWritesOrKeeps | internal/api/admin_service_accounts.go:441-477 | Every request leaves an account's owner and capabilities alone or is a checked write of them |
| ServiceAccounts.RevokedForGood | internal/serviceaccount/store.go:367-459 | Over any run an account is never removed or handed over, and once revoked it stays revoked and the grants decision allows it nothing |
| ServiceAccounts.LiveNamesUnique | internal/serviceaccount/store.go:291-304 | In every reachable state two live accounts of one owner have different names |
| ServiceAccounts.GateKeepsRight | internal/api/policy_gates.go:175-314 | In no run does the gate on host:manage_users let a request through unless a person in admin mode holds it now, or a live account's owner held it when the account's capabilities were written |
| ServiceAccountRequests.CreateIff | internal/api/admin_service_accounts.go:241-321 | A create succeeds exactly for registered capabilities at valid scopes that the owner holds there, valid scopes, and a good name free among the owner's live accounts; it adds that one live row, else nothing changes |
| ServiceAccountRequests.UpdateIff | internal/api/admin_service_accounts.go:402-503 | An update succeeds exactly for an own row under the same conditions on what is submitted; it changes those fields of that row, else nothing |
| ServiceAccountRequests.CreateRefusals | internal/api/admin_service_accounts.go:264-311 | Each way a create is refused, with its exact condition |
| ServiceAccountRequests.UpdateRefusals | internal/api/admin_service_accounts.go:427-477 | Each way an update is refused, with its exact condition |
| ServiceAccountRequests.DeleteNow | internal/api/admin_service_accounts.go:509-549 | The owner's delete revokes the row, saved or not, and touches no other; anyone else's, or of an unknown id, changes nothing |
| ServiceAccountRequests.DeleteRevokes | internal/serviceaccount/store.go:445-459 | In every state after its owner's delete an account is revoked and its grants allow nothing |
| ServiceAccountRequests.RefusedIff | internal/api/policy_gates.go:175-314 | A request is refused exactly when it passes the gate as nobody, and then changes nothing |
| ServiceAccountRequests.NameIff | internal/serviceaccount/store.go:237-243 | Names are three to sixty-four letters, digits, underscores and hyphens |
| ServiceAccountRequests.LeavesIff | internal/api/admin_service_accounts.go:219-228 | The leaves checked are the capabilities an expression includes, or itself if none |
| ServiceAccountServer.Serve | internal/api/admin_service_accounts.go:195-235 | A server that dispatches any series of requests to its handlers ends with every row's capabilities going back to one checked write by its owner, and live names unique |
| ServiceAccountServer.RequireMinterAuthority | internal/api/admin_service_accounts.go:218-235 | The nested loop succeeds exactly when every leaf is held, and otherwise names the first leaf that is not, all before it being held |
| ServiceAccountServer.ValidateServiceAccountCapabilities | internal/api/admin_service_accounts.go:171-181 | Accepts exactly lists of registered capabilities at valid scopes |
| ServiceAccountServer.ValidateServiceAccountScopes | internal/api/admin_service_accounts.go:186-193 | Accepts exactly lists of valid scopes |
| ServiceAccountServer.FindTaken | internal/serviceaccount/store.go:291-304 | Scanning the rows in any order finds a live row of the owner and name exactly when there is one |
| ServiceAccountServer.Server.CreateServiceAccountHandler | internal/api/admin_service_accounts.go:241-321 | The handler and the store's insert are the create step |
| ServiceAccountServer.Server.UpdateServiceAccountHandler | internal/api/admin_service_accounts.go:402-503 | The handler and the store's patch are the update step; omitted fields stay |
| ServiceAccountServer.Server.DeleteServiceAccountHandler | internal/api/admin_service_accounts.go:509-549 | The handler and the store's soft delete are the delete step; a failing save answers an error and leaves the row revoked |
| Usage.FanOut | internal/api/admin_usage.go:122-163 | Whatever order the goroutines append in, the results are those of each connection once; a failing key listing costs only the key count |
| Usage.Aggregate | internal/api/admin_usage.go:171-228 | The loops compute one row per result, the list of all buckets, and totals that are the 64-bit sums over it |
| Usage.TotalsNext | internal/api/admin_usage.go:213-216 | Adding a row's wrapped sums keeps the totals equal to the wrapped sum over all buckets |
| Usage.TopBuckets | internal/api/admin_usage.go:231-248 | Sorting and truncating a copy gives a right top ten for either measure; the shared list is not modified |
| Usage.GetUsageOverview | internal/api/admin_usage.go:88-256 | For every completion order the page is a right overview of the connections: sorted rows, totals over all buckets, both top tens |
| Usage.OrderForgotten | internal/api/admin_usage.go:169-228 | Rows and buckets as multisets, and totals, do not depend on the order of results |
| UsageProperties.RowsShowAnswers | internal/api/admin_usage.go:140-221 | Every connection has a row and every row a connection: healthy exactly if the buckets were listed, then with their number, wrapped sums and the key count or 0; else zeros and the failure's text |
| UsageProperties.TopsShowLargest | internal/api/admin_usage.go:199-248 | Each top list holds at most ten listed buckets with their cluster, id, first alias and sizes, largest first; any listed bucket not on it is no larger than each of its ten |
| UsageProperties.WrapIs | internal/api/admin_usage.go:193-216 | Sums are 64-bit: congruent to the exact sum and equal to it while in range |
| UsageProperties.OneRowPerConnection | internal/api/admin_usage.go:180-221 | The table has exactly one row per connection, failed ones included |
| UsageProperties.TotalsAreHealthySums | internal/api/admin_usage.go:171-217 | Totals equal the sums over healthy rows, and a failed cluster's row is all zeros |
| UsageProperties.OrderIndependent | internal/api/admin_usage.go:223-256 | Any two right overviews have the same totals, rows up to ties, labels in the same order, and ranked values in both top tens |
| UsageProperties.TableStableIff | internal/api/admin_usage.go:223-228 | For connections with distinct ids, the table is the same on every refresh if and only if no two connections share a label |
| UsageProperties.OneLabelTwoTables | internal/api/admin_usage.go:223-228 | Two clusters under one label have two right tables that differ |
| UsageProperties.OnlyTableIff | internal/api/admin_usage.go:223-228 | A given table is the only right one if and only if no two different rows of it share a label |
| UsageProperties.OverviewExists | internal/api/admin_usage.go:223-256 | A right overview exists for all connections and answers |
| Sorting.BeforeIff | internal/api/admin_usage.go:226-228 | Labels are ordered by the first character in which they differ, a proper prefix first |
| Sorting.SortSlice | internal/api/admin_usage.go:226-246 | Sorts in place by any strict weak order, keeping the multiset |
| Sorting.SortedUnique | internal/api/admin_usage.go:223-228 | Without ties the sorted order is unique |
| Sorting.TruncatedIsTop | internal/api/admin_usage.go:231-248 | The first n of a ranking have length min(n, all), are sorted descending, are among all, and no omitted element exceeds one kept |
| Sorting.TopValuesUnique | internal/api/admin_usage.go:231-248 | Any two right tops rank the same values whatever ties they broke |

## Left out

- HTTP and JSON plumbing, status codes, cookie attributes, redirects and audit logging: a handler is a step with an outcome.
- JWT signing and JWT expiry: any cookie ever issued may be presented at any later time, which only adds runs.
- Cookies minted before modes existed: the effective-mode function covers them, but runs start with none issued.
- bcrypt, the OIDC exchange and ID-token verification: abstract facts of the configuration and of the provider's answer.
- Time passing inside one callback: the token exchange is instantaneous in the model.
- Other sign-ins (OIDC login, service-account bearer sessions): one event that issues a user-mode session for any user.
- ServiceAccounts.NeverExceedsOwner: speaks of the decision on an account's grants; a cookie that a bearer session gets by switching roles is judged by its owner's roles, and is not modelled here.
- ServiceAccounts.RevokedForGood: likewise speaks of the grants alone.
- Trimming of white space from names and prefixes in requests.
- RestoreEngine.CopyRestoreTree: models neither `resolveRestoreTimestamp` nor the resolution of connections before the call, nor 64-bit overflow of the byte counter.
- RestoreRefinement.RunRefinesSequential: does not model a destination that other clients write to during the run, or a copy that fails half-way with an effect.
- Service-account secrets, rotation and expiry times: whether the expiry lies ahead and whether the file can be written are given with the request.
- RestoreRuns.Finish: a listing that never ends is not modelled; `Walk` says when one ends.
- Usage.FanOut: the 5-slot semaphore and the 3-second deadline are not modelled as such; a deadline is a failing answer.
- Sorting.SortSlice: an insertion sort stands for the library's sort, whose algorithm is not part of this model; only its contract is used.
- The always-zero grants field of the usage totals.
- The store, drivers and policy files' persistence, role editing, federation, scheduling and retention of backups.
- The remaining admin handlers, cmd/basement-mcp, the frontend and the scripts: gate, decode and one call each.
