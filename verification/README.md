# Shauth, modelled and verified in Dafny

Shauth is a single sign-on provider. Its state is a set of PostgreSQL tables changed by
short transactions, beside an Ory Hydra authorization provider changed by calls that can
fail or lose their answer. This project models the parts whose correctness is a matter of
every run rather than of one call, and proves what those runs guarantee.

`dafny verify dfyconfig.toml` checks everything. The files stand in this order of reading:

- `Common` holds identifiers, time and a few facts about sets and text order.
- `Catalog` is the application catalog: the contract hash and the witness ring.
- `ValidationQueue` is the browser-check queue with every transaction on it;
  `ValidationExclusion`, `ValidationClaimSteps`, `ValidationProgress` and
  `ValidationAgreement` prove what its runs keep; `ValidationOverlap`,
  `ValidationCreations`, `ValidationWrites` and `ValidationLoadSteps` take catalog
  transactions apart into statements; `ValidationStore` has the store methods.
- `Accounts` holds accounts, browser sessions and provider sessions; `Containment`,
  `TokenHook` and `SessionLifetimes` prove what their histories keep.
- `RevocationPool` is the bounded worker pool that revokes provider sessions.
- `LogoutGrants`, `LogoutProtocol`, `LogoutSafety` and `LogoutProgress` are global logout (section 2 of
  OpenID Connect RP-Initiated Logout 1.0); `IdentityStore` has the store methods.
- `GatewayTables`, `GatewayLogout`, `GatewaySweeps` and `GatewayStore` are the gateway's
  sessions, tombstones and spent logout tokens (section 2.6 of OpenID Connect
  Back-Channel Logout 1.0).
- `ClientCatalog`, `PolicyAgreement` and `PolicyChange` are the two agreements between
  provider and database that advisory locks protect.
- `AmbiguousKeys` is the duplicate-name check (section 4 of RFC 8259); `Latency`,
  `TrafficOrder` and `Traffic` are the traffic counters; `LogBuffer` is the log ring.

`ValidationColumns`, `AccountColumns`, `LogoutColumns`, `GatewayColumns` and
`ClientColumns` say what each transaction does in the columns of its tables, independently
of the functions that compute it.

Tables are maps and sequences. Each committed transaction is one step and each provider
call is a step that may fail; where the code holds a lock across several statements those
statements are separate steps. Code that updates fields or loops is a class method or a
method with a loop, tied by its `ensures` to a function that the lemmas are about. A step
that the code could not take changes nothing, so theorems range over every sequence of
events.

## Assumptions

- Random identifiers, browser tokens and logout tokens are fresh. SHA-256 is an arbitrary
  function; where a result needs it to be collision-free, the lemma says so.
- Time is an integer number of milliseconds passed to each step and does not run
  backwards between steps. Integers are unbounded.
- A transaction takes effect at its commit. A store method of `IdentityStore` or
  `GatewayStore` is one step. A catalog change is one step in `ValidationAgreement`, which
  assumes that changes do not overlap, and several in `ValidationLoadSteps`, which does not.
- Loads run at read-committed isolation: a statement sees the rows committed when it began,
  waits for locked rows and reads those again, and misses rows inserted since.
- A database or provider call on a cancelled context fails, and a provider call takes
  effect, if at all, before it returns.
- Registered text holds no NUL character, as PostgreSQL ensures.
- Nothing outside Shauth deletes OAuth clients or changes their lifetimes.
- Deleting an application is modelled both with and without a cascade to its checks, so
  no result depends on which the schema has.

## Findings

Each of these is a lemma with a concrete run or input, beside one that says exactly when
the code does meet the property.

- A catalog load sees the rows committed when its statement began. Two overlapping
  creations, or an explicit request whose load waited for a creation, leave the queue
  behind the catalog (`OverlappingCreationsDisagree`, `OutrunRequestDisagrees`). A commit
  agrees exactly when no row it requeued has its witness among the rows it missed and the
  other rows were already queued for the present catalog (`CommitAgreesIff`,
  `CreationAgreesIff`); the row locks make that so unless an insertion outran the load
  (`EveryInterleavingAgrees`).
- A claim can answer that no validation identity is available although the pool holds
  three, because it skips rows that another transaction has locked (`LockedPoolRunsOut`);
  it does so exactly when every free identity is locked (`IdentityFailureIffAllLocked`).
- The code reads the session policy before it opens the transaction that inserts a
  session, so a change in between is missed (`StaleReadOutlivesPolicy`), exactly when the
  lifetime read differs and no later one undercut both (`ExpiryFollowsPolicyInForce`).
- A token hook between its two reads issues a token across a disabling
  (`HookAcrossDisableAndEnableIssues`), exactly when the account was enabled in between
  and not disabled since (`HookAcrossDisableIssuesIff`). A hook that starts after the
  disabling issues one only after a new sign-in (`NoTokenAfterDisableUntilSignIn`).
- A back-channel logout token is accepted a second time at its expiry instant
  (`ReplayAtExpiryInstant`); the store accepts it again exactly from its expiry on
  (`ReplayAcceptedIffExpired`), and the endpoint when the check came no later
  (`ReplayPassesIff`).
- A slow callback outlives a logout (`SlowCallbackOutlivesLogout`); logout wins in every
  run exactly when callbacks store their session within ten minutes of the check
  (`LogoutWinsIffStoredInTime`).
- A client deletion that loses its lock strands an application (`LostLockStrandsRow`); a
  run stays sound exactly when, at each provider deletion, no row names the client and, at
  each commit, the provider holds it (`RunGroundedIffGuarded`), which the locks ensure
  (`LocksGuardEveryStep`).
- Compensation after a failed policy change is stopped by a concurrent client deletion
  (`DeletionStopsRestoring`), and a failed commit is not compensated at all
  (`FailedCommitDisagrees`). A pass succeeds exactly when the listing and every write
  succeed and no listed client is deleted before its write (`PassSucceedsIff`); a failed
  commit or a death in the forward pass does no harm exactly when nothing differs
  (`FailedCommitAgreesIff`, `DeathAgreesIff`).
- A revocation pool whose caller was cancelled may return nil with nothing revoked
  (`CancelledCallerMayReturnNilUnrevoked`); nil means all revoked exactly when the sender
  handed over every target (`ReturnTellsOutcome`).

The comment above the identity selection in `ClaimAppValidation` says a free identity is
always available there; the code behaves as the second finding says.

## Model

| member | source | states |
|---|---|---|
| `Catalog.JoinIsInjective` | internal/identity/store.go:624-654 | Joining registration fields with NUL separators loses nothing: two NUL-free field lists with the same joined text are the same list |
| `Catalog.ContractHashPinsContract` | internal/identity/store.go:624-654 | With a collision-free digest, two applications with their witnesses have equal contract hashes if and only if every registered column of the target is equal, both or neither have a witness, and every column of the witness is equal |
| `Catalog.FindValidationWitness` | internal/identity/store.go:849-867 | The search loop returns the first eligible application along the ring, or none |
| `Catalog.RingVisitsEveryOtherPlaceOnce` | internal/identity/store.go:849-867 | The offsets 1 to n-1 reach every place but the start, each at exactly one offset, and never the start |
| `Catalog.WitnessIsNearestEligible` | internal/identity/store.go:849-867 | For every catalog row the witness is the nearest row along the ring with another identifier, another client and another origin, and there is none exactly when no row is like that |
| `Catalog.SameWitnessIffNotMissing` | internal/identity/store.go:849-867 | A ring with rows missing picks the same witness if and only if the witness of the whole ring is not one of the missing rows |
| `Catalog.InsertKeepsSlugOrder` | internal/identity/store.go:829-847 | A new row keeps the slug order in which the catalog is loaded |
| `ValidationExclusion.FinishingKeepsInv` | internal/identity/store.go:1216-1240 | Ending running checks keeps every invariant, takes exactly those checks out of the running set, and gives back exactly their identities |
| `ValidationExclusion.ClaimKeepsInv` | internal/identity/store.go:1107-1214 | Every answer a claim may give keeps at most three running checks, exclusive use of applications, and the one-to-one pairing of identities |
| `ValidationExclusion.EnqueueKeepsRunsInv` | internal/identity/store.go:869-906 | Queueing any part of the catalog keeps at most one queued check per application and direction, and touches no running or finished row |
| `ValidationExclusion.CascadeKeepsInv` | internal/identity/store.go:759-793 | Deleting an application, with or without its checks, keeps the invariants |
| `ValidationExclusion.ProvisionedPoolHoldsThree` | internal/identity/store.go:1447-1499 | Provisioning leaves at least three identities in the pool |
| `ValidationExclusion.EveryReachableStateIsExclusive` | internal/identity/store.go:1083-1276 | In every state any history of transactions reaches: at most three running checks, no application in two of them in any role, target and witness distinct, and identities checked out one-to-one to running checks |
| `ValidationExclusion.CheckedOutCountIsRunningCount` | internal/identity/store.go:1187-1203 | As many identities are free as the pool holds beyond the running checks |
| `ValidationClaimSteps.EveryInterleavingKeepsInv` | internal/identity/store.go:1107-1214 | The same invariants hold of the committed tables in every interleaving of any number of claims, statement by statement, with every other transaction; the claim lock and the row locks are what the proof uses |
| `ValidationClaimSteps.OthersKeepReliance` | internal/identity/store.go:1144-1205 | Whatever another transaction commits between two statements of a claim, the count stays below the limit, the picked run stays queued with idle applications, and the taken identity stays free |
| `ValidationClaimSteps.UnlockedClaimsCollide` | internal/identity/store.go:1081-1114 | Without the claim lock two claims may pick the two directions of one application and break the exclusion |
| `ValidationClaimSteps.StatementsMakeTheClaim` | internal/identity/store.go:1107-1214 | The separate statements of a claim, run without interruption, commit what the one-step claim commits, for every answer it may give |
| `ValidationProgress.ClaimAlwaysAnswers` | internal/identity/store.go:1107-1214 | Whatever rows are locked, a claim has an answer |
| `ValidationProgress.ClaimTakesOldestIdle` | internal/identity/store.go:1144-1205 | A claim hands out the oldest unlocked queued check whose applications are idle: every older one has a busy application; it runs under a fresh lease and no other unexpired row moved |
| `ValidationProgress.OldestIsUnique` | internal/identity/store.go:1174-1176 | The order by request time and identifier leaves one oldest check in any set |
| `ValidationProgress.IdentityFailureIffAllLocked` | internal/identity/store.go:1187-1199 | A claim fails for want of an identity exactly when there is capacity, a check to claim, and other transactions hold every identity not checked out |
| `ValidationProgress.PoolOfThreeNeverRunsOut` | internal/identity/store.go:1187-1199 | With three identities and at least one free one unlocked, a claim never fails for want of an identity |
| `ValidationProgress.LockedPoolRunsOut` | internal/identity/store.go:1187-1199 | That failure is reachable all the same: in a deployment just started with three free identities, while another transaction holds their rows |
| `ValidationProgress.IdleQueueIsClaimed` | internal/identity/store.go:1107-1214 | With nothing running, something queued, an identity and no row locked, a claim succeeds |
| `ValidationProgress.WorkStepsUseWork` | internal/identity/store.go:1107-1276 | Each claim, completion or expiry either changes nothing or lowers twice the queued plus the running checks |
| `ValidationProgress.WorkLeftMeansStepLeft` | internal/identity/store.go:1107-1276 | While a check is queued or running, some claim or completion takes effect |
| `ValidationProgress.SeriesIsBoundedByWork` | internal/identity/store.go:1107-1276 | Without new enqueues any series of effective claims, completions and expiries is no longer than the work it started with |
| `ValidationProgress.ExhaustedSeriesDrainedQueue` | internal/identity/store.go:1107-1276 | A series that can go no further has left nothing queued and nothing running |
| `ValidationAgreement.EnqueueAppEffect` | internal/identity/store.go:869-906 | Afterwards every queued check of the application carries the hash, both directions are pending under it, and no other application has a row changed |
| `ValidationAgreement.RequeueAllAgrees` | internal/identity/store.go:908-919 | Requeueing everything makes queue and catalog agree whatever was queued before, with both directions of every application pending |
| `ValidationAgreement.RequestCoversSelected` | internal/identity/store.go:953-984 | An explicit request leaves both directions of every application it selects pending under the current contract |
| `ValidationAgreement.SkippedRequeueMeansSameCatalog` | internal/identity/store.go:611-622 | A reconciliation that skips the requeue left the catalog exactly as it was |
| `ValidationAgreement.ChangeKeepsAgreement` | internal/identity/store.go:496-622 | Creation, both reconciliations and deletion keep the catalog in slug order with unique rows and keep the queue in agreement with it |
| `ValidationAgreement.EffectiveChangeCoversCatalog` | internal/identity/store.go:496-610 | Right after an effective change every application has both directions pending under its current contract |
| `ValidationAgreement.QueueAlwaysAgrees` | internal/identity/store.go:496-984 | After every transaction of every history, each queued check of a cataloged application carries the hash of that application with the witness the ring picks from the present catalog |
| `ValidationAgreement.QueuedColumnsAreCurrent` | internal/identity/store.go:869-906 | With a collision-free digest, a queued check of a cataloged application copies every column of its present registration and of its present witness |
| `ValidationCreations.OverlappingCreationsDisagree` | internal/identity/store.go:496-518 | Two creations that overlap and do not see each other leave the first queued without the witness it now has |
| `ValidationCreations.CreationSeeingAllAgrees` | internal/identity/store.go:496-518 | A creation that saw the whole catalog is the atomic one, and agrees |
| `ValidationOverlap.SeeingAgreesIff` | internal/identity/store.go:829-919 | A requeue that may have missed rows leaves queue and catalog in agreement if and only if no requeued row has its witness among the rows missed and every other row was already queued for the present catalog |
| `ValidationCreations.CreationAgreesIff` | internal/identity/store.go:496-518 | A creation that missed rows agrees if and only if neither it nor an application it saw has its witness among them and they are already queued for the catalog with the new row |
| `ValidationWrites.WriteIsChange` | internal/identity/store.go:496-607 | The one-row write a transaction holds until it commits is the change the atomic step makes |
| `ValidationWrites.RefusedInColumns` | internal/identity/store.go:496-622 | A change is refused exactly when its slug, client or identifier is taken, its row is missing or its client differs, or the deployment owns the row |
| `ValidationWrites.ChangeInColumns` | internal/identity/store.go:496-622 | What each accepted change makes of the catalog, row by row: one row comes, changes or goes, and every other stays |
| `ValidationWrites.RequeuesIffChanged` | internal/identity/store.go:611-622 | A change skips the requeue exactly when it changed no row |
| `ValidationWrites.CascadeInColumns` | internal/identity/store.go:759-793 | A cascading deletion removes exactly the checks of that application and frees exactly their identities |
| `ValidationLoadSteps.HolderShutsOthersOut` | internal/identity/store.go:829-847 | A finished load that saw every row locks every row, so no other update or deletion is under way |
| `ValidationLoadSteps.EveryRunKeepsInv` | internal/identity/store.go:829-847 | In every interleaving of writes, loads and commits, the rows a load saw stay as it saw them until its commit, and are all there are unless an insertion committed since its snapshot |
| `ValidationLoadSteps.EveryInterleavingAgrees` | internal/identity/store.go:829-919 | In every interleaving, statement by statement, the queue agrees with the catalog after every commit as long as no transaction commits a load that an insertion outran |
| `ValidationLoadSteps.CommitAgreesIff` | internal/identity/store.go:908-919 | A commit agrees, outrun or not, if and only if no row it requeued has its witness among the rows it missed and every other row is already queued for the present catalog |
| `ValidationLoadSteps.OutrunRequestDisagrees` | internal/identity/store.go:953-984 | A request whose load began before a creation committed and waited for it puts the queue behind the catalog, with only one insertion under way |
| `ValidationStore.Store.ClaimAppValidation` | internal/identity/store.go:1107-1214 | The method commits one of the answers the claim relation allows; in columns: checks started more than thirty minutes ago fail and free their identity and no live one does; it answers full at three live checks, else takes the earliest requested check whose applications are in no live check and a free identity, sets the lease, and changes nothing else |
| `ValidationStore.Store.ExpireAbandonedAppValidation` | internal/identity/store.go:1244-1276 | Exactly the running checks started more than thirty minutes ago fail, at this moment, and lose their identity; every other check and identity is unchanged |
| `ValidationStore.Store.CompleteAppValidation` | internal/identity/store.go:1216-1240 | A running check becomes passed or failed as told, at this moment, and releases its identity; any other identifier is refused, and no other row changes |
| `ValidationStore.Store.EnqueueAppValidations` | internal/identity/store.go:953-984 | The loops queue exactly the selected applications with their ring witnesses and answer their slugs, or refuse an unknown one |
| `ValidationColumns.ReapExpires` | internal/identity/store.go:1244-1276 | From any reachable state: a check that started more than thirty minutes ago is failed now and held by no identity, every other check keeps its columns and its identity |
| `ValidationColumns.CompleteCompletes` | internal/identity/store.go:1216-1240 | A completed check has the status told, the moment and no lease, its identity is free, and nothing else changed |
| `ValidationColumns.ClaimAnswersInColumns` | internal/identity/store.go:1107-1214 | Which of the four answers a claim gives and what it commits, in every case, in the columns of the tables as they were |
| `ValidationColumns.RunningChecksShareNothing` | internal/identity/store.go:1083-1276 | Over every history two running checks have no application in common, as target or as witness, and each has exactly one identity |
| `ValidationColumns.EnqueueInColumns` | internal/identity/store.go:869-906 | Queueing one direction drops exactly the waiting checks of that application and direction under another contract, adds one with the present columns exactly when none of this contract is pending, and changes no other row |
| `ValidationColumns.RequestSelects` | internal/identity/store.go:953-984 | A request with an identifier touches that application, one with a slug that slug, one with neither all of them |
| `RevocationPool.SelectTargets` | internal/app/app.go:1721-1737 | The loops keep exactly the listed sessions that are not excluded, in order |
| `RevocationPool.TargetsAreListedMinusExcluded` | internal/app/app.go:1721-1737 | A session is a target as often as it is listed when it is not excluded, and never otherwise; an empty identifier excludes nothing |
| `RevocationPool.TargetsKeepOrder` | internal/app/app.go:1721-1737 | Targets come in the order listed |
| `RevocationPool.EveryInterleavingKeepsPoolInv` | internal/app/app.go:1721-1771 | Under every interleaving each target handed over is with one worker, revoked, or failed, never two of these, and none is handed over twice; there are four workers, or one per target when there are fewer |
| `RevocationPool.ReturnTellsOutcome` | internal/app/app.go:1721-1771 | The result is an error exactly when a revocation failed; a nil result means every target was revoked exactly when the sender handed over all of them, which it always did unless the caller was cancelled |
| `RevocationPool.NilMeansAllRevoked` | internal/app/app.go:1721-1771 | To its callers, a nil result under a context that was not cancelled means that every session listed and not excluded was revoked |
| `RevocationPool.CancelledCallerMayReturnNilUnrevoked` | internal/app/app.go:1721-1771 | Under a cancelled caller a nil result may leave every target unrevoked |
| `RevocationPool.PoolNeverDeadlocks` | internal/app/app.go:1721-1771 | Until it returns, some action that is neither the caller giving up nor a failing call is always possible |
| `RevocationPool.EveryActionLowersRank` | internal/app/app.go:1721-1771 | Every action lowers a rank, so every run ends |
| `RevocationPool.PoolCanSucceed` | internal/app/app.go:1721-1771 | For every list of targets there is a schedule that returns nil with every one of them revoked |
| `Containment.StepKeepsOwner` | internal/identity/store.go:2317-2379 | A step that rebinds a provider session moves it from a revoked, expired or idle browser session to one in force of the same account |
| `Containment.OwnerNeverChanges` | internal/identity/store.go:2317-2400 | Over any history a provider session keeps its account |
| `Containment.DisabledAccountHasNoSession` | internal/identity/store.go:2119-2186 | In every reachable state a disabled account has no unrevoked browser session |
| `Containment.RetriedDisableAnswersAllSessions` | internal/identity/store.go:2119-2186 | Disabling answers every provider session the account ever had, however often it is retried |
| `Containment.InForceAgainOnlyAfterSignIn` | internal/identity/store.go:2119-2400 | After a disable a provider session is in force again only after an enable, then a sign-in, then a recording for that browser session, in this order |
| `Containment.ActiveIffEnabledSince` | internal/identity/store.go:2119-2199 | After a disabling the account is active if and only if it was enabled later and not disabled since |
| `AccountColumns.StepInColumns` | internal/identity/store.go:1908-2400 | What each transaction does to every column of users, sessions, provider sessions and policy, and that it changes nothing when refused; disabling and revoking an account end exactly its own unrevoked sessions, at this moment |
| `AccountColumns.RefusesIffNotEffective` | internal/identity/store.go:1908-2400 | When each transaction is refused, in columns: a recording exactly when its browser session is missing, revoked, expired or idle or its account disabled, or the provider session belongs to another account or to a browser session still usable |
| `AccountColumns.EndedOnlyWhenNamed` | internal/identity/store.go:2119-2199 | Over any history a session that is revoked was revoked by a transaction that named it or its account, at that moment |
| `AccountColumns.DisableAnswersExactly` | internal/identity/store.go:2119-2186 | Disabling answers a provider session if and only if the browser session it is correlated with is of that account |
| `TokenHook.ClassifyGrants` | internal/app/token_hook.go:126-139 | The scan classifies a grant list as the specification does: account, client or other |
| `TokenHook.HookAnswersIff` | internal/app/token_hook.go:41-121 | The hook answers no content exactly for the single grant client_credentials, tokens exactly when every grant is an authorization code or a refresh, the session read named its account and an unrevoked session, and the account read found it active, and is forbidden otherwise |
| `TokenHook.IssuedClaimsAreCurrent` | internal/app/token_hook.go:41-121 | Issued tokens carry the identity and role of the subject as the account read found its row, and every other claim the provider already held, no more and no fewer |
| `TokenHook.NoTokenAfterDisableUntilSignIn` | internal/app/token_hook.go:41-121 | A hook that reads the session after a disable issues a token only after enable, sign-in and recording, in this order, with the account active at its second read |
| `TokenHook.HookAcrossDisableIssuesIff` | internal/app/token_hook.go:61-100 | A hook that read the session before a disabling and the account after it issues a token if and only if the account was enabled in between and not disabled since |
| `TokenHook.HookAcrossDisableAndEnableIssues` | internal/app/token_hook.go:61-100 | A hook already past its session read still issues a token when the account is disabled and enabled again before its second read |
| `SessionLifetimes.ExpiryIsLeastLifetime` | internal/identity/store.go:319-349 | In every history an unrevoked session expires at its creation plus the least of the lifetime its creation read and those stored since |
| `SessionLifetimes.ExpiryFollowsPolicyInForce` | internal/identity/store.go:1908-1939 | That is the least lifetime in force since creation if and only if the creation read the lifetime then in force, or a later one undercut both |
| `SessionLifetimes.StaleReadOutlivesPolicy` | internal/identity/store.go:1908-1939 | A policy change between the policy read and the insert leaves a session that outlives the stored policy |
| `SessionLifetimes.NoStepExtendsSession` | internal/identity/store.go:319-349 | No transaction moves an expiry later, and none moves a revoked one |
| `LogoutGrants.DelayDoublesThenStays` | internal/app/app.go:1692-1700 | Five seconds at first, doubling to 160 seconds at the sixth attempt, then constant |
| `LogoutGrants.SnapshotIsComplete` | internal/identity/store.go:2435-2534 | A grant that is not provider-only ends every browser session of the account and of no other, and holds exactly the provider sessions correlated with them |
| `LogoutGrants.ProviderOnlyTouchesNoBrowser` | internal/identity/store.go:2460-2500 | A grant leaves every browser session alone exactly when it is provider-only, and then holds the one provider session asked for |
| `LogoutGrants.LogoutWithoutProviderSessionsEndsBrowsers` | internal/identity/store.go:2500-2517 | With no provider session correlated, the browser sessions still all end |
| `LogoutGrants.RelyingPartyLogoutAlwaysMatches` | internal/app/app.go:1569-1657 | On the relying-party path a grant holds the requested session and has a token, so the mismatch branch is unreachable; however the snapshot is listed, the targets of the pool and the preserved session partition it |
| `LogoutColumns.LogoutOutcomeInColumns` | internal/identity/store.go:2435-2534 | Which of the four outcomes a logout has and what it leaves in every column of sessions and of the new row, in every case |
| `LogoutColumns.PreservedInColumns` | internal/app/app.go:1623-1636 | The sessions left to the provider are the one requested when this browser has it, all of this browser when none was requested, and a mismatch otherwise |
| `LogoutSafety.EveryRunKeepsInv` | internal/app/app.go:1641-1719 | Every run keeps snapshots, worker copies, completions, timing bounds and ended browsers consistent |
| `LogoutSafety.CompletedOnceAndOnlyAfterRevocation` | internal/app/app.go:1659-1719 | In every run with any number of workers, late workers and failed calls, a grant is completed at most once, and by then, whatever schedules the pools ran, the provider has confirmed, since its creation, revoking every session in its snapshot |
| `LogoutSafety.CompletedRowsAreFinal` | internal/identity/store.go:2658-2705 | A completed row is never changed or reopened, and cleanup deletes only completed rows |
| `LogoutSafety.NoLogoutIsLost` | internal/identity/store.go:2519-2705 | Every grant ever created was completed, or is stored and recoverable from five minutes after its row last changed |
| `LogoutSafety.ChangedRowsAreTouched` | internal/identity/store.go:2519-2685 | The moment a row last changed, from which the five minutes run, is the moment of the step that changed it |
| `LogoutSafety.SomeRowIsNext` | internal/identity/store.go:2605-2630 | Whenever an unlocked row is due, exactly one, the one that waited longest, is next |
| `LogoutSafety.RecoveryWaitsForBrowser` | internal/identity/store.go:2578-2630 | Recovery cannot lease an unconsumed, never failed grant while its token is still consumable |
| `LogoutSafety.RecoveryReplayEndsNothing` | internal/app/app.go:1705-1719 | Replaying recovery changes no browser session |
| `LogoutSafety.LaterSessionsAreInNoSnapshot` | internal/identity/store.go:2567-2573 | A session created after a snapshot is in none of the snapshots taken before |
| `LogoutSafety.TokenIsExchangedOnce` | internal/identity/store.go:2578-2600 | After an exchange of a browser token, no later state of any run has an unconsumed, incomplete, unexpired row with that token, for any account, and no exchange of it is possible again |
| `LogoutProgress.PendingLogoutCanComplete` | internal/app/app.go:1705-1719 | From every reachable state, any stored grant not yet completed can be completed by one recovery worker whose calls succeed, from five minutes after its row last changed |
| `IdentityStore.Store.CreateSession` | internal/identity/store.go:1908-1939 | Inserts a session with the lifetime an earlier policy read answered, for an active account only |
| `IdentityStore.Store.RecordHydraLoginSession` | internal/identity/store.go:2317-2379 | Inserts or moves the correlation exactly when the browser session is unrevoked, unexpired and not idle, its account active, and the provider session unbound, bound to it, or bound to a stale one of the same account; nothing else changes |
| `IdentityStore.Store.DisableUser` | internal/identity/store.go:2119-2186 | Disables the account, ends exactly its own unrevoked sessions, at this moment, and answers exactly the provider sessions correlated with any of its sessions; no other account, session or correlation changes |
| `IdentityStore.Store.CreateLogoutCorrelationGrant` | internal/identity/store.go:2435-2534 | Takes the snapshot and stores the grant exactly as the specification of one creation says, in all four outcomes |
| `IdentityStore.Store.ConsumeLogoutCorrelationGrant` | internal/identity/store.go:2578-2600 | Consumes a row with this token and account that is unconsumed, incomplete and unexpired, and answers none when there is no such row; the only row with that token when tokens are distinct, which creation keeps |
| `IdentityStore.Store.ClaimConsumedLogoutCorrelationGrant` | internal/identity/store.go:2634-2656 | Leases for thirty seconds the consumed, incomplete row with the token that nobody has leased, or none |
| `IdentityStore.Store.ClaimAbandonedLogoutCorrelationGrant` | internal/identity/store.go:2605-2630 | Leases for thirty seconds the unlocked due row that has waited longest, or none when none is due |
| `IdentityStore.Store.CompleteLogoutCorrelationGrant` | internal/identity/store.go:2658-2669 | Completes an incomplete row and refuses any other |
| `IdentityStore.Store.FailLogoutCorrelationGrant` | internal/identity/store.go:2671-2685 | Reschedules an incomplete row and refuses any other |
| `IdentityStore.Store.DeleteCompletedLogoutCorrelationGrants` | internal/identity/store.go:2690-2705 | Deletes the earliest completed rows before the cutoff, up to the limit, and no other |
| `GatewayLogout.NoSessionWithinTwentyMinutes` | internal/gateway/store.go:165-239 | After a successful logout at t, whatever requests follow before t plus twenty minutes, no cookie finds a session of that provider session |
| `GatewayLogout.LogoutWinsEveryRace` | internal/gateway/server.go:340-408 | When callbacks, presented any number of times, store their session within ten minutes of the transaction check, an unrevoked session was begun after every logout of its provider session |
| `GatewayLogout.SlowCallbackOutlivesLogout` | internal/gateway/server.go:340-408 | For every longer bound a slow callback outlives a logout made as its sign-in began |
| `GatewayLogout.LogoutWinsIffStoredInTime` | internal/gateway/server.go:81-85 | Logout wins in every run if and only if the bound from check to store is at most ten minutes |
| `GatewaySweeps.SweepsAreInvisible` | internal/gateway/store.go:77-264 | At every point of every history the store that sweeps finds the same session behind every cookie and accepts or refuses the next request as one that never deletes |
| `GatewaySweeps.LogoutTokenIsAcceptedOnce` | internal/gateway/store.go:187-213 | A logout token accepted once is refused whenever it returns before its expiry, whatever was swept meanwhile |
| `GatewaySweeps.ReplayOnlyAtExpiry` | internal/gateway/server.go:496-535 | One token passes the endpoint twice only when its second call is checked no later than its expiry and stored no earlier |
| `GatewaySweeps.ReplayAcceptedIffExpired` | internal/gateway/store.go:187-213 | With the sweep the store makes and at most one batch of expired records, a repeated logout token is accepted if and only if it is stored at its expiry or later, whatever came between |
| `GatewaySweeps.ReplayPassesIff` | internal/gateway/server.go:518-533 | So the endpoint lets a token through again exactly when its claims are complete, it was issued at most five minutes before and five seconds after the check, and its second call is checked no later than the expiry and stored no earlier |
| `GatewaySweeps.ReplayAtExpiryInstant` | internal/gateway/server.go:496-535 | At the expiry instant a replay is indeed accepted once the sweep has dropped the record |
| `GatewayStore.Batch` | internal/gateway/store.go:256-264 | A sweep takes only dead rows, at most its limit, and all of them when they fit |
| `GatewayStore.ExpiredBatch` | internal/gateway/store.go:241-252 | The tombstone sweep takes those that expired first, at most its limit, and all of them when they fit |
| `GatewayStore.Store.Create` | internal/gateway/store.go:77-127 | Sweeps dead rows up to the limits, refuses a tombstoned or empty provider session, or inserts the session; a refusal rolls the sweeps back, and no live row changes |
| `GatewayStore.Store.FindSession` | internal/gateway/store.go:129-152 | Answers the session stored behind a cookie exactly when it is unrevoked, unexpired and this gateway can decrypt its row |
| `GatewayStore.Store.RevokeToken` | internal/gateway/store.go:159-163 | Revokes the session behind a cookie now unless it was revoked before; every other session, every tombstone and every spent token is unchanged |
| `GatewayStore.Store.RecordLogoutTombstone` | internal/gateway/store.go:225-239 | Sweeps, then leaves a tombstone until twenty minutes from now or later if one lasted longer, with the earlier creation, and every other live tombstone as it was |
| `GatewayStore.Store.RevokeFrontchannelSession` | internal/gateway/store.go:165-181 | Buries the provider session and revokes all its sessions and no other |
| `GatewayStore.Store.RevokeProviderSession` | internal/gateway/store.go:187-213 | Spends the logout token, buries the provider session and revokes all its sessions, or refuses a spent token without change |
| `GatewayColumns.RequestInColumns` | internal/gateway/store.go:77-264 | When each gateway request is refused and what an accepted one does to every row of the three tables |
| `GatewayColumns.SignOutIsFinal` | internal/gateway/server.go:468-473 | After a browser signs out, whatever follows, its cookie finds no session at any moment unless a new session is stored under the same cookie |
| `GatewayColumns.StoredSessionIsFound` | internal/gateway/store.go:129-152 | A session stored at sign-in is found behind its cookie, with the columns stored, until it expires, as long as nobody signs out of it |
| `GatewayColumns.FindInColumns` | internal/gateway/store.go:129-152 | A cookie finds exactly the unrevoked, unexpired session stored under it |
| `ClientCatalog.EveryRowNamesAClient` | internal/app/operations.go:440-471 | In every interleaving of the separate steps of app creation and deletion, client creation and deletion and bootstrap, with failed calls, lost answers and dying processes, every committed row names a client the provider holds |
| `ClientCatalog.CommittingKeepsInv` | internal/app/operations.go:559-597 | Committing a verified row keeps every row and every other operation sound |
| `ClientCatalog.WritingKeepsInv` | internal/app/app.go:3133-3158 | The bootstrap write, whether it updates, creates, conflicts or loses its answer, keeps the invariant |
| `ClientCatalog.RowsKeepTheirClient` | internal/identity/store.go:521-569 | Over any run no step replaces the client of a committed row; a row disappears only by deleteApp of a slug the deployment does not own |
| `ClientCatalog.StepGroundedIffGuarded` | internal/app/operations.go:448-465 | From sound rows a step leaves every row sound if and only if a provider deletion finds no row naming the client and a commit finds the client at the provider |
| `ClientCatalog.RunGroundedIffGuarded` | internal/identity/store.go:247-266 | A run, even one that loses locks, keeps every row sound throughout if and only if each step is so guarded at its moment |
| `ClientCatalog.LocksGuardEveryStep` | internal/identity/store.go:806-808 | In a run that loses no lock every step is so guarded |
| `ClientCatalog.LostLockStrandsRow` | internal/identity/store.go:247-266 | A deletion that loses its lock between its check and the provider call strands an app created in between |
| `ClientColumns.ClientsChangeOnlyBy` | internal/app/operations.go:440-471 | A client goes only by a deletion under way or by a bootstrap taking it back, and comes only by a creation or a bootstrap write |
| `ClientColumns.RowsChangeOnlyBy` | internal/app/operations.go:559-597 | A row comes only by the commit of the operation that inserted it and goes only by deleting an app the deployment does not own |
| `ClientColumns.LocksChangeOnlyBy` | internal/identity/store.go:806-808 | A lock goes only to an operation waiting for it while nobody has it, never from one holder to another, and is given up only by its holder |
| `ClientColumns.PlainRequests` | internal/app/operations.go:599-611 | Creating a client adds it; deleting an app removes its row unless the deployment owns it |
| `ClientColumns.CreationRegistersApp` | internal/app/operations.go:559-597 | An app creation that runs alone adds the row exactly when the provider has the client and the slug is free, changes no client, and gives its lock back |
| `ClientColumns.DeletionRemovesUnusedClient` | internal/app/operations.go:440-471 | A client deletion that runs alone deletes the client exactly when no row names it and the deployment does not declare it |
| `ClientColumns.BootstrapDeclares` | internal/app/app.go:3133-3158 | A bootstrap that runs alone leaves the declared client and row; when the row is refused it takes back the client it created and none it found |
| `PolicyAgreement.UnlockedMeansAgreed` | internal/app/operations.go:376-416 | Whenever no one holds the policy lock, every client has the stored policy lifetimes for both grants, in every run where compensating calls and the commit succeed |
| `PolicyAgreement.FinishedChangeRepairs` | internal/app/operations.go:393-416 | However provider and policy disagreed, a change that stores and commits, or finishes its restoring pass, ends in agreement |
| `PolicyAgreement.DeletionStopsRestoring` | internal/app/app.go:2800-2829 | A client deleted between the listing and the write of a restoring pass stops it and leaves other clients with lifetimes never stored |
| `PolicyAgreement.FailedCommitDisagrees` | internal/identity/store.go:247-266 | A commit that fails after the provider was updated leaves provider and policy apart |
| `PolicyAgreement.FailedCommitAgreesIff` | internal/identity/store.go:247-266 | A failed commit leaves agreement if and only if there is no client or both policies have the same token lifetimes |
| `PolicyAgreement.DeathAgreesIff` | internal/app/app.go:2800-2829 | A process that dies in the forward pass leaves agreement if and only if nothing was written yet or both policies have the same token lifetimes |
| `PolicyAgreement.StoredChangesOnlyBy` | internal/app/operations.go:393-416 | The stored policy changes only when a change that stored it commits, and becomes its target; no second change begins under the lock |
| `PolicyAgreement.ClientsChangeOnlyBy` | internal/app/app.go:2800-2829 | The lifetimes of a client change only by a pass that has it still to write, to the lifetimes of that pass, or by its registration, to the stored ones |
| `PolicyAgreement.RegistrationGivesStoredLifetimes` | internal/app/app.go:2917-2921 | A registration creates a client that is not there or updates one that is, with the stored lifetimes for both grants, and touches no other |
| `PolicyChange.PassSucceedsIff` | internal/app/app.go:2800-2829 | A pass writes every client if and only if the listing answered, every write took effect and was answered, and no listed client was deleted before its write |
| `PolicyChange.Server.ApplyHydraSessionPolicy` | internal/app/app.go:2800-2829 | One pass over the listing is a run of the machine; which clients are left and whether it succeeded are exactly what the replies decide |
| `PolicyChange.Server.ReplaceSessionPolicy` | internal/app/operations.go:393-416 | The change is a run of the machine with one of four outcomes, each exactly when the calls and the commit say; stored or restored, every client has the stored policy; after a failed commit every client has the other one |
| `AmbiguousKeys.ReadsValue` | internal/monitoring/monitoring.go:223-267 | From any stack, reading the tokens of a value settles the stack below it when the value is clear and stops otherwise |
| `AmbiguousKeys.ReadsMembers` | internal/monitoring/monitoring.go:243-252 | Reading the members of an object goes on exactly when no folded name repeats or was seen and every value is clear |
| `AmbiguousKeys.AcceptsExactlyClearInput` | internal/monitoring/monitoring.go:223-267 | The tokens of any sequence of JSON values are accepted exactly when no object at any depth repeats a folded name; on any prefix the stack is never popped empty |
| `AmbiguousKeys.RejectAmbiguousKeys` | internal/monitoring/monitoring.go:223-267 | The loop answers as the machine: repeated, malformed or accepted |
| `Latency.BucketIndex` | internal/app/traffic.go:156-163 | The first bucket whose edge is not below the sample, or the one past the last edge |
| `Latency.Observe` | internal/app/traffic.go:115-125 | Updating the counters by one request gives the counters of the longer list of requests |
| `Latency.AllBucketsAddUpToRequests` | internal/app/traffic.go:115-125 | The latency buckets of a route add up to its requests |
| `Latency.ClassesAddUpToRequests` | internal/app/traffic.go:115-125 | The status-class counts of a route add up to its requests |
| `Latency.PercentileMS` | internal/app/traffic.go:244-266 | For every list of requests with these counters: the result is no less than the value that the given share of the requests do not exceed and a smaller share fall below, no bucket edge lies between the two, and it is an edge unless that value is past the last one |
| `Latency.PercentileBoundsTrueValue` | internal/app/traffic.go:244-266 | The reported percentile is at least the true percentile, defined by the share of requests no slower and the share faster, with no bucket edge between them |
| `Latency.NearestRankExists` | internal/app/traffic.go:244-266 | Every non-empty list has such a value for every percentile up to a hundred |
| `Latency.PercentileIsUnique` | internal/app/traffic.go:244-266 | And only one |
| `Latency.BucketsAreBetweenEdges` | internal/app/traffic.go:115-125 | Each bucket counts the requests slower than the edge before it and no slower than its own |
| `Latency.CountIsNumberOfPositions` | internal/app/traffic.go:115-125 | A count is the number of positions in the list of requests |
| `Latency.StatusClass` | internal/app/traffic.go:141-154 | The class of a status code from 100 to 599 is its first digit; anything below counts as the first and anything above as the fifth |
| `Latency.TotalIsAdditive` | internal/app/traffic.go:115-125 | The total time of two lists of requests is the sum of theirs |
| `Traffic.RoutesPartitionRequests` | internal/app/traffic.go:99-125 | Whatever is counted, counting it route by route counts each finished request exactly once |
| `Traffic.RoutesAreBounded` | internal/app/traffic.go:104-114 | However many routes are requested, the table holds at most its limit plus the overflow route |
| `Traffic.RoutesCountTheirOwn` | internal/app/traffic.go:99-125 | Each route counts, in order, exactly the requests that matched it, and the overflow route those whose route is not in the table, which happens only when it is full |
| `Traffic.Counters.Begin` | internal/app/traffic.go:92-96 | One more request is in flight |
| `Traffic.Counters.RecordFinish` | internal/app/traffic.go:99-125 | The counters stay those of the requests finished so far |
| `Traffic.Counters.Report` | internal/app/traffic.go:196-238 | One record per route describing exactly the requests that matched it, with its percentile, its truncated mean and its maximum; busiest first, then by pattern, then by method; the total is the number of finishes and the class totals are theirs |
| `TrafficOrder.SortRecords` | internal/app/traffic.go:223-231 | The same records, by requests downwards, then by pattern, then by method, in dictionary order |
| `LogBuffer.KeptIsNumbered` | internal/observe/log.go:89-107 | Kept lines are numbered one, two, three and never empty |
| `LogBuffer.KeptFollowsLines` | internal/observe/log.go:89-107 | Every line with a message is kept, in its turn, with its time, its level and its message, of which a long one keeps its first 4096 bytes and an ellipsis; nothing else is kept |
| `LogBuffer.PositionIsSlot` | internal/observe/log.go:169-170 | The index expression with truncating remainders reads the slot the line of that age was written to |
| `LogBuffer.Buffer.Write` | internal/observe/log.go:89-107 | After any writes the ring holds exactly the last lines with a message, shortened, as many as fit |
| `LogBuffer.Buffer.HeldLocked` | internal/observe/log.go:203-208 | The smaller of the lines written and the capacity |
| `LogBuffer.Buffer.Records` | internal/observe/log.go:155-183 | The newest held lines that pass the filter, newest first, no more than the limit or two hundred; a passing line left out is older than all of them and the limit was reached |
| `LogBuffer.Buffer.Counts` | internal/observe/log.go:187-197 | For each level the number of held lines that carry it |

## Left out

- HTTP handlers, cookies, CSRF protection, redirects, templates and audit records: transport and presentation around the modelled steps.
- SQL text, connection pooling and savepoints: only the committed effect of a transaction and the locks it takes are modelled.
- Cryptography, token encryption and OpenID Connect signature verification: identifiers and digests are abstract values, and which rows decrypt is a parameter.
- GitHub, Entra, SES and health clients, invitations, paging and metrics queries: single calls or single statements.
- URL parsing and registration validation: origins are an abstract function of the launch URL, and an app or client that fails validation is a step that does not happen.
- Cost estimates and the validator's process control: floating-point checks and process I/O.
- Presentation columns of runs and grants, such as durations, failure texts, requesters and redirect addresses: no modelled decision reads them.
- Catalog changes are functions on the catalog rather than methods of a class, because each is one committed effect whose result the agreement proofs quantify over.
- The gateway is modelled for one client and issuer; other applications appear only through their tombstone sweeps.
- Back-channel claim checks that the token verifier makes before the endpoint sees the claims.
- ValidationClaimSteps.EveryInterleavingKeepsInv: does not state that the run is still the oldest idle one at commit, because a check that ends between the choice and the commit may free an older one.
- LogoutSafety.CompletedOnceAndOnlyAfterRevocation: does not claim that one worker holds the lease at a time, because rescheduling clears a lease without asking who holds it.
- AmbiguousKeys.RejectAmbiguousKeys: takes the decoder's tokens as given and requires that they never close more than they open, which `AcceptsExactlyClearInput` proves of every prefix of a JSON text.
- Traffic.Counters.Report: does not model the goroutine count and the heap size; and the split of a matched pattern into a method and a path is not modelled.
- ValidationAgreement.QueueAlwaysAgrees: takes each catalog change as one step; `ValidationLoadSteps` has its statements and row locks.
- ValidationLoadSteps.EveryInterleavingAgrees: takes the requeue statements and the commit of one transaction as one step, because its runs are seen by others only at the commit.
- GatewaySweeps.ReplayAcceptedIffExpired: takes requests with one token identifier to carry one token, and no more expired records than one sweep takes; with more, `ReplayOnlyAtExpiry` still holds.
- LogBuffer.Buffer.Write: takes the line already split into time, level and message.
