# GoreeVault protocols in Dafny

A model of the stateful protocols of the vault server (Rust, `src/` and `native/`) and of its
browser client (JavaScript, `web-client/`), with proofs of what every run of them keeps.
`dafny verify dfyconfig.toml` checks the whole project.

Most modules have the same shape. A `State`-like datatype holds what is shared, including the
requests at work and where each of them stands between two awaits; `Possible` says which step can
come next, `Apply` what it does. `Run` and `After` are sequences of steps, so a lemma about `After`
speaks of every interleaving. Fields called history record what happened; no step reads them to
decide. Where the source updates an object in place there is a class whose methods are proved to be
the steps. Where a property of the source needs a condition, the condition is a `Guard` on steps,
about one record or row wherever the property is about one; the theorem is proved for guarded runs,
and another lemma shows that breaking the guard breaks it.

| module | models |
|---|---|
| `RefreshRotation` | consuming and replacing refresh secrets, by any number of concurrent requests, sign-ins and revocations |
| `TokenState` | the browser's generation-numbered token set |
| `RefreshSession` | one browser refreshing against one device row, while other clients use other rows |
| `EmergencyAccess`, `EmergencyHistory`, `EmergencyRuns` | handlers and jobs of emergency access; a record told by its history; their runs, with jobs interrupted between reading and writing |
| `AnonymousHub` | slots and subscriber lists of anonymous connections |
| `Framing` | length prefixes and timestamps on the wire |
| `VaultSync` | account-scoped sync in the browser |
| `ClientSdk` | overlapping account preparations, and reset |
| `SsoLogin`, `SsoSession` | single sign-on records; the expiry of the sessions they open |
| `LayeredConfig`, `ConfigRuns` | environment, user layer, defaults; configuration changes that overlap |
| `DbPool` | permits and connections |
| `UnlockKeys` | key buffers during an unlock |
| `RecordStore` | the owner-scoped record store of the native application |
| `JsonKeys` | normalisation of JSON keys |

What the proofs found besides:

- A refresh writes its whole device row after it rotated the secret. Between refreshes alone this is
  safe, because nobody knows the new secret before the answer (`QuietImpliesGuard`). A revocation
  that falls between the rotation and the write is undone by it (`RevocationCanBeUndone`,
  `ReplacementSurvivesExactly`), and a sign-in that read the row before a rotation writes the
  consumed secret back, after which it can be exchanged a second time (`SecretCanBeExchangedTwice`).
- The timeout job of emergency access writes the status of records it read earlier, so it can
  overwrite a rejection (`RejectionCanBeOverwritten`, `RejectionHoldsExactly`).
- Reminder jobs may overlap, and then remind of one recovery twice within a day
  (`OverlappingScansCrowd`, `StaleReminderCrowds`, `ScanGuardIsNeeded`).
- The invitation's email is cleared when it is accepted, not only when it is confirmed.
- Deleting an SSO record takes nothing from a login that already read it
  (`RedeemEndsRecordExactly`), and an exchange whose user information fails is repeated
  (`UnusableGrantIsRetried`).
- A configuration update whose file write fails reports an error but stays in force until the next
  restart (`RestartRestoresExactly`). Of two overlapping partial updates the first can be undone
  (`PartialUpdateCanBeLost`), and overlapping updates can leave the older layer in the file
  (`ConfigRuns.GuardIsNeeded`).
- What sign-in-only mode gives an SSO session ends with the mode (`SignInOnlyPairsEndWithTheMode`).
- A `get` cancelled at the pool can leave a permit holder before an empty pool
  (`CancelAtPoolCanStarve`, `StarvationIsPossibleExactly`).
- A refresh whose answer is lost locks its device row for good (`LostAnswerLocksDevice`).
- The two JSON key normalisers differ on colliding keys (`TextOrderMatters`), unless the last of the
  colliding entries has the greatest key (`VisitorAgreesForAllValuesExactly`).
- A 401 signs out whoever is signed in when it arrives (`UnauthorizedHitsOwnTokensExactly`).
- If one of the two key expansions fails, the buffer of the other keeps its bytes (`WithUserKey`).

## Model

| member | source | states |
|---|---|---|
| `RefreshRotation.RefreshRunsAreSafe` | src/auth.rs:1301-1352 | for a row that only refreshes write, in every interleaving, with lost requests and whatever is done to other rows: each of its secrets is exchanged at most once, no pending row write would change its secret, and an answered secret is the row's until a request consumes exactly that secret |
| `RefreshRotation.QuietImpliesGuard` | src/api/identity.rs:168-188 | while a rotated row waits for its whole-row write no other refresh can replace its secret, because no client knows it yet |
| `RefreshRotation.StepKeepsQuiet` | src/auth.rs:1339-1347 | every step keeps the secrets of such a row unique, unrevealed until answered, and consumed only by requests that were given them |
| `RefreshRotation.GuardedRunsAreSafe` | src/db/models/device.rs:143-169 | the same safety for a device row with sign-ins, SSO refreshes and revocations mixed in, provided the secret of that row is replaced only while no row write is owed to it, whatever happens to other rows |
| `RefreshRotation.GuardedRunKeepsInvAt` | src/db/models/device.rs:143-169 | what such a run keeps at the row: its secret unspent, each secret exchanged once, pending writes carrying the row's secret |
| `RefreshRotation.ReplacementSurvivesExactly` | src/db/models/device.rs:299-308 | a replaced secret comes back by a row write if and only if some request owes the row one, and what comes back is the replaced secret |
| `RefreshRotation.RevocationCanBeUndone` | src/db/models/device.rs:299-308 | a revocation between rotation and write ends with the revoked secret valid and answered |
| `RefreshRotation.SecretCanBeExchangedTwice` | src/auth.rs:1316-1347 | from every state, a sign-in that read the row before a rotation leads to a second exchange of the same secret |
| `RefreshRotation.LostAnswerLocksDevice` | src/auth.rs:1339-1347 | once a request that consumed its secret is dropped before its answer, whatever refreshes follow, the row keeps the secret that no client was given, and no client can find the row again |
| `RefreshRotation.RefreshCompletes` | src/api/identity.rs:168-188 | a client holding the row's secret gets the next one in four steps, the row having it after the second and the client knowing it after the fourth |
| `RefreshRotation.CarryCompletes` | src/auth.rs:1316-1337 | a sign-in or SSO refresh, writing the row once or twice, keeps its secret and answers it |
| `RefreshRotation.RaceHasOneWinner` | src/db/models/device.rs:227-261 | of two requests that found the row by one secret the second to rotate is refused and changes no row |
| `RefreshRotation.RefusalOutcome` | src/db/models/device.rs:222-225 | a presented secret is refused exactly if no row has it, a consumed one never finds its row, and any unfinished request can be lost |
| `RefreshRotation.RefreshService.FindByRefreshToken` | src/db/models/device.rs:222-225 | the lookup step: a row with the secret, or a refusal if there is none |
| `RefreshRotation.RefreshService.RotateIfMatches` | src/db/models/device.rs:227-261 | the conditional update step, and that it reports exactly whether it hit |
| `RefreshRotation.RefreshService.Save` | src/db/models/device.rs:143-169 | the whole-row write step |
| `RefreshRotation.RefreshService.Answer` | src/api/identity.rs:177-187 | the answer step reveals the secret of the in-memory row |
| `TokenState.GenerationDecides` | web-client/assets/token-state.js:75-90 | in every run a response is stale exactly when its generation is, never a replay, non-rotated only if it carries the presented token, and at most one response is accepted per generation |
| `TokenState.RunKeepsInv` | web-client/assets/token-state.js:61-73 | a request of the current generation always carries the current account and refresh token |
| `TokenState.ResponseOutcome` | web-client/assets/token-state.js:75-90 | in every run, what a response leaves depends only on whether the state changed since its request began and on what it carries: the presented token again signs out, two good tokens replace the set, anything else changes nothing |
| `TokenState.UnrotatedTokenEndsSession` | web-client/assets/token-state.js:83-87 | after a response that did not rotate, no account and no token is held through any refreshes until somebody signs in |
| `TokenState.MismatchedRequestIsRefused` | web-client/assets/token-state.js:75-81 | a request, even a forged one, that is not of the held account, generation and token changes nothing |
| `TokenState.SignInOutcome` | web-client/assets/token-state.js:44-59 | exactly which sign-ins replace the token set, and what is then held |
| `TokenState.BeginOutcome` | web-client/assets/token-state.js:61-73 | a refresh begins exactly for the signed-in account, with its refresh token |
| `TokenState.UsableExactly` | web-client/assets/token-state.js:92-96 | a set accepted at t serves its account, and nobody else, exactly while now + skew < t + 1000 * expiresIn |
| `TokenState.TokenStore.AcceptRotated` | web-client/assets/token-state.js:75-90 | the checks in their order, the clearing of a session that did not rotate, no change otherwise |
| `TokenState.TokenStore.AcceptInitial` | web-client/assets/token-state.js:44-59 | the whole new token set with the next generation, or no change |
| `TokenState.TokenStore.Clear` | web-client/assets/token-state.js:39-42 | everything forgotten, generation moved on |
| `RefreshSession.SessionStaysInStep` | web-client/assets/token-state.js:61-90 | browser and row agree on the secret whenever nothing is in flight, and every delivered answer is accepted, whatever refreshes, sign-ins and revocations other rows see |
| `RefreshSession.DeliveryAccepted` | web-client/assets/token-state.js:75-90 | an answer that comes back is neither stale nor a replay nor non-rotated, with any number of refreshes in flight |
| `RefreshSession.OnlyOneAhead` | src/auth.rs:1339-1347 | at most one refresh in flight has consumed the browser's secret, and no other one presents the new one |
| `RefreshSession.BrowserRefreshes` | web-client/assets/token-state.js:61-90 | a signed-in browser with nothing in flight can always refresh, and ends with the row's next secret |
| `RefreshSession.SessionRunsServer` | src/auth.rs:1301-1352 | between sign-ins a run of the session holds a run of `RefreshRotation`, other rows included |
| `RefreshSession.RefusalComesBack` | src/auth.rs:1315-1318 | a refresh that comes too late is refused, and the browser keeps what it has |
| `RefreshSession.SignInGivesTheSecret` | web-client/assets/token-state.js:39-59 | signing in gives the browser the row's secret, and clearing takes everything from it |
| `EmergencyAccess.AccessTable.SendInvite` | src/api/core/emergency_access.rs:203-279 | the refusals (type, own email, unknown user without invitations or in a wrong domain, repeated invitation), and the record created, accepted at once for a registered user when mail is off |
| `EmergencyAccess.AccessTable.AcceptInvite` | src/db/models/emergency_access.rs:374-387 | acceptance by email, which fixes the grantee and clears the email |
| `EmergencyAccess.AccessTable.ConfirmAccess` | src/api/core/emergency_access.rs:393-439 | confirmation by the grantor of an accepted record, with the escrowed key |
| `EmergencyAccess.AccessTable.UpdateAccess` | src/api/core/emergency_access.rs:126-156 | the grantor's change of type, wait and key, refused for a type that does not parse |
| `EmergencyAccess.AccessTable.InitiateAccess` | src/api/core/emergency_access.rs:446-481 | initiation by the grantee of a confirmed record |
| `EmergencyAccess.AccessTable.DecideAccess` | src/api/core/emergency_access.rs:484-549 | approval and rejection by the grantor |
| `EmergencyAccess.AccessTable.DeleteAccess` | src/api/core/emergency_access.rs:163-183 | deletion by exactly one of the two parties |
| `EmergencyAccess.AccessTable.TimeoutJob` | src/api/core/emergency_access.rs:722-775 | an uninterrupted run approves exactly the due recoveries and changes nothing else |
| `EmergencyAccess.AccessTable.ReminderJob` | src/api/core/emergency_access.rs:777-834 | an uninterrupted run notifies exactly the due records and writes only their date |
| `EmergencyRuns.AccessNeedsConsent` | src/api/core/emergency_access.rs:704-713 | access only of the kind the latest invitation or update gave, only for the grantee the grantor confirmed, with the key last put in escrow, and after a consent to the latest initiation with no rejection since, when this record is not rejected while a timeout job has still to write it; jobs overlap and abort freely |
| `EmergencyRuns.AccessIsOneKind` | src/api/core/emergency_access.rs:704-713 | no record opens to both view and takeover |
| `EmergencyHistory.HandledByHistory` | src/api/core/emergency_access.rs:126-549 | a handler succeeds exactly when its event is legal by the record's history, and leaves every column as the longer history tells |
| `EmergencyHistory.ConfirmedOnce` | src/api/core/emergency_access.rs:393-439 | a legal history has at most one confirmation, by the grantor, of the grantee it has |
| `EmergencyRuns.RecordsAreTheirHistories` | src/db/models/emergency_access.rs:144-219 | in every run, jobs included, each stored record is the fold of its legal history |
| `EmergencyRuns.CallsAreJudgedByHistory` | src/api/core/emergency_access.rs:126-549 | in every run a call changes its record exactly when its event is legal by that history, and a deletion removes it exactly for one of the two parties |
| `EmergencyRuns.InvitationsAreJudged` | src/api/core/emergency_access.rs:203-279 | in every run, exactly which invitations are made, judged by the histories of the grantor's records |
| `EmergencyRuns.RecoveryByApproval` | src/api/core/emergency_access.rs:203-517 | after any run, invite, accept, confirm, initiate and approve end with the invited access and the confirmed key |
| `EmergencyRuns.RecoveryByWait` | src/api/core/emergency_access.rs:735-745 | and so does the timeout job at any time from the end of the wait on |
| `EmergencyRuns.EntriesAreUsedUp` | src/api/core/emergency_access.rs:736-745 | a job writes each entry once, and abandons exactly what it drops |
| `EmergencyRuns.FirstReminderComes` | src/api/core/emergency_access.rs:790-807 | the first reminder goes out once the recovery is a day old and within a day of its end |
| `EmergencyRuns.GuardedRunKeepsConsented` | src/api/core/emergency_access.rs:735-745 | such runs keep the record entitled while approved and its pending timeouts about the current recovery |
| `EmergencyRuns.ConfirmationIsFinal` | src/api/core/emergency_access.rs:359-430 | a confirmed record never returns to Invited or Accepted and never changes its grantee, and a deleted one never returns |
| `EmergencyRuns.RejectionHoldsExactly` | src/api/core/emergency_access.rs:528-540 | a rejection is overwritten by a job if and only if a job still has to write the record |
| `EmergencyRuns.RejectionCanBeOverwritten` | src/api/core/emergency_access.rs:735-745 | from every state with a due record, an interleaving in which the rejected record is open to its grantee |
| `EmergencyRuns.RejectGuardIsNeeded` | src/api/core/emergency_access.rs:735-745 | wherever a record is rejected that a job still has to write, the job's write gives its grantee access without consent |
| `EmergencyRuns.RejectionLasts` | src/api/core/emergency_access.rs:528-540 | with no such job the record gives no access until it is initiated again |
| `EmergencyRuns.JobWritesCommute` | src/api/core/emergency_access.rs:741-745 | the status of one job and the date of the other are both kept, in either order |
| `EmergencyRuns.RemindersArePaced` | src/api/core/emergency_access.rs:790-807 | reminders of one recovery are a day apart, and while the wait is unchanged at most the first precedes the due moment, when no scan finds this record due while a reminder of it has still to be written |
| `EmergencyRuns.ScanGuardIsNeeded` | src/main.rs:712-716 | and from every reachable state in which a scan breaks that condition, some continuation sends two reminders of one recovery within a day, provided that pending reminders of earlier recoveries were read before this scan |
| `EmergencyRuns.OverlappingScansCrowd` | src/api/core/emergency_access.rs:784-807 | two overlapping scans of one recovery, in one of the two orders of their writes |
| `EmergencyRuns.StaleReminderCrowds` | src/api/core/emergency_access.rs:797-805 | a reminder of an earlier recovery written last sets the date back, and a scan within the day reminds again |
| `EmergencyRuns.ShortWaitsAreNotReminded` | src/api/core/emergency_access.rs:790-807 | in every run, however jobs overlap or abort: no reminder comes more than a day early, and none at all before a wait of a day or less elapsed, if at the initiation no older reminder was still being written |
| `EmergencyRuns.StaleReminderBringsNextForward` | src/api/core/emergency_access.rs:797-805 | why that condition is there: an older reminder still being written brings the next one before the due moment |
| `AnonymousHub.TablesAreExact` | src/api/notifications.rs:564-587 | in every interleaving each count is the number of connections holding a slot, at most 25, zero only while a release is pending, and each list is exactly the live subscribers |
| `AnonymousHub.SlotsAreHonest` | src/api/notifications.rs:566-587 | the subtraction never saturates, and a connection is turned away exactly at 25 holders |
| `AnonymousHub.NothingIsLeaked` | src/api/notifications.rs:110-118 | when every connection is over both tables are empty |
| `AnonymousHub.ConnectionComesAndGoes` | src/api/notifications.rs:110-225 | after any run a connection of an address with a free slot gets it, joins its list as the last, and on closing leaves every count and list as it found them |
| `AnonymousHub.Subscriptions.TryReserve` | src/api/notifications.rs:566-573 | the reservation step |
| `AnonymousHub.Subscriptions.Join` | src/api/notifications.rs:220-225 | the subscription step |
| `AnonymousHub.Subscriptions.Leave` | src/api/notifications.rs:113-115 | leaving the list |
| `AnonymousHub.Subscriptions.RemoveIfEmpty` | src/api/notifications.rs:116-116 | dropping an empty list |
| `AnonymousHub.Subscriptions.ReleaseSlot` | src/api/notifications.rs:576-582 | the decrement, and whether it reached zero |
| `AnonymousHub.Subscriptions.RemoveIfZero` | src/api/notifications.rs:583-586 | dropping a zero count, unless it was taken again |
| `Framing.Serialize` | src/api/notifications.rs:282-311 | the encoder loop produces the frame, and terminates on the shrinking size |
| `Framing.StreamIsReadBack` | src/api/notifications.rs:288-310 | any concatenation of frames is read back as exactly its messages |
| `Framing.FrameIsReadBack` | src/api/notifications.rs:288-310 | a frame is read back whatever follows it |
| `Framing.FramesArePrefixFree` | src/api/notifications.rs:288-310 | no frame begins another |
| `Framing.PrefixIsShortest` | src/api/notifications.rs:293-307 | no byte string spells a length in fewer groups, and none other in as few |
| `Framing.GroupsAreRemainders` | src/api/notifications.rs:295-300 | the masks and shifts on machine words are the arithmetic used here |
| `Framing.DateIsReadBackExactly` | src/api/notifications.rs:313-323 | the eight bytes give back both fields exactly when the seconds fit 34 bits and the nanoseconds 30 |
| `VaultSync.StoredSyncIsOwn` | web-client/assets/sync-client.js:5-17 | a stored envelope was fetched with a token of the account that owns the scope, by a request begun in this scope |
| `VaultSync.ResponseIsStoredExactly` | web-client/assets/vault-state.js:43-54 | a response is stored if and only if it is valid and the scope did not change since the request began, not even back |
| `VaultSync.UnauthorizedHitsOwnTokensExactly` | web-client/assets/authenticated-api.js:29-37 | a 401 discards the token set of its request exactly when no step since then discarded it or installed another, and never touches the vault |
| `VaultSync.FailureOutcome` | web-client/assets/authenticated-api.js:29-37 | a failed request changes tokens exactly if it was unauthorised, and then forgets them all |
| `VaultSync.ScopeIsLatest` | web-client/assets/vault-state.js:32-64 | the scope is the account of the latest scope change and the epoch counts the changes, whatever syncs do |
| `VaultSync.ForeignSyncIsRefused` | web-client/assets/vault-state.js:43-46 | a sync of another account or epoch, or that is none, is never stored |
| `VaultSync.StartOutcome` | web-client/assets/authenticated-api.js:13-28 | in every run a sync goes out exactly for the account with both the scope and a token that lasts beyond the skew |
| `VaultSync.SyncCompletes` | web-client/assets/sync-client.js:5-17 | from every state, signing in, opening the scope, asking and being answered stores the account's envelope, fetched with its own token |
| `VaultSync.VaultStore.AcceptOpaqueSync` | web-client/assets/vault-state.js:43-54 | the checks in their order, and what is stored |
| `VaultSync.VaultStore.SwitchAccount` | web-client/assets/vault-state.js:61-64 | a clear and a new scope |
| `VaultSync.SyncClient.Begin` | web-client/assets/authenticated-api.js:13-28 | when a request goes out, and what it captured |
| `VaultSync.SyncClient.Finish` | web-client/assets/sync-client.js:10-16 | the step after the await |
| `VaultSync.SyncClient.Failed` | web-client/assets/authenticated-api.js:34-37 | the clear on 401 |
| `ClientSdk.LatestCallDecides` | web-client/assets/client-sdk.js:76-96 | in every run, with e the latest call or reset: after a call the account is its own, ready metadata and the verified server came back to it after it began, an error is one it met, and it is pending only if nothing came back; after a reset nothing is left |
| `ClientSdk.NoCallNoAccount` | web-client/assets/client-sdk.js:76-96 | without call or reset the client is signed out |
| `ClientSdk.EpochStandsExactly` | web-client/assets/auth-state.js:34-79 | the epoch is what it was if and only if no call and no reset came in between |
| `ClientSdk.OnlyLatestInstalls` | web-client/assets/auth-state.js:50-70 | metadata, or the error of a failed request, that comes back to a call is installed exactly when no call and no reset came after it, with the call's own account and server; a configuration response installs nothing |
| `ClientSdk.PreparationCompletes` | web-client/assets/client-sdk.js:76-96 | from every state, an undisturbed call installs its account, metadata and server, or its error |
| `ClientSdk.PreloginIsAnsweredOnce` | web-client/assets/auth-state.js:37-75 | a prelogin request is accepted only while pending, and never after an acceptance, a rejection or a clear |
| `ClientSdk.ClientRunsSync` | web-client/assets/client-sdk.js:59-66 | every run of the client holds a run of `VaultSync`, a reset being both clears |
| `ClientSdk.ResetSilencesEverything` | web-client/assets/client-sdk.js:59-66 | after a reset no preparation or sync still in flight brings anything back |
| `ClientSdk.GoreeVaultClient.BeginPrepare` | web-client/assets/client-sdk.js:76-79 | the part before the awaits |
| `ClientSdk.GoreeVaultClient.FinishPrepare` | web-client/assets/client-sdk.js:83-95 | the part after them, the error path included |
| `ClientSdk.GoreeVaultClient.DoReset` | web-client/assets/client-sdk.js:59-66 | all three states cleared and their epochs moved |
| `SsoLogin.TokensNeedTheBoundBrowser` | src/api/identity.rs:1222-1249 | in every interleaving tokens and exchanges only for records whose callback presented a cookie with the hash that authorize gave that record |
| `SsoLogin.RecordsServeTenMinutes` | src/db/models/sso_auth.rs:110-131 | in every interleaving callbacks are accepted and records found at most 600 seconds after the authorize that made them |
| `SsoLogin.CallbackOutcome` | src/api/identity.rs:1222-1249 | in every run a callback writes its code exactly within ten minutes of its record's authorize and with the cookie that authorize gave out |
| `SsoLogin.FindOutcome` | src/sso.rs:254-277 | in every run a login comes to a record exactly by its code and within ten minutes, and what it then holds |
| `SsoLogin.NothingFoundOutcome` | src/sso.rs:254-256 | in every run a login comes to nothing exactly if no record in time has its code |
| `SsoLogin.PurgeOutcome` | src/db/models/sso_auth.rs:110-115 | a purge removes exactly the records made more than ten minutes ago |
| `SsoLogin.LoginFinds` | src/api/identity.rs:1222-1313 | from every state, authorize, callback and lookup in time lead to the new record with its code |
| `SsoLogin.LoginCompletes` | src/sso.rs:279-336 | the provider's answer is kept for a retry, which is ready at once for the same user; redeeming gives tokens and removes the record |
| `SsoLogin.FailedExchangeOutcome` | src/sso.rs:279-309 | a failed exchange ends its login and leaves every record as it was |
| `SsoLogin.RecordsAreUsedOnce` | src/sso.rs:247-336 | with the logins of this record one at a time, whatever other records see: tokens at most once and a completed exchange at most once, however often second factors fail |
| `SsoLogin.GuardIsNeeded` | src/sso.rs:254-336 | whenever a login finds a record that another one holds, both can go on to tokens, if the provider answers them |
| `SsoLogin.TwoLoginsIssueExactly` | src/sso.rs:247-336 | with a provider that grants each code once, two logins that hold one record both come to tokens if and only if each is redeemable or has a code that is still good, and not the same code |
| `SsoLogin.ChancesBoundIssues` | src/sso.rs:247-336 | and in no continuation more often than that |
| `SsoLogin.RedeemEndsRecordExactly` | src/sso.rs:319-336 | redeeming ends a record for every continuation if and only if no other login holds it |
| `SsoLogin.GoneStaysGone` | src/sso.rs:254-256 | a record neither stored nor held never yields tokens again |
| `SsoLogin.UnusableGrantIsRetried` | src/sso.rs:279-313 | a granted exchange whose user information fails is followed by another of the same code |
| `SsoLogin.SsoTable.Start` | src/api/identity.rs:1307-1313 | authorize replaces the state's record by a new one with the cookie's hash |
| `SsoLogin.SsoTable.SignInRedirect` | src/api/identity.rs:1231-1249 | the callback step, accepted exactly with the bound cookie and within ten minutes |
| `SsoLogin.SsoTable.FindByCode` | src/sso.rs:254-277 | the lookup, the kept response, and the deletion of a failed authorisation |
| `SsoLogin.SsoTable.SaveResponse` | src/sso.rs:311-315 | the response is saved with the record |
| `SsoLogin.SsoTable.RedeemRecord` | src/sso.rs:328-328 | the record is deleted before tokens are built |
| `SsoSession.SessionWithoutRefreshTokenIsNotExtended` | src/sso.rs:385-472 | every pair of any tree of refreshes, with the mode changing in between, has the expiry of the first and started five minutes before it, or was given in sign-in-only mode |
| `SsoSession.SessionIsRefreshedExactly` | src/sso.rs:449-470 | which attempts of a chain add a pair, judged by answers and times alone, and what the pair is |
| `SsoSession.KindOfSessionIsKept` | src/sso.rs:435-448 | a session with a provider refresh token never loses it, but for pairs given in sign-in-only mode |
| `SsoSession.LatestRefreshTokenIsCarried` | src/sso.rs:435-448 | when the newest pair is refreshed each time, exactly the attempts in force and answered with a known end are granted, and the session carries the provider's latest refresh token with the times of the last answer |
| `SsoSession.RefreshOutcome` | src/sso.rs:435-448 | the same for one refresh |
| `SsoSession.SessionOpens` | src/sso.rs:319-423 | what a redeemed login opens in each mode, and when it is an error |
| `SsoSession.SignInSessionWindow` | src/auth.rs:1273-1298 | a sign-in-only session is refreshed exactly within its 30 or 90 days, give or take the leeway |
| `SsoSession.SignInOnlyPairsEndWithTheMode` | src/auth.rs:1330-1337 | after any chain, once sign-in-only mode is not used again every further pair has the expiry of the first, whichever pair is presented |
| `SsoSession.IdleSessionsEnd` | src/auth.rs:1307-1313 | however a sign-in-only session was refreshed, after a pause of 90 days and the leeway nothing more is issued in any mode |
| `LayeredConfig.EffectiveConfiguration` | src/config.rs:1447-1522 | after any operations the configuration is the build of both layers and the override list has exactly the options set in both |
| `LayeredConfig.RestartRestoresExactly` | src/config.rs:1505-1507 | from a restorable state, a restart restores what an operation leaves if and only if it removes the user layer, is stored, is refused, or asks for what is in force |
| `LayeredConfig.RestartRestoresRuns` | src/config.rs:1505-1507 | after any run, if and only if the layer in force is the one asked for by the last operation that reached the file |
| `LayeredConfig.RefusedUpdateChangesNothing` | src/config.rs:1474-1513 | exactly when an update leaves the state as it was |
| `LayeredConfig.PartialUpdatesCompose` | src/config.rs:1515-1522 | two partial updates are one with both, the later winning |
| `LayeredConfig.AdminCannotTouchFixedOptions` | src/config.rs:269-275 | from an administrator's update on, through all updates and deletions that follow, an option that is not editable has the value of the environment in the effective configuration, unless the server sets it itself or the clean-up rewrites it |
| `LayeredConfig.MergeAssociative` | src/config.rs:277-299 | merging is associative, with the empty builder neutral |
| `LayeredConfig.OverridesExact` | src/config.rs:282-288 | the override list is exact and without repetition |
| `LayeredConfig.SetOptionsWin` | src/config.rs:301-321 | a set option keeps its value through the build unless it is generated or the final clean-up rewrites it |
| `LayeredConfig.UnsetOptionsDefault` | src/config.rs:74-89 | through the build, an unset option gets its declared default or what is computed from the options before it, and a generated one is computed even when set |
| `LayeredConfig.FilledOption` | src/config.rs:301-321 | the same while the options are filled, with an unset optional one absent |
| `LayeredConfig.InForceIsValid` | src/config.rs:1474-1513 | from a valid configuration and an environment valid by itself, every run of operations stays valid |
| `LayeredConfig.MergeLayers` | src/config.rs:277-299 | the field-by-field merge and its override list |
| `LayeredConfig.BuildItems` | src/config.rs:301-321 | options are filled in declaration order |
| `LayeredConfig.ClearNonEditable` | src/config.rs:269-275 | only editable options remain |
| `LayeredConfig.Config.UpdateConfig` | src/config.rs:1474-1513 | the update, refused before or stored after the change |
| `LayeredConfig.Config.UpdateConfigPartial` | src/config.rs:1515-1522 | the update merged into the user layer |
| `LayeredConfig.Config.DeleteUserConfig` | src/config.rs:1572-1598 | back to the environment and the defaults |
| `ConfigRuns.OverlapKeepsEffective` | src/config.rs:1474-1502 | however operations overlap, the configuration is the build of the environment under one user layer, with the exact override list |
| `ConfigRuns.UndisturbedUpdate` | src/config.rs:1474-1513 | an update whose steps nothing comes between is the single operation of `LayeredConfig` |
| `ConfigRuns.UndisturbedDelete` | src/config.rs:1572-1598 | and so is a deletion |
| `ConfigRuns.PartialInstallsExactly` | src/config.rs:1515-1522 | whatever other operations do between the start of a partial update and its lock, it adds its options to the layer in force if and only if that layer agrees with the one at its start on all other options |
| `ConfigRuns.PartialUpdateCanBeLost` | src/config.rs:1515-1522 | of two overlapping partial updates the first is undone outside the options of the second |
| `ConfigRuns.GuardedRunsArePersisted` | src/config.rs:1495-1507 | a restart restores the configuration whenever no operation is between lock and file, if no such stretch overlapped one with a different layer and file writes succeeded |
| `ConfigRuns.GuardIsNeeded` | src/config.rs:1495-1507 | when two such stretches with different layers overlap, an order of their ends leaves the wrong layer in the file |
| `ConfigRuns.WriteGuardIsNeeded` | src/config.rs:1505-1507 | and a failing write over another layer leaves a configuration that a restart does not restore |
| `DbPool.PermitsGuardConnections` | src/db/mod.rs:235-252 | when no request is cancelled at the pool (cancelled while waiting is fine), connections out <= permits held <= max, and a permit holder can check one out |
| `DbPool.PoolIsNeverOverdrawn` | src/db/mod.rs:210-231 | with cancellations too, neither exceeds max, and only strays are out without a permit |
| `DbPool.StarvationIsPossibleExactly` | src/db/mod.rs:235-252 | in every reachable state, a permit holder can come before an empty pool without further cancellation at the pool if and only if the thread of a cancelled request is at the pool or has a connection |
| `DbPool.EverythingComesBack` | src/db/mod.rs:149-168 | when every request is over all permits and connections are back |
| `DbPool.RequestsCanEnd` | src/db/mod.rs:149-252 | from every state each request can come to its end by its own steps, giving back exactly the permit and the connection it has |
| `DbPool.CancelAtPoolCanStarve` | src/db/mod.rs:235-252 | for every pool size and reachable state, after a request is cancelled at the pool a permit holder can come before an empty pool |
| `DbPool.Connections.AcquirePermit` | src/db/mod.rs:236-242 | a permit or a time-out |
| `DbPool.Connections.GetConnection` | src/db/mod.rs:244-252 | a connection, or the permit back |
| `DbPool.Connections.DropConnection` | src/db/mod.rs:156-166 | the connection first, then the permit |
| `UnlockKeys.WithUserKey` | web-client/assets/unlock-coordinator.js:49-63 | on every way out all key buffers obtained are zero, while the operation saw the two halves of the plaintext and an already wiped plaintext; the one exception is an expansion whose sibling failed, which still holds its bytes |
| `UnlockKeys.UnlockOutcome` | web-client/assets/unlock-coordinator.js:49-63 | when an unlock fails at which step, and that the operation runs on the first and last half of the key decrypted under the "enc" and "mac" expansions |
| `UnlockKeys.Unwrap` | web-client/assets/account-crypto.js:59-74 | the key is the split plaintext, whose buffer is zero whether it splits or not |
| `UnlockKeys.Stretch` | web-client/assets/master-key-crypto.js:43-50 | the expansions under "enc" and under "mac", or the buffer that is left when one of them fails |
| `RecordStore.StoreIsFlatMap` | native/src/records.rs:78-155 | every sequence of operations is that sequence on a flat map, and keeps the store tidy and within bounds |
| `RecordStore.OwnersAreIsolated` | native/src/records.rs:84-155 | operations of other owners leave an owner's records alone |
| `RecordStore.OperationOutcome` | native/src/records.rs:90-154 | after any run, a put is read back exactly if it is named properly and within the limits, a delete removes its record, and no other record changes |
| `RecordStore.StoredIsWithinLimits` | native/src/records.rs:90-111 | in every run all that is stored is named properly, has 1 to 1048576 bytes and a positive revision |
| `RecordStore.IdentifierExact` | native/src/records.rs:173-178 | a proper name has 1 to 512 bytes, no control character, and no white space at either end |
| `RecordStore.Utf8BytesExact` | native/src/records.rs:173-178 | the bytes counted are those of the UTF-8 encoding |
| `RecordStore.MemoryStore.PutRecord` | native/src/records.rs:90-111 | the checks in their order, and the record stored |
| `RecordStore.MemoryStore.Get` | native/src/records.rs:118-122 | a record only inside its owner's boundary, and which error comes first |
| `RecordStore.MemoryStore.List` | native/src/records.rs:129-135 | exactly the owner's records, strictly ascending |
| `RecordStore.MemoryStore.DeleteRecord` | native/src/records.rs:142-154 | the record gone, and no empty map left |
| `JsonKeys.ConvertKeys` | src/util.rs:777-818 | the converter with its branches is the plain recursive key map |
| `JsonKeys.VisitMap` | src/util.rs:632-643 | the visitor inserts the entries in text order |
| `JsonKeys.VisitSeq` | src/util.rs:645-656 | on arrays the visitor is the converter |
| `JsonKeys.VisitorAgreesExactly` | src/util.rs:632-643 | visitor and converter agree on a text if and only if for every processed key the last entry and the last entry of the greatest key convert alike |
| `JsonKeys.VisitorAgreesForAllValuesExactly` | src/util.rs:632-643 | and agree on all texts with given keys if and only if the last entry processed to a key always has the greatest of the colliding keys |
| `JsonKeys.GreatestKeyWins` | src/util.rs:788-813 | of colliding entries the converter keeps the last one of the greatest key |
| `JsonKeys.GreatestIsGreatest` | src/util.rs:788-813 | that key is there and above every other key processed alike |
| `JsonKeys.VisitorAgreesWithoutCollisions` | src/util.rs:632-643 | so they agree whenever no two keys collide |
| `JsonKeys.TextOrderMatters` | src/util.rs:788-813 | and can differ when two do |
| `JsonKeys.Idempotent` | src/util.rs:777-818 | converting twice is converting once, colliding keys included |
| `JsonKeys.ProcessKeyIdempotent` | src/util.rs:659-666 | processed keys are left alone |
| `JsonKeys.ProcessKeyOutcome` | src/util.rs:659-666 | the eight spellings of "ssn" become "ssn", and of any other key the first character is lowered and nothing else changed |
| `JsonKeys.CollectGet` | src/util.rs:788-813 | under every key of the result is the conversion of the last field processed to it |
| `JsonKeys.PathsSurvive` | src/util.rs:777-818 | without collisions every value is found at its processed path, leaves and array positions unchanged |
| `JsonKeys.NothingInvented` | src/util.rs:777-818 | every value of a result comes from a path of the source |

## Left out

- Assumptions on the outside: generated secrets, identifiers and cookies never repeat; a client presents a generated secret only if it was given it; SQL statements are atomic; signatures, hashes, key derivation and ciphers are parameters.
- Sign-in, SSO refresh and revocation enter `RefreshRotation` only as row writers; their own checks, device deletion, and the loop over all devices of a user are not modelled.
- `EmergencyRuns.AccessNeedsConsent`: assumes that the record in question is not rejected between a timeout job's read and its write of it, because otherwise the statement is false (`RejectGuardIsNeeded`).
- `EmergencyRuns.RemindersArePaced`: assumes that no scan finds the record in question due while a reminder of it has still to be written, because otherwise the statement is false (`ScanGuardIsNeeded`).
- `EmergencyRuns.JobWritesCommute`: does not model the `updated_at` column, which both jobs write and no decision reads; of it the last write stays.
- `SsoLogin`: what the provider answers to an exchange is unconstrained, in `GuardIsNeeded` and `UnusableGrantIsRetried` also where section 4.1.2 of RFC 6749 forbids a second grant of one code; `TwoLoginsIssueExactly` is for a provider that obeys it.
- `SsoLogin.RecordsAreUsedOnce`: assumes that the logins of the record in question do not overlap, because otherwise the statement is false (`GuardIsNeeded`).
- `RefreshRotation.GuardedRunsAreSafe`: assumes that the row's secret is not replaced while a row write is owed to the row in question, because otherwise the statement is false (`SecretCanBeExchangedTwice`, `RevocationCanBeUndone`).
- `ConfigRuns.GuardedRunsArePersisted`: assumes that operations do not overlap between lock and file with different layers, and that file writes succeed, because otherwise the statement is false (`ConfigRuns.GuardIsNeeded`, `ConfigRuns.WriteGuardIsNeeded`).
- `RefreshSession.SessionStaysInStep`: assumes that no response to this browser is lost (then the row is locked, `LostAnswerLocksDevice`), that nobody else signs in to, revokes or presents the current secret of this row, and that sign-in and clearing wait until nothing is in flight.
- `RefreshRotation.RefreshRunsAreSafe`: assumes that sign-ins, SSO refreshes and revocations leave the row in question alone; `GuardedRunsAreSafe` is the statement with them.
- Emergency-access handlers are atomic; mail, policies, the effects of a password reset on the grantor's account, and lookups of users that no longer exist are not modelled.
- `LayeredConfig`, `ConfigRuns`: the list of options, the rules of `validate_config` and the final clean-up of `build` are parameters; a file write is atomic.
- `JsonKeys`: case mapping is ASCII only; how text is parsed into values is not modelled beyond repeated keys.
- `Framing`: the MessagePack encoding of the payload is not modelled.
- `ClientSdk`: the session state, its check in `syncAccount`, and listeners are not modelled; identifiers are already normalised.
- `SsoSession`: times are whole seconds; the device and user claims are not modelled.
- `DbPool`: idle time-outs and broken connections are not modelled; waiting is the choice of when a step happens.
- `UnlockKeys`: the operation is a function of the key bytes, so copies that it makes are not modelled.
- HTTP routing, guards, templates, push relay, rate limiting, icon fetching, the authenticated user hub and database migrations: they pass requests on to libraries, or their rules are single comparisons.
