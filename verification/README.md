# Verified model of the control plane and the memory index

The site keeps its accounts, refresh sessions, one-time tokens, MFA state and rate limits in PostgreSQL (with a
file-backed fallback for sessions), its memory as an append-only event log with a lexical index beside it, and its
platform description in one configuration file. This project models the code that changes those stores and proves
what they are relied on for.

How the model is put together:

- **Authentication.** `AuthModel` turns each request into a program of SQL statements chosen from the rows it reads;
  `Apply` runs it and rolls back when a statement raises. `RowEffects` says what each request leaves, column by column.
  `Sessions`, `SessionRuns`, `UserRows`, `Administrators`, `AccessTokens`, `Lockout` and `OneTimeTokens` prove properties
  of every run of such requests. `AuthHandlers` has the handlers as a class that updates tables step by step, each proved
  to do what `Apply` says.
- **Concurrency.** `Transactions` splits the transactional routes into begin, lock, execute and commit or abort, at
  READ COMMITTED, with private writes over the committed tables (`Overlays`). `Serializability` proves that every
  interleaving commits exactly a serial run in commit order, `SerialRuns` that every serial run is committed by some
  interleaving; `Interleavings` carries the serial theorems over.
- **Other back end.** `FileRotation` models the file-backed session list and relates the two rotations.
- **Tokens and codes.** `Base32`, `Totp`, `MfaEnrolment` (set-up and confirmation), `Assurance` (recent-MFA assurances
  and recovery codes), `EnrolmentTraces` and `EnrolmentRuns` (from a sensitive action back to the enrolment),
  `TokenRequests` (replacing a token in two statements), `Invitations`, `Verification` (verified addresses).
- **Memory.** `Text`, `MemoryIndex`, `MemorySearch`, `MemoryLog`, `MemoryAnswers` (searches while rebuilds race),
  `MemoryIngest`.
- **The rest.** `RateLimit`, `Redaction`, `PlatformConfig` and `PlatformStore`.

Assumptions: identifiers and tokens drawn at random are fresh, and hashing is injective on issued tokens; clocks do
not go back; PostgreSQL holds row and advisory locks to commit and re-reads a row after waiting for it; handlers that
read a whole list and save it back are one step, and so are a sign-in, a challenge and a recovery log-in; a one-step
handler waits while a transaction holds the row of the user it is about, and a login while any user row is held, also
where its own writes go to session rows only; whoever can show the keyed digest of some claims holds a token that the
server issued. Cryptography, JSON printing, Unicode folding, regular expressions and string collation are parameters
with the few laws each theorem names.

Where the code and its documents disagree the model follows the code:

- `docs/security-threat-model.md:3` says refresh reuse revokes the family. The PostgreSQL path only refuses a token
  that was already rotated (`app/api/auth/refresh/route.ts:31`); `docs/authentication-procedure.md:130-131` admits it.
- `docs/authentication-procedure.md:230-231` speaks of a lock period and line 318 of a reset that clears the lock. The
  status `LOCKED` set by the fifth failure (`app/api/auth/login/route.ts:13`) ends neither with time nor with a reset;
  `Lockout.LockedUntilAdminActs` proves it. The same line locks accounts that were disabled or pending.
- Failed logins are outside the guard for the final administrator and can lock it:
  `Administrators.FailedLoginCanLockTheLastAdmin` is an instance, `Administrators.LoginLocksLastAdminExactly` says when.
- The two rotations differ on a token presented again: `FileRotation.ReplayDiffers` is an instance,
  `FileRotation.SameLiveSessionsExactly` says when.
- Racing rebuilds can put an older index back: `MemoryLog.RacingRebuildsCanRegress` is an instance,
  `MemoryLog.IndexNeverRegressesExactly` says when.
- The offline script builds other entries than the service from some logs edited by hand:
  `MemoryIndex.BuildersDifferOnEditedLogs` is an instance, `MemoryIndex.BuildersAgreeExactly` says when.
- Starting the MFA set-up again (`lib/auth/mfa.ts:15`) withdraws the confirmed secret before the new one is confirmed,
  while the account still counts as enrolled and recoverable: `MfaEnrolment.RestartSuspendsTotp`.
- A request for a reset token (`app/api/auth/password/forgot/route.ts:8`) and a resent verification token
  (`app/api/auth/email/resend/route.ts:9`) run two statements outside a transaction. Overlapping requests can leave two
  tokens that work: `OneTimeTokens.OverlapLeavesTwo` is an instance, `OneTimeTokens.AtMostOneUnusedReset` and
  `Verification.AtMostOneUnusedVerification` say when.
- Confirming MFA checks a code before the transaction that confirms (`lib/auth/mfa.ts:16`). A set-up started again in
  between gets a secret confirmed that nobody has shown a code for: `EnrolmentRuns.RestartBeforeConfirmation` is an
  instance, `EnrolmentTraces.ConfirmedSecretShownExactly` says when.
- A verified address need not have answered a mail: redeeming an invitation (`app/api/auth/invitations/redeem/route.ts:31`)
  and the script that makes an administrator (`scripts/admin-create.mjs:66`) open verified accounts, as
  `Verification.VerifiedThroughTokenOrInvitation` states.
- In the first thirty seconds of 1970 the TOTP check raises, because the counter before the current one is negative.

## Model

| member | source | states |
|---|---|---|
| `Sessions.ApplyEvolves` | app/api/auth/refresh/route.ts:36-40 | whatever a handler does, each session row keeps its user, token, family and expiry, a revoked one stays revoked, and only drawn ids are added |
| `Sessions.RotationExtendsChain` | app/api/auth/refresh/route.ts:36-40 | rotating the live session appends exactly one row to the end of its family's chain and keeps every other chain |
| `Sessions.ApplyKeepsChains` | app/api/auth/refresh/route.ts:18-41 | after any handler the families are again simple acyclic chains under the replaced-by link: rotation extends one, login starts one, deleting a user drops that user's |
| `Sessions.DropKeepsChains` | app/api/admin/users/[id]/route.ts:60-67 | the cascade of a deletion removes whole chains and leaves the others as they were |
| `Sessions.ApplyKeepsConsistent` | db/migrations/001_auth.sql:24-38 | token hashes stay unique and every session keeps an existing owner after any handler |
| `Sessions.Member` | app/api/auth/refresh/route.ts:36-40 | every row is in its family's chain, has that family's owner, and a live row is the tail |
| `Sessions.OneLivePerFamily` | app/api/auth/refresh/route.ts:18-41 | a family has at most one unrevoked session and it was not replaced |
| `SessionRuns.ReachableIsValid` | app/api/auth/refresh/route.ts:18-41 | the chain structure and the table constraints hold in every reachable state |
| `SessionRuns.ChainLength` | app/api/auth/refresh/route.ts:36-40 | a family started in the run has one row plus one per successful rotation |
| `SessionRuns.NoRevival` | lib/auth/http.ts:22 | over any run no revoked session becomes live again and no row changes owner, token or family |
| `SessionRuns.TokenSucceedsOnce` | app/api/auth/refresh/route.ts:19-40 | over any run a refresh token is accepted at most once |
| `SessionRuns.FirstOneWins` | app/api/auth/refresh/route.ts:19-40 | any number of requests with one live token leave the database exactly as the first of them alone |
| `SessionRuns.ConcurrentRefreshes` | app/api/auth/refresh/route.ts:30-40 | of k requests with one live token exactly one succeeds and its replacement stays live |
| `SessionRuns.DeadTokenRevokesFamily` | app/api/auth/refresh/route.ts:30-35 | a dead token that was never replaced ends its family and nothing else; one that was replaced changes nothing |
| `SessionRuns.ResetEffect` | app/api/auth/password/reset/route.ts:7 | a usable reset token changes the password, bumps both versions, retires the user's reset tokens and revokes the user's live sessions, and changes nothing else |
| `SessionRuns.EndedSessions` | app/api/admin/users/[id]/revoke-sessions/route.ts:7 | right after a reset or a committed revocation the user has no live session |
| `SessionRuns.ResetEndsOlderSessions` | app/api/auth/password/reset/route.ts:7 | whatever follows, a live session of that user was issued after the reset or revocation |
| `UserRows.RowAfter` | app/api/admin/users/[id]/route.ts:33-46 | each handler changes at most the one user row it is about, by the change the route names, and only a committed deletion removes a row |
| `UserRows.GoneStaysGone` | app/api/admin/users/[id]/route.ts:60-67 | a deleted user does not come back |
| `RowEffects.PatchedRow` | app/api/admin/users/[id]/route.ts:33-46 | after a committed PATCH the row has the role and status asked for, or the old ones, requires MFA if the new role is ADMIN or it did before, and counts the change in the two versions; every other column and table is as before |
| `RowEffects.UnlockedRow` | app/api/admin/users/[id]/unlock/route.ts:7 | a committed unlock sets the status ACTIVE and clears failure count and lock time, and nothing else |
| `RowEffects.MfaResetRows` | app/api/admin/users/[id]/reset-mfa/route.ts:7 | a committed MFA reset deletes the user's secret and recovery codes, withdraws the enrolment, requires a new one and raises the security version, and nothing else |
| `RowEffects.DeletedRows` | app/api/admin/users/[id]/route.ts:60-67 | a committed deletion removes the user and exactly the sessions, reset tokens, codes and secret of that user |
| `RowEffects.ResetRows` | app/api/auth/password/reset/route.ts:7 | a usable reset token sets the hash asked for, raises both versions by one, clears failure count and lock time, keeps the status, and ends exactly the user's unused tokens and live sessions |
| `RowEffects.VerifiedRow` | app/api/auth/email/verify/route.ts:6 | verifying an address records the time and activates only an account that waited for it |
| `RowEffects.LoggedInRows` | app/api/auth/login/route.ts:14 | an accepted login clears failure count and lock time and adds one live session, for seven days |
| `RowEffects.RefusedRow` | app/api/auth/login/route.ts:13 | a refused login counts one failure, and from the fifth on sets the status LOCKED and a lock time fifteen minutes ahead |
| `RowEffects.RotatedRows` | app/api/auth/refresh/route.ts:36-40 | a granted refresh revokes the old session, links it to the new one, and adds that for seven days with the same user and family |
| `RowEffects.RefusedFamily` | app/api/auth/refresh/route.ts:30-35 | a refused refresh of a token that was not replaced revokes exactly the live sessions of its family |
| `RowEffects.EverywhereEnded` | app/api/auth/logout-all/route.ts:5 | a log-out everywhere, and a committed administrative revocation, revoke exactly the user's live sessions |
| `RowEffects.LoggedOutRow` | lib/auth/http.ts:22 | a log-out revokes the one session of the token if it is live |
| `RowEffects.IssuedReset` | app/api/auth/password/forgot/route.ts:8 | an issued reset token belongs to the user who asked and lives thirty minutes |
| `RowEffects.OnlyResetsChangePassword` | app/api/auth/password/reset/route.ts:7 | no handler but a usable reset changes the password hash of a user who stays |
| `RowEffects.PasswordIsLastReset` | app/api/auth/password/reset/route.ts:7 | over any run a user's password hash is that of the last usable reset, or the starting one |
| `RowEffects.OnlyPatchesChangeRole` | app/api/admin/users/[id]/route.ts:33-46 | no handler but a committed PATCH that names a role changes the role of a user who stays |
| `RowEffects.RoleIsLastPatch` | app/api/admin/users/[id]/route.ts:33-46 | over any run a user's role is that of the last committed PATCH that names one, or the starting one |
| `Administrators.GuardedRollsBack` | lib/auth/admin.ts:23-29 | a change that concerns an administrator commits if and only if a recoverable administrator is left; otherwise all tables are as before |
| `Administrators.RevocationNeedsASecondAdmin` | app/api/admin/users/[id]/revoke-sessions/route.ts:7 | revoking an administrator's sessions commits if and only if two recoverable administrators exist, and never changes who is recoverable |
| `Administrators.EventKeepsAnAdmin` | lib/auth/admin.ts:13-29 | if there is a recoverable administrator, a handler leaves one if and only if it is not a refused login that locks the last one |
| `Administrators.AlwaysAnAdministrator` | lib/auth/admin.ts:8-29 | over any run there is a recoverable administrator at every moment if and only if no login of the run locks the last one |
| `Administrators.FailedLoginCanLockTheLastAdmin` | app/api/auth/login/route.ts:13 | a concrete state in which the fifth failed login leaves no recoverable administrator |
| `Administrators.FailedLoginEffect` | app/api/auth/login/route.ts:13 | a refused login takes its user, and only that user, out of the recoverable administrators from the fifth failure on, and nobody before |
| `Administrators.LoginLocksLastAdminExactly` | app/api/auth/login/route.ts:12-14 | a login leaves no recoverable administrator if and only if it is refused, at least four failures count already, and its user was the only one |
| `AccessTokens.AcceptanceWindow` | lib/auth/jwt.ts:9-29 | for an unchanged active user a token issued at t passes exactly while t - 30 <= now < t + 600 |
| `AccessTokens.VerifiesExactly` | lib/auth/jwt.ts:17-29 | a token verifies if and only if its signature is the keyed digest of its claims, issuer and audience are the server's, and the four time conditions hold |
| `AccessTokens.AuthenticatesExactly` | lib/auth/http.ts:16 | a request is authenticated if and only if its token verifies and its user is there, active, with the role and both versions of the claims |
| `AccessTokens.IssuedClaims` | lib/auth/jwt.ts:9-15 | an issued token carries the user's role and versions at that moment, the server's names, its times and the digest of all of that |
| `AccessTokens.VersionStep` | app/api/admin/users/[id]/route.ts:41 | versions never decrease; a role change, status change, MFA reset or password reset strictly raises the security version and a role change the role version |
| `AccessTokens.VersionsGrow` | app/api/auth/password/reset/route.ts:7 | over any run the versions of a user grow, strictly when a security-relevant change committed |
| `AccessTokens.NoABA` | lib/auth/http.ts:16 | an accepted token implies that no role change, administrative status change, MFA reset or password reset of its user committed since its issue, even if the values changed back |
| `Lockout.CountsMatchAlways` | app/api/auth/login/route.ts:13-14 | in every reachable state five or more failures and a lock time go together |
| `Lockout.FiveFailuresLock` | app/api/auth/login/route.ts:13 | without an intervening reset, unlock or success the count is exact and the fifth failure in a row locks the account |
| `Lockout.LockEndsExactly` | app/api/admin/users/[id]/unlock/route.ts:7 | a handler ends the status LOCKED if and only if it is a committed unlock, a committed change to another status or a committed deletion of that user |
| `Lockout.LockedUntilAdminActs` | app/api/admin/users/[id]/route.ts:33-46 | over any run an account stays locked at every moment, however late and even after a reset, if and only if none of those commits |
| `Lockout.NoLoginWhileLocked` | app/api/auth/login/route.ts:12-13 | a login to a locked account is refused, opens no session and leaves it locked |
| `Overlays.OverlayExec` | lib/auth/postgres.ts:9-14 | a statement executed on private writes has its atomic effect on what the transaction sees |
| `Overlays.TouchesOnlyTarget` | app/api/auth/refresh/route.ts:18-41 | a handler leaves every row that belongs to another user alone |
| `Stability.OpenTransactionStable` | lib/auth/admin.ts:8-21 | what an open transaction has executed stays executed when others commit around its locks |
| `Serializability.CommitIsApply` | lib/auth/postgres.ts:9-14 | committing the private writes is the handler run alone |
| `Serializability.OtherCommitUnnoticed` | lib/auth/admin.ts:8-11 | a commit on another user, kept out by the row and advisory locks, does not disturb an open transaction |
| `Serializability.StepKeepsInv` | lib/auth/postgres.ts:9-14 | every step of the interleaved system keeps the locks, the open transactions and the history in agreement |
| `Serializability.EveryInterleavingIsSerial` | lib/auth/postgres.ts:9-14 | under every interleaving the committed database is the serial run of the committed handlers in commit order and each client was answered as in that run |
| `SerialRuns.SerialRunIsServed` | lib/auth/postgres.ts:9-14 | every serial run with fresh names whose transactions commit is served by some interleaving, which leaves no transaction and no lock behind |
| `SerialRuns.HistoriesAreSerialRuns` | lib/auth/postgres.ts:9-14 | the histories of the interleaved system are exactly the serial runs with fresh names whose transactions commit: nothing else is committed, and nothing that could be is shut out |
| `Interleavings.CommittedFamilies` | app/api/auth/refresh/route.ts:18-41 | every committed state under every interleaving has one chain and at most one live session per family |
| `Interleavings.OneGrantPerToken` | app/api/auth/refresh/route.ts:19-40 | no two clients are granted a rotation of the same token, however their transactions interleave |
| `Interleavings.OneWinner` | app/api/auth/refresh/route.ts:19-40 | of interleaved refreshes with one live token the first to commit is granted, the others are refused and the replacement stays live |
| `Interleavings.CommittedResetEndsSessions` | app/api/auth/password/reset/route.ts:7 | after a committed reset or revocation no older session of the user is live, whatever was in flight |
| `Interleavings.AdministratorSurvivesConcurrency` | app/api/admin/users/[id]/route.ts:33-46 | under every interleaving of demotions, disablings, deletions, MFA resets and unlocks each committed state has a recoverable administrator if and only if no login locks the last one |
| `Interleavings.GuardedCommitLeavesAdmin` | lib/auth/admin.ts:23-29 | the count a guarded transaction made still holds when it commits |
| `AuthHandlers.AuthDatabase.SelectSession` | app/api/auth/refresh/route.ts:19-28 | the scan finds the one row with the token's hash or reports none |
| `AuthHandlers.AuthDatabase.ExistsUnusedCode` | lib/auth/admin.ts:19 | true if and only if the user has an unused recovery code |
| `AuthHandlers.AuthDatabase.RecoverableAdministratorCount` | lib/auth/admin.ts:13-21 | the scan counts exactly the recoverable administrators |
| `AuthHandlers.AuthDatabase.Refresh` | app/api/auth/refresh/route.ts:18-41 | statement by statement, the effect and answer of the refresh request |
| `AuthHandlers.AuthDatabase.ResetPassword` | app/api/auth/password/reset/route.ts:7 | statement by statement, the effect and answer of the reset request |
| `AuthHandlers.AuthDatabase.PatchUser` | app/api/admin/users/[id]/route.ts:33-46 | the update, the guard and the rollback together are the modelled request |
| `AuthHandlers.AuthDatabase.DeleteUser` | app/api/admin/users/[id]/route.ts:60-67 | the deletion with its cascades, the guard and the rollback together are the modelled request |
| `AuthHandlers.AuthDatabase.ResetMfa` | app/api/admin/users/[id]/reset-mfa/route.ts:7 | the MFA reset, the guard and the rollback together are the modelled request |
| `AuthHandlers.AuthDatabase.UnlockUser` | app/api/admin/users/[id]/unlock/route.ts:7 | the unlock, the guard and the rollback together are the modelled request |
| `AuthHandlers.AuthDatabase.RevokeSessions` | app/api/admin/users/[id]/revoke-sessions/route.ts:7 | the check for a second administrator comes before the revocation, which is that of the modelled request |
| `AuthHandlers.AuthDatabase.Login` | app/api/auth/login/route.ts:12-14 | field by field, the modelled login: failure count, lock and status, or a cleared count and a new family |
| `AuthHandlers.AuthDatabase.LogoutEverywhere` | app/api/auth/logout-all/route.ts:5 | the loop revokes exactly the user's live sessions |
| `AuthHandlers.AuthDatabase.RevokeRefreshToken` | lib/auth/http.ts:22 | revokes the session of the presented token if it is live, and nothing else |
| `AuthHandlers.AuthDatabase.RevokeOwnSession` | app/api/auth/sessions/[id]/route.ts:5 | revokes the named session if and only if it is live and owned by the caller |
| `AuthHandlers.AuthDatabase.ForgotPassword` | app/api/auth/password/forgot/route.ts:8 | one request with nothing in between retires the user's unused reset tokens and adds the new one, unless that token exists already |
| `AuthHandlers.AuthDatabase.BeginSetup` | lib/auth/mfa.ts:15 | an unconfirmed secret replaces the user's old one and nothing else changes |
| `AuthHandlers.AuthDatabase.InsertCodes` | lib/auth/mfa.ts:16 | the loop stores all codes exactly when no two are equal and none exists, and otherwise stops |
| `AuthHandlers.AuthDatabase.CheckSetup` | lib/auth/mfa.ts:16 | passes if and only if the user has an unconfirmed secret and the code verifies for it |
| `AuthHandlers.AuthDatabase.ConfirmSetup` | lib/auth/mfa.ts:16 | the transaction confirms whatever secret the user has by now and replaces the recovery codes; a clash puts everything back |
| `MfaEnrolment.ConfirmEffect` | lib/auth/mfa.ts:16 | the transaction of a confirmation replaces all of the user's codes, confirms the secret in place and marks the user, or leaves the database as it was |
| `MfaEnrolment.EnrolmentStep` | lib/auth/mfa.ts:15-16 | after any handler the user's secret, its confirmation and the unused codes are those of before, except as a confirmation, a restart, a committed reset or a committed deletion changes them |
| `MfaEnrolment.RestartSuspendsTotp` | lib/auth/mfa.ts:15-17 | starting the set-up again turns the confirmed secret off at once, and the user still counts as enrolled and recoverable |
| `FileRotation.FileSessionStore.Refresh` | app/api/auth/refresh/route.ts:52-63 | the in-place list update is the modelled file rotation: mark and push, or revoke the family |
| `FileRotation.FileAcceptsImpliesTableAccepts` | app/api/auth/refresh/route.ts:16-63 | whatever the file path accepts the PostgreSQL path accepts |
| `FileRotation.TablesSimulateList` | app/api/auth/refresh/route.ts:52-63 | over every common sequence of requests the sessions live in the file are live in the tables, with the same contents |
| `FileRotation.ListGrantsAreTableGrants` | app/api/auth/refresh/route.ts:52-63 | every refresh granted by the file path during a run is granted by the tables at the same point |
| `FileRotation.SameLiveSessionsWithoutReplays` | app/api/auth/refresh/route.ts:30-35 | on runs that never present a rotated token again both back ends have the same live sessions |
| `FileRotation.StepSetsApart` | app/api/auth/refresh/route.ts:30-35 | from equal live sessions a request leads to different ones if and only if it presents a rotated token whose family still lives |
| `FileRotation.SameLiveSessionsExactly` | app/api/auth/refresh/route.ts:16-63 | the live sessions agree throughout a run if and only if no rotated token is presented again while its family lives |
| `FileRotation.ReplayDiffers` | app/api/auth/refresh/route.ts:55-57 | presenting a rotated token again tells them apart: the file path ends the family, the PostgreSQL path does not |
| `TokenRequests.OneUnusedExactly` | app/api/auth/password/forgot/route.ts:8 | along any trace of retiring and issuing statements at most one token is unused at every moment if and only if no request is overtaken between its two statements |
| `OneTimeTokens.AtMostOneUnusedReset` | app/api/auth/password/forgot/route.ts:8 | over any run, requests overlapping as they like, a user has at most one unused reset token at every moment if and only if no request of the user is overtaken by another |
| `OneTimeTokens.OnlyTheLatestResets` | app/api/auth/password/forgot/route.ts:8 | while no request of the user is overtaken only the reset token issued last can be unused |
| `OneTimeTokens.OverlapLeavesTwo` | app/api/auth/password/forgot/route.ts:8 | two overlapping requests of any user leave two tokens that both work |
| `OneTimeTokens.ResetsOnce` | app/api/auth/password/reset/route.ts:7 | over any run a reset token resets a password at most once |
| `Verification.VerificationDesk.ResendVerification` | app/api/auth/email/resend/route.ts:9 | with nothing in between an unverified user's old tokens are retired and one is added; a verified user gets none |
| `Verification.VerificationDesk.VerifyEmail` | app/api/auth/email/verify/route.ts:6 | an unused, unexpired token is marked used and verifies its user, activating a pending account; anything else changes nothing |
| `Verification.AtMostOneUnusedVerification` | app/api/auth/email/resend/route.ts:9 | over any run, resends overlapping as they like, a user has at most one unused verification token at every moment if and only if no resend of the user is overtaken by another |
| `Verification.VerifiesOnce` | app/api/auth/email/verify/route.ts:6 | over any run a verification token verifies at most once |
| `Verification.VerifiedThroughTokenOrInvitation` | app/api/auth/email/verify/route.ts:6 | over any run of sign-ups, invitations, the administrator script and verifications an address is verified only because a redeemed invitation or the script opened the account, or because its owner was sent a token and that very token came back within a day |
| `Verification.VerifiedExactly` | app/api/auth/email/verify/route.ts:6 | over any run a user who starts unverified is verified if and only if a token, an invitation or the script verified the address and nobody deleted the user since |
| `Verification.TokensHaveOwners` | db/migrations/001_auth.sql:55-62 | over any run every verification token belongs to an account that is there |
| `Verification.DeletionTakesTokens` | app/api/admin/users/[id]/route.ts:60-67 | deleting a user deletes exactly that user's verification tokens |
| `Verification.SignupsVerifyByToken` | app/api/auth/signup/route.ts:8 | where nobody redeems an invitation or runs the script, only the own token verifies |
| `Verification.RedemptionNeedsNoToken` | app/api/auth/invitations/redeem/route.ts:31 | redeeming an invitation makes a verified account and sends no token |
| `Verification.BootedRow` | scripts/admin-create.mjs:66 | the script adds one active administrator with a verified address who must enrol in MFA, and nothing else |
| `Invitations.StaysSound` | app/api/auth/invitations/redeem/route.ts:24-35 | token hashes and addresses stay unique and no invitation becomes both used and revoked |
| `Invitations.ReachableIsSound` | app/api/admin/invitations/[id]/route.ts:6 | the same in every reachable state |
| `Invitations.OneOpenThroughout` | app/api/admin/invitations/route.ts:10 | at every moment of a serial run at most one invitation per address is open |
| `Invitations.RedeemedOnce` | app/api/auth/invitations/redeem/route.ts:24-35 | over any run an invitation is redeemed at most once and never after it was revoked |
| `Invitations.RedeemedAccount` | app/api/auth/invitations/redeem/route.ts:29-32 | the new account has the invitation's address and role, must enrol in MFA exactly when it is an administrator, and nothing else changes but the used mark |
| `Invitations.RedeemedWithinAWeek` | app/api/admin/invitations/route.ts:10 | however often it is resent, an invitation redeems only within seven days of its creation, for the address and with the role it was created with |
| `Invitations.SignedUpRow` | lib/auth/store.ts:33 | a sign-up adds one active, unverified account with the role USER and without required MFA, and nothing else |
| `Invitations.AdministratorsWereInvited` | app/api/auth/invitations/redeem/route.ts:29-32 | over any run of sign-ups, invitations and deletions that starts empty, the account of an administrator was opened, within seven days, by an invitation that was created for the role ADMIN |
| `Invitations.UsedAreRedeemed` | app/api/auth/invitations/redeem/route.ts:31-32 | used invitations and accounts opened by invitation keep step over any run |
| `Invitations.OnlyTheLatestRedeems` | app/api/admin/invitations/[id]/resend/route.ts:8 | the token that redeems an invitation is the one sent last |
| `Invitations.ReplacedNeverRedeems` | app/api/admin/invitations/[id]/resend/route.ts:8 | a token replaced by a resend redeems nothing afterwards |
| `Invitations.InvitationDesk.FindByHash` | app/api/auth/invitations/redeem/route.ts:25 | the scan finds a row with the hash if and only if there is one |
| `Invitations.InvitationDesk.CreateInvitation` | app/api/admin/invitations/route.ts:10 | creates a seven-day invitation unless one is open for the address |
| `Invitations.InvitationDesk.ResendInvitation` | app/api/admin/invitations/[id]/resend/route.ts:8 | replaces the token of an open invitation and leaves its expiry |
| `Invitations.InvitationDesk.RevokeInvitation` | app/api/admin/invitations/[id]/route.ts:6 | revokes an invitation that is neither used nor revoked, expired or not |
| `Invitations.InvitationDesk.RedeemInvitation` | app/api/auth/invitations/redeem/route.ts:24-35 | account and used mark are written together, and only for the right token, address and time |
| `Assurance.AssuranceDesk.RequireRecentAdmin` | lib/auth/http.ts:16-20 | the chain of checks permits exactly an authenticated administrator, with MFA where required, whose token has an unexpired assurance of the same user |
| `Assurance.AssuranceDesk.ConsumeRecoveryCode` | lib/auth/mfa.ts:18 | uses up the code if and only if it is an unused code of this user |
| `Assurance.AssuranceDesk.ReauthChallenge` | app/api/admin/reauth/challenge/route.ts:9 | a TOTP code, or else a recovery code, buys a token and an assurance under its identifier; a failed challenge changes nothing |
| `Assurance.AssuranceDesk.RecoveryLogin` | app/api/admin/mfa/recovery/route.ts:8 | a recovery code buys an MFA token without an assurance |
| `Assurance.AuthenticatedWasIssued` | lib/auth/jwt.ts:17-29 | from the digest alone: the token of an authenticated request is one the server issued |
| `Assurance.ForgedIsRefused` | lib/auth/jwt.ts:25-27 | a token whose signature is not the digest of its claims authenticates nothing and permits nothing |
| `Assurance.SignInAuthenticates` | lib/auth/http.ts:16-20 | the token of a sign-in authenticates its active user for ten minutes and permits no sensitive action |
| `Assurance.ChallengePermits` | app/api/admin/reauth/challenge/route.ts:9 | the token of a passed challenge permits sensitive actions if and only if neither the assurance nor the token has expired |
| `Assurance.PermittedAfterChallenge` | lib/auth/http.ts:19-20 | every permitted sensitive action follows a challenge passed by the same user for the very token shown, within the age limit, and no security-relevant change of that user committed in between |
| `Assurance.CodeAuthorisesOnce` | lib/auth/mfa.ts:18 | over any run a recovery code authorises at most one challenge or recovery login |
| `EnrolmentTraces.CodeFromLastEnrolment` | lib/auth/mfa.ts:16-18 | a recovery code that is unused was handed out by its owner's last enrolment, which nobody has cleared since |
| `EnrolmentTraces.SecretFromLastEnrolment` | lib/auth/mfa.ts:15-17 | a confirmed secret was confirmed by its owner's last enrolment, and the set-up was neither cleared nor started again since |
| `EnrolmentTraces.ConfirmedSecretShownExactly` | lib/auth/mfa.ts:15-16 | a code has been shown for the confirmed secret if and only if some code was shown before the confirmation with no new set-up between the two |
| `EnrolmentRuns.MarkFollows` | lib/auth/mfa.ts:15-18 | every step of every run, including those between a check and its transaction, changes a user's secret and unused codes as the traces say |
| `EnrolmentRuns.RestartBeforeConfirmation` | lib/auth/mfa.ts:15-16 | a set-up started again between the check and the transaction ends with a confirmed secret that nobody has shown a code for |
| `EnrolmentRuns.ChallengeAfterEnrolment` | app/api/admin/reauth/challenge/route.ts:9 | a challenge passes only after its user enrolled, which took a right code: by TOTP while the confirmed secret stands, one a code was shown for exactly when no restart came between, or by a recovery code that enrolment handed out |
| `EnrolmentRuns.PermittedAfterEnrolment` | lib/auth/http.ts:19-20 | every permitted sensitive action goes back, through a challenge for the very token shown, to an enrolment of the same administrator that stood when the challenge was passed, and to the code checked for it |
| `Base32.Encode` | lib/auth/mfa.ts:8 | with its 32-bit accumulator that is never masked, the loop outputs the unpadded grouping of RFC 4648 section 6 for every byte sequence |
| `Base32.ShiftIn` | lib/auth/mfa.ts:8 | overflow of the accumulator never reaches the bits still to be read |
| `Base32.Decode` | lib/auth/mfa.ts:9 | the result is the octets of the letters' bits, or the error for a character outside the alphabet |
| `Base32.LettersReadBack` | lib/auth/mfa.ts:8-9 | reading back the letters of any bit string gives that bit string and the zero fill |
| `Base32.RoundTrip` | lib/auth/mfa.ts:8-9 | decoding the encoding returns the bytes, for every length, and the encoding has ceil(8n/5) letters |
| `Base32.PaddedRoundTrip` | lib/auth/mfa.ts:8-9 | the same with any number of equals signs after the letters |
| `Totp.OrIsSum` | lib/auth/mfa.ts:14 | the bitwise or of shifted bytes is their big-endian sum |
| `Totp.TruncationIsRfc4226` | lib/auth/mfa.ts:14 | for every 20-byte digest the indices stay inside and the value is the dynamic truncation of RFC 4226 section 5.3, below 2^31 |
| `Totp.PaddedDecimalIsDigits` | lib/auth/mfa.ts:14 | padding the decimal text with zeros gives the digits of the number, one per place |
| `Totp.DigitsInjective` | lib/auth/mfa.ts:14 | six-digit texts are equal only for equal numbers |
| `Totp.EqualCodes` | lib/auth/mfa.ts:14 | two counters share a code only if their truncations agree modulo one million |
| `Totp.CounterBytesAreMessage` | lib/auth/mfa.ts:14 | the eight bytes written for a counter are, byte by byte, the message of RFC 4226 section 5.2: byte k is c / 256^(7-k) mod 256 |
| `Totp.MessageIsBigEndian` | lib/auth/mfa.ts:14 | read big-endian the message gives the counter back, for every counter below 2^64 |
| `Totp.VerifyTotp` | lib/auth/mfa.ts:14 | accepts if and only if the text has six digits and is the RFC 4226 value for the counter before, at or after the server's step (RFC 6238 section 5.2), and raises where the code does |
| `Totp.NeighbouringClockAccepted` | lib/auth/mfa.ts:14 | a prover within one thirty-second step of the server is accepted |
| `Totp.IssuedSecretsDecode` | lib/auth/mfa.ts:12-14 | an issued 20-byte secret prints to 32 letters and decodes to itself |
| `Text.NormalizeIsWords` | lib/memory/index.ts:110-117 | the normal form is the maximal runs of letters and digits, one space apart |
| `Text.NormalizeIdempotent` | lib/memory/index.ts:110-117 | normalising twice is normalising once, and normal text has single inner spaces only |
| `Text.TokenizeIsKeptWords` | lib/memory/index.ts:119-128 | the tokens are the words longer than one character that are no stop words, in order |
| `Text.TokenIsRun` | lib/memory/index.ts:110-128 | the tokens of a text are exactly the maximal runs of a-z and 0-9 in its folded form with two characters or more that are none of the twenty stop words |
| `Text.TokenizeJoined` | lib/memory/index.ts:119-128 | the tokens of two texts joined by a space are the tokens of the first and then of the second |
| `MemoryIndex.CountTerms` | lib/memory/index.ts:130-136 | the loop builds the occurrence count of every token |
| `MemoryIndex.TermsAreFieldSums` | lib/memory/index.ts:194-224 | when the text fits, the count of a term is the sum of its counts in the six own fields and in each visible scalar of the metadata |
| `MemoryIndex.JsonTokens` | lib/memory/index.ts:146-165 | the tokens of a metadata text are those of its scalars in order, at every depth, but for what is below a sensitive key |
| `MemoryIndex.EntryShowsEvent` | lib/memory/index.ts:167-224 | column by column: an entry has its event's identity and citation fields, its text cut at 4000 characters, exactly the harmless scalars of its metadata cut at 200, and as searchable text the seven fields in order, those that are there, one space apart |
| `MemoryIndex.SensitiveValuesNeverIndexed` | lib/memory/index.ts:146-192 | events that differ only under sensitive metadata keys, at any depth, have the same entry: text, terms and citation metadata |
| `MemoryIndex.BuildersAgree` | scripts/rebuild-memory-index.mjs:120-161 | for metadata as the ingest path accepts it the offline script builds the same entry as the service |
| `MemoryIndex.BuildersAgreeExactly` | scripts/rebuild-memory-index.mjs:120-161 | for every event the two builders make the same entry if and only if its metadata is absent, an object or falsy, or has no scalar under a harmless index and a text that is empty or finds no room |
| `MemoryIndex.BuildersDifferOnEditedLogs` | scripts/rebuild-memory-index.mjs:157 | an event, with text as metadata, on which the two builders differ |
| `MemorySearch.ScoreEntry` | lib/memory/index.ts:339-353 | the loop adds term counts, name matches and the phrase bonus |
| `MemorySearch.TermScoreIsScan` | lib/memory/index.ts:339-346 | the term part of a score is the number of token positions whose token is in the distinct query set |
| `MemorySearch.IndexScoreIsScanScore` | lib/memory/index.ts:339-376 | scoring an index entry equals scoring a plain scan of the event |
| `MemorySearch.ScoreInPlainTerms` | lib/memory/index.ts:339-353 | an event scores one point for each of its tokens that the query asks for, two for each query term that is its source or kind, and, where the normal query stands in its normal text, the number of different terms but at least two |
| `MemorySearch.StableSortSorts` | lib/memory/index.ts:374-379 | the ranking is a sorted permutation that keeps ties in log order |
| `MemorySearch.StableSortUnique` | lib/memory/index.ts:374-379 | there is only one such ranking |
| `MemorySearch.SearchIsTopOfScan` | lib/memory/index.ts:364-404 | searching the index of any events gives the stable top of a plain scan of them: ordered, min(limit, positives) long, nothing omitted ranks above anything returned |
| `MemorySearch.AnswerIsBestFirst` | lib/memory/index.ts:364-404 | of the answer itself: scores never increase, at equal scores later receipt comes first, at equal times the order of the log; nothing found and left out scores higher than anything returned or, at equal scores, was received later |
| `MemorySearch.ScanFinds` | lib/memory/index.ts:364-376 | the scan finds exactly the events with a positive score, each at its place |
| `MemorySearch.AnyStableSortGivesSearch` | lib/memory/index.ts:374-380 | whichever stable sort the library uses, the answer is the same |
| `MemoryAnswers.AnswerIsScanOfPrefix` | lib/memory/index.ts:355-404 | under every interleaving of ingests, webhook appends and racing or failing rebuilds a search answers as a scan of the events that the rebuild renamed last had read |
| `MemoryLog.ReadMemoryEvents` | lib/memory/index.ts:238-269 | the loop returns the parsed events in order, and parsed plus skipped equals the non-blank lines |
| `MemoryLog.IndexedEventsHaveFields` | lib/memory/index.ts:87-102 | whatever stands in the file, every entry of its index was built from an event of the file with an id, a time, a source and a kind that are not blank |
| `MemoryLog.AppendedIsRead` | lib/memory/store.ts:89-104 | appending an event adds exactly that event to what a reader gets |
| `MemoryLog.RebuildExtends` | lib/memory/index.ts:208-236 | rebuilding after one append extends the entries by exactly that event's entry |
| `MemoryLog.IndexIsPrefixImage` | lib/memory/index.ts:271-288 | under every interleaving of ingests, webhook appends, failed and racing rebuilds the stored index is the image of a prefix of the log |
| `MemoryLog.ScriptBuildsSameIndexExactly` | scripts/rebuild-memory-index.mjs:195-222 | from any log the offline script and the service build the same index if and only if they build the same entry from each event in it |
| `MemoryIngest.WrittenLogReads` | lib/memory/store.ts:89-104 | a log written by ingests and webhook calls only reads back as exactly their events |
| `MemoryIngest.ScriptBuildsSameIndex` | scripts/rebuild-memory-index.mjs:195-222 | from every such log the offline script builds the index that the service builds |
| `MemoryLog.IndexLosesExactly` | lib/memory/index.ts:281-285 | an action makes the stored index lose events if and only if it renames a file that was read at a smaller count of appends than the index in place |
| `MemoryLog.IndexNeverRegressesExactly` | lib/memory/index.ts:271-288 | over any run, rebuilds overlapping as they like, the index keeps all it ever listed if and only if no such file is renamed |
| `MemoryLog.RacingRebuildsCanRegress` | lib/memory/index.ts:281-285 | two racing rebuilds can replace a newer index by an older one |
| `MemoryLog.SharedTempName` | lib/memory/index.ts:280-285 | of two rebuilds that draw the same temporary name the first to rename puts the index of the later writer in place, and the other finds no file and changes nothing |
| `MemoryLog.IndexTracksRebuilds` | lib/memory/index.ts:271-288 | however rebuilds overlap, every index in the store, temporary or stored, covers exactly the events that its rebuild had read, a number that the schedule alone determines |
| `MemoryLog.IndexNeverRegresses` | lib/memory/index.ts:271-288 | in particular the index keeps all it ever listed while rebuilds do not overlap |
| `MemoryIngest.ValidateMemoryIngestPayload` | lib/memory/store.ts:29-79 | accepts exactly the well-formed payloads and otherwise reports the first requirement that fails |
| `MemoryIngest.AcceptedIsReadable` | lib/memory/store.ts:44-78 | what validation accepts is read back as an event and treated alike by both index builders |
| `MemoryIngest.LoggedFields` | lib/memory/store.ts:44-94 | the logged event field by field: the id and time given, source, kind and external id trimmed, text, date, privacy and metadata as supplied, blank text and external id left out |
| `MemoryIngest.WebhookFields` | app/api/webhooks/hostinger-mail/route.ts:52-73 | the webhook's event field by field: its fixed source, kind and privacy, the sender's id and time where supplied, and no text |
| `MemoryIngest.MemoryService.AppendMemoryEvent` | lib/memory/store.ts:89-104 | the queue grows by exactly the appended event |
| `MemoryIngest.MemoryService.RebuildMemoryIndex` | lib/memory/index.ts:271-288 | the new index is the image of the whole log; a failure leaves the old one |
| `MemoryIngest.MemoryService.Ingest` | app/api/memory/ingest/route.ts:25-51 | an accepted event is logged whether or not the rebuild works, a refused one leaves no trace, and `indexed` means the index covers the log |
| `MemoryIngest.MemoryService.MailWebhook` | app/api/webhooks/hostinger-mail/route.ts:35-76 | refuses other events, appends when switched on, and leaves the index to the next rebuild |
| `RateLimit.PgLimiter.AllowRequest` | lib/auth/rate-limit.ts:12-25 | the upsert is one hit of the abstract window; the answers are the count against the limit and the seconds left |
| `RateLimit.PgLimiter.Cleanup` | lib/auth/rate-limit.ts:26 | deletes exactly the buckets that have expired |
| `RateLimit.ContactLimiter.RateLimit` | app/api/contact/route.ts:42-51 | the in-process map makes the same hit on the same abstract window |
| `RateLimit.BucketIsWindow` | lib/auth/rate-limit.ts:17-22 | after any sequence of requests the bucket holds the place of the last one in its window and that window's bounds |
| `RateLimit.WindowsApart` | lib/auth/rate-limit.ts:17-22 | windows do not overlap |
| `RateLimit.LimitPerWindow` | lib/auth/rate-limit.ts:12-25 | in any run at most `limit` requests are allowed per window |
| `RateLimit.SlidingBound` | lib/auth/rate-limit.ts:12-25 | in any run at most twice the limit is allowed in any half-open interval as long as a window |
| `RateLimit.CleanupIsInvisible` | lib/auth/rate-limit.ts:26 | deleting expired buckets at any time never changes a later decision |
| `RateLimit.WaitingRetryAfter` | lib/auth/rate-limit.ts:22-24 | a refused client that waits `retryAfter` seconds is allowed, and one second less is not enough |
| `Redaction.RedactedIsClean` | lib/auth/redaction.ts:12-19 | what redaction returns is free of forbidden text and of values under sensitive keys exactly when the names of its errors may be shown |
| `Redaction.CleanIsFixpoint` | lib/auth/redaction.ts:12-19 | the clean values are exactly those redaction leaves alone |
| `Redaction.RedactIdempotent` | lib/auth/redaction.ts:12-19 | redacting twice is redacting once exactly when no error name hides forbidden text |
| `Redaction.ErrorsRedactAsRecords` | lib/auth/redaction.ts:15 | an error is redacted like the object of its name, message and cause exactly where the names of errors may be shown |
| `Redaction.JsonRedaction` | lib/auth/redaction.ts:12-20 | on JSON values redaction is idempotent and its result is clean |
| `Redaction.RedactedPlaces` | lib/auth/redaction.ts:12-19 | path by path: the same place under the same key holds the redacted value, unless a sensitive key above it replaced the subtree; no place is added |
| `Redaction.ShapeKept` | lib/auth/redaction.ts:16-17 | keys and array lengths are kept outside redacted subtrees |
| `Redaction.NothingLeaks` | lib/auth/redaction.ts:12-19 | no path of redacted metadata leads to forbidden text other than a UUID or to an unmasked value under a sensitive key |
| `PlatformConfig.RequiredString` | lib/platform/validation.ts:40-46 | returns the trimmed text, or nothing and one more complaint in the shared list |
| `PlatformConfig.StringList` | lib/platform/validation.ts:48-63 | returns the non-empty trimmed lines and appends a complaint for each bad item and for an empty result |
| `PlatformConfig.ParseTable` | lib/platform/validation.ts:65-195 | builds the rows of one table and appends the complaints of each row in order |
| `PlatformConfig.ValidatePlatformConfig` | lib/platform/validation.ts:197-220 | succeeds if and only if the input is well formed, and otherwise returns every complaint in order |
| `PlatformConfig.ErrorsIffIllFormed` | lib/platform/validation.ts:197-220 | the shared list of complaints is empty exactly for well-formed input |
| `PlatformConfig.ParsedIsCanonical` | lib/platform/validation.ts:203-219 | everything returned is canonical: exactly the known columns, trimmed non-empty text, allowed choices |
| `PlatformConfig.CanonicalIsFixpoint` | lib/platform/validation.ts:197-220 | the configurations that survive printing and validating unchanged are exactly the canonical ones |
| `PlatformConfig.ParseIdempotent` | lib/platform/validation.ts:197-220 | validation is the identity on its own output, at any later time |
| `PlatformStore.Store.SaveDraft` | lib/platform/store.ts:38-49 | reads, stamps, validates and overwrites as one draft operation; a refusal leaves the file |
| `PlatformStore.Store.PublishConfig` | lib/platform/store.ts:51-62 | reads, stamps, validates and overwrites as one publish operation |
| `PlatformStore.DraftOutcome` | lib/platform/store.ts:38-49 | a draft is accepted exactly when its content is well formed and never alters the publication fields, whatever it claims about them |
| `PlatformStore.PublishOutcome` | lib/platform/store.ts:51-62 | publishing never fails, keeps the content and sets the publication fields |
| `PlatformStore.StageAccepted` | lib/platform/validation.ts:65-94 | the records accepted as stages, column by column |
| `PlatformStore.CapabilityAccepted` | lib/platform/validation.ts:96-116 | the records accepted as capabilities |
| `PlatformStore.AgentAccepted` | lib/platform/validation.ts:118-154 | the records accepted as agents, with the five run states and four authority levels |
| `PlatformStore.ChecklistItemAccepted` | lib/platform/validation.ts:156-195 | the records accepted as checklist items |
| `PlatformStore.FileIsLastDraftAndPublication` | lib/platform/store.ts:22-62 | after any run the file reads back as the content of the last accepted draft with the last publication made |

## Left out

- Row locks on session and token rows: the locks on user rows, those on all administrator rows among them, and the advisory lock are modelled; the theorems about transactions hold without the others. Deadlock victims are transactions that abort, which may happen at any time.
- Whole-list handlers (login, log-out, log-out everywhere, single-session revocation) are single steps, so two of them overwriting each other is not modelled.
- Foreign keys from `invitations.created_by` and other tables to `users`, which can make a deletion fail; a failed deletion is an abort.
- Administrators.AlwaysAnAdministrator: the consumption of recovery codes is not a step of its runs, as it does not run the guard.
- Invitation claims are about serial runs, and so are the steps of a challenge; the interleaved machine covers refresh, reset and the administrator transactions, and the statements of a token request and of an MFA confirmation are separate steps.
- OneTimeTokens.ResetsOnce: stated while the same random token is not drawn again, and so are `Verification.VerifiesOnce` and `Invitations.ReplacedNeverRedeems`.
- Assurance.CodeAuthorisesOnce: stated while the same random code is not handed out again.
- Redaction.RedactedPlaces: about JSON values; errors whose names may be shown are redacted as JSON records by `Redaction.ErrorsRedactAsRecords`, the others are covered by the cleanliness and idempotence results.
- Lockout.FiveFailuresLock: interruptions by other handlers on the same account are excluded, as they reset the count.
- Cookies, CSRF, HTTP statuses, audit rows, e-mail queueing and the table of rate-limit policies: plumbing around the modelled decisions.
- The format of identifiers in access tokens and the JSON and base64url coding around them; a token is its claims and a keyed digest.
- scrypt, SHA, HMAC and AES-GCM; HMAC is a function with 20-byte results.
- The texts of the validator's messages; a complaint is kept as the place and the rule it breaks.
- Regular expressions of the redaction, Unicode normalisation and string collation; they are parameters.
- A `terms` object is a map, so the token `constructor` does not meet the JavaScript prototype; index file names and build times are not part of an index.
- Partially written files and lines; an append is whole.
- Excerpts and the validation of search requests: they add no property beyond their own text.
- Signup through the public route beyond the uniqueness of addresses; voice sessions, AI configuration, mail transport, deployment and pages.
