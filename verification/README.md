# Identity and access service: verified model

A Dafny model of a multi-tenant identity and access service (NestJS, Prisma, Redis) and proofs
about it. Tables are maps and sets of rows, the clock is a parameter of every operation, and
generated tokens and identifiers come from a counter. Every operation is a function from a state to
a new state and an outcome, with the code's branches in the code's order. Services that change rows
step by step are also written as classes over mutable tables, each method proved to do exactly what
its function says. The theorems speak of all runs of those operations.

- `Sessions`, `Refreshing`, `SessionService`: sessions and refresh-token families as linked chains;
  rotation and what it answers, reuse detection and revocation (refresh token rotation, section
  5.2.2.3 of RFC 6819).
- `Auth`, `SignIns`, `AuthService`, `Verification`, `VerificationService`, `PasswordHistory`: account
  flows and what their answers are worth, one-time tokens and the password-history rule.
- `Organizations` and the `Organization*` files, `RoleEffects`, `UniqueNames`, `Invitations`,
  `LastAdmin`: memberships, roles and what members may do by them, version counters, invitations and
  the last-administrator rule; `Seed`: the tables a deployment starts with.
- `PermissionCache`, `PermissionNames`: the cached permission set against the database over time, the
  loader's query and loop, and the string keys both rely on.
- `AccessTokens`, `TokenAnswers`, `Requests`: what a signed token records, when it is accepted and for
  whom it speaks then, and what an accepted request is decided on.
- `JsValues`, `DeepEqual`, `Attributes`, `Conditions`, `Policies`: the policy engine from value
  comparison up to the combined decision; `SeededPolicies`: what the seeded ones decide.
- `Mfa`, `MfaFactors`, `MfaServices`, `MfaPolicy`: challenges, backup codes and organization settings.
- `Cache`, `Sso`, `SsoService`: the cache with lifetimes, relay states and the replay guard
  (section 4.1.4.5 of the SAML 2.0 Profiles).

A service call is one atomic step. A transaction callback is a function of its own; the commit rule,
rollback or not when it throws, is a parameter, and every run invariant holds for both rules.
An operation is *disciplined* for a time (`PermissionCache.Disciplined`) when it leaves no wrong
cache entry behind that outlives that time: assignments and revocations name the membership's own
organization, the deletes of role operations reach the cache or the live entries they were meant for
are right as they are, and an accepted invitation meets no live entry that differs from its result.
`PermissionCache.StepKeepsAgreementIff` proves that exact. The cache service swallows failed
commands, so no caller is told; but an entry lives for 300 seconds. A run is *settled* for a request
(`PermissionCache.Settled`) when its clock never goes back and each of its operations was disciplined
when it ran or is a lifetime older than the request. The theorems about requests hold for every
settled run, so for every run on such a clock once a lifetime has passed.

`dafny verify dfyconfig.toml` checks the project.

## Where the code and its documentation differ

The model follows the code.

- docs/auth.md:100-103 says that a replayed refresh token revokes its family. The revocation is made
  inside the transaction whose callback then throws, so an interactive transaction rolls it back
  (src/modules/auth/services/session.service.ts:82-106): `Sessions.ReuseEndsSessionIff`.
- An expired invitation is marked EXPIRED just before a throw in the same way
  (src/modules/organizations/services/invitation.service.ts:123-158): `Invitations.ExpiredIsNeverStored`.
- docs/authorization.md:41 says that a change of status raises attributesVersion; the code raises it
  only for department, region, job title and clearance
  (src/modules/organizations/services/membership.service.ts:58-76). A suspended membership is refused
  by its status instead.
- docs/authorization.md:184 says that updated membership attributes drop cached entries; the code
  drops none.
- A failed login answers that the account is temporarily locked, and sets lockUntil; it also sets the
  status to LOCKED, which nothing resets when lockUntil has passed
  (src/modules/auth/services/auth.service.ts:150-156, 442-452): `Auth.LockOutlastsItsDuration`.
- Replay and relay lifetimes are rounded down to whole seconds, and a lifetime under one second
  never ends (src/infrastructure/cache/cache.service.ts:32-36): `Sso.GuardReopensIff`.

## Model

| member | source | states |
|---|---|---|
| Sessions.RunKeepsInv | src/modules/auth/services/session.service.ts:42-260 | From any state whose sessions are chains, every run of create, rotate, revoke and revoke-all under either commit rule keeps them so |
| Sessions.ReachableSessionsAreChains | src/modules/auth/services/session.service.ts:76-151 | In every reachable state a session's tokens form one repetition-free chain linked by replacedByTokenId; all but the last are revoked, the last has no successor and is unrevoked exactly when the session is, and all share its user, family and expiry |
| Sessions.OneRotatableTokenPerSession | src/modules/auth/services/session.service.ts:96-129 | At most one refresh token of a session can rotate |
| Sessions.TokensAgreeWithSessions | src/modules/auth/services/session.service.ts:220-243 | A refresh token carries its session's user, family and expiry |
| Sessions.RefreshTokenRotatesOnce | src/modules/auth/services/session.service.ts:76-151 | A token that rotated is refused as reuse at every later point of every run |
| Sessions.RevokedTokenStaysRefused | src/modules/auth/services/session.service.ts:96-106 | A revoked token is refused at every later point of every run |
| Sessions.RotationNeverExtendsSession | src/modules/auth/services/session.service.ts:112-139 | However often it rotates, a session accepts no refresh token at or after the expiry it was created with |
| Sessions.RevokeFamilyIsExact | src/modules/auth/services/session.service.ts:245-260 | revokeFamily revokes the live tokens and sessions of that family and touches no other row |
| Sessions.ReuseKillsExactlyTheFamily | src/modules/auth/services/session.service.ts:96-106 | The rotation body, given a replaced token, revokes every token and session of its family and leaves all other families as they were |
| Sessions.NoTokenOfAKilledFamilyRotates | src/modules/auth/services/session.service.ts:96-106 | After that body, no token of the family rotates in any continuation |
| Sessions.ReuseEndsSessionIff | src/modules/auth/services/session.service.ts:100-105 | After the whole call the family is dead exactly when the transaction keeps what a throwing callback wrote, or the session was already revoked |
| Sessions.ReuseUnderRollbackLeavesSessionAlive | src/modules/auth/services/session.service.ts:82-106 | A concrete run in which a replay is refused and the newest token still rotates, because the throw rolls the revocation back |
| Sessions.RevokedSessionHasNoLiveToken | src/modules/auth/services/session.service.ts:153-207 | In a state with the invariant, every token of a revoked session is revoked |
| Refreshing.RotatesIff | src/modules/auth/services/session.service.ts:82-150 | A refresh token rotates exactly when it is the newest of a session that is neither revoked nor expired |
| Refreshing.RefusalsAre | src/modules/auth/services/session.service.ts:88-118 | Reuse is answered exactly for a revoked token, an invalid token for an unknown or expired one; in states with the invariant the answer for a revoked session never occurs |
| Refreshing.RotationAnswersWithNewest | src/modules/auth/services/session.service.ts:120-150 | A rotation answers with a token that was not there before, unrevoked, appended to the presented token's chain with its session, user, family and expiry; no other row but the presented one's changes |
| Refreshing.CreationAnswersWithNewest | src/modules/auth/services/session.service.ts:42-74 | A new session answers with its one token, for the user asked for, and lives for the configured time |
| Refreshing.AnsweredTokenRotatesIff | src/modules/auth/services/session.service.ts:76-151 | The token answered with rotates at every time before its session's expiry and at none after |
| Refreshing.ClientRefreshesIff | src/modules/auth/services/session.service.ts:76-151 | A client that always presents the token it was last answered with succeeds any number of times, exactly when every refresh comes before the expiry the session began with |
| Refreshing.HeldTokenRotatesIff | src/modules/auth/services/session.service.ts:76-207 | At the end of any run a held token rotates exactly when nobody presented it or ended its session in between and the expiry has not come |
| Refreshing.StepEndsSessionIff | src/modules/auth/services/session.service.ts:153-207 | A live session ends exactly by its owner's revocation, by revoking all of the owner's but another one, or by a replay where writes survive the throw |
| Refreshing.ReplayStampsFamily | src/modules/auth/services/session.service.ts:245-260 | Such a replay stamps the live tokens of the family as reused at that time, and no others |
| SessionServices.SessionService.CreateSession | src/modules/auth/services/session.service.ts:42-74 | Inserts one session of a new family with its first token, and nothing else; keeps the chain invariant |
| SessionServices.SessionService.RotateRefreshToken | src/modules/auth/services/session.service.ts:76-151 | New tables and answer are those of the rotation under the database's commit rule; keeps the chain invariant |
| SessionServices.SessionService.RotateInTransaction | src/modules/auth/services/session.service.ts:82-150 | The transaction callback, including what it writes before it throws |
| SessionServices.SessionService.RevokeSession | src/modules/auth/services/session.service.ts:155-179 | Revokes the caller's session and its live tokens, answers not-found for another user's, and does nothing twice |
| SessionServices.SessionService.RevokeAllSessionsForUser | src/modules/auth/services/session.service.ts:181-207 | Revokes exactly the user's live sessions but the excepted one, with their live tokens |
| SessionServices.SessionService.RevokeFamily | src/modules/auth/services/session.service.ts:245-260 | Stamps the live tokens and sessions of one family |
| Auth.RunKeepsInv | src/modules/auth/services/auth.service.ts:91-417 | Every run of the twelve account operations, creation by OAuth or SSO included, keeps the session chains, the token tables, the password rows and that sessions belong to existing users |
| Auth.CurrentPasswordIsRefusedIff | src/modules/auth/services/auth.service.ts:463-483 | The history refuses the password in use exactly when it is recorded, so not the random first one of a provisioned user |
| Auth.WrongPasswordsLockIff | src/modules/auth/services/auth.service.ts:442-461 | Wrong passwords in a row, at any times, lock an account exactly when there is at least one and they bring its failures to the configured maximum, where an account SSO reactivated may stand already |
| Auth.LockOutlastsItsDuration | src/modules/auth/services/auth.service.ts:142-158 | A locked account is refused at every later time, however long after lockUntil, until an SSO sign-in or a change from outside |
| Auth.EndingRevokesAll | src/modules/auth/services/auth.service.ts:321-333 | After resetPassword, or logoutAll without exception, every session and refresh token of the user is revoked and the token version is one higher |
| Auth.EndedRefreshTokensStayDead | src/modules/auth/services/auth.service.ts:391-417 | No refresh token the user held before that is accepted at any later point of any run |
| Auth.ChangePasswordKeepsOnlyTheCurrentSession | src/modules/auth/services/auth.service.ts:335-372 | With revokeOtherSessions every other session of the user is revoked; the current session, its tokens, all other users' rows and the token version are unchanged |
| Auth.RevokedSessionStaysRevoked | src/modules/auth/services/auth.service.ts:236-258 | A revoked session stays revoked and refuses its refresh tokens at every later point |
| Auth.OnlySignInsAddSessions | src/modules/auth/services/auth.service.ts:142-234 | A session appears only in an operation that answers with tokens, and belongs to an existing user |
| Auth.ResetLinkWorksOnce | src/modules/auth/services/auth.service.ts:391-404 | Any attempt with a usable link, accepted or refused for a reused password, makes every later attempt fail as an invalid token |
| SignIns.GrantAnswersWithNewest | src/modules/auth/services/auth.service.ts:142-258 | Every grant is for the user signing in and answers with the newest token of its session: a new one with the configured lifetime, or for a refresh the presented token's own |
| SignIns.GrantedTokenRefreshesIff | src/modules/auth/services/auth.service.ts:236-258 | The refresh token of every grant is a session error exactly from the session's expiry on, and until then grants again exactly while the account may sign in |
| SignIns.SessionEndsIff | src/modules/auth/services/auth.service.ts:236-417 | A live session ends exactly by its owner's logout, logout from all others, accepted password change from another session or accepted reset, or by a replay where writes survive the throw |
| SignIns.PasswordInUseIsTheLastGiven | src/modules/auth/services/auth.service.ts:335-417 | After every run exactly the password last accepted for a user compares equal to the stored hash |
| SignIns.HistoryIsTheNewestGiven | src/modules/auth/services/auth.service.ts:463-502 | After every run the stored history is the newest limit of the passwords the user was given, without the random first one of a provisioned user, ends in the one in use, and none repeats one of the limit before it |
| SignIns.AcceptedPasswordIsStored | src/modules/auth/services/auth.service.ts:335-417 | After an accepted change or reset exactly the new password compares equal, the record grew by its hash, a reset raised the token version, and no other user's row or history changed |
| SignIns.NewPasswordSignsIn | src/modules/auth/services/auth.service.ts:142-234 | A login of the usable account is then refused as invalid credentials exactly with any other password |
| SignIns.ChangePasswordSucceedsIff | src/modules/auth/services/auth.service.ts:335-359 | Accepted exactly with the password in use, an admitted new one, and none of the newest limit recorded ones |
| SignIns.ResetPasswordSucceedsIff | src/modules/auth/services/auth.service.ts:391-404 | Accepted exactly with an unused, unexpired link and such a password for the link's user |
| SignIns.LoginSucceedsIff | src/modules/auth/services/auth.service.ts:142-234 | After every run a login succeeds exactly for a usable account outside a running lock, not bound to SSO, with the password last given; with a second factor enabled it grants no session and asks for the factor, without one it grants that user's |
| SignIns.LoginWritesOneRow | src/modules/auth/services/auth.service.ts:142-234 | A login writes no other user's row, and success clears the failures and the timer |
| SignIns.LockTimerOutlastsSso | src/modules/auth/services/auth.service.ts:438-461 | After a lock that an SSO sign-in lifted, the right password is refused exactly until the timer has run out |
| SignIns.FederatedLoginSucceedsIff | src/modules/oauth/services/oauth.service.ts:80-107 | Sign-in by MFA, OAuth or SSO succeeds exactly for the accounts its path lets through, and writes only the columns of that user its path writes |
| SignIns.LogoutSucceedsIff | src/modules/auth/services/session.service.ts:155-179 | Logout is accepted exactly for a session of the caller's own |
| SignIns.EmailsAreUnique | src/modules/auth/services/auth.service.ts:91-110 | No run gives two users one email address |
| SignIns.RegistrationSucceedsIff | src/modules/auth/services/auth.service.ts:91-136 | Accepted exactly for an admitted password and a free address; the new user signs in with exactly that password and its link verifies exactly that user within its lifetime |
| SignIns.ProfileCreationSucceedsIff | src/modules/oauth/services/oauth.service.ts:238-255 | OAuth and SSO create a user exactly for a free address, with the given random password and no history |
| SignIns.MailedLinkResetsIff | src/modules/auth/services/auth.service.ts:374-417 | A link is mailed exactly for an account not deleted, and resets that account's password until it expires |
| PasswordHistory.CheckSeesTheWindow | src/modules/auth/services/auth.service.ts:463-483 | Comparing with the kept rows refuses exactly the passwords among the newest limit ever set |
| PasswordHistory.TrimOfTrimmed | src/modules/auth/services/auth.service.ts:485-502 | Trimming after each change keeps what trimming the whole history once would |
| PasswordHistory.AcceptedPasswordKeepsWindow | src/modules/auth/services/auth.service.ts:463-483 | An accepted password repeats none of the limit before it |
| PasswordHistory.EnsureNotRecentlyUsed | src/modules/auth/services/auth.service.ts:463-483 | The loop refuses exactly the recently used passwords |
| AuthServices.AuthService.Register | src/modules/auth/services/auth.service.ts:91-136 | New user, first history row and verification token, or the weak-password or taken-email answer with nothing written |
| AuthServices.AuthService.Login | src/modules/auth/services/auth.service.ts:142-234 | Locked, inactive, SSO-only, wrong password, second factor and session, in the code's order, with the failure counter and lock each writes; the object stays what a run of the operations reaches |
| AuthServices.AuthService.FederatedLogin | src/modules/oauth/services/oauth.service.ts:80-107 | The account check and the columns each of the MFA, OAuth and SSO paths writes, then a session; the object stays what a run of the operations reaches |
| AuthServices.AuthService.CreateFromProfile | src/modules/oauth/services/oauth.service.ts:238-255 | A user with a random password and no history row, or the taken-email answer with nothing written |
| AuthServices.AuthService.HandleFailedLogin | src/modules/auth/services/auth.service.ts:442-461 | Counts the failure and, at the maximum, sets the lock time and the locked status together |
| AuthServices.AuthService.ValidMeansInv | src/modules/auth/services/auth.service.ts:91-417 | After any calls the object's tables keep the invariant of every run |
| AuthServices.AuthService.Refresh | src/modules/auth/services/auth.service.ts:236-258 | Rotates first and only then checks the account, so an inactive account's token is spent too |
| AuthServices.AuthService.LogoutAll | src/modules/auth/services/auth.service.ts:321-333 | Raises the token version and revokes the user's sessions but the excepted one |
| AuthServices.AuthService.ChangePassword | src/modules/auth/services/auth.service.ts:335-372 | Credential, policy and history checks in order, then hash, history row, trim and the optional revocation |
| AuthServices.AuthService.ResetPassword | src/modules/auth/services/auth.service.ts:391-417 | Spends the token before the history check, then writes password, token version and revocations |
| AuthServices.AuthService.RequestPasswordReset | src/modules/auth/services/auth.service.ts:374-389 | Issues a reset token for a live account and answers alike otherwise |
| AuthServices.AuthService.TrimPasswordHistory | src/modules/auth/services/auth.service.ts:485-502 | Deletes the rows beyond the newest limit |
| Verification.AtMostOneUnusedReset | src/modules/auth/services/verification.service.ts:69-85 | In every reachable state a user has at most one unused reset token |
| Verification.ResetTokenWorksOnce | src/modules/auth/services/verification.service.ts:87-104 | A consumed reset token is refused at every later point of every run |
| Verification.VerificationTokenWorksOnce | src/modules/auth/services/verification.service.ts:44-67 | A consumed verification token is refused at every later point of every run |
| Verification.NewResetRetiresOldOnes | src/modules/auth/services/verification.service.ts:69-85 | Issuing a reset token makes every earlier one of the user fail from then on |
| Verification.IssuedVerificationWorksIff | src/modules/auth/services/verification.service.ts:28-67 | At the end of any run a verification link is consumed for its user exactly within its lifetime and if nobody used it in time |
| Verification.IssuedResetWorksIff | src/modules/auth/services/verification.service.ts:69-106 | At the end of any run a reset link is consumed for its user exactly within its lifetime, unused, and with no newer link issued for that user |
| Verification.VerifiedUsersUsedALink | src/modules/auth/services/verification.service.ts:44-67 | In every reachable state the verified users are exactly those with a used verification link |
| VerificationServices.VerificationService.IssuePasswordResetToken | src/modules/auth/services/verification.service.ts:69-85 | Stamps the user's unused reset tokens and adds one |
| VerificationServices.VerificationService.ConsumePasswordResetToken | src/modules/auth/services/verification.service.ts:87-104 | Stamps a usable token and answers its user, or refuses and writes nothing |
| VerificationServices.VerificationService.ConsumeEmailVerificationToken | src/modules/auth/services/verification.service.ts:44-67 | The same for verification tokens, marking the user verified |
| AccessTokens.DefaultMembership | src/modules/auth/services/active-context.service.ts:18-37 | The earliest joined live, active membership in a live, active organization; none only if there is none |
| AccessTokens.AcceptedTokenSpeaksForThePresent | src/modules/auth/strategies/jwt.strategy.ts:48-70 | After every run, from any world with the invariant, an accepted organization-scoped token's membership is live, its roles, permissions and attributes are those at signing, and the token's roles are its live role slugs |
| AccessTokens.AcceptedTokenUsesItsOwnSession | src/modules/auth/strategies/jwt.strategy.ts:43-46 | After every run the answer names the signed user and session, and that session is a live one of that user |
| AccessTokens.EndedAccessTokensStayDead | src/modules/auth/strategies/jwt.strategy.ts:39-41 | After resetPassword or any logoutAll no access token signed before for the user is accepted at any later point of any run, those of an excepted session included |
| AccessTokens.ChangePasswordEndsOtherAccess | src/modules/auth/services/auth.service.ts:359-372 | After changePassword with revokeOtherSessions, access tokens of the other sessions are refused at every later point |
| AccessTokens.ChangePasswordKeepsThisAccess | src/modules/auth/services/auth.service.ts:359-372 | validate answers a token of the current session exactly as before the change |
| AccessTokens.RevokedSessionRefusesAccess | src/modules/auth/strategies/jwt.strategy.ts:43-46 | Access tokens of a revoked session are refused at every later point |
| AccessTokens.FreshTokenIsAcceptedIff | src/modules/auth/strategies/jwt.strategy.ts:31-46 | The token a sign-in or refresh answers with is accepted at once exactly when the account is usable and, unless it is a refresh, sessions have a positive lifetime |
| AccessTokens.GrantedAccountMaySignInIff | src/modules/oauth/services/oauth.service.ts:81-108 | A granted account may sign in always after a password, an MFA code or a refresh; after OAuth exactly when it was not locked, after SSO exactly when it was not deleted |
| AccessTokens.LockedAccountGetsARefusedToken | src/modules/oauth/services/oauth.service.ts:81-108 | OAuth gives a locked account a session and a token that validate refuses |
| AccessTokens.DeletedAccountGetsARefusedToken | src/modules/sso/services/jit-provisioning.service.ts:38-62 | SSO gives a deleted account a session and a token that validate refuses |
| AccessTokens.RunKeepsInv | src/modules/auth/strategies/jwt.strategy.ts:31-83 | Every run of account operations, organization operations and organization switches keeps each signed token's subject and scope sound |
| TokenAnswers.AcceptedAnswerIsTrue | src/modules/auth/strategies/jwt.strategy.ts:32-83 | After every run what validate answers is true: the answered user may sign in, has that email and token version and owns the answered live session; the answered scope is an active live membership of that user in an active organization with its roles and counters, or none |
| TokenAnswers.SignedTokenIsFor | src/modules/auth/services/active-context.service.ts:18-61 | A sign-in signs one token, for the user and session granted, scoped to the organization asked for where eligible, else to the earliest joined membership, and to none exactly when none is eligible |
| TokenAnswers.SwitchSucceedsIff | src/modules/auth/services/auth.service.ts:260-285 | A switch succeeds exactly for a usable account with an eligible membership there; its token is for the same user and session and accepted while that session lives |
| TokenAnswers.RemovedMembersTokensStayDead | src/modules/auth/strategies/jwt.strategy.ts:48-70 | No token of a removed member is accepted again, not even after the member has come back |
| TokenAnswers.PolicyChangeEndsEarlierTokens | src/modules/authorization/services/policy.service.ts:335-351 | After a policy change no earlier token for an organization it concerns is accepted at any later point |
| TokenAnswers.InactiveOrganizationIsRefused | src/modules/auth/strategies/jwt.strategy.ts:61-63 | After any run a token for an organization whose last status is not active is refused |
| TokenAnswers.DeletedOrganizationGetsNoToken | src/modules/auth/services/active-context.service.ts:18-61 | Once an organization is deleted no run signs a token for it |
| OrganizationVersions.EqualVersionsMeanNothingChanged | src/modules/authorization/services/role.service.ts:113-224 | If a membership is live at the end of any run with both counters unchanged, it was live at the start with the same live roles, permissions and attributes |
| OrganizationVersions.RunWitnessed | src/modules/organizations/services/membership.service.ts:50-142 | Over any run counters never fall, and a membership is deleted, bumped, or unchanged in everything a token stands for |
| OrganizationVersions.AcceptWitnessed | src/modules/organizations/services/invitation.service.ts:168-216 | Accepting an invitation bumps the joining membership, so a returning member's old tokens do not match |
| OrganizationVersions.StepWitnessed | src/modules/authorization/services/role.service.ts:113-224 | Each of the seventeen operations bumps every membership whose roles, permissions or attributes it changes |
| OrganizationTables.RunKeepsInv | prisma/schema.prisma:339-433 | Every run keeps the unique (user, organization) pair and the foreign keys |
| OrganizationTables.OneMembershipPerPair | src/modules/organizations/services/invitation.service.ts:168-199 | In every reachable state a user has at most one membership row in an organization |
| PermissionCache.RequestsSeeTheDatabase | src/modules/authorization/services/permission.service.ts:61-90 | After every settled run, so with each operation that could leave a wrong entry at least one lifetime ago, a request is given exactly the permission set the database holds, whether its own cache commands are answered, miss or fail |
| PermissionCache.EveryRunRecovers | src/modules/authorization/services/permission.service.ts:61-90 | Whatever a run did, lost deletes and accepted invitations included, and however wrong the cache was before it, a request one lifetime after its end is given exactly what the database holds |
| PermissionCache.SettledIsDisciplined | src/infrastructure/cache/cache.service.ts:29-42 | Seen from the time of the request, an operation a lifetime earlier leaves nothing behind: a settled run is a disciplined one |
| PermissionCache.AgreesForIff | src/modules/authorization/services/permission.service.ts:61-90 | Agreement at a time is exactly that every request of the membership from then on, whatever the cache answers, is given the resolved set |
| PermissionCache.MissIsCached | src/modules/authorization/services/permission.service.ts:61-90 | What a miss stores answers later requests exactly for 300 seconds, whatever would be loaded then; other entries are untouched |
| PermissionCache.StepKeepsAgreementIff | src/modules/authorization/services/permission.service.ts:92-128 | Each of the seventeen operations keeps a right cache right, from any given time on, exactly when it is disciplined for that time |
| PermissionCache.RunKeepsAgreement | src/modules/authorization/services/permission.service.ts:92-128 | Every run disciplined for a time keeps each entry of a live membership that outlives that time equal, as a set, to what the loader would compute |
| PermissionCache.AssignKeepsAgreementIff | src/modules/authorization/services/role.service.ts:162-198 | Assignment keeps the cache right exactly when its delete reaches the cache and names the membership's own organization, the membership is deleted, or the entry has run out by the given time or already shows the result |
| PermissionCache.RevokeKeepsAgreementIff | src/modules/authorization/services/role.service.ts:200-224 | The same for revocation |
| PermissionCache.RemoveRoleKeepsAgreementIff | src/modules/authorization/services/role.service.ts:113-134 | Removing a role keeps the cache right exactly when its delete reaches the cache or every live holder's entry has run out by the given time or already shows what is left |
| PermissionCache.SetPermissionsKeepsAgreementIff | src/modules/authorization/services/role.service.ts:136-160 | The same for a role's new permissions |
| PermissionCache.LostDeleteLeavesAStaleEntry | src/infrastructure/cache/cache.service.ts:44-54 | A concrete revocation whose delete is lost: requests with a healthy cache still get the permission at every time within the lifetime, and at none after it |
| PermissionCache.AcceptKeepsAgreementIff | src/modules/organizations/services/invitation.service.ts:168-216 | Accepting an invitation, which deletes no cache key, keeps the cache right exactly when the member's entry has run out by the given time or already shows the resulting set |
| PermissionCache.AcceptCanLeaveAStaleEntry | src/modules/organizations/services/invitation.service.ts:201-216 | A concrete state in which accepting an invitation leaves an entry that is wrong at every time within its lifetime and harmless after it |
| PermissionNames.Dedupe | src/modules/authorization/services/permission.service.ts:76-86 | The loop keeps the first row of every joined name, in order |
| PermissionNames.DedupeKeepsEveryPairIff | src/modules/authorization/services/permission.service.ts:76-86 | No granted pair is lost exactly when no two different rows share a joined name |
| PermissionNames.LoaderIsExactIff | src/modules/authorization/services/permission.service.ts:69-86 | Over the rows of the query, in whatever order they come, the loop yields the resolved set exactly when no two different granted pairs share a joined name |
| PermissionNames.LoaderReadsResolved | src/modules/authorization/services/permission.service.ts:69-86 | With colon-free resource names it always does |
| PermissionNames.RunKeepsColonFreeNames | src/modules/authorization/services/permission.service.ts:20-34 | Every run that creates only permissions with admitted names keeps all resource names colon-free |
| PermissionNames.HasPermissionIff | src/modules/authorization/services/permission.service.ts:130-136 | A query is answered yes exactly when the list holds the pair, or one with a star for either name or both |
| PermissionNames.RunKeepsAdmittedNames | src/modules/authorization/services/permission.service.ts:20-34 | Every run that creates only permissions with admitted names keeps all names admitted |
| PermissionNames.AdmittedPairsAreExact | src/modules/authorization/services/permission.service.ts:130-136 | Among admitted permissions no star occurs, and a query is answered yes exactly for the pair itself |
| PermissionNames.DedupeAnswersAlike | src/modules/authorization/services/permission.service.ts:130-136 | On colon-free resource names the deduplicated list holds the same pairs and answers every query as the full rows do |
| PermissionNames.JoinedIsInjective | src/modules/authorization/services/permission.service.ts:79-80 | Joining with a colon is injective on pairs whose resource has no colon |
| PermissionNames.AdmittedNamesAreColonFree | src/modules/authorization/dto/permission.dto.ts:4-20 | Every name the DTO pattern admits is colon-free |
| PermissionNames.PermissionsKeyIsInjective | src/modules/auth/constants/auth.constants.ts:31-41 | The cache key determines the user and the organization |
| PermissionNames.KeyKindsAreDisjoint | src/modules/auth/constants/auth.constants.ts:31-41 | Permission, policy and attribute keys never collide |
| LastAdminRule.OrganizationsKeepAnAdmin | src/modules/organizations/services/membership.service.ts:89-105 | While the seeded role stays the only live admin role, every run whose suspensions and role revocations leave an admin row ends with an active, live admin in each organization that had one or was created on the way |
| LastAdminRule.StepKeepsAdminIff | src/modules/organizations/services/membership.service.ts:50-105 | Each step keeps an organization's admin exactly when a suspension or role revocation leaves a counted row; removal needs no such check |
| LastAdminRule.RemovalKeepsAdmin | src/modules/organizations/services/membership.service.ts:159-178 | Under one admin role, a removal that passes the guard leaves an admin |
| LastAdminRule.RemovalKeepsAdminIff | src/modules/organizations/services/membership.service.ts:159-178 | For any removal that passes, an admin is left exactly when a different member holds a live admin role |
| LastAdminRule.SuspensionKeepsAdminIff | src/modules/organizations/services/membership.service.ts:50-87 | Suspension, which has no guard, keeps an admin exactly when another one is left |
| LastAdminRule.RevocationKeepsAdminIff | src/modules/authorization/services/role.service.ts:200-224 | The same for revoking the admin role |
| LastAdminRule.TwoAdminRolesDefeatTheGuard | src/modules/organizations/services/membership.service.ts:159-178 | With a second admin role the guard counts two rows for one person and lets the last admin go |
| LastAdminRule.CreateOrgGivesAdmin | src/modules/organizations/services/organization.service.ts:29-58 | A created organization starts with its owner as active admin when the seeded role exists |
| Invitations.StatusIsFinal | src/modules/organizations/services/invitation.service.ts:91-232 | An invitation that has left PENDING never changes status again in any run |
| Invitations.InvitationAcceptedOnce | src/modules/organizations/services/invitation.service.ts:117-232 | An accepted invitation is refused at every later point |
| Invitations.RevokedInvitationStaysRefused | src/modules/organizations/services/invitation.service.ts:91-115 | A revoked invitation is refused at every later point |
| Invitations.ExpiredIsNeverStored | src/modules/organizations/services/invitation.service.ts:150-158 | With rollback on throw no run from a state without EXPIRED invitations ever stores one |
| Invitations.AcceptSucceedsIff | src/modules/organizations/services/invitation.service.ts:117-166 | Accepted exactly while pending and unexpired, by the address it was sent to |
| Invitations.AcceptedMember | src/modules/organizations/services/invitation.service.ts:168-231 | Then the caller, and no other member, is an active member of that organization with the invitation's attributes; exactly the invited role is added to the roles held, and the invitation is closed |
| Invitations.InvitationIsCreatedIff | src/modules/organizations/services/invitation.service.ts:29-70 | Created exactly for an existing organization, with no role or a live global one or one of its own |
| Invitations.CreatedInvitationIsAcceptedIff | src/modules/organizations/services/invitation.service.ts:29-231 | At the end of any run after its creation it is accepted exactly within seven days, by the invited address, if nothing closed it in between; until then it is what it was created as |
| Invitations.StepClosesIff | src/modules/organizations/services/invitation.service.ts:91-166 | A pending invitation is closed exactly by its own organization's revocation, its acceptance, or a late attempt where writes survive the throw |
| RoleEffects.StepAccess | src/modules/authorization/services/role.service.ts:23-224 | Every member's live roles and permissions after each of the seventeen operations: only assignments, revocations, accepted invitations, role removals and replaced role permissions move them, exactly as stated |
| RoleEffects.RoleAnswersIff | src/modules/authorization/services/role.service.ts:113-224 | Role operations are answered success exactly for a live role in scope and a membership, an existing membership, a live unprotected role, or a live role and existing permissions |
| RoleEffects.RoleIsCreatedIff | src/modules/authorization/services/role.service.ts:23-69 | Created exactly with a free slug and existing permissions; it grants exactly those, to nobody yet |
| RoleEffects.StepKeepsScopeIff | src/modules/authorization/services/role.service.ts:162-186 | A step keeps every role held or promised global or of the member's own organization exactly when an assignment of an organization's role names a member of that organization, which the service does not check |
| RoleEffects.RunKeepsScope | src/modules/authorization/services/role.service.ts:162-186 | So does every run of such steps |
| UniqueNames.RunKeepsNamesUnique | src/modules/authorization/services/role.service.ts:23-40 | No run gives one slug to two organizations, to two roles of an organization or two live global ones, or one name to two permissions |
| UniqueNames.SystemRolesStay | src/modules/authorization/services/role.service.ts:113-121 | No run deletes or changes the row of a protected role |
| UniqueNames.PermissionRows | src/modules/authorization/services/permission.service.ts:19-59 | Creating a permission is idempotent, and removal is accepted exactly for one that exists and no role grants |
| UniqueNames.MemberUpdateIs | src/modules/organizations/services/membership.service.ts:50-87 | Sets the columns given a value, keeps the others, null included, and moves attributesVersion exactly when a column other than the status is mentioned |
| UniqueNames.RemovalSucceedsIff | src/modules/organizations/services/membership.service.ts:89-105 | Refused exactly for the holder of an admin slug while at most one admin row counts; otherwise only the member's row is marked |
| UniqueNames.NonMembersAreRefused | src/modules/organizations/services/membership.service.ts:144-157 | Both are refused for anybody who is no live member of that organization |
| OrganizationServices.MembershipService.UpdateAttributes | src/modules/organizations/services/membership.service.ts:50-87 | Writes the given columns and bumps attributesVersion exactly when an attribute field is given; status alone does not bump |
| OrganizationServices.MembershipService.Remove | src/modules/organizations/services/membership.service.ts:89-105 | Guard, then status and deletion mark of one row |
| OrganizationServices.MembershipService.BumpPermissionsVersionForRole | src/modules/organizations/services/membership.service.ts:115-131 | Bumps exactly the live holders of the role |
| OrganizationServices.MembershipService.BumpAllVersionsForOrg | src/modules/organizations/services/membership.service.ts:133-142 | Bumps both counters of exactly the organization's live members |
| OrganizationServices.PermissionService.ResolveForMembership | src/modules/authorization/services/permission.service.ts:61-90 | Cache hit, miss or outage as getOrSet, over the deduplicated rows |
| OrganizationServices.PermissionService.InvalidateForRole | src/modules/authorization/services/permission.service.ts:99-112 | Drops exactly the keys of the role's live holders |
| OrganizationServices.PermissionService.InvalidateForOrganization | src/modules/authorization/services/permission.service.ts:114-128 | Drops exactly the keys of the organization's live members |
| OrganizationServices.PermissionService.Remove | src/modules/authorization/services/permission.service.ts:49-59 | Refuses a permission in use or unknown, and deletes only that row |
| OrganizationServices.RoleService.Create | src/modules/authorization/services/role.service.ts:23-69 | Slug, foreign-key and unique checks, then the role and its grants |
| OrganizationServices.RoleService.Remove | src/modules/authorization/services/role.service.ts:113-134 | Soft-deletes a non-system role, bumps its holders and drops their keys |
| OrganizationServices.RoleService.SetPermissions | src/modules/authorization/services/role.service.ts:136-160 | Replaces the role's grants, bumps its holders and drops their keys |
| OrganizationServices.RoleService.AssignToMembership | src/modules/authorization/services/role.service.ts:162-198 | Adds the assignment, bumps the membership and drops the key of the organization the caller names |
| OrganizationServices.RoleService.RevokeFromMembership | src/modules/authorization/services/role.service.ts:200-224 | Removes the assignment, bumps the membership and drops the key of the organization the caller names |
| OrganizationServices.PolicyService.InvalidateAfterPolicyChange | src/modules/authorization/services/policy.service.ts:335-350 | The loop over organizations bumps each member once and drops every key; a global change does so for all live organizations |
| OrganizationServices.OrganizationService.Create | src/modules/organizations/services/organization.service.ts:18-68 | Organization, owner membership and, when a global admin role is found, its assignment |
| OrganizationServices.InvitationService.Create | src/modules/organizations/services/invitation.service.ts:29-82 | Role scope check, then a PENDING row with its expiry |
| OrganizationServices.InvitationService.Accept | src/modules/organizations/services/invitation.service.ts:117-232 | The whole call under the commit rule |
| OrganizationServices.InvitationService.AcceptInTransaction | src/modules/organizations/services/invitation.service.ts:121-232 | The callback's guards in order, then membership, role and status; before a throw only the invitation is written |
| DeepEquality.ReflexiveIff | src/modules/authorization/services/condition-evaluator.service.ts:134-159 | A value equals itself exactly when no NaN and no invalid date is inside it |
| DeepEquality.Symmetric | src/modules/authorization/services/condition-evaluator.service.ts:134-159 | The comparison is symmetric on all values |
| DeepEquality.SameStructureIff | src/modules/authorization/services/condition-evaluator.service.ts:134-159 | JSON values have the same structure, key order aside, exactly when deepEqual says so and no array met an object |
| DeepEquality.TransitiveWithoutMixing | src/modules/authorization/services/condition-evaluator.service.ts:147-158 | Hence transitive where arrays meet only arrays |
| DeepEquality.MixingBreaksTransitivity | src/modules/authorization/services/condition-evaluator.service.ts:147-158 | {} equals [] and [] equals { length: 0 }, but {} does not equal { length: 0 } |
| DeepEquality.DatesBreakTransitivity | src/modules/authorization/services/condition-evaluator.service.ts:138-158 | Two different dates both equal {} |
| DeepEquality.UndefinedMemberIsNoMember | src/modules/authorization/services/condition-evaluator.service.ts:150-158 | An own undefined and a missing key are the same to it |
| AttributeResolver.ReadPath | src/modules/authorization/services/attribute-resolver.service.ts:52-68 | The cursor loop reads the dotted path, undefined at the first value without properties |
| AttributeResolver.ReadingComposes | src/modules/authorization/services/attribute-resolver.service.ts:52-68 | Reading p.q is reading q from what p reads, for all roots and paths |
| JsValues.GetIndex | src/modules/authorization/services/attribute-resolver.service.ts:65-65 | An array element is read by its decimal index |
| AttributeResolver.SplitIsDotFree | src/modules/authorization/services/attribute-resolver.service.ts:56-57 | Splitting and joining a path with dots is the identity, and parts are dot-free |
| AttributeResolver.ReferencesAre | src/modules/authorization/services/attribute-resolver.service.ts:13-26 | A compare target is a reference exactly when it is a source name, a dot and a non-empty one-line path, in one way only |
| AttributeResolver.ReferenceIsResolved | src/modules/authorization/services/attribute-resolver.service.ts:13-26 | Such a target is read from its source |
| AttributeResolver.OtherStringsAreLiteral | src/modules/authorization/services/attribute-resolver.service.ts:13-26 | Every other string is compared as itself |
| AttributeResolver.LookupAfterSpread | src/modules/authorization/services/attribute-resolver.service.ts:30-31 | In the USER root a cached attribute overrides id and email, and any other key is read from the base |
| Conditions.ComparisonsAreTotalIff | src/modules/authorization/services/condition-evaluator.service.ts:92-99 | The four orderings agree with one another, decide every pair exactly when neither side is NaN, and order finite numbers as the reals |
| Conditions.TextOperators | src/modules/authorization/services/condition-evaluator.service.ts:100-115 | CONTAINS, STARTS_WITH and ENDS_WITH hold exactly when the text surrounds, begins with or ends with the other |
| Conditions.InComparesByStructure | src/modules/authorization/services/condition-evaluator.service.ts:88-91 | With no array meeting an object, IN, NOT_IN and CONTAINS on a list tell exactly whether the list has an element of the same structure |
| Conditions.EqualsComparesStructure | src/modules/authorization/services/condition-evaluator.service.ts:82-91 | EQUALS and NOT_EQUALS then tell exactly whether two values have the same structure |
| Conditions.MissingAttributePassesIff | src/modules/authorization/services/condition-evaluator.service.ts:18-41 | A condition on a missing attribute passes exactly for EQUALS with a target that is missing too, NOT_EQUALS with one that is not, IN with a list that holds undefined and NOT_IN with a list that does not; for a literal that leaves NOT_EQUALS, and NOT_IN with a list |
| Conditions.CoercionGivesTheType | src/modules/authorization/services/condition-evaluator.service.ts:53-80 | A value that is not missing is coerced to its declared type, one of that type stays as it is; text is false as a boolean exactly when empty or reading false |
| Conditions.ExistenceAndPatterns | src/modules/authorization/services/condition-evaluator.service.ts:82-132 | EXISTS passes exactly for an attribute neither missing nor null, REGEX_MATCH exactly where the pattern matches the text |
| Conditions.SourceIsRead | src/modules/authorization/services/attribute-resolver.service.ts:28-50 | Which object each source reads; a user's stored attributes come before the token's id and email |
| Conditions.TextContainsOnList | src/modules/authorization/services/condition-evaluator.service.ts:73-107 | CONTAINS with type STRING looks a literal up in the comma-joined text of a list |
| Conditions.AdminConditionPassesIff | prisma/seed.ts:187-195 | The seeded administrator condition passes exactly when some role slug contains the text admin, which the slug admin does |
| Policies.AllConditionsPass | src/modules/authorization/services/policy-evaluator.service.ts:73-97 | The loop answers whether all conditions pass and reports the first that does not |
| Policies.EvaluatePolicies | src/modules/authorization/services/policy-evaluator.service.ts:16-65 | Filter, sort and the loop with its break compute the decision of the recursive specification, reports included |
| Policies.SortIsStable | src/modules/authorization/services/policy-evaluator.service.ts:17-20 | The sort orders by descending priority, loses nothing, and keeps the order within a priority |
| Policies.EvaluatorAllowsIff | src/modules/authorization/services/policy-evaluator.service.ts:16-65 | The evaluator allows exactly when no matching DENY and some matching ALLOW passes |
| Policies.AllowedIff | src/modules/authorization/services/authorization.service.ts:81-105 | Access is allowed exactly with an organization context, no passing DENY, and the permission or a passing ALLOW |
| Policies.PriorityNeverDecides | src/modules/authorization/services/policy-evaluator.service.ts:17-39 | Order, repetition and priorities of the policies never change whether access is allowed |
| Policies.AddingAPolicy | src/modules/authorization/services/authorization.service.ts:81-105 | Adding a DENY takes access away exactly when it matches; adding an ALLOW gives it exactly when it matches and no DENY does |
| Policies.OneMoreCondition | src/modules/authorization/services/policy-evaluator.service.ts:41-97 | One more condition, wherever it stands, narrows a policy exactly where it fails; without conditions an enabled policy matches whatever it applies to |
| Policies.DisabledPolicyIsNoPolicy | src/modules/authorization/services/policy-evaluator.service.ts:41-65 | A disabled policy changes no decision |
| Policies.AnswerOutsideDevelopment | src/modules/authorization/services/authorization.service.ts:81-105 | Outside development all denials in an organization are one answer, a grant says only whether a role or a policy gave it, and no policy or condition is shown |
| Policies.ReportedPolicies | src/modules/authorization/services/policy-evaluator.service.ts:21-39 | Reported policies all match, come by non-increasing priority, and only the last can be a DENY |
| Policies.ReportedDenyIsTop | src/modules/authorization/services/policy-evaluator.service.ts:28-39 | If a DENY matches, the last reported policy is a DENY of at least its priority |
| Policies.ReportIsComplete | src/modules/authorization/services/policy-evaluator.service.ts:28-39 | Every matching policy of higher priority than all matching DENYs is reported |
| Policies.ReasonIs | src/modules/authorization/services/policy-evaluator.service.ts:41-65 | The reason names the reported DENY exactly when one matches, else the grant, else that no ALLOW matched |
| Policies.ReportedFailures | src/modules/authorization/services/policy-evaluator.service.ts:73-97 | A reported failed condition is the first failing one of a policy that applies, with its values; unless a DENY matches every such condition is reported |
| Policies.AdminPolicyAllowsIff | prisma/seed.ts:177-196 | With the seeded administrator policy a member without the permission passes exactly when some role slug contains the text admin |
| SeededPolicies.SeededDecisionIff | prisma/seed.ts:117-237 | Under the seeded policies, in any order, access is allowed exactly when the member's status does not read SUSPENDED and the permission is held, or resource and organization ids read alike, or a role slug contains the text admin, or the profile, department or plan policy lets the request through |
| SeededPolicies.TextConditionHoldsIff | src/modules/authorization/services/condition-evaluator.service.ts:43-76 | A seeded EQUALS condition passes exactly when attribute and target print alike or are both undefined or both null |
| Requests.AcceptedRequestResolves | src/modules/authorization/services/permission.service.ts:61-90 | After every settled run, for an accepted token, resolveForMembership over the rows of its query, deduplicated or cached, answers, as a set, the permissions at signing |
| Requests.AcceptedRequestIsDecidedAsSigned | src/modules/authorization/services/authorization.service.ts:45-106 | After every settled run, whether the request's own cache commands are answered, miss or fail, a request with an accepted token is allowed exactly when no DENY passes and a permission held at signing covers it or an ALLOW passes |
| Requests.AcceptedRequestNeedsThePermission | src/modules/authorization/services/authorization.service.ts:45-106 | Where all permission names are admitted, that permission is exactly the one asked for: no star covers it |
| Seed.TablesAreSound | prisma/seed.ts:33-112 | The seeded permissions and protected global roles meet the table constraints, and admin is the only live role with its slug |
| Seed.AcceptedTokenInDeployment | src/modules/auth/strategies/jwt.strategy.ts:48-70 | The statement about accepted tokens for every run of an empty or seeded deployment |
| Seed.AcceptedRequestInDeployment | src/modules/authorization/services/authorization.service.ts:45-106 | The statement about requests for every settled run of such a deployment |
| Seed.OrganizationsKeepAnAdminInDeployment | src/modules/organizations/services/membership.service.ts:89-105 | In a seeded deployment every organization keeps an administrator under the conditions of the rule |
| Mfa.ChallengeIsBounded | src/modules/mfa/services/mfa-login.service.ts:92-139 | In every run a challenge sees at most five code checks and completes at most one login |
| Mfa.SessionsAreTheLogins | src/modules/mfa/services/mfa-login.service.ts:131-139 | Over every run a user's sessions grow by exactly the logins completed through that user's challenges |
| Mfa.RunCountsAttempts | src/modules/mfa/services/mfa-challenge.service.ts:91-98 | The stored counter rises by exactly the number of code checks, and the consumed mark by the number of logins |
| Mfa.RemainingChecksAreBounded | src/modules/mfa/services/mfa-challenge.service.ts:54-89 | From any state with the invariant on, a challenge has at most the checks its counter leaves, and a consumed one completes nothing |
| Mfa.BackupCodesAreConserved | src/modules/mfa/services/mfa.service.ts:225-243 | Until reissue, the total is constant and accepted uses plus remaining codes make up what remained before |
| Mfa.CountIsUsedPlusRemaining | src/modules/mfa/services/mfa.service.ts:250-261 | After generation used plus remaining is the configured count until the codes are reissued or deleted |
| Mfa.BackupCodeWorksOnce | src/modules/mfa/services/mfa.service.ts:225-243 | Until reissue a code is accepted at most once, and never if it was not spendable |
| Mfa.IssuingStartsAFullSet | src/modules/mfa/services/mfa.service.ts:250-261 | Generation replaces all codes of the user by the configured number of unused ones |
| Mfa.IssuingFailsIff | src/modules/mfa/services/mfa.service.ts:255-258 | Generation fails exactly when another user holds one of the new hashes, and then changes nothing |
| Mfa.NoCodesWhenDisabled | src/modules/mfa/services/mfa.service.ts:119-163 | In every reachable state a user without an enabled factor has no spendable code |
| MfaFactors.LoginCompletesIff | src/modules/mfa/services/mfa-login.service.ts:92-139 | Completes exactly with an existing, unconsumed, unexpired challenge below its limit, an active account, and a one-time password right for the user's enabled secret or an unused code of that user |
| MfaFactors.CompletedLoginIsTheUsers | src/modules/mfa/services/mfa-login.service.ts:131-139 | Answers with the newest token of a new session of the challenge's user, consumes the challenge and the presented code, and touches no other code, challenge or secret |
| MfaFactors.RefusedLoginCostsAtMostAnAttempt | src/modules/mfa/services/mfa-login.service.ts:92-129 | A refused attempt writes nothing, or after a wrong factor exactly one attempt |
| MfaFactors.IssuedChallengeCompletesIff | src/modules/mfa/services/mfa-challenge.service.ts:35-98 | At the end of any run a challenge signs in exactly the user it was issued to, within its lifetime, if it completed no login and saw fewer than five checks, with a factor right then |
| MfaFactors.FactorChangesIff | src/modules/mfa/services/mfa.service.ts:32-207 | An operation other than a login changes a user's secret or codes exactly when it is that user's and has what it needs (password, right one-time password, codes nobody else holds), and then exactly as stated |
| MfaFactors.FactorAnswersIff | src/modules/mfa/services/mfa.service.ts:32-207 | The owner is answered success exactly when the factor was changed |
| MfaFactors.EnabledSecretStays | src/modules/mfa/services/mfa.service.ts:119-163 | In every run an enabled secret stays as it is until somebody disables it with the password and a right one-time password |
| MfaServices.MfaChallengeService.Consume | src/modules/mfa/services/mfa-challenge.service.ts:54-89 | Not found, used, expired, exhausted, in that order; writes nothing |
| MfaServices.MfaChallengeService.RecordAttempt | src/modules/mfa/services/mfa-challenge.service.ts:91-98 | Raises the counter, and on success sets the consumed mark |
| MfaServices.MfaLoginService.VerifyAndCompleteLogin | src/modules/mfa/services/mfa-login.service.ts:92-139 | Challenge checks, account check, code check, attempt and session, in the code's order |
| MfaServices.MfaService.VerifySetup | src/modules/mfa/services/mfa.service.ts:68-117 | Enables the pending secret and issues codes, or answers the first failing check with nothing enabled |
| MfaServices.MfaService.Disable | src/modules/mfa/services/mfa.service.ts:119-163 | Deletes the user's codes and secret after password and code checks |
| MfaServices.MfaService.RegenerateBackupCodes | src/modules/mfa/services/mfa.service.ts:173-207 | Replaces the codes after the owner checks |
| MfaServices.MfaService.ReplaceBackupCodes | src/modules/mfa/services/mfa.service.ts:250-261 | Deletes and inserts in one transaction, which a duplicate hash rolls back |
| MfaServices.MfaService.ConsumeBackupCode | src/modules/mfa/services/mfa.service.ts:225-243 | Stamps a spendable code of this user, or refuses and writes nothing |
| MfaServices.MfaService.ListBackupCodeStatus | src/modules/mfa/services/mfa.service.ts:165-171 | Counts the user's codes and the unused ones |
| MfaPolicies.ExtractFromSettings | src/modules/mfa/services/mfa-policy.service.ts:77-96 | Whatever the settings hold, the extracted method list is never empty |
| MfaPolicies.UpdateRoundTripIff | src/modules/mfa/services/mfa-policy.service.ts:50-75 | Reading back gives the reported policy exactly unless the patch names an empty list, and no other setting changes |
| MfaPolicies.SharedPoliciesIntersect | src/modules/mfa/services/mfa-policy.service.ts:98-108 | If the policies share a method, the fold returns exactly the methods all allow, in the first policy's order |
| MfaPolicies.IntersectionIsRightIff | src/modules/mfa/services/mfa-policy.service.ts:98-108 | For non-empty lists of non-empty methods the fold is right exactly when the policies share a method or cut into consecutive blocks that share nothing while every shorter run of each shares something |
| MfaPolicies.FoldEmptiesIff | src/modules/mfa/services/mfa-policy.service.ts:102-107 | The fold comes out empty exactly when the list cuts into such blocks |
| MfaPolicies.DisjointPoliciesStartOver | src/modules/mfa/services/mfa-policy.service.ts:102-107 | Two disjoint policies and a third: the fold starts over and returns a method the first forbids |
| MfaPolicies.JoiningTightensFlags | src/modules/mfa/services/mfa-policy.service.ts:24-40 | One more organization can only add the requirement and only withdraw backup codes |
| Cache.CacheService.Set | src/infrastructure/cache/cache.service.ts:29-42 | Stores with an expiry exactly for a positive lifetime, or reports failure and stores nothing |
| Cache.CacheService.GetOrSet | src/infrastructure/cache/cache.service.ts:84-96 | A live entry answers; otherwise the loader's value is stored if possible and returned |
| Cache.GetOrSetAnswersAlike | src/infrastructure/cache/cache.service.ts:84-96 | Exactly until it expires the first stored value answers every later call, whatever the loaders return; other keys are untouched |
| Sso.SuccessesAreTtlApart | src/modules/sso/services/sso-login.service.ts:151-176 | Two successes with one assertion id are at least the replay lifetime apart in whole seconds, in every run in between; under one second there is no second |
| Sso.AssertionIsAcceptedIff | src/modules/sso/services/sso-login.service.ts:60-145 | A login succeeds exactly for an enabled configuration, with a relay state the cache finds or leave to do without, a valid response with an unseen id, an email and a provisioned user |
| Sso.BegunLoginCompletesIff | src/modules/sso/services/sso-login.service.ts:47-145 | A login begun here is completed after any run that leaves its relay state alone exactly within the relay lifetime, by a valid new assertion of a known user |
| Sso.GuardReopensIff | src/modules/sso/services/sso-login.service.ts:151-176 | After a success the guard passes the same id again exactly when its mark has expired |
| Sso.StrictLoginsUseIssuedStatesOnce | src/modules/sso/services/sso-login.service.ts:69-82 | For configurations that forbid IdP-initiated login, a relay state is taken at most as often as it was issued |
| Sso.StrictSuccessTakesRelayState | src/modules/sso/services/sso-login.service.ts:69-78 | Every such success takes a live relay state, whatever the cache's health |
| Sso.RelayStatesAreConserved | src/modules/sso/services/sso-login.service.ts:47-82 | Over any run, takings of a relay state plus what is held never exceed what was held plus issues |
| Sso.RelayStateExpires | src/modules/sso/services/sso-login.service.ts:47-58 | A strict login succeeds only within the lifetime of the relay state it carries |
| Sso.FailedResponseSpendsRelayState | src/modules/sso/services/sso-login.service.ts:80-89 | A response that fails validation spends its relay state too |
| Sso.LostDeleteReusesRelayState | src/modules/sso/services/sso-login.service.ts:80-82 | A delete that does not reach the cache lets one relay state serve two logins |
| Sso.RelayStateIsNotBoundToOrganization | src/modules/sso/services/sso-login.service.ts:47-82 | The organization a relay state was issued for plays no part in the answer |
| Sso.KeysAreApart | src/modules/sso/constants/sso.constants.ts:15-18 | Relay and replay keys never collide |
| Sso.KeysAreInjective | src/modules/sso/constants/sso.constants.ts:15-18 | Each key determines its relay state or assertion id |
| SsoServices.SsoLoginService.BeginSpInitiatedLogin | src/modules/sso/services/sso-login.service.ts:47-58 | Stores the relay state with its lifetime |
| SsoServices.SsoLoginService.HandleAssertion | src/modules/sso/services/sso-login.service.ts:60-145 | Relay check, relay deletion, validation, replay guard, email and provisioning, in the code's order |
| SsoServices.SsoLoginService.GuardReplay | src/modules/sso/services/sso-login.service.ts:151-176 | Refuses a live mark, marks a new id, and skips a missing id |

## Left out

- Controllers, guards, DTO validation, filters, interceptors, logging, audit records, mail, queues, health and Swagger: input, output and wiring.
- bcrypt, SHA-256, AES-GCM, JWT signing and expiry, TOTP and SAML validation: foreign code; compare, hash and fresh tokens are abstract, and what the libraries answer is a parameter. An access token is one this service signed.
- Interleavings inside one service call: several operations read outside their transaction, so finer steps would be a different claim.
- The cache of resolved attributes: nothing drops it when attributes change, so agreement is not a theorem of the code. Policies are evaluated against attributes that are given.
- Which policies a membership is assigned (src/modules/authorization/services/policy.service.ts:269-319): the list is a parameter of evaluation.
- OAuth account links, and what just-in-time provisioning writes to memberships and roles: it bumps no version and drops no cache key, so the claims about both exclude it. Its user half, creation and reactivation, and the sessions of OAuth, SSO and MFA are operations of Auth; an SSO token is scoped to its organization as the membership then stands.
- The character classes of the password policy and the SSO-only check: their answers are parameters.
- Changes of a user's status or deletion mark: no code of the services makes them, so they are an operation from outside.
- Session listing, device metadata, last-used stamps, and the cached session keys that no code reads.
- Parsing and printing of numbers and dates and matching of regular expressions: functions of a host record. Negative zero, prototype-inherited properties such as __proto__, and objects with their own toString are not modelled, nor are UTF-16 code units beyond characters.
- Names, descriptions and plans of roles, organizations and policies, which no decision reads.
- Identity of objects, the first test of deepEqual, is not modelled; `DeepEquality.ReflexiveIff` shows that it only matters for a value with a NaN or an invalid date inside.
- AccessTokens.AcceptedTokenSpeaksForThePresent: the roles a token carries are compared as a set of slugs; their order and repetition are not modelled.
- OrganizationServices.OrganizationService.Create: which role findFirst returns is left open when several global admin roles are live; the contract names the one that was used.
- OrganizationServices.PermissionService.ResolveForMembership: the cache is keyed by the pair of user and organization; PermissionNames.PermissionsKeyIsInjective relates the pair to the string.
- AuthServices.AuthService.ValidMeansInv: presumes that sign-ins by MFA, OAuth and SSO and user creation by OAuth and SSO on the same tables go through FederatedLogin and CreateFromProfile of the same object, and that no session is written past it; changes of status from outside have no method.
- Requests.AcceptedRequestIsDecidedAsSigned: assumes that permissions are created with names the DTO admits, as the controller enforces and the service does not; PermissionNames.LoaderIsExactIff shows why.
- LastAdminRule.OrganizationsKeepAnAdmin: assumes that no second role with the slug admin is created; LastAdminRule.TwoAdminRolesDefeatTheGuard shows why. That suspensions and revocations leave an admin row is a condition because neither operation checks it; LastAdminRule.StepKeepsAdminIff proves it exact.
- Sso.SuccessesAreTtlApart: assumes that the commands on the replay key reach the cache; Sso.LostCheckAdmitsReplay shows why.
- Sso.StrictLoginsUseIssuedStatesOnce: assumes that deletions reach the cache; Sso.LostDeleteReusesRelayState shows why.
- Mfa.BackupCodeWorksOnce: speaks of runs without reissue for that user; whether a later generation repeats a hash is up to the random generator.
