# Verified model of the shelter API's identity core

A Dafny 4.11 model of the parts of the API whose guarantees are about every interleaving and every input: the
refresh-token rotation protocol, the scoped transactions on pooled connections, the recovery codes, and the codecs, scans and arithmetic
around them. `dafny verify dfyconfig.toml` checks everything.

## How it is organised

**Refresh tokens.** `RefreshTokens.dfy` holds the table and `Rotate`, one rotation on an undisturbed table.
`RotationMachine.dfy` is the protocol as it runs: any number of logins and rotations under READ COMMITTED, one SQL
statement (or one row of an UPDATE) per step. A lookup acts on the committed rows of its moment; an UPDATE takes its
candidates from its own snapshot and then visits them one by one, waits for a row another transaction has written and
not committed, and evaluates its WHERE clause again on the newest version. The advisory lock key is an arbitrary
function of the family, so families may collide. Any statement, any commit and the random source may fail.
`RotationInvariant.dfy` proves what every reachable state satisfies; `RotationRuns.dfy`, `RotationHistory.dfy`,
`RotationSafety.dfy` and `RotationProgress.dfy` prove the guarantees over whole runs, for every interleaving.
`RotationRereading.dfy` says exactly when acting on the row read before the lock is what reading again would lead to.
`RotationWithoutLock.dfy` runs the same machine without the lock and exhibits the run in which a successor survives
the revocation of its family. `RotationProgram.dfy` is the code itself, statement by statement, on a shared database
object that other connections drive before any statement, BEGIN and COMMIT, each of which may fail on its own.
`SessionCookie.dfy` joins the protocol with the cookie codec, from the cookie one grant sends to the next rotation.

**Scoped transactions.** `TenantScope.dfy` is the machine of requests and recycled connections; `TenantProgram.dfy`
is the code of `RequireTenant` and of the begin/scope/run/commit-or-rollback wrapper that `WithTenant`,
`WithAuthUser`, `WithAuthLookup` and `WithPublic` share.

**Recovery codes.** `RecoveryCodes.dfy`, `RecoveryHistory.dfy` and `RecoveryProgram.dfy`, in the same three layers.

**Codecs, scans, arithmetic.** `Text.dfy`, `Bytes.dfy`, `Base64.dfy`, `Decimal.dfy` and `SortedNames.dfy` model the
library functions the others rest on; `Base64Digits.dfy` says what base64 is, apart from how it is computed.
Each of them is also tied to something outside itself: an alphabet, a list of characters, digits of a number, a text
written out. `RefreshCookie.dfy`, `PhcHash.dfy`, `ForwardedFor.dfy`, `Totp.dfy` and
`Catalog.dfy` each model one file.

## Assumptions

- Random ids, secrets and family ids are new whenever they are drawn, and the digests of drawn secrets do not collide
  (`Fresh`). SHA-256, HMAC-SHA1, Argon2id and base32 are arbitrary functions.
- Row security is the policy of `apps/api/internal/db/migrations/00013_auth_role.sql:52-54` and of
  `apps/api/internal/db/migrations/00014_totp_recovery_codes.sql:42-44`: rows of the scope's user only, on reading and
  on writing. The partial unique index of migration 00017 is not assumed: it is proved to have nothing to refuse.
- A lock wait or row wait that is cut short is a failed statement, and a failed statement or commit ends in a rollback.
  Locks are released together with the commit or rollback.
- Connections: `set_config(…, true)` is reverted at the end of the transaction and then reads as the empty string; a
  connection whose rollback failed, or whose commit left its state unknown, is closed and not recycled; a rollback
  after a failed commit changes nothing. Callbacks issue data statements only.
- Times are whole seconds. Strings are sequences of characters, one for each byte where the source counts bytes.

## What the proofs say about the code and its comments

- `session.go:263-274` calls acting on the row read before the lock benign. It is safe, but it is not the same as
  reading again: it is if and only if the token's revocation did not change during the wait
  (`RotationRereading.RereadingAgrees`). A rotation of a live token outrun by another one is refused by rollback
  without burning the family (`RotationRereading.CanBeOutrun`, `RotationRuns.OutrunNeverCommits`). And one whose token
  had expired when it was read, and was spent by an earlier rotation before the lock, commits the refusal as invalid,
  where an undisturbed rotation would have answered reuse and burnt the family (`RotationRereading.ExpiredIsNotReuse`).
- `session.go:138-139` says refusing padding leaves one spelling of a cookie. The decoder ignores the spare bits of the
  last symbol of either half, so a browser can send 64 values for every cookie, all of one length and alphabet and all
  accepted, and no others without a line break (`RefreshCookie.SecondSpelling`, `RefreshCookie.SixtyFourSpellings`).
  Which accepted values are the issued ones is `RefreshCookie.AcceptedIsIssuedIffCanonical`.
- `password.go:92-114` hashes with salts and keys of any length, `password.go:212-218` reads back at most 1024 bytes:
  a hash verifies its own password exactly when both lengths are within that bound (`PhcHash.HashedVerifies`).
- `recovery.go:116-121` promises to replace the whole set. Two regenerations of one user that overlap leave both sets;
  the stored set is the last one committed exactly when none overlapped (`RecoveryHistory.StoredSetIsTheLast`).
- The window of a TOTP code is ninety seconds, except for the steps -1, 0 and 1: truncating division makes the step at
  the epoch fifty-nine seconds long and their windows 119 (`Totp.WindowOf`, `Totp.EpochStepIsLonger`). A code is
  accepted within thirty seconds at any time all the same.

## Model

| member | source | states |
|---|---|---|
| RotationRuns.Linearizable | apps/api/internal/auth/session.go:223-352 | in every interleaving a committed rotation has, at one of its own steps between its begin and its commit (the lookup for a refusal that writes nothing, the commit for everything else), exactly the outcome and effect of an undisturbed rotation |
| RotationRuns.CommitIsRotate | apps/api/internal/auth/session.go:276-351 | a rotation that writes takes effect whole at its commit, as `Rotate` on the table of that moment, although it decides on a row read before the lock |
| RefreshTokens.RotateKnown | apps/api/internal/auth/session.go:276-351 | that rotation of an issued secret, field by field: a revoked token, expired or not, is reuse and leaves its whole family revoked; an expired one is invalid; any other is spent, points at the new one, which lives thirty days, and nothing else changes |
| RefreshTokens.RotateUnknown | apps/api/internal/auth/session.go:231-242 | a secret never issued, or issued to another user, is invalid and changes nothing |
| RotationRuns.ReadIsRefusal | apps/api/internal/auth/session.go:231-242 | a refusal as invalid is what an undisturbed rotation would have answered at the lookup, and leaves the table alone |
| RotationRuns.NeverCommitted | apps/api/internal/db/auth.go:58-86 | a transaction that was rolled back took no commit step at any point of the run |
| RotationRuns.AbortedChangesNothing | apps/api/internal/auth/session.go:320-328 | no step of a transaction that was rolled back changed a committed row |
| RotationRuns.LoginAddsFamily | apps/api/internal/auth/session.go:194-206 | a committed login adds one live token of the scope's user, in a family unused before, expiring after the lifetime, and nothing else |
| RotationRuns.ReuseIsFinal | apps/api/internal/auth/session.go:276-296 | once a refusal for reuse has committed, no later state of the run holds an unrevoked token in that family |
| RotationRuns.RevokedTokenIsReuse | apps/api/internal/auth/session.go:276-304 | a rotation that looks up an already revoked token in its owner's scope and commits is refused as reuse, expired or not, and its family is dead from then on |
| RotationRuns.WrongScopeIsInvalid | apps/api/internal/auth/session.go:233-242 | a secret presented in another user's scope is refused as invalid, never as reuse, and changes nothing |
| RotationRuns.OutrunNeverCommits | apps/api/internal/auth/session.go:306-329 | a rotation whose token was live when read but revoked when it got the lock never commits: it mints nothing and burns nothing |
| RotationRereading.RereadingAgrees | apps/api/internal/auth/session.go:263-304 | under the lock, the branch taken on the row read before it is the branch a second look would lead to if and only if the token's revocation has not changed since |
| RotationRereading.CanBeOutrun | apps/api/internal/auth/session.go:248-274 | every live token can be looked up unrevoked and unexpired by one rotation and be spent by another before the first gets the lock |
| RotationRereading.ExpiredIsNotReuse | apps/api/internal/auth/session.go:298-304 | a token looked up unrevoked and expired, and spent before the lock, is refused as invalid with the successor left live, where an undisturbed rotation answers reuse and burns the family |
| RotationRereading.BothHappen | apps/api/internal/auth/session.go:263-274 | one login and two rotations make a run of either kind |
| RotationInvariant.RunKeepsInv | apps/api/internal/db/sqlcgen/auth.sql.go:207-236 | every state of every run keeps the table rules, each transaction's phase rules and the separation of locks, drawn ids and uncommitted rows |
| RotationInvariant.CommittedTable | apps/api/internal/auth/session.go:285-351 | what a commit makes of the table is one of four things, told by its outcome: new family, successor, burnt family, nothing |
| RotationInvariant.DeadStaysDead | apps/api/internal/auth/session.go:248-258 | no commit brings a live token into a family without one, because every insert into an existing family spends a live row |
| RotationInvariant.LockedFamilyKept | apps/api/internal/db/sqlcgen/auth.sql.go:211-236 | while a transaction holds a family's lock, no other commit touches a row of that family, whatever families share the key |
| RotationTables.SucceedKeepsTable | apps/api/internal/auth/session.go:306-351 | spending the live token and appending its successor keeps unique hashes, one live token and one owner per family, and the path of every family |
| RotationTables.BurnKeepsTable | apps/api/internal/db/sqlcgen/auth.sql.go:256-271 | burning a family keeps all of these and leaves the family dead |
| RotationHistory.FamilySize | apps/api/internal/db/sqlcgen/auth.sql.go:273-298 | a family's size is exactly one plus the number of its committed successful rotations |
| RotationHistory.SecretBuysOneCookie | apps/api/internal/db/sqlcgen/auth.sql.go:273-298 | over a whole run a presented secret yields a new cookie in at most one committed transaction |
| RotationHistory.FamilyIsLoginPath | apps/api/internal/auth/session.go:306-351 | the rows of a family form one simple path along replaced_by that starts at the login's token; all but the last are revoked and replaced, and only the last may be live |
| RotationSafety.NeverTwoLive | apps/api/internal/db/migrations/00017_one_live_token_per_family.sql:29-31 | neither the committed table nor any transaction's own view, at any step and also between a failure and its rollback, ever holds two live tokens of a family |
| RotationSafety.InsertNeverConflicts | apps/api/internal/auth/session.go:331-337 | a token is inserted only when no other token of its family is live in the transaction's view and nobody else has an uncommitted row in that family |
| RotationSafety.BackPointerIsValid | apps/api/internal/auth/session.go:339-349 | the back-pointer names an existing other row of the same family, and is set on the presented token |
| RotationSafety.ScopeIsolation | apps/api/internal/auth/session.go:208-246 | a commit leaves every other user's rows as they were; every row and cookie it adds is its scope's |
| RotationSafety.CookieOpensItsRow | apps/api/internal/auth/session.go:397-398 | the cookie of a committed grant opens exactly the row its transaction minted |
| RotationProgress.StepsAreBounded | apps/api/internal/db/sqlcgen/auth.sql.go:211-236 | no run takes more than twelve steps for each transaction it starts |
| RotationProgress.SomebodyCanStep | apps/api/internal/db/sqlcgen/auth.sql.go:229-232 | no deadlock: for every key function, colliding or not, while a transaction is unfinished some transaction can take a step that is not a failure |
| RotationProgress.CandidateIsUnlocked | apps/api/internal/db/sqlcgen/auth.sql.go:256-271 | an UPDATE of the protocol never waits for a row: the family's lock keeps all others off its candidates |
| RotationWithoutLock.RotationCanSucceed | apps/api/internal/auth/session.go:315-351 | with nobody else in mid-flight, a live, unexpired token can always be rotated, to exactly the successor state |
| RotationWithoutLock.SuccessorSurvivesReuse | apps/api/internal/auth/session.go:248-258 | without the lock there is a run in which reuse is detected and committed, a successor in that same family stays live, and the one-live-token rule holds all the same |
| RotationProgram.AuthDatabase.GetRefreshTokenByHash | apps/api/internal/db/sqlcgen/auth.sql.go:48-80 | finds the one row with this digest in the scope, or nothing, or fails; writes nothing |
| RotationProgram.AuthDatabase.LockRefreshTokenFamily | apps/api/internal/db/sqlcgen/auth.sql.go:207-236 | waits while the others run, and holds the family's key afterwards; fails exactly when the statement fails or the key is still held by somebody else when the wait is over |
| RotationProgram.AuthDatabase.ExecUpdate | apps/api/internal/db/sqlcgen/auth.sql.go:256-318 | one of the three UPDATEs, its candidates visited row by row while others run; its row count decides the next step, and the guarded one affects a row exactly when the presented token is still live at its end |
| RotationProgram.AuthDatabase.InsertRefreshToken | apps/api/internal/db/sqlcgen/auth.sql.go:136-163 | adds exactly the drawn row, and only for the scope's own user |
| RotationProgram.AuthDatabase.ReplaceToken | apps/api/internal/auth/session.go:306-351 | revoke, insert, back-pointer: ends with the successor's cookie to commit or an error to roll back, in step with the protocol; undisturbed, a live token is always replaced |
| RotationProgram.AuthDatabase.RotateRefreshToken | apps/api/internal/auth/session.go:223-352 | ends with an outcome to commit or an error to roll back, in step with the protocol, whatever others do and whatever fails; undisturbed, always with an outcome |
| RotationProgram.AuthDatabase.IssueRefreshToken | apps/api/internal/auth/session.go:199-206 | ends with the cookie of the drawn secret, the drawn row written for the scope's own user, or with an error to roll back |
| RotationProgram.AuthDatabase.Conclude | apps/api/internal/db/auth.go:58-86 | reports success exactly when the callback returned nil and the commit did not fail, and has committed then; otherwise it has rolled back |
| RotationProgram.AuthDatabase.Refresh | apps/api/internal/db/auth.go:43-86 | a refresh request that succeeds was one undisturbed rotation at a moment between call and return; one that fails, at BEGIN, at any statement or at the commit, never committed; with nobody else at work, nothing failing before it and a new draw, the commit alone decides; the nil user is refused before any step |
| RotationProgram.AuthDatabase.LogIn | apps/api/internal/auth/session.go:354-399 | a successful login returns the cookie of the drawn secret for the scope's user, and its last step added exactly that token in a new family; a failed one never committed; with a new draw and nothing failing before it, the commit alone decides |
| TenantScope.StatementsRunUnderTheClaim | apps/api/internal/db/tenant.go:52-110 | in any interleaving on recycled connections every statement of a tenant callback runs under exactly the verified claim's shelter, and every identifier the client supplied agreed with it |
| TenantScope.IdleConnectionsAreClean | apps/api/internal/db/tenant.go:57-110 | a connection back in the pool has no scope and no open transaction, also after a callback error, a failed commit or a panic |
| TenantScope.NoConnectionLeaks | apps/api/internal/db/tenant.go:82-110 | once no request is in progress, every connection left is back in the pool, clean |
| TenantScope.UnsureConnectionIsClosed | apps/api/internal/db/tenant.go:86-107 | a connection whose rollback failed, or whose commit left its state unknown, is neither in the pool nor open any more |
| TenantScope.RefusedRequestsTouchNothing | apps/api/internal/httpapi/middleware_auth.go:95-134 | a refused request never gets a connection and never runs a statement |
| TenantProgram.RequestAgreesOnShelter | apps/api/internal/httpapi/middleware_auth.go:147-173 | true exactly when every non-empty identifier in path, query and header parses to the claimed shelter |
| TenantProgram.ConnectionPool.WithScope | apps/api/internal/db/tenant.go:67-110 | the nil identifier is refused, and so is a request without a claim to a real shelter or with an identifier that contradicts it; otherwise the callback runs at most once, all its statements see its own scope, a panic is passed on, success means committed, the connection is given up in every case, and when nothing fails the result is the callback's own |
| TenantProgram.ConnectionPool.RequireTenant | apps/api/internal/httpapi/middleware_auth.go:108-145 | reaches the pool exactly for a claim naming a real shelter that nothing in the request contradicts; a refusal changes nothing; missing claims and a transaction that could not be opened or committed are the only server errors |
| RecoveryHistory.CodesAreSingleUse | apps/api/internal/auth/recovery.go:172-197 | with codes never reissued, at most one committed redemption accepts a code, in any interleaving with redemptions and regenerations |
| RecoveryHistory.StoredSetIsTheLast | apps/api/internal/auth/recovery.go:116-170 | a committed regeneration leaves the user exactly its codes, all unused, if and only if no other regeneration of that user committed between its DELETE taking its rows and its own commit; otherwise the user has further codes |
| RecoveryHistory.StoredSetOverRun | apps/api/internal/auth/recovery.go:116-170 | in a run in which no regeneration of a user overlaps another, the user's stored codes are at every step exactly those of the last committed regeneration, and none before the first |
| RecoveryHistory.OverlapDecides | apps/api/internal/auth/recovery.go:116-121 | a committed regeneration leaves exactly its codes if and only if none of the same user overtook it |
| RecoveryHistory.AbortedChangesNothing | apps/api/internal/db/auth.go:58-86 | no step of a transaction that was rolled back or never began changed a stored code |
| RecoveryHistory.StoredSetStays | apps/api/internal/auth/recovery.go:181-197 | until the next committed regeneration the user's stored codes stay the same: a redemption removes none |
| RecoveryHistory.OverlapLeavesBothSets | apps/api/internal/db/sqlcgen/auth.sql.go:15-27 | a run in which two overlapping regenerations of one user both commit and both sets are stored |
| RecoveryHistory.EmptySetChangesNothing | apps/api/internal/auth/recovery.go:128-143 | a regeneration with no codes never writes and never commits |
| RecoveryHistory.ScopeIsolation | apps/api/internal/db/migrations/00014_totp_recovery_codes.sql:42-44 | redemptions and regenerations reach no row of another user |
| RecoveryCodes.RunKeepsInv | apps/api/internal/db/sqlcgen/auth.sql.go:238-254 | every reachable state keeps unique code hashes, each transaction's work in step with its phase, and transactions apart |
| RecoveryProgram.NewRecoveryCodes | apps/api/internal/auth/recovery.go:75-95 | draws all ten codes or none; each hash is that of its own plaintext |
| RecoveryProgram.RecoveryDatabase.RegenerateRecoveryCodes | apps/api/internal/auth/recovery.go:122-170 | refuses the empty set before any statement; otherwise deletes and inserts the whole set or fails; with new ids, new codes and nobody else at work it deletes exactly the user's rows and does not fail |
| RecoveryProgram.RecoveryDatabase.RedeemRecoveryCode | apps/api/internal/auth/recovery.go:181-197 | succeeds only when its UPDATE affected a row; undisturbed, exactly when the scope has the code unused |
| RecoveryProgram.RecoveryDatabase.Redeem | apps/api/internal/db/auth.go:43-86 | an accepted code was stored unused for this user right before the commit, and that commit marks that one row used and changes nothing else; undisturbed up to the commit, a code is accepted exactly when it is stored unused and the commit succeeds |
| RecoveryProgram.RecoveryDatabase.WithAuthUser | apps/api/internal/db/auth.go:43-86 | a failing BEGIN, scope, statement or commit is an error, and then no step of the call changed a stored code; success has committed; an undisturbed regeneration leaves the user exactly its codes, unused |
| RefreshCookie.ParseOfFormat | apps/api/internal/auth/session.go:115-165 | parsing what was formatted returns exactly it, when and only when the id has 16 bytes and the secret 32; otherwise the error says which is wrong |
| RefreshCookie.FormattedSymbol | apps/api/internal/auth/session.go:117-121 | the cookie is 66 characters: symbol k < 22 is digit k of sixteen times the id in base 64, then a dot, then the digits of four times the secret, most significant first, in the URL-safe alphabet |
| RefreshCookie.NotTwoPartsIff | apps/api/internal/auth/session.go:130-136 | a value is refused as not two parts exactly when it does not hold one dot |
| RefreshCookie.FormatIsInjective | apps/api/internal/auth/session.go:117-121 | two cookies with the same text have the same owner and the same secret |
| RefreshCookie.AcceptedIsIssuedIffCanonical | apps/api/internal/auth/session.go:129-165 | an accepted value is the one this server issues for its cookie exactly when both halves are spelt canonically |
| RefreshCookie.SecondSpelling | apps/api/internal/auth/session.go:138-143 | setting the spare bits in the last symbol of either half gives another value of the same length and alphabet that is accepted for the same cookie |
| RefreshCookie.SixtyFourSpellings | apps/api/internal/auth/session.go:129-165 | a value without line breaks is accepted for a cookie if and only if it is one of these 64 |
| RefreshCookie.SpellingsDiffer | apps/api/internal/auth/session.go:138-143 | the 64 are 64 different texts |
| RefreshCookie.LineBreakIsSkipped | apps/api/internal/auth/session.go:129-165 | a carriage return or a line feed anywhere in a value changes nothing about what is made of it, not even the error |
| SessionCookie.CookieReturns | apps/api/internal/auth/session.go:115-165 | the printed cookie of a user and a secret presents exactly that user and that secret |
| SessionCookie.CookieToCookie | apps/api/internal/auth/session.go:208-352 | as long as the token a grant minted is live and unexpired, sending its printed cookie back opens the owner's scope and rotates exactly that token, and the answer is again that owner's cookie |
| SessionCookie.GrantedCookieIsUsable | apps/api/internal/auth/session.go:386-398 | right after its commit a granted cookie's token is live and unexpired exactly until the lifetime is over |
| Base64.DecodeOfEncode | apps/api/internal/auth/session.go:117-121 | unpadded base64, of either alphabet, returns every byte sequence it encoded (sections 4 and 5 of RFC 4648) |
| Base64Digits.SymbolIs | apps/api/internal/auth/session.go:58 | the 64 symbols of the URL-safe and of the standard alphabet, written out (tables 1 and 2 of RFC 4648) |
| Base64Digits.SextetsSpell | apps/api/internal/auth/session.go:117-121 | read in base 64, the sextets are the number that the bytes are in base 256, times 16, 4 or 1 for the zero bits at the end |
| Base64Digits.EncodedSymbol | apps/api/internal/auth/session.go:117-121 | n bytes become (4n + 2) / 3 symbols, each the symbol of that digit of the number |
| Base64Digits.DecodesIff | apps/api/internal/auth/session.go:138-154 | a text decodes exactly when it holds symbols and line breaks alone, and not one symbol more than full groups of four |
| Base64.DecodedIsRespelt | apps/api/internal/auth/session.go:138-154 | without line breaks, nothing but spare bits tells two texts of the same bytes apart |
| Base64.OnlyCanonicalIsEncoded | apps/api/internal/auth/session.go:138-154 | of all spellings that decode to the same bytes exactly the one without line breaks and spare bits is the encoder's |
| PhcHash.ReadOfPrint | apps/api/internal/auth/password.go:107-113 | reading a printed hash returns the same costs, salt and key for every setting within bounds, and the right error for every setting out of them |
| PhcHash.VerdictOfText | apps/api/internal/auth/password.go:123-199 | for a text with any algorithm, any version and cost numbers, anything after the costs and anything in place of salt and key: the error of the first thing wrong with it, or whether the key derived with the passes, memory and lanes it names is the stored one |
| PhcHash.PrintedText | apps/api/internal/auth/password.go:107-113 | the stored text, character for character |
| PhcHash.NotSixFieldsIff | apps/api/internal/auth/password.go:147-151 | a text is refused as not six fields exactly when it does not start with a dollar sign or does not hold five |
| PhcHash.HashedVerifies | apps/api/internal/auth/password.go:92-139 | for any key derivation function a freshly hashed password verifies if and only if salt and key length are at most 1024 |
| PhcHash.JudgedByStoredParams | apps/api/internal/auth/password.go:123-139 | any password is judged under the stored string's own costs and salt |
| PhcHash.PrintedAgain | apps/api/internal/auth/password.go:146-199 | an accepted string printed again from what was read reads the same |
| PhcHash.ReadWithTrailer | apps/api/internal/auth/password.go:166-169 | text after the three costs is ignored, so every hash has further spellings |
| PhcHash.AcceptedIsBounded | apps/api/internal/auth/password.go:179-215 | nothing accepted has a zero cost, an empty or oversized component, or a length that is not that of the stored component |
| PhcHash.Parse | apps/api/internal/auth/password.go:146-199 | the field-by-field parser returns what `Read` specifies, with the errors in the source's order |
| PhcHash.HashPasswordWithParams | apps/api/internal/auth/password.go:92-114 | refuses zero settings, fails without entropy, and otherwise returns `$argon2id$v=19$m=…,t=…,p=…$salt$key` with the drawn salt and the key derived from it with those passes, memory and lanes |
| PhcHash.VerifyPassword | apps/api/internal/auth/password.go:123-139 | the parse error, or whether the derived key equals the stored one; the derivation is never called with a cost it panics on |
| Decimal.ScanOfPrint | apps/api/internal/auth/password.go:158-169 | %d reads back what %d printed exactly when it fits the width, whatever non-digit follows |
| Decimal.DigitOfPrint | apps/api/internal/auth/password.go:110-113 | %d prints the decimal digits, most significant first, without a leading zero |
| Decimal.ScanOfDigits | apps/api/internal/auth/password.go:158-169 | %d reads digits, with or without leading zeros, after any space but a line break; an int takes one sign, an unsigned integer none, and both must fit |
| Decimal.ScanNeedsDigits | apps/api/internal/auth/password.go:158-169 | anything else where the digits belong, a line break or the end included, is an error |
| ForwardedFor.Resolver.ClientIP | apps/api/internal/httpapi/clientip.go:71-91 | no answer without a parsable peer; the peer when it is not trusted; otherwise the rightmost entry that is not a trusted address, or the peer when that entry is malformed or there is none |
| ForwardedFor.Resolver.PeerDecides | apps/api/internal/httpapi/clientip.go:71-145 | the host of the peer, without its port if it has one and trimmed, is parsed: there is no answer if that fails, and it is the answer if it is not trusted |
| ForwardedFor.Resolver.RightmostDecides | apps/api/internal/httpapi/clientip.go:80-91 | behind a trusted peer the rightmost entry that is not a trusted address is the answer, the peer if that entry is no address, and the peer if every entry is trusted |
| ForwardedFor.Resolver.IsTrusted | apps/api/internal/httpapi/clientip.go:107-114 | true exactly when some trusted prefix contains the address |
| ForwardedFor.Resolver.AnswerIsUnique | apps/api/internal/httpapi/clientip.go:71-91 | these rules leave every request one answer |
| ForwardedFor.Resolver.AnswerIsUntrusted | apps/api/internal/httpapi/clientip.go:81-90 | an answer other than the peer is an untrusted entry with only trusted addresses to its right |
| ForwardedFor.Resolver.PrefixIsIgnored | apps/api/internal/httpapi/clientip.go:31-35 | prepending entries to a chain with an untrusted or malformed entry changes no answer |
| ForwardedFor.Resolver.PrefixDecides | apps/api/internal/httpapi/clientip.go:81-90 | a chain of trusted addresses alone leaves the answer to what is prepended to it |
| ForwardedFor.Resolver.ForgeryHasNoEffect | apps/api/internal/httpapi/clientip.go:31-50 | no header lines and no text in front of what our own proxies appended change the answer, if that part holds an untrusted or malformed entry |
| ForwardedFor.ForwardedChain | apps/api/internal/httpapi/clientip.go:150-160 | the nested loops collect exactly the non-empty trimmed entries, line by line |
| ForwardedFor.ChainOfSpaced | apps/api/internal/httpapi/clientip.go:150-160 | clean entries come out of one line as they went in, in order, whatever white space stands around each |
| ForwardedFor.ChainOfOneEntry | apps/api/internal/httpapi/clientip.go:150-160 | one entry between spaces and tabs is the chain, and a line of spaces and tabs has none |
| Text.SpacesAre | apps/api/internal/httpapi/clientip.go:140 | white space is the 25 characters of Unicode |
| Text.TrimSpaceOf | apps/api/internal/httpapi/clientip.go:140 | white space around a text, and nothing else, is cut off |
| ForwardedFor.ChainOfJoined | apps/api/internal/httpapi/clientip.go:147-160 | however the list is split over lines, its chain is that of the comma-joined value (section 5.3 of RFC 9110) |
| ForwardedFor.Resolver.LinesAreOneList | apps/api/internal/httpapi/clientip.go:147-149 | splitting the list over header lines changes no answer |
| ForwardedFor.RejoinedChain | apps/api/internal/httpapi/clientip.go:150-160 | joining the chain with commas and taking it apart again gives the same chain |
| Totp.VerifyTotp | apps/api/internal/auth/totp.go:112-135 | accepts exactly the codes of the three adjacent steps, and nothing for a secret that is not 20 bytes |
| Totp.CodeIsSixDigits | apps/api/internal/auth/totp.go:158-181 | every code is six digits that spell the truncated digest modulo a million |
| Totp.CodeOfDigest | apps/api/internal/auth/totp.go:174-180 | the code spells, modulo a million, the four bytes from the offset in the low four bits of the digest's last byte on, as one big-endian word without its top bit (section 5.3 of RFC 4226) |
| Totp.CounterByte | apps/api/internal/auth/totp.go:159-168 | the eight bytes hashed are those of the step modulo 2^64, most significant first |
| Totp.StepIs | apps/api/internal/auth/totp.go:123 | a step is thirty seconds long, counted toward the epoch from either side |
| Totp.FreshCodeIsAccepted | apps/api/internal/auth/totp.go:41-51 | a code made at g is accepted at every t within 30 seconds of it, before, after and across the epoch |
| Totp.WindowOf | apps/api/internal/auth/totp.go:123-132 | for every instant before, at and after the epoch, exactly which instants the window of a code covers |
| Totp.WindowIsNinetySeconds | apps/api/internal/auth/totp.go:123-132 | from the epoch on, a step is in the window for exactly the ninety seconds around it |
| Totp.EpochStepIsLonger | apps/api/internal/auth/totp.go:123 | truncating division gives the step at the epoch the 59 seconds around it |
| Totp.CounterIsInjective | apps/api/internal/auth/totp.go:159-168 | wrapping a step into 64 unsigned bits never gives it another step's counter |
| Totp.TotpCode | apps/api/internal/auth/totp.go:158-181 | computes the specified code with all slices in bounds (section 5.3 of RFC 4226) |
| Totp.Pow10 | apps/api/internal/auth/totp.go:183-192 | the wrapping loop returns the power modulo 2^32 |
| Totp.IsTotpCode | apps/api/internal/auth/totp.go:143-154 | true exactly for six ASCII digits |
| Catalog.Classification.Validate | apps/api/internal/db/rlstest/catalog.go:206-301 | reports exactly the problems of the declaration, each as often and in the order the source lists them, and none exactly when the declaration is consistent |
| Catalog.NothingWrongIffConsistent | apps/api/internal/db/rlstest/catalog.go:206-211 | nothing is wrong if and only if the three sets partition their names, the subsets are subsets, and nothing is listed twice or both policy-free and gaining a policy |
| Catalog.ComplaintFindings | apps/api/internal/db/rlstest/catalog.go:212-239 | a name is reported as listed twice exactly for the first set that lists it when that set repeats it, and as declared in both exactly for that set and any later one |
| Catalog.Classification.CheckHomes | apps/api/internal/db/rlstest/catalog.go:212-239 | complains about every listing after the first of its name, against the set of that first one, in order |
| Catalog.Classification.ClassifyAll | apps/api/internal/db/rlstest/catalog.go:303-324 | reports exactly the existing relations that no set declares, sorted, and none exactly when all are declared |
| Catalog.Classification.CheckPending | apps/api/internal/db/rlstest/catalog.go:326-353 | reports exactly the pending tables that exist, then the model tables that neither exist nor are pending, each in sorted order |
| Catalog.FindingsAreWrong | apps/api/internal/db/rlstest/catalog.go:206-301 | the list Validate makes holds everything that is wrong with the declaration, and nothing else |
| Catalog.Classification.ModelTables | apps/api/internal/db/rlstest/catalog.go:190-199 | every tenant and non-tenant model table as often as it is declared, and nothing else, in sorted order |
| SortedNames.SortedKeys | apps/api/internal/db/rlstest/catalog.go:495-503 | every key once, in order, whatever order the map yields them in |
| SortedNames.SortedIsUnique | apps/api/internal/db/rlstest/catalog.go:192-199 | there is one sorted list of given names |
| SortedNames.BelowIsLexical | apps/api/internal/db/rlstest/catalog.go:192-199 | names are ordered by the first character they differ in, and a prefix comes first |
| Catalog.SchemaIsAsDeclared | apps/api/internal/db/rlstest/catalog.go:303-353 | for a consistent declaration the two schema checks find nothing if and only if the existing model tables are the declared ones less the pending ones and every relation lies in exactly one set |
| Catalog.Duplicates | apps/api/internal/db/rlstest/catalog.go:482-493 | returns every name that was listed before, in the order and as often as it is listed again |
| Catalog.RepeatsAreRepeated | apps/api/internal/db/rlstest/catalog.go:482-493 | these are exactly the names listed more than once |

## Left out

- Cryptography: SHA-256, HMAC, Argon2id, AES-GCM and constant-time behaviour are not modelled; tokens, the envelope, CORS and CSRF are short decision tables or calls into libraries.
- PostgreSQL beyond the listed statements: ON DELETE CASCADE, the foreign key lock on users, deadlock detection, statement order within one snapshot, and the wall-clock values of revoked_at and used_at.
- Health checks, routing, configuration, email, bootstrap and the remaining generated queries: wiring and row scanning.
- The text of error messages: a problem of the catalog carries the names and sets the message would quote.
- CheckProtection and CheckProtectionAt: three independent conditions that one reading settles.
- TOTPURI, base32 and the Middleware that stores the client address: formatting and wiring.
- ForwardedFor.Resolver.ClientIP: address syntax, zones, unmapping and host:port splitting are arbitrary functions.
