# What the template keeps: seven protocols, modelled and proved

A Dafny model of the parts of a Go web template whose correctness is a statement about whole runs rather
than about one function:

| area | modules |
|---|---|
| the request timeout: a handler and the middleware that may give up on it | `TimeoutWriter`, `TimeoutProtocol` |
| per-client token buckets, forgotten when idle | `RateLimit`, `RateLimitRuns` |
| role permissions carried in tokens, and the in-memory registry that revokes them | `Registry`, `Roles`, `Access`, `AccessRuns`, `AccessLaws`, `AccessRaces` |
| single-use links for verification and password reset | `Base64`, `LinkToken`, `Redeem`, `RedeemRuns` |
| one sign-in field over two unique columns | `SignIn`, `SignInRules`, `SignInRuns` |
| the migration runner, crashed and restarted at any point | `Migrations`, `MigrationRuns` |
| the mail encoder, undone by a multipart reader | `Mime`, `MimeProofs`, `MailEncoder` |

`Wrappers` holds shared datatypes, among them the faults a database may inflict on a call, and `Sets` facts
about finite sets.

Every area has the same shape. What the program updates in place is a class whose methods (loops
included) are proved equal to a function of the old state. A state machine over those same functions
interleaves the steps the program interleaves: a locked method, a channel operation, one SQL statement
or one transaction is one step. The properties are lemmas about every run, or about every input, of that
machine. A run of a state machine is a sequence of events; where an event can be disabled, `Run` is
`None` for a sequence that takes one that is.

What the model does not compute is a parameter. JSON, HMAC and fingerprints (`LinkToken.Crypto`) are
functions, assumed to round-trip and to be injective only where a lemma's `requires` says so; the same
goes for lower-casing and white space (`SignIn.Folding`), for encoded words and address parsing
(`Mime.Library`), for random octets, and for every clock reading. A database fault is an argument (a refused
statement, or a write whose answer is lost), so the error paths are part of the contracts. Strings are sequences of characters as Go's runes are; bodies,
payloads and signatures are sequences of octets.

Three findings about the source are stated exactly; the model follows the code.

* The limiter's comment that forgetting an idle bucket loses nothing
  (`internal/shared/middleware/rate_limit.go:42-43`) holds of a configuration if and only if
  limit x 600 s >= burst, which the configuration loader does not enforce
  (`RateLimitRuns.ForgettingIsHarmlessIff`); under the same condition, and no other, is the rate kept over
  every window (`RateLimitRuns.RateHoldsIff`). `Retry-After` rounds down, so a client that obeys it is
  admitted only if the wait was at most one second or whole (`RateLimit.RetryAfterRoundsDown`).
* The permission seeder's comment promises that a revoked default grant is not restored by a restart
  (`internal/modules/roles/seeds/permission_seeder.go:28-29`); the insert at line 84 restores it, without
  a new version (`AccessRuns.SeedingEffect`, `AccessRuns.RemovedDefaultComesBack`). Tokens and tables then
  disagree exactly when a default grant was missing behind a live token
  (`AccessRuns.ReseedingIsHarmlessIff`), and always on the safe side (`AccessRuns.GateFailsSafe`).
* The registry is only told of an update that reports success, so a commit whose answer is lost leaves it
  behind until the next success or boot (`AccessRuns.ShownUnlessUnheard`), with the gate open to what was
  removed (`AccessRuns.UnheardRemovalStaysOpen`). And the resolver reads the registry under three separate
  locks: a token's grants are those of its version if and only if nothing different was published between
  the last two reads (`AccessRaces.TokenIsExactIff`), so it can carry old grants under a new version
  (`AccessRaces.ReadsCanStraddleAnUpdate`) and, when updates to one role overlap, grants newer than its
  version (`AccessRaces.OverlapCanRunAhead`).

Two more comments say less or more than the code does. The verifier of link tokens classifies an expired
token apart from every other failure (`internal/shared/crypt/token.go:116-118` against line 161), and a
message without HTML has one part, not two (`internal/shared/mail/message.go:38-39` against line 92).

## Model

| member | source | states |
|---|---|---|
| TimeoutWriter.TimeoutWriter.Write | internal/shared/middleware/timeout.go:175-186 | Appends to the buffer; after a timeout, discards and still reports the whole length as written |
| TimeoutWriter.TimeoutWriter.WriteHeader | internal/shared/middleware/timeout.go:194-202 | Replaces the pending status, unless timed out |
| TimeoutWriter.TimeoutWriter.Flush | internal/shared/middleware/timeout.go:232-254 | The real writer gets every buffered header value, one status line with the headers then in force, and the buffer; nothing at all if timed out or already flushed |
| TimeoutWriter.TimeoutWriter.CopyHeaders | internal/shared/middleware/timeout.go:241-248 | Whatever order the header map is walked in, every value of every key is appended to the real writer's headers |
| TimeoutWriter.TimeoutWriter.AddValues | internal/shared/middleware/timeout.go:244-248 | One Add per value merges a whole header key into the real writer's headers |
| TimeoutWriter.TimeoutWriter.Timeout | internal/shared/middleware/timeout.go:261-294 | Marks and empties the buffer and sends one 504 with the JSON type and the timeout body, unless flushed |
| TimeoutWriter.BufferHoldsWholeResponse | internal/shared/middleware/timeout.go:166-202 | After any operations the buffer holds the last status set, all writes in order, and for each header exactly what was added since its last Set or Del |
| TimeoutWriter.TimedOutBufferIsInert | internal/shared/middleware/timeout.go:179-201 | After a timeout no sequence of operations changes the body, the status or the flags |
| TimeoutWriter.MergedOneMore | internal/shared/middleware/timeout.go:243-248 | Header keys can be merged one at a time: merging what was walked and then a new key is merging both |
| TimeoutProtocol.ExactlyOneResponse | internal/shared/middleware/timeout.go:88-140 | In every interleaving that ends, the client got the handler's whole response, or one 504 with only the timeout body, or nothing and the panic was re-raised with the real writer restored; Status() is the status sent |
| TimeoutProtocol.NeverTwoStatuses | internal/shared/middleware/timeout.go:230-294 | At no moment of any run are two statuses on the wire, or body bytes before a status, and nothing is sent before the select is decided |
| TimeoutProtocol.DoneBeforeTimeout | internal/shared/middleware/timeout.go:122-123 | A 504 is only prepared after the context was done |
| TimeoutProtocol.HandlerHasLeft | internal/shared/middleware/timeout.go:91-127 | The middleware never returns or re-panics before the handler has run out and closed `finished` |
| TimeoutProtocol.PanicNeverLost | internal/shared/middleware/timeout.go:95-139 | A handler's panic is re-raised or logged, exactly once in all; without a panic neither happens |
| TimeoutProtocol.FlushedBranchUnreachable | internal/shared/middleware/timeout.go:264-269 | The early return of `timeout` is never taken |
| TimeoutProtocol.WrittenMeans | internal/shared/middleware/timeout.go:223-228 | Over every run: Written() is true exactly when the response was flushed or the handler has written a byte, and false after a timeout although a 504 is sent |
| TimeoutProtocol.RunKeepsInv | internal/shared/middleware/timeout.go:88-140 | The invariant tying handler, channels, middleware, buffer and wire holds in every reachable state |
| TimeoutProtocol.NoDeadlock | internal/shared/middleware/timeout.go:91-140 | Until the middleware is done, one of the two goroutines can move without the clock |
| TimeoutProtocol.StepDecreases | internal/shared/middleware/timeout.go:91-140 | Every step lowers the measure over remaining operations and phases |
| TimeoutProtocol.RunsEnd | internal/shared/middleware/timeout.go:91-140 | No run is longer than the measure of the state it starts from |
| TimeoutProtocol.AlwaysCanEnd | internal/shared/middleware/timeout.go:91-140 | Every run can be continued to one in which the middleware is done |
| TimeoutProtocol.BothReadyEitherWins | internal/shared/middleware/timeout.go:106-122 | With both channels ready the select may take either, and both outcomes are then reachable |
| RateLimit.LimiterStore.Allow | internal/shared/middleware/rate_limit.go:76-103 | Creates or finds the key's bucket, reserves, and cancels a reservation that must wait; every other bucket is untouched |
| RateLimit.LimiterStore.Sweep | internal/shared/middleware/rate_limit.go:106-123 | The loop drops exactly the buckets last seen before the cutoff |
| RateLimit.LimiterStore.Enforce | internal/shared/middleware/rate_limit.go:169-195 | Probes pass and touch nothing; any other request is decided by Allow, and a refusal carries the whole seconds of the wait, at least one |
| RateLimit.LevelGrows | internal/shared/middleware/rate_limit.go:92-102 | A bucket's level only rises with time, and at most at the limit |
| RateLimit.AskLevel | internal/shared/middleware/rate_limit.go:92-102 | A request is admitted exactly when a whole token is there and takes one; refused, it takes none and the wait is the time the missing part needs |
| RateLimit.AskDependsOnLevel | internal/shared/middleware/rate_limit.go:92-102 | Buckets that hold the same level now answer alike and are the same from then on |
| RateLimit.RefusalLeavesNoTrace | internal/shared/middleware/rate_limit.go:89-101 | After a refusal the bucket is, at every later time, as if never asked |
| RateLimit.NoBurstNoEntry | internal/shared/middleware/rate_limit.go:92-95 | A bucket that can hold no token refuses everybody, with Retry-After one |
| RateLimit.WaitIsExact | internal/shared/middleware/rate_limit.go:97-101 | Left alone, the bucket admits a request at every time from now + wait on, and at none before |
| RateLimit.RetryAfterRoundsDown | internal/shared/middleware/rate_limit.go:186-192 | Retry-After is one for a wait of up to a second and otherwise falls short of it by less than one; obeying it succeeds exactly when the wait was at most a second or whole |
| RateLimitRuns.EvictionLosesNothing | internal/shared/middleware/rate_limit.go:29-123 | If the idle time refills the burst, in every run the evicting store gives each request the decision and wait of the client's own never-evicted bucket |
| RateLimitRuns.EvictionCanForgive | internal/shared/middleware/rate_limit.go:42-43 | If it does not, there is a run of one client and one sweep in which the store admits what the client's own bucket refuses |
| RateLimitRuns.ForgettingIsHarmlessIff | internal/shared/middleware/rate_limit.go:42-43 | The comment's claim, over all runs, holds of a configuration if and only if limit x 600 s >= burst |
| RateLimitRuns.AdmissionsSpendLevel | internal/shared/middleware/rate_limit.go:76-123 | What a client has left plus what it was admitted never exceeds what it had plus what was refilled |
| RateLimitRuns.WindowBound | internal/shared/middleware/rate_limit.go:76-123 | In any window of any run, across evictions and re-creations, at most burst + limit x length of a client's requests are admitted |
| RateLimitRuns.WindowCanOverflow | internal/shared/middleware/rate_limit.go:105-123 | If the idle time does not refill the burst, a forgotten client is admitted twice its burst in a window that refills less than one |
| RateLimitRuns.RateHoldsIff | internal/shared/middleware/rate_limit.go:29-123 | The bound holds of every window of every run if and only if limit x 600 s >= burst |
| RateLimitRuns.RefusedClientComesBack | internal/shared/middleware/rate_limit.go:97-123 | In the store, whatever other clients and the sweeper do in between, a refused client's next request is admitted exactly from its wait on |
| Registry.PermissionRegistry.Replace | internal/modules/roles/domain/registry.go:84-120 | The loops leave exactly the snapshot's roles, each with its own grants; grants of unknown roles are skipped |
| Registry.PermissionRegistry.Permissions | internal/modules/roles/domain/registry.go:127-137 | The role's grants, or none for an unknown role |
| Registry.PermissionRegistry.Version | internal/modules/roles/domain/registry.go:144-148 | The role's version, or zero for an unknown role |
| Registry.PermissionRegistry.Level | internal/modules/roles/domain/registry.go:151-159 | The role's level, and whether it is known |
| Registry.PermissionRegistry.SetRole | internal/modules/roles/domain/registry.go:165-178 | One role's level, version and grants change together, nothing else |
| Registry.PermissionRegistry.Suspend | internal/modules/roles/domain/registry.go:192-196 | Adds one user to the suspended set |
| Registry.PermissionRegistry.Restore | internal/modules/roles/domain/registry.go:199-203 | Removes one user from the suspended set |
| Registry.PermissionRegistry.IsSuspended | internal/modules/roles/domain/registry.go:182-188 | Membership in the suspended set |
| Registry.BuildRoles | internal/modules/roles/domain/registry.go:85-95 | The first loop gives every role an empty grant set, its version and its level; a repeated id keeps its last row |
| Registry.AddGrants | internal/modules/roles/domain/registry.go:97-105 | The second loop gives each known role exactly its own slugs, whatever the order of the rows |
| Roles.Dedupe | internal/modules/roles/service/role_service.go:176-189 | The loop over a seen set keeps the distinct, non-empty values in first-occurrence order |
| Roles.DedupedIsDistinct | internal/modules/roles/service/role_service.go:176-189 | The result has no repeats and is, as a set, the input without the empty string |
| Roles.IdCount | internal/modules/roles/infra/role_repository.go:87-93 | Given unique slugs, the number of ids the query returns is the number of distinct requested slugs that exist |
| Roles.CountTestIsExact | internal/modules/roles/infra/role_repository.go:94-99 | Comparing the two counts accepts exactly the lists without repeats whose every slug exists |
| Roles.ReplaceGrantsAllOrNothing | internal/modules/roles/infra/role_repository.go:78-146 | Deduplicate-then-replace succeeds exactly when every distinct non-empty slug exists; the role then holds exactly those, its version rises by one, and no other role, permission or user changes |
| Roles.Database.ReplaceGrants | internal/modules/roles/infra/role_repository.go:78-146 | The transaction under any fault: rows and answer are exactly the specified ones, including which error, which statements are reached, and a commit whose answer is lost |
| Roles.Database.Snapshot | internal/modules/roles/infra/role_repository.go:149-192 | The three queries return exactly the roles, the joined grants and the suspended users, in any order; an error exactly if one is refused |
| Roles.Database.SaveUser | internal/modules/users/infra/user_repository.go:46-52 | Writes one whole row, or nothing when refused, or all of it though the answer is lost |
| Roles.SnapshotLoadsTheTables | internal/modules/roles/domain/registry.go:84-120 | A registry loaded from any such snapshot is the tables' own view |
| Access.RoleService.UpdatePermissions | internal/modules/roles/service/role_service.go:100-136 | Rows, registry and answer under any fault are exactly the specified ones, errors in the source's order; the registry is only told after a success |
| Access.UpdateOutcomes | internal/modules/roles/service/role_service.go:105-127 | Three outcomes: success and both moved; an error and neither moved; or a lost answer and only the rows moved. Without a fault it succeeds exactly when the update is possible and names the reason if not |
| Access.RoleService.WarmUp | internal/modules/roles/service/role_service.go:145-162 | On success the registry is the tables' view; a refused query is an error and leaves it as it was |
| Access.UserService.UpdateStatus | internal/modules/users/service/user_service.go:191-222 | Row, suspended set and answer under any fault are exactly the specified ones, whose meaning AccessLaws.StatusVerdict gives |
| AccessRuns.RegistryIsTheTablesView | internal/modules/roles/service/role_service.go:100-162 | After the warm-up and any service calls, refused statements, lost answers, crashes and restarts, the registry is what a fresh warm-up would load if and only if no role and no user is left with a commit that went unheard |
| AccessRuns.ShownUnlessUnheard | internal/modules/roles/service/role_service.go:105-127 | Per role and per user: the registry shows what the tables say exactly unless the last commit on it since the last boot went unheard; the next success or boot repairs it |
| AccessRuns.PublishedUpdate | internal/modules/roles/service/role_service.go:120-127 | An update that is committed and published leaves its role shown and every other role as it was |
| AccessRuns.UnheardUpdate | internal/modules/roles/service/role_service.go:120-124 | One that is committed and unheard leaves its role, and only it, not shown |
| AccessRuns.RunKeepsTokens | internal/modules/roles/service/role_resolver.go:40-55 | In every run every issued token names an existing role at its level, is never ahead of it, and at the role's version carries no grant the role lacks; exactly its grants if no restart seeded one |
| AccessRuns.AcceptedIsCurrentIff | internal/modules/roles/service/registry_guard.go:37-51 | A token the guard accepts is at its role's current version if and only if the role's last commit was heard |
| AccessRuns.TokenRefinesDatabase | internal/shared/middleware/authorize.go:38-68 | Unless a commit on its role or user went unheard, and with restarts that seed no grant: the guard accepts exactly the tokens of unsuspended users at their role's current version, and those get from the gate exactly the answer the tables give |
| AccessRuns.GateFailsSafe | internal/shared/middleware/authorize.go:38-68 | Whatever restarts seed: what the gate lets an accepted token through to, the tables allow |
| AccessRuns.UnheardRemovalStaysOpen | internal/modules/roles/service/role_service.go:120-126 | The commit must have been heard: after a removal whose answer is lost, an accepted token is let through to what the tables no longer allow |
| AccessLaws.StatusVerdict | internal/modules/users/service/user_service.go:196-219 | "suspended", "active" and "inactive" each set their own status on that one row, and only the first puts the user in the suspended set; any other word is a validation error and changes nothing; every error and every fault is placed |
| AccessLaws.SuspensionTakesHold | internal/modules/users/service/user_service.go:209-219 | A heard "suspended" leaves the row suspended and every token of the user refused, and nobody else's |
| AccessLaws.SuspensionEndsIff | internal/modules/roles/domain/registry.go:192-203 | At any step the registry lets a suspended user go if and only if a heard change to "active" or "inactive" or a boot over a row no longer suspended lifts it |
| AccessLaws.SuspendedIsRefused | internal/modules/roles/service/registry_guard.go:37-41 | From a suspension on, in every continuation, every token of the user is refused until the suspension is lifted |
| AccessLaws.OnlyAWordReinstates | internal/modules/auth/service/auth_service.go:290-307 | Without an administrator's word there is no way back in, whatever links are followed and however often the process boots |
| AccessLaws.ReinstatedSignsIn | internal/modules/users/service/user_service.go:209-219 | A heard "active" lets the account's next sign-in mint a token of its own that the guard accepts, when its role is known |
| AccessLaws.SignInMints | internal/modules/auth/service/auth_service.go:192-241 | A sign-in mints exactly one token, for an active account with a known role, with that user, role, level, grants and version; otherwise none |
| AccessLaws.LinksActivate | internal/modules/auth/service/auth_service.go:293-307 | A followed link verifies the address and activates an inactive account, and reinstates nobody |
| AccessLaws.NoTokenBeforeActivation | internal/modules/auth/service/auth_service.go:133-141 | In every run, an account that nothing has activated has no token |
| AccessLaws.VerifiedSignsIn | internal/modules/auth/service/auth_service.go:276-310 | Registering, following the link and signing in yields a token for the default role |
| AccessLaws.GateVerdict | internal/shared/middleware/authorize.go:38-68 | No claims are Unauthorized; with claims the gate opens exactly for a bypassing level, or a high enough one that holds the slug |
| AccessLaws.UpdateVerdict | internal/modules/roles/service/role_service.go:107-116 | An update is possible exactly for a known, non-bypassing role and slugs that all exist; NotFound exactly for an unknown role |
| AccessLaws.RefusalsRollBack | internal/modules/roles/infra/role_repository.go:85-134 | Any statement of the transaction that is refused leaves every row as it was and is an error |
| AccessLaws.SeedingInserts | internal/modules/roles/seeds/permission_seeder.go:30-84 | A boot inserts the missing roles, permissions and administrators as defined and leaves every row that is there |
| AccessRuns.SeedingEffect | internal/modules/roles/seeds/permission_seeder.go:28-84 | A boot adds to each role exactly its default grants whose slug exists, removed ones included, and moves no version, against the comment |
| AccessRuns.ReseedingIsHarmlessIff | internal/modules/roles/seeds/permission_seeder.go:59-84 | Live tokens agree with the tables after a seeding boot if and only if they did before it and every default grant of a role behind a gated live token was in place already |
| AccessRuns.RunsCanBeReseeded | internal/modules/roles/seeds/permission_seeder.go:59-84 | Every reachable state, harmful boots behind it or not, meets what that result asks of its tokens and grant rows |
| AccessRuns.EmptiedRoleSignsIn | internal/modules/roles/service/role_service.go:100-136 | Removing all of a role's grants and signing in mints a token with none, one version up |
| AccessRuns.RemovedDefaultComesBack | internal/modules/roles/seeds/permission_seeder.go:84 | For every default grant there is a run (remove, sign in, restart) after which a live token is refused what the tables grant |
| AccessRaces.RegistryPairsWereCommitted | internal/modules/roles/service/role_service.go:105-127 | In every interleaving the version and grants the registry shows for a role are a pair one transaction committed, never newer than the table |
| AccessRaces.RunKeepsInv | internal/modules/roles/domain/registry.go:127-178 | The invariant over history, updates in flight, registry, reads and tokens holds in every reachable state |
| AccessRaces.UndisturbedTokenIsExact | internal/modules/roles/service/role_resolver.go:40-55 | If no update of the role is published between the second read and the third, the token carries the grants committed with its version, and the role's own while that version is current |
| AccessRaces.TokenIsExactIff | internal/modules/roles/service/role_resolver.go:40-55 | A minted token carries the grants committed with its version if and only if the registry still showed, at the third read, the grants the second saw; and that stays so in every continuation |
| AccessRaces.CommittedStays | internal/modules/roles/infra/role_repository.go:122-134 | No commit ever writes a (role, version) a second time |
| AccessRaces.RegistryIsBehindIff | internal/modules/roles/service/role_service.go:120-127 | With no overlapping updates to the role and no lost answer, the registry is behind the table exactly while one of its updates has committed and not yet published; otherwise version, level and grants are the table's |
| AccessRaces.TokenIsNeverAhead | internal/modules/roles/service/role_resolver.go:40-55 | When updates to the role do not overlap, a token's grants were committed at some version no later than its own, however the reads fell |
| AccessRaces.ReadsCanStraddleAnUpdate | internal/modules/roles/service/role_resolver.go:40-55 | That is the most one can have: an accepted token can carry a role's former grants under its new version |
| AccessRaces.OverlapCanRunAhead | internal/modules/roles/service/role_service.go:105-127 | And the hypothesis is needed: overlapping updates can leave the registry behind the table for good, and a token with grants no version up to its own had |
| Base64.UnpackUndoesPack | internal/shared/crypt/token.go:101-103 | Regrouping octets into six-bit pieces is undone by regrouping them back, whatever the length |
| Base64.EncodeUrlChars | internal/shared/crypt/token.go:101-103 | The unpadded URL alphabet emits no separator and no line break |
| Base64.DecodeUrlUndoesEncode | internal/shared/crypt/token.go:126-136 | Decoding the URL encoding of any octets gives them back |
| Base64.DecodeUrlExistsIff | internal/shared/crypt/token.go:128-139 | Nothing else decodes: every character but line breaks is in the alphabet and none is left over |
| Base64.DecodeStandardUndoesEncode | internal/shared/mail/message.go:118-132 | However a padded encoding is folded with line breaks, decoding gives the octets back |
| Base64.LineBreaksAreIgnored | internal/shared/crypt/token.go:126-136 | A line break anywhere in an encoding does not change what it decodes to |
| LinkToken.CutAtFirstDot | internal/shared/crypt/token.go:122-124 | The separator found is the first one |
| LinkToken.CutSplits | internal/shared/crypt/token.go:122-124 | Cutting fails exactly without a separator, and otherwise loses nothing |
| LinkToken.VerifyIssuedToken | internal/shared/crypt/token.go:77-165 | An issued token is accepted, with the subject, purpose, nonce and times it was asked for, exactly for its purpose, a subject that is not nil, and before expiry; expired is Gone, the rest Invalid |
| LinkToken.VerdictIff | internal/shared/crypt/token.go:119-165 | Of any text at all: accepted with a payload exactly if it carries, before its first dot, bytes that parse to that payload and, after it, those bytes' own signature, for this purpose and a subject, unexpired; Gone exactly if so but expired |
| LinkToken.AcceptedIsSigned | internal/shared/crypt/token.go:141-146 | What is accepted carries the signature of what it carries |
| LinkToken.ForgedIsInvalid | internal/shared/crypt/token.go:141-146 | Any bytes with any signature but their own are Invalid for every purpose and time |
| LinkToken.LinkLifetime | internal/shared/crypt/token.go:50-52 | Keeping whole seconds never lengthens a link's life and shortens it by less than one |
| LinkToken.LineBreaksDoNotChangeTheVerdict | internal/shared/crypt/token.go:119-165 | A token has other spellings the verifier treats alike |
| Redeem.VerificationTokenRepository.Create | internal/modules/users/infra/verification_token_repository.go:31-37 | Inserts unless the id or the fingerprint is taken or the database refuses, reports success exactly when the row is there and the answer came, and keeps fingerprints unique |
| Redeem.VerificationTokenRepository.FindByFingerprint | internal/modules/users/infra/verification_token_repository.go:40-55 | A row with that fingerprint, none exactly when there is none, or an error exactly when refused |
| Redeem.VerificationTokenRepository.Consume | internal/modules/users/infra/verification_token_repository.go:65-79 | Claims exactly when the row is unredeemed, and changes only its timestamp; a lost answer is an error though the row is spent |
| Redeem.VerificationTokenRepository.InvalidateOutstanding | internal/modules/users/infra/verification_token_repository.go:83-97 | Stamps exactly the user's unredeemed rows of that purpose; every other row stays as it is, and all of them when refused |
| Redeem.StatementsAreExact | internal/modules/users/infra/verification_token_repository.go:31-97 | Row by row, what the insert, the conditional update and the retiring update change, and that they change nothing else |
| Redeem.AuthService.IssueLinkToken | internal/modules/auth/service/auth_service.go:470-496 | A token is handed out exactly when there was a nonce, the insert was possible and the database did it and said so; it is then recorded by fingerprint, unredeemed |
| Redeem.AuthService.RequestPasswordReset | internal/modules/auth/service/auth_service.go:318-354 | Silent and without effect for an unknown or suspended account; otherwise a link handed out is the account's only live one; every row but the account's own live reset links and the new one stays as it is |
| Redeem.RecordingNamesItsToken | internal/modules/auth/service/auth_service.go:479-489 | The row recorded with an issued token names it, for its own user and purpose, until the token's own expiry |
| Redeem.AuthService.ConsumeToken | internal/modules/auth/service/auth_service.go:435-466 | Every outcome: what does not verify is refused as it deserves, what no row names is Invalid, a refused look-up or claim and a lost answer are errors, and the one row that names the token is spent, successfully if it was unredeemed and Gone if not |
| RedeemRuns.ConsumptionIsFinal | internal/modules/users/infra/verification_token_repository.go:65-97 | In every run rows are never removed, re-addressed or un-consumed, and claims are never forgotten |
| RedeemRuns.LinksAreSingleUse | internal/modules/auth/service/auth_service.go:435-466 | In every interleaving of redeems and resets each row is claimed once, sets a password at most once, and is claimed only with the very text issued, for its purpose and account |
| RedeemRuns.TokenClaimedOnce | internal/modules/auth/service/auth_service.go:443-466 | Two claims with one token text are one claim |
| RedeemRuns.LiveLinkRedeems | internal/modules/auth/service/auth_service.go:435-466 | In every reachable state whoever presents an unredeemed, unexpired link can verify, find and claim it, in the name of the account it was issued for |
| RedeemRuns.SpentOnlyByItsOwn | internal/modules/users/infra/verification_token_repository.go:65-97 | Over every run a live row is spent if and only if a request claimed that row or its own user asked for a reset of a reset row; until then it does not change at all |
| RedeemRuns.RunKeepsUniqueFingerprints | internal/modules/users/infra/verification_token_repository.go:31-37 | Fingerprints stay unique in every reachable table |
| RedeemRuns.ResetSupersedes | internal/modules/auth/service/auth_service.go:342-354 | Every reset link present when its user asks for another is dead in all later states, and nobody claims it after |
| RedeemRuns.LiveResetsBounded | internal/modules/auth/service/auth_service.go:318-375 | With at most n of a user's reset requests between retiring and recording, the user has at most n unredeemed reset links |
| RedeemRuns.OverlappingResetsLeaveTwo | internal/modules/auth/service/auth_service.go:342-354 | Two overlapping requests do leave two |
| SignIn.NormalizeTwice | internal/modules/users/domain/user_model.go:115-122 | A normal form is its own normal form |
| SignIn.LookAlikeRuleIsImplied | internal/modules/users/domain/user_rules.go:36-73 | A username is accepted exactly when its length is in bounds and every character is on the allow-list: the look-alike rule only names the reason |
| SignInRules.UsernameVerdict | internal/modules/users/domain/user_rules.go:55-73 | Accepted or which error, from the characters: length, then an address, then the alphabet |
| SignInRules.EmailVerdict | internal/modules/users/domain/user_rules.go:51-86 | Accepted or which error: three plain texts around an '@' and a '.', the last of two characters or more, 255 in all |
| SignInRules.PasswordVerdict | internal/modules/users/domain/user_rules.go:95-110 | Accepted or which error: eight characters, 72 bytes of UTF-8, and one character that is not white space |
| SignInRules.NameVerdict | internal/modules/users/domain/user_rules.go:113-124 | Accepted or which error: what is left between white space is not empty and at most 100 characters |
| SignInRules.NormalFormIff | internal/modules/users/domain/user_model.go:115-122 | A text normalises to a stored identifier exactly if it is white space, the stored characters up to their case, and white space |
| SignInRules.NormalFormIsFixed | internal/modules/users/domain/user_model.go:115-122 | A normal form is trimmed and in lower case, and what was typed is a spelling of it |
| SignInRules.RegisteredRow | internal/modules/auth/service/auth_service.go:133-146 | A registration that succeeds adds exactly the row asked for: identifiers in stored form, the hash, the names as given |
| SignInRules.ChangedRow | internal/modules/users/service/user_service.go:93-135 | A profile change that succeeds writes what was asked for and leaves the other columns and rows |
| SignInRules.ChangeSucceedsIff | internal/modules/users/service/user_service.go:93-135 | With the database sound it succeeds exactly when the names are acceptable and the indexes take the row |
| SignInRules.FaultsNeverHalfWrite | internal/modules/users/infra/user_repository.go:32-52 | Under any fault a call changes nothing or what it changes without one, and a success is a success without one |
| SignIn.UsernameIsNoEmail | internal/modules/users/domain/user_rules.go:55-86 | No string is both an acceptable username and an acceptable email |
| SignIn.UserRepository.Create | internal/modules/users/infra/user_repository.go:32-38 | Inserts, or a conflict exactly when an index refuses, or an error; both columns stay unique |
| SignIn.UserRepository.Update | internal/modules/users/infra/user_repository.go:46-52 | Saves the whole row, or a conflict exactly when an index refuses, or an error; both columns stay unique |
| SignIn.UserRepository.FindByIdentifier | internal/modules/users/infra/user_repository.go:82-122 | The first row whose email or username is the normal form, none exactly when no row is |
| SignIn.UserRepository.FindByUsername | internal/modules/users/infra/user_repository.go:73-75 | A row with that normalised username, none exactly when there is none |
| SignIn.UserRepository.FindByEmail | internal/modules/users/infra/user_repository.go:68-70 | A row with that normalised email, none exactly when there is none |
| SignIn.AccountService.Register | internal/modules/auth/service/auth_service.go:79-146 | Table and answer under any fault are exactly the specified ones: username, email, password and name rules in order, the look-ups naming the taken column, the hash, the insert |
| SignIn.LookUpsOnlyNameTheConflict | internal/modules/auth/service/auth_service.go:105-125 | With the database sound a registration succeeds exactly when the rules hold and the unique indexes take the row; the look-ups only choose which conflict to name, the email first |
| SignIn.AccountService.UpdateProfile | internal/modules/users/service/user_service.go:81-135 | Table and answer under any fault are exactly the specified ones, username, taken name, first and last name checked in order |
| SignInRuns.RunKeepsInv | internal/modules/users/infra/user_repository.go:32-52 | Every reachable table has unique columns and only acceptable, normalised rows, stale whole-row saves included |
| SignInRuns.CallsAreEvents | internal/modules/users/service/user_service.go:81-135 | What the two service calls do to the table, faults included, is nothing or an event of these runs |
| SignInRuns.IdentifiersAreUnambiguous | internal/modules/users/infra/user_repository.go:82-85 | In every reachable table no username is anybody's email, and an identifier matches at most one account |
| SignInRuns.SpellingsFindTheirAccount | internal/modules/users/infra/user_repository.go:77-85 | An account alone is found by a text if and only if it spells its username or its email: white space, the stored characters up to case, white space |
| SignInRuns.StoredIsFixed | internal/modules/auth/service/auth_service.go:80-81 | Every stored identifier in every reachable table is trimmed and in lower case |
| SignInRuns.RespelledIsRefused | internal/modules/auth/service/auth_service.go:105-125 | Nobody registers another spelling of a taken email or username, whatever the database does; a taken email is named as such |
| SignInRuns.EmailIsFixed | internal/modules/users/service/user_service.go:81-135 | No save, however stale the row, changes an account's email |
| Migrations.ValidateContiguous | internal/shared/database/migrations/runner.go:135-171 | Accepts exactly the catalogues whose versions are 1..len with no nil entry; an error names a real offender, and the gap list is exactly the missing versions in order |
| Migrations.HighestIsTheCount | internal/shared/database/migrations/runner.go:57-63 | Pigeonhole: positive versions reach a highest one without a gap if and only if they are 1..len |
| Migrations.Database.ApplyOne | internal/shared/database/migrations/runner.go:110-123 | The schema and the record change together or not at all, never for a version already recorded; a loss after the commit is reported as a failure |
| Migrations.Database.Apply | internal/shared/database/migrations/runner.go:34-81 | Refuses a bad catalogue with nothing written; otherwise commits the first of the unrecorded versions in ascending order, each taking the schema where m[version] takes it, and all of them on success |
| Migrations.BootAppliesTheCatalogue | internal/shared/database/migrations/runner.go:72-78 | Every version a boot commits runs the catalogue's own migration for it |
| Migrations.EachInTurn | internal/shared/database/migrations/runner.go:72-78 | One boot commits a prefix of its pending versions, records exactly those, and leaves the schema they leave in order |
| Migrations.EndsWhere | internal/shared/database/migrations/runner.go:72-80 | It succeeds exactly when every pending migration in turn does and nothing disturbs it; otherwise it names the one that failed, was lost, or had just committed |
| MigrationRuns.ApplyIsARun | internal/shared/database/migrations/runner.go:34-81 | One undivided boot is one of the interleaved runs below, with the same outcome |
| MigrationRuns.CatalogueBootsAsItsVersions | internal/shared/database/migrations/runner.go:57-78 | A boot with a catalogue that holds the first versions of the limit is the boot the runs speak of |
| MigrationRuns.RunKeepsInv | internal/shared/database/migrations/runner.go:34-123 | In every run of concurrent, crashing, restarted boots each has every version it answers for recorded or still pending |
| MigrationRuns.CommitsAtMostOnce | internal/shared/database/migrations/record.go:11-15 | No migration commits twice, the recorded set is the committed one (beside what was there at the start), and the schema is what the commits leave in order |
| MigrationRuns.SuccessIsComplete | internal/shared/database/migrations/runner.go:54-63 | A successful boot has all its versions recorded, holes filled, for good |
| MigrationRuns.NeverAnyHoles | internal/shared/database/migrations/runner.go:57-78 | From no holes there are never holes: some 1..k are recorded, applied once each and in order |
| MigrationRuns.SuccessIsACleanRun | internal/shared/database/migrations/runner.go:34-123 | The first success with a catalogue as long as any tried leaves schema, records and history of one clean run, whatever failed or crashed before |
| MigrationRuns.UndisturbedBootRecovers | internal/shared/database/migrations/runner.go:103-109 | After any such history an undisturbed boot succeeds exactly when the clean run does, with the same schema |
| MigrationRuns.SecondBootIsIdle | internal/shared/database/migrations/runner.go:65-68 | Booting again after a success changes nothing, from any recorded set |
| MimeProofs.LinesOfTerminated | internal/shared/mail/message.go:101-106 | Splitting at CRLF undoes terminating whole lines with it |
| MimeProofs.TerminatedHasNoBareBreaks | internal/shared/mail/message.go:37-46 | Whole lines ended by CRLF hold no bare CR and no bare LF |
| MimeProofs.ChunksAreShort | internal/shared/mail/message.go:118-132 | The folded lines are non-empty, at most 76 characters, and free of line breaks |
| MimeProofs.UnfoldUndoesChunks | internal/shared/mail/message.go:118-132 | Removing the line breaks undoes the folding |
| MimeProofs.FoldingIsUndone | internal/shared/mail/message.go:118-132 | Decoding the folded encoding gives the body back |
| MimeProofs.FieldsAreReadBack | internal/shared/mail/message.go:101-106 | Header lines are read back as the fields they were written from |
| MimeProofs.BoundaryIsReadBack | internal/shared/mail/message.go:83 | The quoted boundary parameter is read back |
| MimeProofs.PartHasNoDelimiter | internal/shared/mail/message.go:134-142 | No line of any part begins with the delimiter, whatever the boundary |
| MimeProofs.PartIsReadBack | internal/shared/mail/message.go:109-115 | A part's content type and octets are read back |
| MimeProofs.PartsAreReadBack | internal/shared/mail/message.go:91-95 | Any sequence of parts between delimiters is read back exactly |
| MimeProofs.FieldsArePlain | internal/shared/mail/mail.go:45-68 | After the checks, no header value holds a line break |
| MimeProofs.ValidateVerdict | internal/shared/mail/mail.go:45-68 | A message passes exactly if it fails none of the seven checks, and is refused for the first it fails |
| MimeProofs.MessageSays | internal/shared/mail/message.go:72-95 | By name: sender, recipient, subject, date, id and content type are the message's own; the parts are the text or its stand-in and the HTML unless blank |
| MimeProofs.DomainFollowsTheLastAt | internal/shared/mail/message.go:152-156 | The id's domain is what follows the sender's last '@', or localhost |
| MimeProofs.EncodingIsReadBack | internal/shared/mail/message.go:47-98 | For every message that passes the checks the reader recovers the nine header fields value for value and exactly the parts; lines below the header fit 76; CR and LF occur in pairs only |
| MailEncoder.WrapBase64 | internal/shared/mail/message.go:118-132 | The index loop writes whole lines of at most 76 characters from which a decoder has the body back |
| MailEncoder.WriteHeader | internal/shared/mail/message.go:101-106 | Appends one header line |
| MailEncoder.WritePart | internal/shared/mail/message.go:109-115 | Appends the delimiter, two header lines, a blank line and the folded body |
| MailEncoder.WriteFields | internal/shared/mail/message.go:72-83 | Appends the nine header lines in order |
| MailEncoder.WriteParts | internal/shared/mail/message.go:86-95 | Appends the text or its stand-in, the HTML unless blank, and the closing delimiter |
| MailEncoder.Encode | internal/shared/mail/message.go:47-98 | Each failure exactly when and in the order the source has it; on success the reader recovers exactly the message's fields and parts, each under its own name, with no bare line break and no long body line |

## Left out

- Gin dispatch, dependency wiring, routes, handlers and DTO mappers, configuration loading, logging, Sentry, CORS, request ids, body limits, health probes, SMTP, templates, notifications and pagination: plumbing and I/O.
- PostgreSQL, GORM and the driver: a table is a map, a statement or a transaction one atomic step; the unique indexes and the primary key are modelled, isolation anomalies inside a transaction are not.
- HMAC, SHA-256, JSON, bcrypt, JWT and randomness: functions or arguments. Two distinct nonces giving distinct tokens is a hypothesis where it is used.
- TimeoutProtocol.ExactlyOneResponse: a handler uses the overridden writer methods (WriteString is Write) and performs finitely many operations; Flush and Hijack, which the writer inherits, reach the real writer directly and are not modelled, nor is a timeout of zero, which disables the middleware. The context a handler shares is not modelled beyond which writer it holds.
- RateLimitRuns.EvictionLosesNothing: tokens and seconds are reals and a call reads the clock once; the library's float and nanosecond rounding, and its Cancel when other reservations land in between, are not modelled, nor is the lock released between finding the bucket and reserving.
- AccessRuns.RegistryIsTheTablesView: service calls are atomic here; one process is modelled, whole-row user saves do not overlap, and users are not deleted. AccessRaces gives up the atomicity of UpdatePermissions and Resolve. The snapshot's three queries run before traffic, so they see one state.
- AccessRuns.TokenRefinesDatabase: restarts in between seed no grant and the commits on the token's role and user were heard; AccessRuns.ReseedingIsHarmlessIff and AccessRuns.AcceptedIsCurrentIff say what happens otherwise. RequireLevel is the level half of Authorize.
- AccessRaces.TokenIsNeverAhead: updates to the token's role do not overlap; without that it is false (AccessRaces.OverlapCanRunAhead).
- LinkToken.VerifyIssuedToken: the JSON codec is assumed to round-trip. HMAC is any function, so that nobody else can compute it is not stated; that no text is accepted without it is (LinkToken.VerdictIff).
- Redeem.AuthService.ConsumeToken: one call runs without another in between; requests that interleave or stop between two statements are runs of RedeemRuns. DeleteExpired, which nothing calls, and expiry in the table, which nothing reads, are not modelled.
- Redeem.AuthService.RequestPasswordReset: the look-up of the account is its argument, and composing and sending the mail, after the link is recorded, are not modelled.
- RedeemRuns.LinksAreSingleUse: the account is looked up and saved as one step after the claim; what else a redeem writes is in AccessRuns.
- SignIn.AccountService.Register: hashing is an argument and the mail that follows is not modelled; one call runs without another in between. SignInRuns has the insert apart from its look-ups, so that simultaneous registrations are among its runs.
- SignInRuns.IdentifiersAreUnambiguous: lower-casing a lower-cased character changes nothing and neither makes nor removes white space; lower-casing is per character.
- MigrationRuns.SuccessIsACleanRun: a later catalogue extends the earlier ones at its end; renumbering, and editing a migration that was applied, are not modelled. A migration is a function of the schema, so one that depends on time or data outside it is not.
- MailEncoder.Encode: the date, the Message-ID's octets and encoded words are given; header lines have no proved width, and names and subjects are recovered as their encoded values, not decoded.
- MimeProofs.EncodingIsReadBack: the reader refuses folded header lines and compares field names exactly, so it covers what an encoder without either can write.
