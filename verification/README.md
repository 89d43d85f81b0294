# Target service: a verified model

The target service decides whether a security test may run against a host. A target becomes
authorized when its owner publishes a challenge token, when an administrator attests it, or when it
belongs to a bug-bounty program; the scope gate then answers each request for that target. This
project models that decision, the state machine that feeds it, and the two smaller mechanisms around
it (the program-policy sync and the limiter of the free tools), and proves what they promise.

`dafny verify dfyconfig.toml` checks everything.

## How the model is built

| file | what it models |
|---|---|
| `Text.dfy`, `Domains.dfy` | ASCII string operations; the subdomain test |
| `Model.dfy`, `Store.dfy` | the rows of the two tables, and each repository statement as a function on the tables |
| `Lifecycle.dfy` | the service operations as programs of single repository calls that interleave, fail, take effect unreported, or stop half-way |
| `Invariants.dfy`, `Runs.dfy` | what every schedule of those programs keeps, and what an allow at the end of a schedule says about its steps |
| `Sequential.dfy` | requests that run alone, one after the other: such use is a schedule; tokens |
| `TokenRaces.dfy` | tokens when requests interleave |
| `Verification.dfy` | verifications among everything else: who writes a status, what a failed attempt leaves, how long a revocation lasts |
| `Service.dfy` | the same operations in the imperative form the service has: classes whose methods call a repository step by step, each proved to be a run of its program points |
| `Witness.dfy` | concrete schedules: an allow is reachable, and so are the states the documentation rules out |
| `Program.dfy`, `Gate.dfy` | program policies and the scope gate: the loops as methods, and the declarative verdict they refine |
| `Sync.dfy` | the platform's pages, normalisation, the replacing transaction, and the gate's view of the result |
| `HostScope.dfy`, `Hostname.dfy`, `Like.dfy` | host extraction and scopes; the hostname normaliser; LIKE escaping and the list filter |
| `Limiter.dfy` | token buckets in an evicting map, the in-flight cap, the retry advice |

The environment decides at every repository call how much time has passed, whether the call is done,
failed, or done but reported as failed, which random token is drawn, and which tokens a probe finds published, by which method and on which host.
Time is one monotone clock in nanoseconds, shared by the service and the database. An UPDATE of a
missing row succeeds, ids are never reused, and deleting a target deletes its rows. The libraries
the service calls appear as parameters: the address parser and the reserved and shared ranges are
arbitrary; the strict resolver is assumed to return only non-empty, non-reserved answers where a
lemma says so; a successful public-suffix lookup is assumed to be a label suffix of its input.

## Where the code and its documentation differ

The model follows the code.

- `README.md:102` and the comment at `internal/service/target_admin_service.go:89` say that a verified
  target never exists without its authorization row. It does between the two inserts, after a crash
  there, and when the compensating delete fails: `Witness.VerifiedWithoutRow` gives a schedule and
  `Service.TargetService.CreateProgramTarget` says exactly when a completed call leaves one behind.
- `README.md:81` says that shared-infrastructure ranges are always denied for intrusive testing. A host
  there is allowed exactly at the application layer (`Gate.SharedHostNeedsApplicationLayer`, and
  `Gate.SharedHostIsAllowed` for one such request); a directly supplied address never is
  (`Gate.SharedAddressIsRefused`).
- `README.md:65` says 10 requests per hour. A new client is admitted 20 times within one hour
  (`Limiter.TwentyInAnHour`); 10 holds exactly from a moment on at which less than one token is left
  (`Limiter.TenInTheHourExactly`), and `Limiter.WindowBound` is the bound that always holds.
- `internal/service/scope_service.go:568-569` says that a URL identifier may or may not carry a scheme. Without
  one, a scheme in its path is taken for its own, and the asset then names the host that follows
  (`Program.FirstSchemeNamesHost`; `Program.UrlHostIsBuiltAround` says for every identifier which host it names).
- `internal/ingest/hackerone.go:20-21` says ten pages cover any real program. Scopes beyond them,
  exclusions included, are dropped (`Sync.PagingIsComplete`, `Sync.EleventhPageIsIgnored`).
- A linked program's denial is final only if its row comes first, and the query has no ORDER BY:
  `Witness.LinkedDenialIsNotFinal` is a target with both rows that is allowed in one order and denied in
  the other, `Gate.OrderIndependence` says exactly when the order matters, and
  `Gate.DenialIsFinalExactly` when a request is denied in every order.
- `README.md:95-97` says that verifying a manually authorized target answers 409 and never demotes it.
  That holds only if the authorization created a row of its own. A pending challenge that is confirmed in
  place keeps its method, and the owner's next request, with nothing published, leaves the target
  unverified and denied while the administrator's authorization is still active
  (`Witness.ConfirmedIsDemoted`). `Witness.ManualThenVerification` says exactly when the request is refused.
- Revocation is not final for a customer target (`Witness.RevokedIsVerifiedAgain`). It ends only by a
  verification or an administrator's confirmation (`Verification.RevocationEndsOnlyBy`), for a program
  target only by the latter (`Verification.ProgramRevocationLasts`). A verification is refused exactly when
  the method of the newest row is program or manual (`Verification.RefusedExactlyForAdminMethod`). The kill
  switch is therefore stated as: no allow without a later proof.

## Model

| member | source | states |
|---|---|---|
| `Runs.AuthorityIsEarned` | internal/repository/authorization_repository.go:99-160 | after any interleaving with failures and crashes anywhere, an allow, by whatever clock the program check reads, rests on an earlier step that proved one of the rows the gate was given, whose term (60 days by challenge, 365 by an administrator) has not run out, and after which no step expired the target's rows |
| `Runs.KillSwitch` | internal/service/target_admin_service.go:163-185 | once Revoke's expire step took effect on a target, any later allow on it has a proof of it after that step, whether or not the status was written |
| `Runs.AuthorityExpires` | internal/service/target_admin_service.go:113-149 | a target whose proofs have all run out their terms, at most 365 days, is denied |
| `Runs.ActiveRowIsEarned` | internal/repository/authorization_repository.go:116-123 | every active row of every reachable state has an expiry, bounded by the term of a proof of that very row after which the target was not expired |
| `Runs.ActiveOrigin` | internal/repository/authorization_repository.go:99-160 | one step: an active row afterwards was the same active row before and the step did not expire it, or the step marked or created this row |
| `Runs.RowLifetime` | internal/service/target_service.go:38-44 | in every reachable state a verified row ends at most 365 days after it was verified, and at most 60 days if no administrator's step confirmed or created it |
| `Runs.RowTermIsEarned` | internal/service/target_admin_service.go:117-149 | every verified row, expired or not, got its term from a step that proved this row |
| `Runs.OnlyProofExtends` | internal/repository/authorization_repository.go:99-114 | only a proof of the row itself moves its end to a later time or makes it verified |
| `Runs.ExpiringNeverExtends` | internal/repository/authorization_repository.go:148-160 | expiring a target never moves the end of any row to a later time |
| `Runs.ProofBeforeStatus` | internal/service/target_service.go:198-204 | in every reachable interleaved state a verified customer target has a row that was verified |
| `Runs.ProgramTargetHasRow` | internal/service/target_admin_service.go:66-94 | as long as no step broke off the creation of this very target, whatever happens to others, it is verified only with its verified row or while the request creating it is running |
| `Runs.StrandedOnlyByBreaks` | internal/service/target_admin_service.go:88-94 | each program target left without compensation was left so by a crash of its own creation, its own failed compensation, or its own unreported insert |
| `Runs.ProgramTargetsAreClosed` | internal/service/target_service.go:131-160 | a program target is verified or revoked, and all its rows are program or manual, without token, verified from the start |
| `Runs.ScopeProvenance` | internal/service/verification_service.go:221-234 | every row carries the scope of its own target: the value of an address or a block, which exist only while those are enabled, and the value's domain otherwise |
| `Runs.TargetsAreUnique` | internal/repository/target_repository.go:65-85 | in every reachable interleaved state a user has at most one target of a kind with a value |
| `Runs.AllowedHostIsInOwnScope` | internal/service/scope_service.go:365-418 | an allow not given by a linked program is for a host equal to or under the scope of the target's own value, or for an address that the value is or contains |
| `Invariants.InvariantAlways` | internal/service/target_admin_service.go:51-197 | every schedule keeps: keys and foreign keys, bounded terms, scope of origin, closed program targets, status backed by proof, and what each request in flight relies on |
| `Invariants.StepPointKeeps` | internal/service/target_service.go:85-219 | every step of every operation keeps the tables well-formed and leads to a possible future of them, whatever the environment chooses |
| `Invariants.PointStable` | internal/service/target_service.go:149-212 | what a request relies on at its program point survives anything the other requests may do |
| `Witness.VerifiedWithoutRow` | internal/service/target_admin_service.go:88-94 | a schedule after which a verified program target has no row and no request works on it |
| `Witness.AllowIsReachable` | internal/service/target_admin_service.go:66-99 | after a completed program creation the gate allows every vetted request for the target's own scope |
| `Witness.VerifyRun` | internal/service/target_service.go:149-212 | from any state and any status, a customer target whose newest row is a challenge becomes verified once its proof is published |
| `Witness.RevokedIsVerifiedAgain` | internal/service/target_service.go:149-204 | a schedule in which a customer target is verified, revoked with no row left active, and verified again by its challenge |
| `Witness.ManualThenVerification` | internal/service/target_admin_service.go:121-149 | from every reachable state: after a manual authorization of a customer target a verification is refused iff the administrator's request found no pending newest row (none, verified already, or a failed lookup) |
| `Witness.ConfirmedIsDemoted` | internal/service/target_service.go:155-196 | a schedule in which a manually authorized target is left unverified and denied by its owner's request, with the authorization still active |
| `Witness.LinkedDenialIsNotFinal` | internal/service/scope_service.go:365-418 | a reachable target with a linked and a manual row whose verdict depends on their order |
| `Witness.RaceSplitsToken` | internal/service/target_service.go:100-137 | a schedule without failures in which two requests give one target two tokens |
| `Sequential.SoloIsSchedule` | internal/service/target_service.go:85-212 | a request that runs alone is one of the schedules |
| `Sequential.SessionIsSchedule` | internal/service/target_service.go:85-212 | so is a whole session of such requests, completed or broken off |
| `Sequential.OneTokenPerTarget` | internal/service/verification_service.go:33-72 | in sequential use whose lookups do not fail all rows of a target that carry a token carry the same one |
| `Sequential.CheckUsesTheToken` | internal/service/target_service.go:155-185 | every challenge check of such use runs with that token |
| `TokenRaces.OneTokenWithoutRaces` | internal/service/target_service.go:125-190 | in every interleaving in which no lookup fails and no two requests are about to record a fresh token for one target, each target has one token and every challenge check uses it |
| `Sequential.FailedLookupSplitsToken` | internal/service/target_service.go:130-137 | one failed lookup is enough to give a target a second token |
| `Verification.FailedVerificationNeverAuthorizes` | internal/service/target_service.go:180-204 | once a verification has written verifying, then in every continuation in which no other request writes this target's status and its own last write has not taken effect, whatever fails and whatever happens to other targets, the target is verifying or unverified and the gate denies, even with older active rows |
| `Verification.AttemptBegins` | internal/service/target_service.go:180-183 | the effective write of verifying begins such an attempt, whatever the status was |
| `Verification.AttemptsOnlyBegin` | internal/service/target_service.go:180-183 | and nothing else does |
| `Verification.VerifiedExactlyWhenConcluded` | internal/service/target_service.go:198-204 | such an attempt leaves the target verified exactly when its last status write takes effect |
| `Verification.StatusIsLastWrite` | internal/repository/target_repository.go:247-253 | in every interleaving a target's status is what the last effective status write wrote, or what it was |
| `Verification.ProgramRevocationLasts` | internal/service/target_service.go:157-161 | a revoked program target stays revoked and denied in every interleaving until an administrator's confirmation writes its status |
| `Verification.RevocationEndsOnlyBy` | internal/service/target_service.go:149-204 | a target leaves revocation only by an administrator's confirmation or, if a customer's, by a status write of a verification |
| `Verification.RefusedExactlyForAdminMethod` | internal/service/target_service.go:155-161 | having read a customer target and its newest row, a verification gives up exactly when the method of that row is program or manual, revoked or not |
| `Service.TargetService.CreateTarget` | internal/service/target_service.go:85-110 | is a run of its program points; refuses exactly an address or a block while those are disabled, and then stores nothing; succeeds exactly if the user has no such target yet and the insert did not fail, and has then added exactly the new unverified target, a pending challenge (DNS, or the registry for an address) with a fresh token unless that insert failed, and shows that token exactly if it was reported done |
| `Service.TargetService.GetTarget` | internal/service/target_service.go:125-147 | is a run of its program points; answers exactly the owner; returns the newest row, or, if none is found and the target is a customer's and not verified, records and returns a challenge with a fresh token; shows the token exactly while the target is not verified and its row is a challenge |
| `Service.TargetService.TriggerVerification` | internal/service/target_service.go:149-212 | is a run of its program points; found exactly by the owner; refused exactly for a program target or a newest row whose method is program or manual, and then changes nothing. Without a newest row it pursues a new row with the method asked for and a fresh token; if the newest row has a token for another challenge method, a new row with the method asked for and that token; and otherwise the newest row as it is. No other row changes; it succeeds exactly if that token is found published by that method on the target's host and no call failed, the row then lasts 60 days from the clock read before, and the status is what the last effective write wrote |
| `Service.TargetService.Attempt` | internal/service/target_service.go:180-204 | succeeds exactly if the row's own token is found published by its own method, a challenge, on the target's host, and each write is reported done; says what status is left in every other case; changes no other row and no other target |
| `Service.TargetService.CreateProgramTarget` | internal/service/target_admin_service.go:51-100 | is a run of its program points; succeeds exactly if the target is new and neither insert failed, and has then added exactly the verified target with its row, which lasts the days asked for, or 90 if none are given, from the clock read in between; whatever fails, no row of the call is active from then on; the targets are as before unless the first insert took effect and was not undone; and the target is left without its row exactly when the first insert took effect unreported or the second one and its compensation both failed |
| `Service.TargetService.AuthorizeManually` | internal/service/target_admin_service.go:102-161 | is a run of its program points; succeeds exactly if the target is found and neither write failed; its only change to the rows is to confirm the pending newest one, or to add a manual one if there is none or the lookup failed; that row lasts the days asked for, or 90 if none are given, from the clock read before, and none of the call is active from then on; the target is verified exactly if both writes took effect; and the newest row then has an administrator's method exactly when the lookup found no pending one |
| `Service.TargetService.Revoke` | internal/service/target_admin_service.go:163-185 | is a run of its program points; if the expire step takes effect exactly the active rows of the target end at that moment and none of it is active afterwards, even if the status write fails; the status is written only after that step was reported done |
| `Service.TargetService.DeleteTarget` | internal/service/target_service.go:214-219 | is a run of its program points; removes exactly the target and its rows if it is the caller's own and the call takes effect, and changes nothing otherwise |
| `Service.TargetService.DeleteAny` | internal/service/target_admin_service.go:187-197 | is a run of its program points; removes exactly the target and its rows if it is found and the delete takes effect, and changes nothing otherwise |
| `Service.ScopeService.CheckScope` | internal/service/scope_service.go:257-421 | changes nothing; a failed read of the target, or no target, is a denial, a failed read of the rows an error; when both reads are done the rows are exactly the active rows of the current target, and the request is allowed exactly if it is entitled on them; so it is allowed only if the current target passes every check and some active row grants it, and is allowed then if no active row refuses it; an allowed target has an active row, proven within its term and not expired since in every schedule that leads to these tables |
| `Service.AllowIsEarned` | internal/service/scope_service.go:284-289 | what is proved of schedules, applied to tables any sequence of service calls has led to |
| `Service.Backend.NewestRow` | internal/repository/authorization_repository.go:91-93 | the loop finds the row with the latest creation time, then highest id |
| `Service.Backend.ActiveRows` | internal/repository/authorization_repository.go:117-143 | returns exactly the rows of the target that are verified and not expired |
| `Service.Backend.InsertTargetRow` | internal/repository/target_repository.go:65-85 | a new id, or no row when user, kind and normalised value exist already |
| `Service.Backend.CreateAuthorization` | internal/repository/authorization_repository.go:55-77 | a new row created now, refused for a missing target |
| `Service.Backend.MarkRow` | internal/repository/authorization_repository.go:99-114 | verified now with the given expiry, keeping the evidence when none is given |
| `Service.Backend.ExpireActiveAuthorizations` | internal/repository/authorization_repository.go:148-160 | every active row of the target expires now, all others are untouched |
| `Service.Backend.UpdateStatus` | internal/repository/target_repository.go:247-253 | the status of one target, silently nothing for a missing one |
| `Service.Backend.Delete` | internal/repository/target_repository.go:255-261 | the owner's target with its rows, nothing for anyone else |
| `Store.LatestUnique` | internal/repository/authorization_repository.go:91-93 | the newest-row query has at most one answer |
| `Store.LatestExists` | internal/repository/authorization_repository.go:91-93 | and an answer whenever the target has rows |
| `Gate.CheckScope` | internal/service/scope_service.go:257-421 | the early refusals, the answer loop and the row loop compute one decision function |
| `Gate.DecideMeans` | internal/service/scope_service.go:257-421 | that function allows iff the entry conditions, the vetting of address and host, and the first decisive row's grant hold; errors only when rows cannot be read; pins exactly the vetted addresses on an allow and none on a denial |
| `Gate.RowGrants` | internal/service/scope_service.go:365-418 | when one row grants: a linked one iff its program's policy and assets can be loaded and permit the request; any other iff the labels of its domain are the last labels of the host, or its range contains or is the address |
| `Gate.VetHost` | internal/service/scope_service.go:343-363 | vets every answer of the host and collects them all in order |
| `Gate.ResolveProgramAuth` | internal/service/scope_service.go:477-491 | a row is linked exactly when it names a program and a store exists; a policy that cannot be loaded is judged as absent |
| `Gate.AllowPinsVettedAnswers` | internal/service/scope_service.go:310-363 | an allowed request is pinned to the address it gives and then to all answers of its host, in order, at least one in all and none of them reserved |
| `Gate.BlankNeverAllowed` | internal/service/scope_service.go:258-260 | a request whose host and address are blank is never allowed |
| `Gate.UnloadablePolicyDenies` | internal/service/scope_service.go:477-491 | a linked row whose policy cannot be loaded denies when it decides |
| `Gate.OrderIndependence` | internal/repository/authorization_repository.go:118-123 | the authorized bit is the same for every order of the rows iff all decisive rows agree |
| `Gate.DenialIsFinalExactly` | internal/repository/authorization_repository.go:118-123 | a request is denied in every order of the rows iff no row grants it |
| `Gate.LinkedDenialNeedsToComeFirst` | internal/service/scope_service.go:365-396 | a refusing linked row denies before a matching unlinked row and is overridden after it |
| `Gate.UnlinkedRowsCommute` | internal/service/scope_service.go:365-418 | without linked rows the order is always immaterial |
| `Gate.RelaxingKeepsAuthorization` | internal/service/scope_service.go:302-329 | an allowed request stays allowed as application layer, as non-intrusive, and as both |
| `Gate.DefaultsAreStrict` | internal/model/target.go:233-250 | an absent intrusive flag is true, and any layer but application is network |
| `Gate.SharedHostNeedsApplicationLayer` | internal/service/scope_service.go:293-363 | a host that resolves to shared infrastructure, requested for intrusive testing with everything else in order, is allowed iff the layer is application |
| `Gate.SharedHostIsAllowed` | internal/service/scope_service.go:293-303 | a request for such a host that is allowed, under a resolver that keeps its contract |
| `Gate.SharedAddressIsRefused` | internal/service/scope_service.go:323-329 | a directly supplied shared address is refused for intrusive testing at every layer |
| `Gate.CheckVerified` | internal/service/scope_service.go:146-178 | reports verified iff the target is found, the user is its owner or not given, its status is verified and some row read is active; errors exactly for a failed read; not owner exactly for another user |
| `Gate.NonOwnerLearnsNothing` | internal/service/scope_service.go:154-157 | another user gets one answer, whatever the target's status, rows and time |
| `Gate.HasActiveAuthorization` | internal/service/scope_service.go:182-193 | true iff some row is verified and not expired |
| `Gate.ScopeAllowImpliesVerified` | internal/service/scope_service.go:143-178 | whatever the scope gate allows the launch gate reports verified |
| `Program.ProgramVerdict` | internal/service/scope_service.go:497-542 | the two loops compute the declarative verdict: an allow iff the policy is present, active, fresh, nothing excluded matches, something included matches, automation is allowed and the technique is not prohibited; otherwise the first failing condition |
| `Program.SingleAssetPermits` | internal/service/scope_service.go:544-566 | what one listed asset permits under an open policy, type by type: the trimmed lower-case identifier itself; the host a URL is built around; the address; the addresses of a block; the names at or under a wildcard's base |
| `Program.ListingPermits` | internal/service/scope_service.go:516-533 | a listing permits a request iff the policy is active, fresh for as long as it says or 7 days, allows automation and does not prohibit the technique, some included asset permits it alone, and no excluded one would |
| `Program.OnlyNamedArePermitted` | internal/service/scope_service.go:525-533 | a listing that includes neither wildcards nor blocks permits no host and no address that it does not name |
| `Program.UrlHostIsBuiltAround` | internal/service/scope_service.go:568-583 | a URL identifier yields the one host it is built around: a scheme up to the first colon and two slashes, user information up to the first at sign, a port, and a path, query or fragment |
| `Program.FirstSchemeNamesHost` | internal/service/scope_service.go:571-573 | the first colon and two slashes decide, also when they stand in the path of an identifier without a scheme |
| `Program.ProhibitedPhases` | internal/service/scope_service.go:585-617 | which phases a list of prohibited techniques shuts out, technique by technique; no other phase is ever prohibited |
| `Program.NormalizePointwise` | internal/service/scope_service.go:629-634 | techniques are compared without surrounding white space, ignoring case, with hyphens and spaces read as underscores |
| `Program.VerdictIgnoresAssetOrder` | internal/service/scope_service.go:516-533 | the verdict depends on which assets are listed, not on order or multiplicity |
| `Program.VerdictIsMonotone` | internal/service/scope_service.go:497-542 | an added exclusion never opens, an added inclusion never closes, and an allow holds at every earlier time |
| `Program.BlankQueryNeverPermitted` | internal/service/scope_service.go:544-566 | a request naming neither host nor address matches no asset |
| `Program.WildcardIsSubdomainTest` | internal/service/scope_service.go:547-551 | a wildcard matches exactly the hosts label-wise equal to or under its base |
| `Program.NormalizeTechniques` | internal/service/scope_service.go:619-627 | the loop keeps the non-blank canonical tokens in order |
| `Program.NormalizeTechniqueIdempotent` | internal/service/scope_service.go:629-634 | canonicalising a technique twice is canonicalising it once |
| `Program.CanonicalTechniquesIdempotent` | internal/service/scope_service.go:619-634 | so the gate may canonicalise the stored list again |
| `Sync.FetchProgram` | internal/ingest/hackerone.go:73-129 | returns nothing iff the handle is blank, the program cannot be read, or one of the first ten pages fails that paging gets to (every page before it listed something and linked to the next); and otherwise what the pages up to the last one visited stand for, in order |
| `Sync.PagingIsComplete` | internal/ingest/hackerone.go:100-127 | for every listing, paging loses and duplicates no non-blank scope iff the pages it does not visit, after the tenth or after the first that is empty or has no next link, list only blank identifiers |
| `Sync.ChainedPagingIsComplete` | internal/ingest/hackerone.go:100-127 | for a properly linked listing: iff it has at most ten pages or only blank identifiers beyond them |
| `Sync.FetchesVisited` | internal/ingest/hackerone.go:102-127 | the visited pages are fetched in order, each scope once |
| `Sync.ProgramRepository.Sync` | internal/repository/program_repository.go:40-108 | no change iff a statement fails or the commit fails without effect, and otherwise the program with exactly its new assets; other programs keep theirs |
| `Sync.ProgramRepository.ListAssets` | internal/repository/program_repository.go:122-143 | a permutation of the program's assets, included ones first |
| `Sync.ProgramService.SyncProgram` | internal/service/program_service.go:42-89 | stores the canonical policy with the lowered fetched assets, and leaves the store as it was iff the platform is unknown, the fetch fails for one of those reasons, a statement fails or the commit fails without effect |
| `Sync.SyncPreservesVerdict` | internal/service/program_service.go:53-89 | the gate's answer on the stored, replaced and re-listed policy is its answer on the fetched one with the raw technique list |
| `Sync.SyncedPolicyNeedsLeave` | internal/service/program_service.go:53-68 | a synced policy permits nothing unless the administrator allowed automation and did not pause it, nor a prohibited phase, nor longer after the sync than he said, or 7 days |
| `Sync.ListedScopePermits` | internal/ingest/hackerone.go:113-151 | from one line of the platform's listing to the gate: what it permits for each stated type if submissions are eligible, and that it excludes the same otherwise |
| `Sync.PlatformPolicyIsEnforced` | internal/ingest/hackerone.go:100-127 | when the pages not visited list only blank identifiers the gate enforces exactly what the platform lists |
| `Sync.LostExclusionOpensTheGate` | internal/ingest/hackerone.go:102-126 | an exclusion listed only on a page that is not visited is not enforced |
| `Sync.EleventhPageIsIgnored` | internal/ingest/hackerone.go:22-22 | a concrete listing on which the gate allows what the platform excludes |
| `Sync.LinkFindsTheSyncedKey` | internal/service/target_admin_service.go:245-259 | a program authorization is linked iff a handle was given, and to the key its sync stores under |
| `Sync.LinkedRowEnforcesThePlatform` | internal/service/scope_service.go:459-491 | a row that names a synced program grants exactly what the platform's own listing permits under the administrator's raw terms |
| `Domains.DottedSuffixIsLabelSuffix` | internal/service/scope_service.go:429-433 | ending in the dotted apex is having the apex's labels as last labels |
| `Domains.SubdomainIsLabelWise` | internal/service/scope_service.go:429-433 | the subdomain test is the label-wise one, for all strings |
| `Domains.SubdomainIsPartialOrder` | internal/service/scope_service.go:429-433 | it is reflexive, transitive and antisymmetric up to case |
| `Domains.AncestorsAreComparable` | internal/service/scope_service.go:429-433 | any two domains above one host are comparable |
| `HostScope.OwnHostInOwnScope` | internal/service/verification_service.go:202-234 | the scope of a target's value covers its challenge host, for every suffix list, iff the text between scheme and path meets a guard on its colons and brackets |
| `HostScope.EmptyPortIsNotCovered` | internal/repository/target_repository.go:283-288 | a plain host with an empty port is covered by no suffix list |
| `HostScope.HostsAgree` | internal/service/verification_service.go:202-219 | the challenge host and the looked-up host are equal iff both strip the same port |
| `HostScope.DomainCoversLookupHost` | internal/repository/target_repository.go:274-301 | the derived domain covers the looked-up host, in the last-two-labels fallback too |
| `HostScope.DomainIsDerived` | internal/repository/target_repository.go:290-301 | the derived domain is what the public suffix lookup says, or else the last two labels of the host |
| `HostScope.HostIsExtracted` | internal/repository/target_repository.go:274-289 | both extractions find the host of a value with or without scheme, port and path |
| `HostScope.NormalizedIsNormal` | internal/repository/target_repository.go:55-62 | stored values are trimmed and lower case |
| `Hostname.AcceptedIsFixedPoint` | internal/service/hostname.go:32-77 | an accepted host is a fixed point with at least two labels of 1 to 63 characters and at most 253 in all (section 2.3.4 of RFC 1035, section 2.1 of RFC 1123) |
| `Hostname.AcceptedExactly` | internal/service/hostname.go:19-75 | a name is accepted as it is iff it has at most 253 characters, is no address, has at least two labels of the permitted form with a last one of letters, and ends in none of the six internal suffixes |
| `Hostname.WrappingIsIgnored` | internal/service/hostname.go:33-54 | scheme, user information, final dot, port and tail around an accepted host do not change the output |
| `Hostname.UnreachableChecks` | internal/service/hostname.go:65-70 | the single-label and localhost refusals never happen |
| `Hostname.SchemelessWrappingIsIgnored` | internal/service/hostname.go:33-54 | without a scheme, user information, final dot, port and tail do not change the output as long as the text nowhere contains a colon and two slashes |
| `Hostname.FirstSchemeWins` | internal/service/hostname.go:37-39 | otherwise, for every text, the output is that of what follows the first colon and two slashes |
| `Hostname.LaterSchemeWins` | internal/service/hostname.go:37-39 | in particular a host followed by a path that contains a scheme is read as the later host |
| `Like.EscapeIsExact` | internal/repository/target_repository.go:141-154 | the escaped pattern is legal and matches a string iff it contains the query (section 9.7.1 of the PostgreSQL manual) |
| `Like.EscapeIsExactIgnoringCase` | internal/repository/target_repository.go:141-154 | the same for ILIKE, up to case |
| `Like.ThreePassesAreOnePass` | internal/repository/target_repository.go:149-154 | the three replacing passes equal one per-character escape |
| `Like.BackslashPassMustComeFirst` | internal/repository/target_repository.go:149-154 | running the backslash pass last gives the same iff the query has no percent sign and no underscore |
| `Like.BuildWhere` | internal/repository/target_repository.go:125-146 | the clause with its numbered arguments is well-formed and selects exactly the rows the filter describes |
| `Limiter.MapRefinesBucket` | internal/handler/tools_handler.go:70-121 | the map, with all other clients and the janitor at work, answers each client as one bucket of its own would |
| `Limiter.EvictionIsUnobservable` | internal/handler/tools_handler.go:70-83 | no sequence of requests tells whether, or when, the janitor ran |
| `Limiter.WindowBound` | internal/handler/tools_handler.go:101-121 | in any window of any run a client is admitted at most 10 times plus once per 360 seconds |
| `Limiter.TwentyInAnHour` | internal/handler/tools_handler.go:18-20 | a run of the map in which a new client is admitted 20 times within one hour |
| `Limiter.TenInTheHourExactly` | internal/handler/tools_handler.go:18-20 | from a moment on a client is never admitted more than 10 times in the next hour iff it has less than one token left |
| `Limiter.RetryAfterSuffices` | internal/handler/tools_handler.go:116-119 | a refused client that waits as told is admitted, and is told at most one second too much |
| `Limiter.ToolsHandler.Allow` | internal/handler/tools_handler.go:101-121 | one request's effect on the map, its answer and the retry advice |
| `Limiter.ToolsHandler.Janitor` | internal/handler/tools_handler.go:70-83 | the loop removes exactly the entries idle for more than two hours |
| `Limiter.ToolsHandler.Guard` | internal/handler/tools_handler.go:126-147 | rate limit first, then a slot: at most 16 in flight, and a request refused for want of a slot has spent its token |

## Left out

- The network work of the verifiers and of the free tools (DNS, HTTP, TLS): a probe finds what the environment says is published on a host by a method.
- The libraries behind the gate (go-safedial, publicsuffix, Go's address parsing, x/time/rate): only the contracts named above.
- Text beyond ASCII, Unicode case folding and database collations.
- Reason texts: a verdict is a reason kind and the authorized bit.
- Handlers, request binding and response bodies. Of the request validation only the enumerations and the limit of 365 days are kept, as preconditions.
- The re-reads that only fill a response (internal/service/target_service.go:209-210, internal/service/target_admin_service.go:182); the first of them is taken to succeed.
- Audit events and logging, which ignore their own errors and touch no modelled state.
- The target cap, user id derivation, the asset inventory, statistics, and the SPF, DMARC, TLS and header checks.
- Row columns that no decision reads: label, update time, attesting user, and the program's name, links, rate and raw text. A target has one identifier instead of an id and a uid.
- Sorting and slicing of target lists; only the filter is modelled.
- Evidence values that are not strings.
- Sync.ProgramRepository.ListAssets: the second sort key (identifier) is not stated, because database collation decides it.
- Sync.FetchProgram: the policy text and the credentials are one yes-or-no answer of the platform, because only the scopes reach the verdict.
- Limiter.ToolsHandler.Allow: the several clock reads of one call are one, and the floating-point tokens are exact, because rounding is not the point.
- Service.Backend.InsertTargetRow: every database error is one failure, because the callers only distinguish the duplicate.
- Sync.LinkedRowEnforcesThePlatform: takes the gate's two reads of the program store to see the same sync, because a sync between them can pair the old policy with the new assets.
