# A model of tappa's hard cores, with proofs

Tappa is an attendance service: tags on the wall, businesses with their administrators, an API that
records writes. This project models the parts of it whose correctness is an argument rather than a
glance, and proves that argument in Dafny. `dafny verify dfyconfig.toml` checks all of it.

| file | models |
|---|---|
| `Accent.dfy`, `AccentText.dfy`, `Arith.dfy` | the accent gate, the HSL lightness path in exact integers, the bisection that suggests a colour; the one spelling of a colour |
| `LogoResize.dfy`, `LogoSize.dfy`, `LogoRead.dfy` | the separable box filter with its in-place accumulators, the target size, the bounded two-buffer reader |
| `Writes.dfy` | the idempotent write runner: sweep, expired row, claim, work, record, commit, for any number of requests at once |
| `Memberships.dfy`, `MembershipRaces.dfy`, `MembershipSteps.dfy` | changes to who runs a business: the owners' lock, the last-owner rule, the revocation of sessions; the rule among changes alone; what a change may do, and the order of its locks |
| `ResetLinks.dfy`, `ResetConsume.dfy`, `ResetRequests.dfy` | recovery links: one live link per account, the three ways one is spent, and what a failed request leaves |
| `OpAdmin.dfy` | the operator scripts as the transaction they become, the enrollment link, and the order in which a run writes |
| `RotateKek.dfy` | re-sealing every tag's key, and the readers that must go on opening tags while it happens |
| `SignIn.dfy`, `CostMeter.dfy` | the sign-in: what every attempt costs, the sessions it leaves, the median of recent costs |
| `Candidates.dfy`, `Calls.dfy`, `Wrappers.dfy` | shared: the rows an address resolves to and their window, what a request's calls answer, an optional value |

## How concurrency, failure and the clock are modelled

A protocol over the database is a state machine. One action is one SQL statement (or one commit, one
rollback, one crash), a state holds what is committed plus the transactions in flight with their locks
and snapshots, and a run is any sequence of enabled actions; the theorems speak of every state of every
run. READ COMMITTED is in the actions: a statement reads the committed rows of its own moment, a lock
waits for its holder, a locked row is re-checked on its newest version.

Where one request is followed through its calls, the code is a class whose methods update its fields. What
its calls answer is a script, in the order it makes them, and every contract holds for every script: an
answer may be an error, and an error may come after the work was committed. In `ResetConsume` what everybody
else does between two calls is nondeterministic instead. Where a flag (`reliable`, `works`) or a condition on
the script says that no call fails, the contracts say what is then certain, so that no promise is kept by
failing.

What each SQL statement does is assumed as the queries and migrations cited beside each module state it.
HMAC and SHA-256 are injective names; AES-GCM is an ideal seal; bcrypt is a predicate; the channel
linearisation is an arbitrary non-decreasing real table from 0 to 1.

## What the proofs say of the code's own claims

Most of what the comments and the decision records promise holds as they state it. In seven places the
proof is of something else, and the code was followed.

- The owners' lock (internal/adminauth/membership.go:27-33) is said to make two changes of one business
  serialise. It does not: when an owner stops being one and becomes one again while a first change waits for
  the lock, a second change can pass it with a snapshot that shares nobody with the first's
  (`MembershipRaces.TwoPassTheLock`), both count two owners, and the last owner is lost to changes alone
  (`ChangesAloneCanLose`). What the lock does keep apart is changes whose snapshots share an owner.
- The last-owner rule is described (membership.go:35-44) as counting the owners a change has locked. The code
  counts every owner the resolver returns at that moment, locked or not. `LastOwnerOverRuns` is the whole-run
  guarantee when each check that takes an owner away finds another among those it has locked. Without that,
  `KeepsAnOwnerIffGuarded` says exactly when a checked change can still lose the last owner if people may
  refuse memberships meanwhile, and `KeepsAnOwnerUnrefusedIffOneIsNotTaken` when nobody does, unless an owner
  is exposed only to changes that are still between their snapshot and their check.
- The owners' lock takes its rows in one order "so no lock cycle" (db/queries/adminmembers.sql:17). Among the lock
  statements that holds (`MembershipSteps.NoCycleOfOwnersLocks`), but the target's lock comes after them, in no
  order: an owner promoted while a first change waited can begin a second one that closes a cycle with it, in
  which neither can do anything but be rolled back (`ATargetsLockClosesACycle`).
- A per-row recovery mint that committed before its error arrived is not withdrawn: `issueForRows`
  withdraws the grants before it and has no name for this one, while `openForIdentity` withdraws by hash.
  A failed request whose withdrawals succeed leaves a live link exactly then
  (`ResetRequests.Request.IssueForPerson`, `ATwoRowRequestLeavesALink`).
- An open that committed before its error arrived, of a proof session or of the identity's, leaves that
  session: with no failed revocation those are exactly the sessions a failed sign-in leaves
  (`SignIn.Manager.SignInAsIdentity`, `AProofIsLeft`, `AnIdentitySessionIsLeft`).
- A source of logo bytes that fails exactly one byte past the limit is refused for its failure or for its
  size depending on whether it reports the failure with that byte or after it (`LogoRead.SplitMatters`).
- The replay guard of `cmd/opadmin` is said to be left open by the database clock stepping back between two
  issuances (cmd/opadmin/main.go:937-946). It is not: `GenerationsGrow` and `UsedOnce` hold however the
  clock moves between applications, as long as no accepted script is stamped before its own generation time.
  That takes a step back inside one application, between the guard and the stamp. `ReturnsIffStampedBefore`
  says exactly when such a stamp lets the script be installed again, and `AStepBackInsideReopens` shows a link
  reopened.

Two smaller ones. The rotation's guard compares row counts; that is coverage as long as no tag is removed
(`TheCountDecides`, `CommittedMeansCovered`), which no role of the application may do
(db/migrations/00004_create_tags.sql:124): `TheCountIsNotCoverage` takes the table's owner, by hand. And a run
of `cmd/opadmin` whose last write is cut between `COMMIT;` and its newline, or right before the semicolon when
the refusal is lost too, reports a failure although the script on stdout commits; its link was delivered by
then (`OpAdmin.ReportsFailureAndCommits`).

## Model

| member | source | states |
|---|---|---|
| Accent.CheckMeansLegible | internal/brand/accent.go:165-226 | the gate accepts an accent if and only if paper or ink text reaches 4.5:1 on it, and the text colour it hands out is the more legible of the two, paper on a tie |
| Accent.LuminanceWeighs | internal/brand/accent.go:140-168 | the luminance is the sum of the three channels' own, white's is 1, and a full red, green and blue weigh 0.2126, 0.7152 and 0.0722 |
| Accent.EdgeMeansTooClose | internal/brand/accent.go:170-226 | an accepted accent gets an edge if and only if neither it nor the page is three times as light as the other |
| Accent.BlackPasses | internal/brand/accent.go:228-251 | black passes the gate, which is what makes a suggestion exist |
| Accent.PassingIsDownClosed | internal/brand/accent.go:228-285 | below a refused colour, a colour that passes still passes when any of its channels is darkened |
| Accent.ExactMonotone | internal/brand/accent.go:266-297 | each channel of the exact HSL path is non-decreasing in lightness |
| Accent.GridIsExact | internal/brand/accent.go:266-337 | at every grid step the integer formula is HSL's channel at that lightness, rounded half up |
| Accent.AtFitsInt64 | internal/brand/accent.go:266-337 | for every path and every step the numerator is non-negative and every intermediate value is inside int64, within the stated magnitude |
| Accent.ChannelAtIsByte | internal/brand/accent.go:323-337 | each quotient is between 0 and 255, so the uint8 conversion loses nothing |
| Accent.PathMonotone | internal/brand/accent.go:298-337 | the path only brightens as the step grows, in every channel |
| Accent.PathEnds | internal/brand/accent.go:298-337 | the path runs from black to the colour itself |
| Accent.PathIsHsl | internal/brand/accent.go:288-321 | the code's path below a colour is HSL's: every exact channel is the lightness plus the colour's own offset from its lightness, scaled by the room the lightness leaves, with lightness and offset taken from the colour's r, g and b |
| Accent.DarkeningKeepsHueAndSaturation | internal/brand/accent.go:288-297 | at every lightness the brightest and darkest channel average to it, their distance stays in proportion to the room, and each channel keeps its place between them |
| Accent.NoTwoCrossings | internal/brand/accent.go:266-297 | two channels cannot both change between a grid step and the lightness a grid step's width away, one before and one after, on either side of the kink |
| Accent.GridIsComplete | internal/brand/accent.go:266-337 | for every colour and every real lightness at or below its own, the colour darkened to it at its own hue and saturation, rounded, is the colour of some grid step |
| Accent.At | internal/brand/accent.go:329-337 | computes the path's colour at a step |
| Accent.SuggestStep | internal/brand/accent.go:252-264 | for a refused colour the bisection ends at the largest passing step: it and every step below pass, every step above fails |
| Accent.Suggest | internal/brand/accent.go:228-264 | the suggestion passes, keeps a colour that passes, brightens no channel, is the colour darkened at its own hue and saturation, and no passing colour of that path exceeds it in any channel |
| AccentText.ParseAccent | internal/brand/accent.go:15-43 | answers a colour if and only if the string is exactly that colour's canonical spelling |
| AccentText.HexAt | internal/brand/accent.go:12-24 | the canonical spelling is six upper-case hex digits, two to a channel: red, green, blue |
| AccentText.NormalizeAccent | internal/brand/accent.go:45-83 | answers a colour if and only if the string, without one leading '#' and in upper case, is its canonical spelling |
| LogoResize.Taps | internal/brand/logo_resize.go:25-37 | every output pixel's list holds exactly the source pixels it overlaps, in order, each with its share |
| LogoResize.BoxIsMean | internal/brand/logo_resize.go:25-53 | each output pixel's weights sum to the source length, so a weighted sum over it stays between the samples |
| LogoResize.AxisConserves | internal/brand/logo_resize.go:25-37 | each source pixel's weights over all output pixels sum to the output length |
| LogoResize.TapsCoverTheAxis | internal/brand/logo_resize.go:25-80 | summing over the tap list alone is summing over the whole axis |
| LogoResize.SeparableIsArea | internal/brand/logo_resize.go:39-77 | summing along rows and then across them is the sum over every source pixel of the area it shares with the output pixel times its sample |
| LogoResize.MeanIsNearest | internal/brand/logo_resize.go:39-95 | the mean is the exact area mean rounded half up |
| LogoResize.MeanBetween | internal/brand/logo_resize.go:39-95 | the filter leaves no sample range: a flat channel stays as it is |
| LogoResize.FilteredIsByte | internal/brand/logo_resize.go:80-94 | no colour's mean exceeds alpha's, so un-premultiplying fits 16 bits and the result 8 |
| LogoResize.ByteIsUnpremultiplied | internal/brand/logo_resize.go:78-94 | every byte of every output pixel: a colour's is its mean over the alpha's, cut to 8 bits, the alpha's the upper half of its own, and all are 0 where the alpha's mean is |
| LogoResize.SameSizeIsIdentity | internal/brand/logo_resize.go:39-46 | at the source's own size every premultiplied sample maps to itself |
| LogoResize.LightIsConserved | internal/brand/logo_resize.go:39-95 | over the whole output the area sums are the output area times the sum of all samples |
| LogoResize.Resize | internal/brand/logo_resize.go:47-95 | the separable loops with their two accumulator rows write, byte for byte, the rounded two-dimensional area means; a source of one colour gives that colour in every pixel, and a source of the output's size every pixel its own, as red, green, blue, alpha, un-premultiplied |
| LogoResize.ByteOf | internal/brand/logo_resize.go:78-94 | where each pixel's four bytes lie in the output |
| LogoResize.FitsUint64 | internal/brand/logo_resize.go:47-95 | within the upload gate's sizes nothing overflows: no partial sum of a row, no accumulator after any of its rows, no rounded numerator, no product |
| LogoSize.TargetSizeMeans | internal/brand/logo.go:421-432 | a logo is never enlarged and ends within 512; it keeps its size if and only if it fits; otherwise the long edge is 512 and the short one the nearest pixel of the same shape; the two edges are treated alike |
| LogoSize.ScaledFits | internal/brand/logo.go:421-432 | the short edge is the pixel nearest to the same shape, rounded half up, at least one |
| LogoRead.Read | internal/brand/logo.go:236-258 | the two-buffer loop answers the source's bytes cut one past the limit, or its error, for every way the source splits them |
| LogoRead.SplitDoesNotMatter | internal/brand/logo.go:227-258 | a source that ends without failing gets one answer however it splits, and is over the limit if and only if it is longer |
| LogoRead.SplitMatters | internal/brand/logo.go:236-258 | for failing sources the answer depends on the split in exactly one case |
| Writes.ExactlyOnceOverRuns | internal/apikey/writes.go:15-217 | over all runs, two committed executions of one key are a day apart, and every replayed answer is that of a committed execution of the same key and request hash |
| Writes.NeverUnrecorded | internal/apikey/writes.go:191-209 | the claim's row has no result until the record fills it in the same transaction: the record matches the claim's one row, no committed row lacks a result, and ErrUnrecorded is unreachable |
| Writes.WithinTheDayItIsReplayed | internal/apikey/writes.go:154-186 | while an execution's day lasts a request with its key runs no work: it replays the recorded outcome, or is a mismatch |
| Writes.AClaimGoesInExactlyWhenTheKeyIsFree | internal/apikey/writes.go:160-171 | a request's claim goes in if and only if its key has no row, or the row is the one that had expired when the request's own DELETE read it: a key is free again after its day even if no sweep took its row |
| Writes.ARequestThatMeetsNobody | internal/apikey/writes.go:155-212 | by its own steps alone a request runs the work and records it, or replays the recorded outcome, or is a mismatch, exactly as its key has no row or one over a day old, one of the same request, or one of another |
| Writes.OnlyCommitsMoveTheLedger | db/queries/apiidempotency.sql:9-66 | in every run a sweep's commit takes exactly the rows it locked, a request's commit puts exactly its own row or none, and nothing else touches the ledger or the log |
| Writes.OnlySuccessIsRecorded | internal/apikey/writes.go:191-197 | whatever a run records or answers again has a status of 200 to 299 |
| Writes.SweepsTakeFewAndOld | db/queries/apiidempotency.sql:19-42 | a sweep takes at most a hundred rows, each over a day old, none that anybody else is deleting |
| Writes.NobodyWaitsForAWaiter | internal/apikey/writes.go:32-44 | a request waits only for one with its own key that has deleted or claimed it, or for a sweep of it about to commit, and those wait for nobody: the wait graph has no cycle |
| Writes.BlockersCanFinish | internal/apikey/writes.go:32-44 | whoever a request waits for can end at once and then blocks it no more |
| Writes.RunKeepsInv | db/queries/apiidempotency.sql:9-66 | one deleter and one claimant to a key, expired deletions only, every committed row the record of an execution: in every state of every run |
| Memberships.PathKeepsInv | internal/adminauth/membership.go:212-318 | a row has one holder, and what a change knows of the rows it locked still holds of the committed rows, in every state |
| Memberships.PastTheLockSnapshotsAreDisjoint | internal/adminauth/membership.go:222-226 | what the owners' lock keeps apart: two changes past it share no owner of their snapshots. That two of one business never are past it together, as membership.go:30-32 has it, is false (MembershipRaces.TwoPassTheLock) |
| Memberships.DecisionIsStable | internal/adminauth/membership.go:222-251 | between a change's check and its commit neither its target nor any row it locked moves |
| Memberships.OnlyItsStepMovesARow | internal/adminauth/membership.go:256-304 | in every run a role moves exactly at the commit of a promotion or demotion of that membership, the status exactly at that of a disable or enable or with a refusal that disables, the refusal exactly at a refusal or relinking; nobody else's row moves and none goes |
| Memberships.OnlyItsStepEndsASession | internal/adminauth/membership.go:261-293 | in every run a live session ends exactly by its sign-out, its person's refusal, or the commit of a disable or enable of its membership, and one comes only from an opening that found it active and not refused |
| MembershipSteps.CommitsMeetTheRules | internal/adminauth/membership.go:224-251 | at every commit of a change its actor is an active owner, nobody disables or enables themselves, and one that takes away an owner it counted had counted two |
| MembershipSteps.AChangeThatMeetsNobody | internal/adminauth/membership.go:209-307 | every change the rules allow goes through when nobody holds a row, makes exactly its act of its target's row, and ends the target's sessions exactly if it moves the status |
| MembershipSteps.AnOpeningGivesASession | db/migrations/00081_count_the_owners_who_can_sign_in.sql:160-200 | an opening of a membership nobody holds gives a session if and only if it is active and not refused |
| MembershipSteps.NoCycleOfOwnersLocks | db/queries/adminmembers.sql:16-24 | in every run, along any chain of owners' locks each waiting for a row the next holds, the rows ascend: no cycle |
| MembershipSteps.ATargetsLockClosesACycle | db/queries/adminmembers.sql:26-32 | a run of changes alone to two that wait for each other through a target's lock and can only be rolled back |
| Memberships.KeepsAnOwnerIffGuarded | internal/adminauth/membership.go:31-51 | a checked change that takes an owner away leaves one who can sign in, whatever else happens before it commits, if and only if another such owner is among those it locked |
| Memberships.CountingSnapshotOwnersGuards | internal/adminauth/membership.go:239-251 | when every counted owner was one as the lock statement began, the code's check implies that condition |
| Memberships.LastOwnerOverRuns | internal/adminauth/membership.go:27-35 | over every run, with refusals and all other writers: if each check that takes an owner away finds another who can sign in among those it has locked, every commit of a change leaves a business that had an owner with one |
| MembershipRaces.TwoPassTheLock | internal/adminauth/membership.go:30-35 | changes alone lead to a state in which two changes that each take an owner away are past the lock and their checks |
| MembershipRaces.ChangesAloneCanLose | internal/adminauth/membership.go:239-251 | a run of changes and nothing else that ends a business's last owner |
| MembershipRaces.LostToChangesAlone | internal/adminauth/membership.go:239-251 | without refusals, a change that loses the last owner had every other owner it counted taken by a change that committed between its check and its commit |
| MembershipRaces.KeepsAnOwnerUnrefusedIffOneIsNotTaken | internal/adminauth/membership.go:239-251 | without refusals, and with no owner exposed only to changes between their snapshot and their check that could still pass it: a checked change leaves an owner, whatever else happens, if and only if one is left that no other change has passed its check to take |
| Memberships.LastOwnerCanBeLost | internal/adminauth/membership.go:239-251 | a concrete run in which the rule counts two owners and none is left |
| Memberships.NoSessionOutlivesADisable | internal/adminauth/membership.go:257-276 | in every state of every run a live session is of an active membership nobody refused |
| Memberships.NoSessionIsRevived | internal/adminauth/membership.go:277-293 | a session that ended stays ended |
| Memberships.EnablingRevivesNone | internal/adminauth/membership.go:277-293 | the commit that enables a membership leaves it no live session |
| ResetLinks.OneLiveLink | internal/adminauth/resetrequest.go:97-141 | over all interleavings of requests, withdrawals, expiry and consumption an account holds at most one live link |
| ResetLinks.NoRequestRetires | internal/adminauth/resetrequest.go:246-304 | no step of a request changes any existing link: the fused retirement finds nothing |
| ResetLinks.OnlyItsStepMovesALink | db/queries/passwordresets.sql:139-159 | in every run a link is used exactly by its own consumption and cancelled exactly by its withdrawal or a consumption that takes it along; nothing else of it moves, and one comes only with the commit of a request that minted it |
| ResetLinks.OnlyOpenAccountsGetLinks | db/queries/passwordresets.sql:139-159 | a link is minted only for an account that is active as it is minted |
| ResetLinks.ARequestThatMeetsNobody | internal/adminauth/resetrequest.go:257-304 | by its own steps alone a request leaves a usable link as it is, or gives an account without one exactly the link asked for |
| ResetLinks.ARequestLeavesALink | internal/adminauth/resetrequest.go:257-304 | a request that completes kept a link that was live while it ran, or leaves a new one |
| ResetLinks.ARequestWithoutALinkMints | internal/adminauth/resetrequest.go:113-120 | an account without a live link throughout gets one from the next request that completes |
| ResetLinks.PathKeepsInv | db/queries/passwordresets.sql:287-361 | what the lock's holder read stays true until it commits |
| ResetConsume.SpendReaches | db/migrations/00072_set_identity_passwords_and_link_legacy_rows.sql:488-588 | a consumption spends its link and no other, gives the new password to every row of the link's person, or to the link's own row when it is nobody's, leaves those rows no session and no live link, and touches no other row and no other row's links |
| ResetConsume.SpendRenewsThePerson | db/migrations/00072_set_identity_passwords_and_link_legacy_rows.sql:554-560 | the link's person gets the new password and keeps no live link; nobody else's password or links move, and a link of a row that is nobody's moves no person |
| ResetConsume.SpendableMeans | db/migrations/00072_set_identity_passwords_and_link_legacy_rows.sql:500-560 | a link can be spent if and only if it is neither used nor withdrawn nor past its time, and, a row's, its row is active and not refused |
| ResetConsume.RefusingEndsTheLink | db/migrations/00079_list_and_keep_the_confirmation_window.sql:419-444 | a person may refuse a membership while a link to it is live: that ends the link and the row's sessions, and no other row's links |
| ResetConsume.StaysLinked | db/migrations/00079_list_and_keep_the_confirmation_window.sql:419-444 | while a link is live, its row stays with its identity and is not refused |
| ResetConsume.SpentAtMostOnce | internal/adminauth/reset.go:623-767 | of all consumptions of one link, by anybody and over any path, at most one happens |
| ResetConsume.Server.AskPerson | internal/adminauth/reset.go:653-667 | the per-identity call: two looks and one write, or none |
| ResetConsume.Server.AskRow | internal/adminauth/reset.go:669-687 | the linked row's call: a steady link it did not spend was not linked when it looked |
| ResetConsume.Server.Today | internal/adminauth/reset.go:704-735 | today's statement with its revocation: 0 rows on a usable link mean it is linked; the stamp is not kept |
| ResetConsume.Server.Consume | internal/adminauth/reset.go:623-767 | success writes once, and exactly the link's own spend: the link could be spent and now is, its person and every row it reaches have the new password and those rows no session; a refusal writes nothing; when every call is answered, an error means a refused membership, and a link that stays live on an active row is spent wherever the linking step falls, if and only if its membership is not refused when today's path runs |
| Candidates.LinkedRowsTakeNoSlot | internal/adminauth/identityreset.go:85-125 | the identity's own rows push no unlinked row out of the window |
| Candidates.WindowIsPrefix | internal/adminauth/manager.go:546-549 | the window is the first eight candidates in order, or all of them |
| ResetRequests.Request.IssueForRow | internal/adminauth/resetrequest.go:196-242 | one candidate: the address first, then at most one link, to the address its own row answered |
| ResetRequests.Request.IssueForRows | internal/adminauth/resetrequest.go:193-244 | it fails exactly when a call answers an error; on success every candidate is settled and the grants are exactly the links minted; a link nobody can withdraw is left exactly when that call is a mint that had committed |
| ResetRequests.Request.WithdrawAfterFailure | internal/adminauth/identityreset.go:152-175 | every link in hand is withdrawn, whatever became of the one before |
| ResetRequests.Request.OpenForPerson | internal/adminauth/identityreset.go:177-217 | an open that answers an error leaves no link, whether or not it committed, unless its withdrawal fails; what each answer leaves, exactly |
| ResetRequests.Request.IssueForEmail | internal/adminauth/resetrequest.go:166-187 | the same for a request by row, inside the window |
| ResetRequests.ATwoRowRequestLeavesALink | internal/adminauth/resetrequest.go:224-233 | a concrete request of two rows that fails, withdraws all it can, and leaves a live link |
| ResetRequests.Request.IssueForPerson | internal/adminauth/identityreset.go:82-141 | the same for a request by person, for every position of the failure: if its withdrawals succeed a failed request leaves a live link if and only if its failing call is a per-row mint that had committed; the identity's grant is first and goes to the identity's stored address |
| OpAdmin.IssueTimeGrows | cmd/opadmin/main.go:831-844 | an account's issue time never goes back, whatever the clocks do between applications, when no accepted script is stamped before its generation |
| OpAdmin.GenerationsGrow | cmd/opadmin/main.go:923-1003 | accepted scripts of one account have strictly increasing generation times, for any generating clock |
| OpAdmin.InstalledOnce | cmd/opadmin/main.go:929-947 | each script's hash is installed at most once |
| OpAdmin.UsedOnce | cmd/opadmin/main.go:929-947 | a used link never works again, however scripts are replayed |
| OpAdmin.SupersededForGood | cmd/opadmin/main.go:929-947 | a superseded link never works again |
| OpAdmin.DisabledForGood | cmd/opadmin/main.go:1004-1032 | a disabled account is never opened again and holds no session |
| OpAdmin.AcceptedExactly | cmd/opadmin/main.go:831-844 | what each script is accepted for, exactly, and a link just given works until half an hour from its stamp |
| OpAdmin.AcceptedWhileFresh | cmd/opadmin/main.go:818-844 | no script is accepted before its generation time or over half an hour after it, and what an accepted one stamps |
| OpAdmin.UsedWithinHalfAnHour | db/migrations/00026_create_platform_operator.sql:754-771 | no link is used at or after half an hour from its issue |
| OpAdmin.OnlyItsStepMovesAnAccount | cmd/opadmin/main.go:923-1032 | in every step an account's address stays; a new link comes only with an accepted reset, an activation only by the account's link, a disabling only by an accepted script, each naming its address; a session comes and goes only by its own steps or the account's reset or disabling |
| OpAdmin.AddressesAreOwn | cmd/opadmin/main.go:868-892 | no two accounts ever share an address |
| OpAdmin.ReturnsIffStampedBefore | cmd/opadmin/main.go:929-985 | an accepted script can be installed again in some continuation whose stamps hold if and only if it is a reset and its own stamp precedes its generation time with room for another script's between |
| OpAdmin.AStepBackInsideReopens | cmd/opadmin/main.go:937-946 | a concrete run: if the clock steps back inside an application, a used link works again |
| OpAdmin.Streams.Run | cmd/opadmin/main.go:412-453 | for every way the writes are cut: what stdout would commit had its link delivered, a delivered link had the whole body written first, and the script commits if and only if body and link were written whole and the last write reached `COMMIT;`, or was cut right before the semicolon and the refusal left nothing after it |
| OpAdmin.ReportsFailureAndCommits | cmd/opadmin/main.go:429-433 | a run that reports a failure although its script commits, for both cuts |
| RotateKek.ReadRows | cmd/rotatekek/main.go:353-423 | answers rows if and only if the stream ended whole, in shape and without a repeated uid, and then every row in order |
| RotateKek.UnwrapAny | internal/sun/keys.go:199-217 | opens a reference exactly when some key of the list does, to the key it seals |
| RotateKek.Classify | cmd/rotatekek/main.go:459-516 | a row gets a new reference exactly when the old key alone opens it, sealing the same key of the same tag; read = re-sealed + already + unopenable, and both breakdowns count and sum to the unopenable |
| RotateKek.BumpAddsOne | cmd/rotatekek/main.go:505-509 | a breakdown's total moves with its count |
| RotateKek.UpdateMatches | cmd/rotatekek/main.go:655-675 | the joined update matches every planned row if and only if each is as it was read, and moves no other |
| RotateKek.AllOrNothing | cmd/rotatekek/main.go:587-678 | the transaction commits if and only if the session sees all, the count agrees and every planned tag is its tenant's and has the reference it was read with; then those tags and no others carry new references, and stay their tenant's |
| RotateKek.BothKeysReadThroughout | internal/sun/keys.go:166-217 | a reader holding both keys reads the same tags to the same keys before and after |
| RotateKek.WhatStillNeedsTheOldKey | cmd/rotatekek/main.go:56-79 | after the commit a tag needs the old key if and only if it was left alone and the old key opens it |
| RotateKek.TheCountDecides | cmd/rotatekek/main.go:596-615 | with the row count equal, the read is all the tags the guard sees if and only if none that was read is gone |
| RotateKek.CommittedMeansCovered | cmd/rotatekek/main.go:587-615 | for any mix of rows done, re-sealed and unopenable: while no tag goes and no key changes, a rotation that commits had read the whole park |
| RotateKek.OldKeyAfterwards | cmd/rotatekek/main.go:56-79 | after any rotation that committed the old key is needed by exactly the tags that came under it after the guard |
| RotateKek.NewKeyAloneSuffices | cmd/rotatekek/main.go:56-79 | and the new key alone reads, to the same keys, every tag the guard counted that either key opened |
| RotateKek.SecondRunIsIdle | cmd/rotatekek/main.go:462-468 | a second run re-seals exactly the tags that came under the old key after the first one's guard, whatever the first found done or unopenable |
| RotateKek.AFirstRotationCovers | cmd/rotatekek/main.go:596-615 | where every row read is re-sealed the transaction checks coverage by itself, whatever happened to the table since the read |
| RotateKek.TheCountIsNotCoverage | cmd/rotatekek/main.go:596-615 | what it takes for the count to agree without coverage: a tag removed by the table's owner and another added; then the old key is still needed |
| RotateKek.Run | cmd/rotatekek/main.go:193-260 | a script only for two different keys, a whole clean non-empty read, and an exact acceptance of what does not open; exit 0 if and only if every row opened; when nothing fails, a script in every such case |
| SignIn.VerifiedMeans | internal/adminauth/manager.go:425-446 | a row verifies if and only if some attempt on it matched and it was active |
| SignIn.Manager.WhoVerifies | internal/adminauth/manager.go:557-582 | the rows the comparisons verify are exactly the active ones of the window whose own digest the password matches |
| SignIn.Manager.Pad | internal/adminauth/manager.go:681-697 | brings the comparisons up to eight, each with the digest given or else the dummy |
| SignIn.Manager.Authenticate | internal/adminauth/manager.go:506-592 | exactly eight comparisons unless the resolver fails: the window's own digests in order, the rest with the first candidate's or, without one, the dummy; signed in as exactly the active rows of the window whose digest the password matches |
| SignIn.Manager.LinkAll | internal/adminauth/identity.go:281-303 | each proof is consumed by its link or revoked; an error answer of a link, or of a refused link's revocation, ends it with all the rest revoked, and only that does; how many were linked, for every script of answers |
| SignIn.Manager.RevokeProofs | internal/adminauth/identity.go:367-384 | every revocation is tried, whatever became of the one before |
| SignIn.Manager.SignInAsIdentity | internal/adminauth/identity.go:243-303 | every proof session given out is consumed or its revocation tried; an error after the identity's session was given out reports it, with the true result of its revocation; with no failed revocation a sign-in that did not enter leaves exactly the sessions whose open committed and answered an error, and the answers say when there is one; a completed sign-in asked for a proof on every verified row and for a link of every proof; whether and how it enters, is refused or breaks, how many rows it links and whether the abandoned session is revoked follow from the answers, for every script |
| SignIn.AProofIsLeft | internal/adminauth/identity.go:249-263 | a concrete sign-in that fails and leaves a proof session |
| SignIn.AnIdentitySessionIsLeft | internal/adminauth/identity.go:266-276 | a concrete sign-in that fails and leaves the identity's session, reported to nobody |
| SignIn.Manager.AuthenticatePerson | internal/adminauth/identity.go:129-241 | exactly nine comparisons unless a resolver fails, with which digest each; a refusal of an address always pays one open step and one event call; whoever is let in proved the password; the outcome follows from who proved what and the calls' answers, for every script; when no call fails, the person enters as the identity if and only if its password matched, it has an active membership and the open was not refused |
| CostMeter.MedianIsUnique | internal/adminauth/identity.go:513-526 | the median the meter answers is one number, fixed by counts alone |
| CostMeter.BelowIgnoresOrder | internal/adminauth/identity.go:513-526 | it does not depend on where the ring starts |
| CostMeter.Meter.Observe | internal/adminauth/identity.go:499-511 | the ring holds the last 32 positive durations, oldest overwritten first |
| CostMeter.Meter.Typical | internal/adminauth/identity.go:513-526 | answers the median of the last 32 observations, at most the ceiling; the fallback before the first |

## Left out

- Accent.Suggest: `math.Pow` and the rounding of float64 luminance; the table is any non-decreasing real one, so two colours within a rounding error of 4.5:1 may be judged differently by the program.
- LogoResize.Resize: the offset of the source's bounds and the reading of colours from each image type; a source is its premultiplied 16-bit samples.
- LogoRead.Read: the caller's gate of slots and the formats' decoders and encoders, whose behaviour is the standard library's.
- Writes.ExactlyOnceOverRuns: a request without an idempotency key, the order in which a sweep picks its hundred rows, and the two validators; the work is one step with an outcome.
- Memberships.LastOwnerOverRuns: the audit row, the list of members, the display fields, and a resolver's choice of two hundred among more owners, which is any two hundred here.
- Memberships.NoSessionOutlivesADisable: a session opened by a writer that takes no lock on the membership; none exists after migration 00087.
- ResetLinks.OneLiveLink: links minted outside the locked path (the package's unexported `issue`), which the code's own comment excludes.
- ResetConsume.Server.Consume: the counts an audit row carries (sessions revoked, siblings retired), the confirmation window and the mark that the address is proved, which the same statements write.
- ResetRequests.Request.IssueForPerson: what other requests do to the same accounts meanwhile, beyond what the answers tell; ResetLinks has the interleavings. Withdrawal deadlines are not modelled.
- OpAdmin.UsedOnce: the TOTP step, the password and the lock counters; that a hash is drawn for one script is assumed (`HashNamesScript`), and it is SHA-256 of 32 random bytes.
- OpAdmin.Streams.Run: the text of the statements, the parser of the command line and its validators.
- RotateKek.CommittedMeansCovered: another rotation, or the table's owner, writing keys between the read and the guard; `AllOrNothing` and `WhatStillNeedsTheOldKey` hold whoever writes.
- MembershipRaces.KeepsAnOwnerUnrefusedIffOneIsNotTaken: the exact condition where an owner is exposed only to changes between their snapshot and their check, which depends on the order in which those take their locks; `LostToChangesAlone` holds there too.
- RotateKek.AllOrNothing: `lock_timeout`, the COPY framing, the temporary table; a transaction that times out changes nothing, as one that aborts.
- RotateKek.Classify: the wiping of opened keys from memory.
- SignIn.Manager.AuthenticatePerson: wall-clock time, the budget that decides which event a failure writes, and which of the person's businesses a session lands in.
- CostMeter.Meter.Typical: the mutex; each call is one step.
- The configuration, the theme's files, the API guide, the HTTP handlers, cookies, e-mail delivery, log redaction and the web and Android clients: no state worth a proof, or input and output.
