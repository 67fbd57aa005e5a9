# maintainer-d: a verified model of its core

Maintainer-d keeps the register of CNCF project maintainers and carries it to the services around it:
a FOSSA organisation, a Kubernetes cluster and a web page. This project models the parts with the most
state and proves what they keep.

- **FOSSA controller** (`Fossa*.dfy`). One reconcile pass compares the addresses of a resource with a remote
  service that other people change at the same time. A *schedule* gives, for each call of a run, the acts of
  others just before it and whether the call is refused or its reply lost. The class `Reconciler` follows the
  controller's loops and is proved to compute the function `Pass`; the theorems are about `Pass`, single
  passes and whole runs.
- **Onboarding webhook** (`MockFossa.dfy`, `Webhook*.dfy`). The two issue commands over the mock service that
  ships with the repository, with failing database calls and a service that may refuse.
- **Maintainer files** (`Ref*.dfy`). The four patterns as scanners, the table reader, what both mean by
  positions of the text, and the two readings of a file that must name the same handles.
- **Database to cluster** (`Cluster*.dfy`). Object names, spec comparison, the get, create, update loop,
  and what the job leaves of a database.
- **Maintainer store** (`MaintainerStore.dfy`, `MaintainerLaws.dfy`). Upserts and company merges as database
  states, with rollback.
- **Smaller pieces**: the issue cache under interleaving (`IssueCache.dfy`), sorting and paging of recent
  projects (`RecentProjects.dfy`), worksheet rows with carried columns (`SheetRows.dfy`), and the staff
  controller's event filter (`StaffFilter.dfy`).

`Text.dfy` holds the string operations they share. `dafny verify dfyconfig.toml` checks everything.

## What the proofs found

Where the code does not do what its comments or documents say, the model follows the code; lemmas show that it
happens and say exactly when.

- A failing FetchUsers makes the controller forget every stored invitation without asking for another pass
  (`FossaDiscipline.FetchUsersFailureForgets`, `FossaDiscipline.FetchUsersCanFail`), and moves the condition's transition time although nothing
  visible changed (`FossaConditions.InvitationCondition`).
- The numbers in the controller's summary can be those of an earlier pass (`FossaOutcomes.SummaryMessage`).
- The 48 hour test of an old invitation decides nothing (`FossaIndependence.PassIgnoresHistory`).
- An address the spec lists twice, letter case aside, can be invited twice in a pass, and no other
  (`FossaSends.InvitedOnceExactlyWhen`).
- A lost service-team row crashes the sign-up command, and the project cannot be signed up again
  (`WebhookEffects.CrashesExactlyWhen`, `WebhookEffects.CrashHappens`, `WebhookRuns.CrashIsForGood`).
- A repeated sign-up whose team lookup fails opens a second team, unless the project's name is taken at the
  service or creation is refused (`WebhookEffects.SigningAgainIsQuietExactlyWhen`).
- A maintainer whose address is " EMAIL_MISSING" is skipped, and the comment lists no missing field
  (`WebhookReports.PaddedPlaceholderIsNotReported`).
- A file with "@a_" or "-a" counts as naming "a" on one side and not on the other
  (`RefContains.ExtractedButNotMentioned`); handles from tables never do (`RefContains.TableHandleIsMentioned`).
- A project whose maintainers repeat a reference, for instance two without an address, can keep a stale object
  (`ClusterSync.ProjectIsComparedExactlyWhen`, `ClusterSync.SameAddressHidesAChange`).
- Upserts compare handles as given but store them trimmed, and placeholders match strangers
  (`MaintainerLaws.UpsertKeepsUniqueExactlyWhen`, `MaintainerLaws.PaddedHandleIsShared`,
  `MaintainerLaws.NewcomerExactlyWhen`, `MaintainerLaws.PlaceholderAdoptsAStranger`). A request with the handle
  " bob" and nothing else adds a maintainer each time it is repeated
  (`MaintainerLaws.UpsertTwiceIsOnceExactlyWhen`, `MaintainerLaws.PaddedHandleIsAddedTwice`).
- A refresh in flight can undo an invalidation (`IssueCache.InvalidationIsUndoneExactlyWhen`,
  `IssueCache.InvalidationCanBeUndone`).
- Pages sorted by name or date can show a row twice when a page ends between rows that tie
  (`RecentProjects.PagesAreDisjointExactlyWhen`).
- An empty annotation value can hide a change from the staff controller (`StaffFilter.FilterIsExactWhen`).

## Model

| member | source | states |
|---|---|---|
| FossaService.Service.Do | code-scanners/internal/controller/codescannerfossa_controller.go:343-352 | one call over the network: other actors act first, the call may be refused or its reply lost, and the state, the answer and the log entry are those of the service contract |
| FossaService.PerformKeepsValid | plugins/fossa/client.go:432-488 | whatever a schedule does around a call, pending addresses stay apart from users, members stay users listed once, and team ids stay distinct and positive |
| FossaService.TeamIsCreatedOnce | plugins/fossa/client.go:458-474 | a team once created is found under its name, and creating it again changes nothing and answers the same |
| FossaReconciler.Reconciler.Reconcile | code-scanners/internal/controller/codescannerfossa_controller.go:82-282 | steps 3 to 10, including every early return, compute the pass function, on which the properties below are proved |
| FossaReconciler.Reconciler.EnsureFossaTeam | code-scanners/internal/controller/codescannerfossa_controller.go:338-358 | fetch the team, else create it |
| FossaReconciler.Reconciler.EnsureUserInvitations | code-scanners/internal/controller/codescannerfossa_controller.go:362-498 | the invitation loop computes the list, the pending flag and the failure of the specification; the age test of an old invitation decides nothing |
| FossaReconciler.Reconciler.Invite | code-scanners/internal/controller/codescannerfossa_controller.go:392-495 | one address: accepted, pending, failed or newly invited, with its dates and message |
| FossaReconciler.Reconciler.EnsureTeamMembership | code-scanners/internal/controller/codescannerfossa_controller.go:503-588 | the membership loop adds the waiting users who are not members and marks them |
| FossaReconciler.Reconciler.EnsureConfigMap | code-scanners/internal/controller/codescannerfossa_controller.go:147-180 | the map is written only when its data differ, and holds the wanted data on success |
| FossaReconciler.Reconciler.ProcessUsers | code-scanners/internal/controller/codescannerfossa_controller.go:182-252 | step 8, from the specification of the two loops, the counters and the condition |
| FossaReconciler.Count | code-scanners/internal/controller/codescannerfossa_controller.go:206-222 | the six counters are the numbers of entries of each status |
| FossaReconciler.Report | code-scanners/internal/controller/codescannerfossa_controller.go:206-240 | the counters select the condition and its reason |
| FossaReconciler.ResourceCopy.Set | code-scanners/internal/controller/codescannerfossa_controller.go:591-616 | updates the first condition of the kind in place, only if status or reason changed, or appends one |
| FossaHistory.PassIsGenuine | code-scanners/internal/controller/codescannerfossa_controller.go:82-282 | a pass acts on the service only by the calls it logs: the log chains the service states, call by call, under every schedule |
| FossaHistory.PassKeepsValid | code-scanners/internal/controller/codescannerfossa_controller.go:82-282 | a pass keeps the service invariant under every schedule of faults and interference |
| FossaHistory.SendsAreSpaced | code-scanners/internal/controller/codescannerfossa_controller.go:392-495 | if one pass successfully invites an address twice, in any letter case, the invitation expired or the person left in between; accepting or joining cannot cause it |
| FossaSafety.PassWitnessed | code-scanners/internal/controller/codescannerfossa_controller.go:362-588 | in any pass that stores a list, every entry marked AddedToTeam was a team member at some call of that same pass, whatever the stored list said before |
| FossaSafety.CalmPassEndsOnTeam | code-scanners/internal/controller/codescannerfossa_controller.go:503-588 | without interference (calls may still fail) those entries are members at the end of the pass |
| FossaSafety.RunSafety | code-scanners/internal/controller/codescannerfossa_controller.go:82-282 | over every run of passes, other actors' acts and spec edits, each stored AddedToTeam is backed by a moment of the pass that stored it |
| FossaQuiet.QuietPassSettles | code-scanners/internal/controller/codescannerfossa_controller.go:182-252 | the exact effect of a pass without fault and interference: each address ends on the team if it belongs to the organisation and pending otherwise, and the stored list says so |
| FossaQuiet.SettledPassIsSilent | code-scanners/internal/controller/codescannerfossa_controller.go:121-204 | in a settled system a pass issues only reads and writes no map |
| FossaQuiet.SecondPassIsSilent | code-scanners/internal/controller/codescannerfossa_controller.go:121-204 | from any state, the second of two such passes creates, invites, adds and writes nothing and lists the same addresses and statuses, even when the spec repeats an address |
| FossaConverges.PassConverges | code-scanners/internal/controller/codescannerfossa_controller.go:183-252 | from any service state and any stored status, once all listed addresses are users, one pass whose calls go through lists all as added, sets the condition and asks for no requeue, whatever others do around its calls as long as nobody listed leaves; all are on the team at its end unless one is taken off during the pass |
| FossaConverges.QuietPassConverges | code-scanners/internal/controller/codescannerfossa_controller.go:183-252 | so when others do nothing all are on the team; members removed by hand earlier come back |
| FossaConverges.PassInvitesAll | code-scanners/internal/controller/codescannerfossa_controller.go:183-198 | after a pass whose calls go through everybody listed is invited or in the organisation, among any acts of others but expiry or departure of somebody listed |
| FossaConverges.InviteAcceptJoin | code-scanners/internal/controller/codescannerfossa_controller.go:183-252 | such a pass, acceptances, and a second pass among other people's acts: everyone listed is added, and on the team at its end unless taken off meanwhile |
| FossaIndependence.PassIgnoresHistory | code-scanners/internal/controller/codescannerfossa_controller.go:370-497 | under any one schedule, stored status and clock change no call, status, message, requeue or error; only timestamps differ |
| FossaConditions.UpsertIsMapUpdate | code-scanners/internal/controller/codescannerfossa_controller.go:591-616 | setting a condition changes the visible condition of its own kind only, as a map update would |
| FossaConditions.PassConditions | code-scanners/internal/controller/codescannerfossa_controller.go:104-240 | a completed pass leaves exactly one condition of each of its three kinds, other kinds untouched |
| FossaConditions.PassKeepsConditions | code-scanners/internal/controller/codescannerfossa_controller.go:104-282 | every pass, failing or not, keeps at most one condition of a kind, loses none, and touches its own three kinds only |
| FossaConditions.RunKeepsConditions | code-scanners/internal/controller/codescannerfossa_controller.go:104-282 | and so does every run of passes, other actors' acts and spec edits |
| FossaConditions.InvitationCondition | code-scanners/internal/controller/codescannerfossa_controller.go:183-240 | the transition time stays while status and reason stay, unless FetchUsers failed: then the reason is written twice and the time moves |
| FossaConditions.PassTransitions | code-scanners/internal/controller/codescannerfossa_controller.go:104-240 | over a completed pass each of the three transition times moves only when status or reason changes, except that the third always moves after a failed FetchUsers |
| FossaDiscipline.PassSendsJustified | code-scanners/internal/controller/codescannerfossa_controller.go:414-453 | an invitation is sent only right after the service said none is pending, to an address missing from the users fetched earlier in the pass |
| FossaSends.PassSendsAreListed | code-scanners/internal/controller/codescannerfossa_controller.go:392-495 | under every schedule a pass asks to invite an address at most as often as the spec lists it, letter case aside |
| FossaSends.InvitedOnceExactlyWhen | code-scanners/internal/controller/codescannerfossa_controller.go:392-495 | some schedule makes a pass invite an address twice iff the spec lists it more than once |
| FossaSends.NobodyInvitedTwiceExactlyWhen | code-scanners/internal/controller/codescannerfossa_controller.go:392-495 | no address can be invited twice iff the listed addresses differ by more than letter case |
| FossaDates.InvitationDatesAreStable | code-scanners/internal/controller/codescannerfossa_controller.go:397-493 | under every schedule, when the stored list answers addresses that differ by more than case, an entry keeps its date iff every question about its address was answered that the invitation is pending; a user is never asked about, and a pending invitation without a date gets the clock's |
| FossaEntries.PassEntries | code-scanners/internal/controller/codescannerfossa_controller.go:370-588 | under every schedule, for addresses listed once, which calls a pass makes about an address and how their logged answers decide its entry: failed iff the question errored or the invitation was refused, pending iff the invitation stands, added iff the address is let in as a user and the team has it, accepted iff only the former; message and dates likewise |
| FossaOutcomes.CredentialsMissing | code-scanners/internal/controller/codescannerfossa_controller.go:104-117 | without credentials no call is made, one condition turns false, and the pass is not repeated by itself |
| FossaOutcomes.TeamUnavailable | code-scanners/internal/controller/codescannerfossa_controller.go:122-132 | when the team is neither fetched nor created the pass fails, asks for another in a minute, and only the condition changes |
| FossaOutcomes.PassStores | code-scanners/internal/controller/codescannerfossa_controller.go:134-282 | once the team is there a pass fails iff a cluster operation does, and what is left behind then; otherwise team reference, generation, map, annotation and conditions are stored |
| FossaOutcomes.SummaryMessage | code-scanners/internal/controller/codescannerfossa_controller.go:206-240 | the numbers in the condition's message are those of the last pass that changed status or reason, unless FetchUsers failed |
| FossaDiscipline.TalliesAddUp | code-scanners/internal/controller/codescannerfossa_controller.go:206-222 | the six counters add up to the length of the list |
| FossaDiscipline.SummaryIsExact | code-scanners/internal/controller/codescannerfossa_controller.go:206-246 | four statuses only; the list is empty iff FetchUsers failed, else one entry per address in order; requeue in an hour iff somebody is pending or accepted; condition true iff all on team; reason Failed iff all failed |
| FossaDiscipline.FetchUsersFailureForgets | code-scanners/internal/controller/codescannerfossa_controller.go:377-381 | a pass that stores its result forgets every stored invitation iff FetchUsers failed; it then asks for no requeue and reports the mixed reason |
| FossaDiscipline.FetchUsersCanFail | code-scanners/internal/controller/codescannerfossa_controller.go:377-381 | a schedule that fails the second call of a pass does it, for every resource whose team is known |
| MockFossa.Client.Create | onboarding/fossa_mock.go:45-67 | a team gets the next id, unless the name is taken or creation is refused |
| MockFossa.CreatedInTurn | onboarding/fossa_mock.go:45-67 | two teams created one after the other get consecutive ids |
| MockFossa.SentAgain | onboarding/fossa_mock.go:70-86 | an invitation sent again is answered as existing, and after acceptance as membership; neither invites anew |
| MockFossa.Client.Send | onboarding/fossa_mock.go:70-86 | a stranger becomes invited; a user or invited address is answered as such; every request is logged |
| MockFossa.Client.Add | onboarding/fossa_mock.go:108-126 | a user not yet on the list is appended; nobody else is |
| MockFossa.Client.FetchEmails | onboarding/fossa_mock.go:96-105 | the members of a known team |
| Webhook.EventListener.FilterEligible | onboarding/server.go:613-626 | who takes part, and the gaps of the others |
| Webhook.EventListener.TeamMap | db/store_impl.go:414-437 | the rows as a map, the last row of a project winning |
| Webhook.EventListener.CreateServiceTeam | db/store_impl.go:468-488 | first-or-create on the team id alone |
| Webhook.EventListener.EnsureTeam | onboarding/server.go:425-452 | the recorded team, or a new one; a failed lookup counts as no team |
| Webhook.EventListener.InviteAll | onboarding/server.go:457-486 | the loop computes the fates, the announcements and the service state of the specification |
| Webhook.EventListener.SignProjectUp | onboarding/server.go:393-507 | the command with all its early returns, and the crash on a missing record |
| Webhook.EventListener.AddMaintainer | onboarding/server.go:556-599 | one turn: pending, member, refused or added, with its event |
| Webhook.EventListener.AddProjectMaintainers | onboarding/server.go:532-601 | the accepted command computes its specification |
| Webhook.EventListener.OnAccepted | onboarding/server.go:178-196 | a project without a recorded team, or with team id zero, is told so |
| WebhookReports.WhoTakesPart | onboarding/server.go:613-626 | eligible are those whose trimmed address and handle are neither empty nor a placeholder, in the order of the roster |
| WebhookReports.WhoIsSkipped | onboarding/server.go:403-423 | everybody else has a gap of their own, in order, with name and missing fields |
| WebhookReports.PaddedPlaceholderIsNotReported | onboarding/server.go:415-420 | a placeholder with a space before it is skipped without a field being reported missing |
| WebhookReports.SignReaches | onboarding/server.go:389-507 | every invitation requested and every member added is of somebody on the roster with address and handle given, and once inviting begins each of them gets a request |
| WebhookReports.AcceptedReaches | onboarding/server.go:532-601 | the accepted command adds nobody else and requests no invitation |
| WebhookReports.SignReport | onboarding/server.go:389-507 | the comment line by line: the count, the gaps, the team, the problems in order, one line naming the strangers invited, one naming the users added, the repositories |
| WebhookReports.SignFailsExactlyWhen | onboarding/server.go:393-489 | each way of failing as an iff over the state before the command |
| WebhookReports.FailedSignReport | onboarding/server.go:389-456 | what is reported when there is no team to have, and when nobody takes part |
| WebhookReports.AcceptedReport | onboarding/server.go:556-600 | the line of each maintainer from the state before the command, and the audit event of each one added |
| WebhookReports.AcceptedFailsExactlyWhen | onboarding/server.go:178-196 | when the accepted command is silent, reports a missing team, has nobody to add, or fails |
| WebhookEffects.InvitationsOutcome | onboarding/server.go:460-479 | every fate is a function of the state before the loop, repeated addresses included; invitations and members grow by exactly the invited and the joined |
| WebhookEffects.RequestsInOrder | onboarding/server.go:461 | one invitation request per eligible maintainer, in order |
| WebhookEffects.EachIsAnnouncedOnce | onboarding/server.go:460-486 | as a multiset, eligible handles are the invited, the joined and those named in a problem |
| WebhookEffects.SigningTwiceIsOnce | onboarding/server.go:389-507 | a second run leaves teams, invitations, members and records as the first left them, whatever the later database calls of either do |
| WebhookEffects.SigningAgainIsQuietExactlyWhen | onboarding/server.go:389-507 | when the first run could read its records, a second run leaves records and service as they were iff its own team lookup works, or it stops before using it, or the team name is taken, or creation is refused; otherwise it opens a second team |
| WebhookEffects.CrashesExactlyWhen | onboarding/server.go:443-495 | the nil dereference happens iff the team had to be created and the new row cannot be seen: the write failed, the id is taken, or the FOSSA service is not service 1 |
| WebhookEffects.CrashHappens | onboarding/server.go:443-495 | one eligible maintainer, an empty table and a failing write are enough |
| WebhookRuns.CrashIsForGood | onboarding/server.go:433-442 | after a crash, whatever is run in between, every later run with a readable roster fails at team creation and changes nothing, as long as commands for the project use its name |
| WebhookEffects.AddingOutcome | onboarding/server.go:556-599 | the loop's own list equals the service's list throughout, and every fate is decided by the state before the loop |
| WebhookEffects.AddingIsAccountedFor | onboarding/server.go:556-600 | one line per eligible maintainer in order; membership grows by one per audit event when none is lost; other teams and invitations are untouched |
| WebhookEffects.WhoIsOnTheTeam | onboarding/server.go:556-599 | an address is on the team afterwards iff it was before, or belongs to an eligible maintainer who is a user without a pending invitation and is not refused |
| WebhookEffects.AddingTwiceIsOnce | onboarding/server.go:532-601 | repeating the command adds nobody and writes no event |
| WebhookRuns.RunKeepsValid | onboarding/server.go:389-626 | every run of commands, team creations, invitations and acceptances keeps invitations and users apart, members users without repeats, team ids and recorded ids distinct |
| WebhookRuns.RunConfined | onboarding/server.go:389-626 | over every run, with rosters changing, a team recorded for a project at the end, from the start or by a command of the run, gained only eligible maintainers of that project |
| WebhookRuns.RecordsStay | onboarding/server.go:425-452 | a recorded team stays recorded for its project over every run |
| WebhookRuns.OnboardingCompletes | onboarding/server.go:389-626 | sign up, acceptances, accepted command: every eligible maintainer is on the recorded team |
| RefTables.SeparatorIsNoHeader | refparse/maintainer_refs.go:147-169 | a separator row never heads a table, so the extra increment skips nothing |
| RefTables.TablesAreOrdered | refparse/maintainer_refs.go:128-170 | tables share no rows and later ones stand below |
| RefTables.CollectRows | refparse/maintainer_refs.go:147-168 | the handles of one table, row by row until it breaks off |
| RefTables.RecordRows | cmd/web-bff/main.go:3708-3733 | the same rows, each new handle with its first row |
| RefTables.ParseTables | refparse/maintainer_refs.go:63-171 | the handles found are exactly the valid GitHub cells of rows reachable from a header and separator |
| RefTables.TableLines | cmd/web-bff/main.go:3689-3735 | the same handles, each with the first row that yields it |
| RefMeaning.AtHandlesMeaning | refparse/maintainer_refs.go:17-25 | the handles found after an @ are exactly those at an @ with no handle character or underscore before it, up to where the handle characters end or 39 of them |
| RefMeaning.UrlHandlesMeaning | refparse/maintainer_refs.go:26-41 | those found behind the host are exactly those at an occurrence that begins inside no earlier match, is not reserved and has no path segment behind it |
| RefMeaning.ListItemMeaning | refparse/maintainer_refs.go:42-52 | a list item is a dash or star between blanks and the longest name that ends at a word boundary |
| RefMeaning.KeyValueMeaning | refparse/maintainer_refs.go:45-58 | a key's value is such a name behind the word, a colon and blanks |
| RefMeaning.ParseRowMeaning | refparse/maintainer_refs.go:93-107 | a row's cells are the trimmed parts between the bars of the trimmed line |
| RefMeaning.TitledFirstMeaning | refparse/maintainer_refs.go:68-145 | the GitHub column is the first one with one of the five titles |
| RefMeaning.CellHandleMeaning | refparse/maintainer_refs.go:109-167 | a cell yields a handle iff inside backticks and behind an optional @ it holds, between spaces, 1 to 39 handle characters that are not reserved |
| RefScan.WholeEqualsLines | refparse/maintainer_refs.go:17-42 | the two free patterns find in the whole text exactly what they find line by line |
| RefParse.ExtractGitHubHandles | refparse/maintainer_refs.go:11-61 | exactly the handles the file names, told by positions of its text: spots of the patterns and cells of its tables |
| RefParse.BodyEqualsLines | cmd/web-bff/main.go:3617-3780 | a handle is in the body iff a table yields it or some line contains it |
| RefParse.BuildMaintainerRefLines | cmd/web-bff/main.go:3617-3780 | its keys are exactly the handles the file names; each value is the trimmed first table row that yields the handle, else the first line that names it |
| RefParse.RegisteredHandles | cmd/web-bff/main.go:3599-3606 | the folded account names that are not placeholders |
| RefParse.AccountMeaning | cmd/web-bff/main.go:3599-3606 | an account registers the folded text between its spaces unless that is empty or the placeholder |
| RefParse.BuildMaintainerRefOnly | cmd/web-bff/main.go:3594-3615 | the handles the file names and no account has, strictly ascending |
| RefParse.RefReport | cmd/web-bff/main.go:1047-1049 | every handle listed as unregistered has a source line |
| RefContains.ContainsMeaning | refparse/maintainer_refs.go:174-185 | a mention is the handle standing free; the optional @ decides nothing |
| RefContains.ContainsExactlyWhen | refparse/maintainer_refs.go:174-185 | the answer is yes iff the handle occurs with no letter, digit, dash or underscore on either side, and an error for the empty handle |
| RefContains.ExtractedIsMentioned | refparse/maintainer_refs.go:18-25 | a handle extracted after an @ is also a mention there iff no underscore and no further handle character follows |
| RefContains.UrlIsMentioned | refparse/maintainer_refs.go:27-41 | the same for the host pattern |
| RefContains.KeyIsMentioned | refparse/maintainer_refs.go:45-58 | the same for a key's value, in its line |
| RefContains.ItemIsMentioned | refparse/maintainer_refs.go:43-52 | a list item is a mention in its line iff it is set off from its dash and nothing of a handle follows |
| RefContains.LineMentionCounts | refparse/maintainer_refs.go:174-185 | a mention in a line is a mention in the file |
| RefContains.TableHandleIsMentioned | refparse/maintainer_refs.go:147-168 | every handle a table yields is mentioned in the file |
| RefContains.ExtractedButNotMentioned | refparse/maintainer_refs.go:17-59 | each of the four patterns disagrees on some text: "@a_", "github.com/a_", "-a" and "github:a-" yield "a" without mentioning it |
| ClusterNames.NameShape | cmd/sync/main.go:350-369 | a sanitized name is nonempty, at most 63 long, over the alphabet, with alphanumeric ends |
| ClusterNames.NamesAreFixedPoints | cmd/sync/main.go:350-369 | idempotent; fixed points and results are exactly the names |
| ClusterNames.CutIsNeverEmpty | cmd/sync/main.go:361-367 | the last guard cannot fire |
| ClusterNames.SanitizeMeaning | cmd/sync/main.go:350-369 | the small letters of the trimmed text with one dash for each gap, without dashes and dots at the ends, cut at 63 |
| ClusterSync.ProjectSpecEqual | cmd/sync/main.go:371-401 | the field tests and the local name set compute the comparison |
| ClusterSync.ComparisonMeaning | cmd/sync/main.go:390-400 | against a row without repeated references it is equality with the references as a multiset, by cardinality |
| ClusterSync.ComparisonIsEquivalence | cmd/sync/main.go:371-401 | on such specs it is an equivalence |
| ClusterSync.ComparisonIsExactWhen | cmd/sync/main.go:371-401 | it is right about every object iff the row repeats no reference |
| ClusterSync.ProjectIsComparedExactlyWhen | cmd/sync/main.go:274-276 | the job compares every object with a project's row rightly iff no two of its maintainers' addresses sanitize alike |
| ClusterSync.SameAddressHidesAChange | cmd/sync/main.go:252-309 | with two maintainers of one address, as without any, some object listing another maintainer is left as it is |
| ClusterSync.ComparisonIsMirroring | cmd/sync/main.go:371-440 | an object counts as up to date iff it equals the row field by field, a project's references as a multiset when the row repeats none |
| ClusterSync.Job.SyncRows | cmd/sync/main.go:252-309 | the get, create, update loop stops at the first failing call with the earlier rows written |
| ClusterSync.StopsExactlyWhen | cmd/sync/main.go:252-309 | a run stops at the first row whose read fails, or whose write does when it needs one; every row before makes the one write it needs or none |
| ClusterSync.AfterSync | cmd/sync/main.go:108-348 | after any run, failed or not, each processed row not overwritten later has an object that mirrors it field by field, and unnamed objects are untouched |
| ClusterJob.JobMirrorsDatabase | cmd/sync/main.go:89-348 | after an error-free run every company, member of staff, maintainer, project and membership of the database has its object under its name, each field from its column, unless listed objects of one name differ |
| ClusterJob.ListingsInOrder | cmd/sync/main.go:89-106 | companies, staff, maintainers, projects, memberships, in this order |
| ClusterSync.QuietExactlyWhen | cmd/sync/main.go:108-348 | a run writes nothing iff every row already holds |
| ClusterSync.SecondRunIsQuiet | cmd/sync/main.go:89-348 | unless rows with different specs share a name, rerunning after an error-free run, in any order, creates and updates nothing |
| ClusterSync.JobTwiceIsQuiet | cmd/sync/main.go:89-106 | the same for the five listings of the job, listed in another order the second time |
| ClusterSync.RerunIsQuietExactlyWhen | cmd/sync/main.go:89-348 | with colliding names, a rerun is quiet iff the colliding rows agree |
| MaintainerStore.SQLStore.UpsertMaintainer | db/store_impl.go:108-210 | lookup, company, creation, link, rollback and the later update compute the specification |
| MaintainerStore.SQLStore.UpdateMaintainerDetails | db/store_impl.go:286-317 | trims, fills placeholders, refuses a missing company |
| MaintainerStore.SQLStore.MergeCompanies | db/store_impl.go:352-382 | reassigns and deletes, in one transaction |
| MaintainerLaws.UpsertFillsGaps | db/store_impl.go:108-210 | exactly what one upsert does: fields on file win and change only by trimming, missing ones come from the request, one row changes, and when it fails |
| MaintainerLaws.UpsertKeepsUniqueExactlyWhen | db/store_impl.go:126-208 | handles stay unshared iff the upsert does not write a handle somebody else has once trimmed |
| MaintainerLaws.GoodHandlesNeverClash | db/store_impl.go:126-133 | a handle without outer spaces that is not the placeholder never clashes |
| MaintainerLaws.NewcomerExactlyWhen | db/store_impl.go:126-170 | an upsert adds a row iff nobody on file has the handle and nobody has the address, placeholders included |
| MaintainerLaws.PlaceholderAdoptsAStranger | db/store_impl.go:126-140 | so a newcomer given with the placeholder handle or address is merged into somebody on file who lacks one |
| MaintainerLaws.UpsertTwiceIsOnceExactlyWhen | db/store_impl.go:108-210 | for every request that was saved: its repeat changes nothing iff it gives a handle or an address without outer spaces or names a company that is not found again; it is answered alike iff it gives one and the company, if any, is found again |
| MaintainerLaws.PaddedHandleIsAddedTwice | db/store_impl.go:108-210 | the handle " bob" and nothing else: each repeat adds one more "bob" |
| MaintainerLaws.PaddedHandleIsShared | db/store_impl.go:126-208 | with "bob" on file one such request makes two people share the handle |
| MaintainerLaws.EditWrites | db/store_impl.go:286-317 | what an edit writes into which field, and each way of failing as an iff |
| MaintainerLaws.MergesExactlyWhen | db/store_impl.go:352-382 | a merge succeeds iff two different live companies are given and the transaction does; what it changes, and that a failed one changes nothing |
| MaintainerLaws.MergeConserves | db/store_impl.go:352-382 | head counts add up and nobody else changes |
| MaintainerLaws.MergedNameIsLostExactlyWhen | db/store_impl.go:142-150 | after a merge, an upsert naming the merged company fails iff the name its new row would be stored under is taken, as the merged name is |
| MaintainerLaws.RunKeeps | db/store_impl.go:108-382 | over every run of upserts and merges, failed calls included, every company is live, and with good handles no two maintainers share one |
| IssueCache.Server.Serve | cmd/web-bff/main.go:2929-3030 | atomic sections of the methods below, interleaved in any order, go through a run of the model |
| IssueCache.Server.LookUp | cmd/web-bff/main.go:2942-2949 | under the read lock a reader is served or goes to fetch: one step of those runs |
| IssueCache.Server.TakeIssues | cmd/web-bff/main.go:2993-2997 | receiving the list is a step of those runs |
| IssueCache.Server.AskNext | cmd/web-bff/main.go:3002-3022 | asking about one issue is a step of those runs |
| IssueCache.Server.Finish | cmd/web-bff/main.go:2955-2959 | replacing both lists and the expiry is one step of those runs |
| IssueCache.Server.InvalidateOnboardingCache | cmd/web-bff/main.go:1304-1313 | emptying the cache is one step of those runs |
| IssueCache.EveryRunIsCoherent | cmd/web-bff/main.go:2929-3030 | over every interleaving, cached lists and expiry come from one fetch, the short list is picked from the long one, and every hit is one fetch's list taken less than the lifetime before the reader looked at the clock |
| IssueCache.KeepsUnfiled | cmd/web-bff/main.go:3000-3022 | a reader going through the list keeps, in order, exactly the issues whose link and name no project has |
| IssueCache.InvalidationIsUndoneExactlyWhen | cmd/web-bff/main.go:1304-1313 | after an invalidation the cache can still serve an issue of a project already in the table iff a refresh in flight has kept such an issue and somebody can still be served by it |
| IssueCache.InvalidationCanBeUndone | cmd/web-bff/main.go:1287-1313 | a run from the start reaches such a state, for every project and issue that match |
| RecentProjects.StrictWeakOrder | cmd/web-bff/main.go:840-872 | each comparison is a strict weak order |
| RecentProjects.TiesAre | cmd/web-bff/main.go:840-872 | what a tie means in each mode; by issue, only the same row id |
| RecentProjects.SortedMeaning | cmd/web-bff/main.go:840-872 | sorted is: by creation or folded name in the direction asked for; by issue, numbered rows first, then by number and row id in that direction |
| RecentProjects.Window | cmd/web-bff/main.go:874-881 | the window stays in range and cuts the page |
| RecentProjects.PagesShowEachRowOnce | cmd/web-bff/main.go:840-884 | pages cut from separate sorts show every row once, in the order just told, when no page of that size ends between rows that tie |
| RecentProjects.IssueOrderHasNoTies | cmd/web-bff/main.go:848-862 | by issue, with distinct ids, no page of any size does |
| RecentProjects.PagesAreDisjointExactlyWhen | cmd/web-bff/main.go:840-884 | for every page size: however the requests sort, no distinct row shows on two pages iff no page of that size ends between two rows that tie |
| SheetRows.ReadLine | db/bootstrap.go:374-398 | one line: its map, whether it has a value, and the values remembered |
| SheetRows.ReadSheetRows | db/bootstrap.go:350-407 | the lines with a value in order; carried columns show the last value at or above |
| SheetRows.DistinctHeaders | db/bootstrap.go:371-398 | with distinct headers each column has its own entry with that meaning |
| SheetRows.SheetReads | db/bootstrap.go:371-398 | with distinct headers each column of a returned row holds the text of its cell without outer spaces, or in a carried column the last text at or above |
| SheetRows.KeptReads | db/bootstrap.go:393-398 | the rows returned are the lines that read something, in order |
| StaffFilter.UpdateFunc | kdp-workspaces/internal/controller/staffmember_controller.go:290-342 | the filter loops compute the predicate |
| StaffFilter.OwnWriteIsIgnored | kdp-workspaces/internal/controller/staffmember_controller.go:291-340 | the controller's own status write never wakes it |
| StaffFilter.FilterIsExactWhen | kdp-workspaces/internal/controller/staffmember_controller.go:316-329 | the filter passes exactly the foreign changes iff no foreign annotation is empty |

## Left out

Assumptions and inputs:

- Text is ASCII: letter case, trimming and the four patterns are modelled on ASCII characters only, without
  Unicode folding. The patterns are written as their own scanners, not as a model of the regexp library.
- The FOSSA client's pending-invitation query is a substring search over the reply (plugins/fossa/client.go:145-155)
  and can answer yes for another address. The controller's properties assume it answers for the address itself,
  letter case aside, and that creating a team that exists returns it (plugins/fossa/client.go:458-474).
- Clock readings, cluster failures, credentials and service schedules are parameters. A schedule is finite;
  calls after its end meet no fault and no interference. Messages are constructors, not text.
- The annotation patch of a pass is taken to change only annotations.
- The webhook's theorems are about the mock service (onboarding/fossa_mock.go), whose address comparison is
  exact, plus refusals of any call. Commands run one after another, not interleaved.
- The mock's direct setters of users, which could break its own invariants, and its record of user ids and
  project links are not modelled.
- Maintainer maps keyed by address or name arrive as lists in any order; that two rows with the same address
  leave only one of them to synchronise is not modelled. A listing that fails ends the job like a failing get
  on its first row.
- Cluster objects are stored exactly as written: rounding of timestamps, spec fields the job does not manage,
  and concurrent writers are not modelled.
- The name the library writes for a company it creates is a parameter of every upsert, since the code passes
  it none (db/store_impl.go:142-150). Soft deletion is modelled only for
  company names; the four valid maintainer statuses are the only ones stored.
- Issue numbers of recent projects arrive parsed. The worksheet arrives as text cells.

Weaker or narrower than the code:

- FossaConverges.InviteAcceptJoin: covers two passes whose calls go through; passes with faults are covered by safety, not by a bound on the number of passes.
- FossaService.PerformKeepsValid: states the service's contract as the controller relies on it; the HTTP client itself is not part of this model.
- RefTables.ParseTables: a cell such as "@ name" is validated trimmed and kept untrimmed, as in the code, so a table handle need not be over the handle alphabet.
- RecentProjects.PagesShowEachRowOnce: assumes the same rows for every page request, as does PagesAreDisjointExactlyWhen.
- IssueCache.EveryRunIsCoherent: the lock is modelled by atomic steps; the case of a server without a cache is left out.

Not modelled:

- Fetching the custom resource, events, team URLs and creation dates, organisation id parsing.
- The label command, authorisation, GitHub comments and the wording of actions.
- The binding loop of the staff controller, its project trigger and the kcp client.
- HTTP handlers, sessions, OAuth, JSON, GitHub, Google Sheets and GORM themselves, loading of FOSSA data,
  the Snyk controller, migrations, command mains and the web front end: input and output or libraries.
