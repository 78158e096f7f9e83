# Verified model of the Slack provider's reconcilers

A Crossplane provider keeps Slack objects in line with declared resources. For each kind of resource a
controller observes, creates, updates and deletes, through a client that retries, pages and classifies
errors. This project models those controllers and that client in Dafny and proves what a whole run does,
not only what one call returns.

## How it is modelled

- **Controllers** (`Conversation`, `UserGroupMembers`, `UserGroups`, `Bookmarks`, `Pins`,
  `ConversationMembers`) are classes whose methods update a managed object and a remote in place. Each
  method is proved equal to a function of the state before the call (`Observed`, `AfterCreate`,
  `AfterUpdate`, `AfterDelete`); the theorems are about those functions and runs of them.
- **Faults.** A schedule decides for every call whether it is delivered, dropped before it takes effect,
  or takes effect with its response lost (`Runtime.Fault`). "Under any faults" means for every schedule
  with every error; "fault-free" means every call is delivered, though Slack may still refuse it.
- **Slack** is an assumption, written out next to each controller as functions from the remote state to
  the new state and the answer: which names are unique, what archived channels refuse, which fields an
  unsent parameter leaves alone, how texts and member lists are stored.
- **The driver** is not in the repository. It is assumed to observe, then delete if the object is being
  deleted, create if it is missing, update if it is out of date (`ConversationRuns.Reconcile`); the
  external name left in memory may or may not get stored. `Reconcile` in the other controllers is the
  same driver without deletion and lost names, `FaultyTurn` adds lost names, and `DeletionRun` is the
  driver of a resource being deleted.
- **Library calls** are inputs (transport outcomes, page contents, random draws, ends of waits) or are
  written out (string sort, integer parsing, first-separator split, the regular expression).

## Main results

- *Conversation.* Drift never grows under any faults; at most one channel is ever created; no finite
  stretch of faults decides whether the resource can exist or converge, and once faults cease it does so
  within two turns or never, with the exact condition.
- *Stripping.* One pass equals the leftmost, non-overlapping replacement that the pattern defines, undoes
  link encoding, and has exactly the match-free strings as fixed points.
- *Membership.* Copy, sort and compare is multiset equality; convergence holds exactly when no user is
  known under two emails, the list is not empty where the group is not, and Slack's directory breaks on no
  email, that is, answers none with an error other than that the user is unknown.
- *Answers.* For each operation, exactly when it succeeds, what it records in status, conditions and
  external name, and that a failure keeps its cause (`FailsIff`, `Records`, `UnansweredFails`,
  `Client.DoSucceedsIff`, `RateLimit.HeaderSetsTheWait`).
- *Pins, memberships, groups, bookmarks.* From any external name, stale ones included, exactly when a
  fault-free run finds the object, and finds it up to date.
- *What faults can spoil.* After any finite run of failed calls, lost responses and unstored names, whether
  fault-free turns succeed is what it was before the run, for channels, member lists, memberships and
  bookmarks; for pins and user groups it is lost exactly when some turn made the object and lost its name
  (`EventuallyConvergesIff`, `EventuallyPresentIff`).
- *Deletion.* Exactly when turns of deletion end with the object reported missing (`DeletionCompletes`,
  `DeletionFinishesIff`, `DeletionFinishes`).
- *Client.* Effort, waits and body ownership of the retry machine; exactly which errors are retriable;
  paging is complete, stops at the match, and halts exactly when the cursor chain ends.
- *Lost responses compared.* A channel and a membership are adopted (`LostCreateIsAdopted`), a pin and a
  user group are stranded (`LostCreateStrands`), a bookmark is duplicated (`LostNamesDuplicate`).

## Where the code differs from its own documents

The model follows the code. Each of these is a theorem with its exact condition, and each has a lemma at
failing inputs.

- `.kiro/specs/crossplane-provider-slack/requirements.md` asks for a NameConflict condition whenever
  creation gives `name_taken`; the code first looks for the channel that holds the name and adopts it, and
  sets the condition exactly when that search is not answered
  (`ConversationRuns.CreateReportsConflictIff`). It adopts even an archived holder, which then never counts
  as existing (`ConversationRuns.PresenceReachableIff`, `ConversationRuns.ArchivedHolderBlocks`).
- The same document asks that any unreachable-Slack failure be retriable; one that strikes while the
  response body is read is not (`Client.UnreportedNetworkFailureIff`, `Client.BrokenBodyIsNotRetriable`).
- The design promises to wait at least the Retry-After time; a number of seconds above 9223372036
  overflows (`RateLimit.RetryAfterIsHonouredIff`, `RateLimit.OversizedRetryAfterDoesNotWait`).
- The design compares member *sets*; the code compares multisets, so a user listed under two emails never
  converges (`UserGroupMembers.UpdateConvergesIff`, `UserGroupMembers.TwoEmailsOfOneUser`).
- The comment on `isChannelID` speaks of a letter followed by alphanumerics; the code tests the first
  character only (`ConversationApi.ChannelIDTestsDisagreeIff`), so a live channel's name that starts with
  one of the letters is not adopted (`ConversationRuns.NameIsAdoptedIff`,
  `ConversationRuns.NameTakenForAnID`).
- An empty desired description, title or link is never sent, and an empty resolved member list is never
  written, so these cannot clear what Slack has (`UserGroups.ConvergenceReachableIff`,
  `Bookmarks.ConvergenceReachableIff`, `UserGroupMembers.ConvergenceReachableIff`;
  `UserGroups.EmptyDescriptionNeverClears`, `Bookmarks.EmptyTitleNeverClears`,
  `UserGroupMembers.NoEmailsNeverClear`).
- Deleting a UserGroupMembers resource is to empty the group, and does; but Observe goes on reporting the
  resource present as long as it has an external name, so a driver that ends a deletion once the resource
  is reported missing never ends this one (`UserGroupMembers.DeletionFinishesIff`).

## Model

| member | source | states |
|---|---|---|
| ConversationDrift.UpdateConvergesIff | internal/controller/conversation/conversation.go:209-249 | After a fault-free Update of a live channel the next fault-free Observe is up to date if and only if every drifted field is attainable (stripping what Slack stores for the desired text gives that text back) and a drifted name is held by no other channel |
| ConversationDrift.UpdateNeverAddsDrift | internal/controller/conversation/conversation.go:209-249 | For every remote state and every pattern of failed and lost calls an Update makes no field drift that did not, changes no other channel, and when it reports success leaves exactly the unattainable part of the drift |
| ConversationDrift.UpdatesConverge | internal/controller/conversation/conversation.go:209-249 | Over any number of Updates under any faults drift never grows, unattainable drift never goes away, and once one Update has reported success nothing attainable drifts |
| ConversationDrift.ChangeIsProgress | internal/controller/conversation/conversation.go:227-246 | If all desired values are attainable, an Update that changes the channel at all leaves strictly fewer fields drifting, even one that reports an error |
| ConversationDrift.UpdateCallsOnlyForDrift | internal/controller/conversation/conversation.go:215-246 | Nothing is written before the join and the read are acknowledged; after that at most one call is made per drifted field, and exactly one each on success |
| ConversationDrift.PlanCoversDrift | internal/controller/conversation/conversation.go:227-246 | The writes of an Update aim at exactly the fields that drift, each with the desired value |
| ConversationDrift.WritesLandAsPrefix | internal/controller/conversation/conversation.go:227-246 | Under any faults a list of writes to a live channel takes effect as a prefix of itself: all of it if no error is reported |
| ConversationDrift.CalmUpdateSucceedsIff | internal/controller/conversation/conversation.go:218-232 | A fault-free Update of a live channel succeeds if and only if it does not have to take a name that another channel holds; otherwise it sets the NameConflict condition |
| ConversationDrift.CreateConvergesIff | internal/controller/conversation/conversation.go:193-206 | A fault-free Create of a free name adds one channel with that name and privacy, and the next Observe is up to date if and only if desired topic and purpose are each empty or attainable |
| ConversationDrift.CreateFailsIff | internal/controller/conversation/conversation.go:172-206 | Under any faults a Create of a free name whose creation is answered fails if and only if one of the calls that set the desired texts is not, with the cause of the first such call; the external name is the new ID either way |
| ConversationDrift.CreateSuccessFurnishes | internal/controller/conversation/conversation.go:193-206 | Success of such a Create, under any faults, means one more channel with the desired name and privacy, and what Slack stores for each desired text |
| ConversationDrift.UpdateReportsConflictIff | internal/controller/conversation/conversation.go:215-232 | Under any faults an Update changes the resource only to report a name conflict, exactly when join, read and rename are answered and the drifted name is another channel's |
| ConversationDrift.UpdateFailsWith | internal/controller/conversation/conversation.go:215-246 | An Update that fails reports the cause of its last call, or Slack's refusal of an archived channel or a taken name |
| ConversationDrift.WritesAreOrdered | internal/controller/conversation/conversation.go:195-246 | Name is written before topic before purpose |
| ConversationConvergence.EventuallyConvergesIff | internal/controller/conversation/conversation.go:100-249 | After any finite run with failed calls, lost responses and unstored names, a fault-free run ever finds the resource present and up to date if and only if that was possible before the run, and two turns are enough: the live channel its name points at, the live holder of the desired name, or a new channel has only attainable drift, and a drifted name is free; likewise for presence alone |
| ConversationConvergence.RunKeepsFate | internal/controller/conversation/conversation.go:100-249 | No run under faults changes whether there is a channel to manage or whether it can be brought up to date |
| ConversationConvergence.ConvergesWithinTwo | internal/controller/conversation/conversation.go:100-249 | A resource that can converge does so within two fault-free turns |
| ConversationConvergence.SpareObserve | internal/controller/conversation/conversation.go:100-159 | Under any faults an Observe that answers is right about presence and drift, and any Observe leaves the external name pointing at the same channel |
| ConversationDrift.UpToDateIffNoDrift | internal/controller/conversation/conversation.go:288-299 | The up-to-date test passes exactly when name, stripped topic and stripped purpose all equal the desired ones |
| ConversationDrift.VerbatimAttainableIff | internal/controller/conversation/conversation.go:234-246 | With verbatim storage a text field is attainable exactly when its desired text is a fixed point of stripping, that is, contains no link markup |
| ConversationDrift.AutoLinkedTextIsAttainable | internal/controller/conversation/conversation.go:327-333 | With a server that wraps links, every text made of `<`-free text and plain links is attainable |
| ConversationRuns.AtMostOneChannelCreated | internal/controller/conversation/conversation.go:161-207 | Over every run with failed calls, lost responses and external names that are not stored, at most one channel is created, none if the desired name was held; IDs stay, and unique names stay unique |
| ConversationRuns.HolderIsUnique | internal/controller/conversation/conversation.go:172-193 | If names were unique at the start, no run ever has two channels with the desired name |
| ConversationRuns.CreateNamesTheHolder | internal/controller/conversation/conversation.go:172-207 | Whatever is lost, a Create that reports success or changes the external name leaves it the ID of a channel that holds the desired name |
| ConversationRuns.PresenceReachableIff | internal/controller/conversation/conversation.go:100-207 | A fault-free run ever sees the resource present if and only if the external name points at a live channel, or the desired name is free, or its first holder is not archived; otherwise the workspace never changes |
| ConversationRuns.CreateAdopts | internal/controller/conversation/conversation.go:173-182 | A fault-free Create of a held name adopts the first holder, archived or not, reports success, and changes nothing in Slack and nothing else of the resource, no condition either |
| ConversationRuns.CreateReportsConflictIff | internal/controller/conversation/conversation.go:172-190 | Create sets the NameConflict condition if and only if Slack answered that the name is taken and the search for its holder was not answered; no other Create touches a condition |
| ConversationRuns.ArchivedHolderBlocks | internal/controller/conversation/conversation.go:172-182 | A workspace whose one channel is archived and has the desired name: Create succeeds and no run ever finds the resource present |
| ConversationRuns.LostCreateIsAdopted | internal/controller/conversation/conversation.go:172-182 | A Create whose effect lands while its response is lost adds one channel; the next fault-free turn adopts it, adds no other, and the resource is present |
| ConversationRuns.StuckTurn | internal/controller/conversation/conversation.go:172-182 | In the remaining case every turn adopts the archived holder, reports success, and changes nothing in Slack |
| ConversationRuns.CalmObservePresentIff | internal/controller/conversation/conversation.go:106-158 | A fault-free Observe reports presence exactly when the external name, an ID or a name to adopt, points at a channel that is not archived |
| ConversationApi.ChannelIDTestsDisagreeIff | internal/controller/conversation/conversation.go:279-286 | The first-character test accepts every documented channel ID, and differs from the documented test exactly on bare letters and on texts that go on with a character that is not alphanumeric |
| ConversationRuns.NameIsAdoptedIff | internal/controller/conversation/conversation.go:111-137 | An external name that is a live channel's name and no ID is adopted if and only if it does not start with C, D or G; otherwise the resource is reported missing and not found |
| ConversationRuns.NameTakenForAnID | internal/controller/conversation/conversation.go:279-286 | A channel named `C-team`: the documented test takes the external name for a name, the code reports the resource missing |
| ConversationRuns.CalmObserveConditions | internal/controller/conversation/conversation.go:126-153 | A fault-free Observe changes conditions only to mark a live channel available, with its status, or to report an unknown ID as not found |
| ConversationDrift.ObserveLiveChannel | internal/controller/conversation/conversation.go:141-158 | A fault-free Observe of a live channel reports it present, up to date exactly when nothing drifts, and records its status |
| ConversationRuns.ObserveOnlyReads | internal/controller/conversation/conversation.go:111-124 | Observe changes nothing in Slack; it keeps the external name or replaces a channel name by the ID of a channel so named |
| ConversationRuns.ObserveFailsIff | internal/controller/conversation/conversation.go:111-139 | Under any faults Observe fails if and only if a read it makes is not answered, with the cause of that read, and then records nothing |
| ConversationRuns.DeleteArchives | internal/controller/conversation/conversation.go:257-271 | Delete touches one channel at most, and if it reports success or took effect that channel is archived or absent |
| ConversationRuns.DeleteFailsIff | internal/controller/conversation/conversation.go:257-269 | Delete fails if and only if the channel is archived already or the call is not answered, with Slack's answer or the cause inside |
| ConversationRuns.DeleteThenGoneIff | internal/controller/conversation/conversation.go:257-271 | A fault-free Delete succeeds if and only if its external name is not the ID of an archived channel; the next Observe finds nothing, exactly unless the external name is still the name of a live channel, which Delete leaves untouched |
| ConversationRuns.DeletionTurnRemoves | internal/controller/conversation/conversation.go:251-272 | One fault-free turn of a resource being deleted, from any external name, stored or not afterwards, ends with Observe finding nothing |
| ConversationRuns.DeletionCompletes | internal/controller/conversation/conversation.go:251-272 | After any finite run, deleting or not, with failed calls, lost responses and unstored names, one fault-free turn of deletion ends with Observe finding nothing |
| Conversation.External.Observe | internal/controller/conversation/conversation.go:100-159 | New resource state, remote state and result equal the function Observed of the state before, errors and conditions included; what that says is CalmObservePresentIff, CalmObserveConditions and ConversationConvergence.SpareObserve |
| Conversation.External.Create | internal/controller/conversation/conversation.go:161-207 | New state and result equal the function AfterCreate of the state before; what that says is CreateFailsIff, CreateSuccessFurnishes, CreateAdopts and CreateReportsConflictIff |
| Conversation.External.Update | internal/controller/conversation/conversation.go:209-249 | New state and result equal the function AfterUpdate: join, read, then run the plan up to the first failure; what that says is UpdateNeverAddsDrift and UpdateConvergesIff |
| Conversation.External.Delete | internal/controller/conversation/conversation.go:251-272 | New state and result equal the function AfterDelete of the state before; what that says is DeleteArchives and DeleteThenGoneIff |
| AutoLinks.StripIsLeftmostReplacement | internal/controller/conversation/conversation.go:324-333 | Stripping is the leftmost, non-overlapping replacement of the pattern by its group 1, for any selection of matches made left to right |
| AutoLinks.SelectionExists | internal/controller/conversation/conversation.go:325-333 | Every string has a left-to-right decomposition into match-free gaps and matches |
| AutoLinks.SelectionIsUnique | internal/controller/conversation/conversation.go:325-333 | That decomposition is unique |
| AutoLinks.MatchIsDeterministic | internal/controller/conversation/conversation.go:325 | A match starting at a given index has one end and one capture |
| AutoLinks.Scan | internal/controller/conversation/conversation.go:331-333 | A single left-to-right pass in three modes, holding back at most one open link and never backing up, computes the same replacement |
| AutoLinks.StripUndoesEncode | internal/controller/conversation/conversation.go:327-333 | Stripping undoes the link encoding of every interleaving of `<`-free text with links, labelled or not |
| AutoLinks.ShorterIffMatch | internal/controller/conversation/conversation.go:325-333 | The output is strictly shorter exactly when the input contains a match |
| AutoLinks.FixedIffNoMatch | internal/controller/conversation/conversation.go:325-333 | The fixed points of stripping are exactly the match-free strings |
| AutoLinks.SettleEndsMatchFree | internal/controller/conversation/conversation.go:325-333 | Repeated stripping terminates in a match-free string, reached in one pass exactly when the first output has no match |
| AutoLinks.OnePassNotIdempotent | internal/controller/conversation/conversation.go:325-333 | One pass is not idempotent: `<<a>>` becomes `<a>`, then `a` |
| UserGroupMembers.UpdateConvergesIff | internal/controller/usergroupmembers/usergroupmembers.go:186-216 | After a fault-free Update the next Observe is up to date if and only if the directory breaks on no email and knows no user under two of them, and it knows one or the group was already empty |
| UserGroupMembers.ConvergenceReachableIff | internal/controller/usergroupmembers/usergroupmembers.go:97-216 | A fault-free run, with an external name or before there is one, ever finds the membership up to date if and only if the group is known, the directory breaks on no email, and it knows some user and none under two emails, or the listed members are the known users already |
| UserGroupMembers.EventuallyConvergesIff | internal/controller/usergroupmembers/usergroupmembers.go:97-216 | After any finite run under faults, which may have replaced the membership, set the external name or lost it again, fault-free turns bring the membership up to date if and only if the group is known, the directory breaks on no email and knows no user under two of them, and it knows one or the group had no members |
| UserGroupMembers.TwoEmailsOfOneUser | internal/controller/usergroupmembers/usergroupmembers.go:281-299 | Two emails of one user, on a server that keeps the stated assumptions: the resource is not up to date after the update, nor ever while the listed members have no duplicates |
| UserGroupMembers.NoEmailsNeverClear | internal/controller/usergroupmembers/usergroupmembers.go:209-215 | With no emails a group that has members keeps them, and no number of fault-free turns finds the resource up to date |
| UserGroupMembers.UpdateIsAllOrNothing | internal/controller/usergroupmembers/usergroupmembers.go:194-213 | Under any faults other groups stay, and the membership stays or becomes what Slack records for the full resolved list |
| UserGroupMembers.ObserveReports | internal/controller/usergroupmembers/usergroupmembers.go:114-145 | A successful Observe records the membership just listed, reports exactly the unresolvable emails, and marks the resource available exactly when lists agree and all emails resolved |
| UserGroupMembers.CalmObserveRecords | internal/controller/usergroupmembers/usergroupmembers.go:97-146 | What a fault-free Observe answers and records, status and conditions in full, from Slack's directory and lists alone |
| UserGroupMembers.CalmWritesRecord | internal/controller/usergroupmembers/usergroupmembers.go:148-216 | What fault-free Create and Update answer and record, the UserNotFound condition in full; Create names the group in any case |
| UserGroupMembers.UnansweredFails | internal/controller/usergroupmembers/usergroupmembers.go:110-235 | A listing, a resolution or a write that is not answered makes its operation fail with the cause inside; a write is made exactly when someone is resolved |
| UserGroupMembers.UnresolvedGroupStops | internal/controller/usergroupmembers/usergroupmembers.go:154-157 | A group reference that does not resolve stops Create with that error before any lookup |
| UserGroupMembers.RecordedEqualIff | internal/controller/usergroupmembers/usergroupmembers.go:136-145 | What Slack records for a joined list compares equal to the list exactly when the list has no duplicates |
| UserGroupMembers.ResolveEmails | internal/controller/usergroupmembers/usergroupmembers.go:244-268 | Lookups are made up to and including the first that aborts; an abort returns that error and neither list, otherwise both lists are returned |
| UserGroupMembers.VerdictIff | internal/controller/usergroupmembers/usergroupmembers.go:249-264 | An answered lookup is unresolvable if and only if the directory gives no user, a blank ID, or the bare Slack error users_not_found; it resolves to an ID exactly when the directory gives that ID, not blank; any other error stops the resolution, and so does a lookup that is not answered |
| UserGroupMembers.CalmResolution | internal/controller/usergroupmembers/usergroupmembers.go:244-268 | Without faults resolution stops at the first email on which the directory breaks, after the lookups up to there, or finds exactly the known users and the unknown emails, each in order |
| UserGroupMembers.ResolutionPartitions | internal/controller/usergroupmembers/usergroupmembers.go:244-268 | On success IDs and unresolvable emails stand at two increasing lists of positions with one entry for each email |
| UserGroupMembers.ReportMentions | internal/controller/usergroupmembers/usergroupmembers.go:121-128 | The UserNotFound message contains every email that could not be resolved |
| UserGroupMembers.DeleteEmptiesGroup | internal/controller/usergroupmembers/usergroupmembers.go:218-235 | A fault-free Delete succeeds exactly on a known group and empties it and no other |
| UserGroupMembers.DeletionFinishesIff | internal/controller/usergroupmembers/usergroupmembers.go:97-235 | Under any faults, turns of deletion ever report the resource missing if and only if it has no external name: Observe reports it present whenever it answers |
| UserGroupMembers.External.Observe | internal/controller/usergroupmembers/usergroupmembers.go:97-146 | New state and result equal the function Observed; status, conditions and the order-independent comparison included; what that says is ObserveReports |
| UserGroupMembers.External.Create | internal/controller/usergroupmembers/usergroupmembers.go:148-184 | New state and result equal the function AfterCreate: the external name is set before any lookup; what that says is ConvergenceReachableIff, which starts from it when there is no external name |
| UserGroupMembers.External.Update | internal/controller/usergroupmembers/usergroupmembers.go:186-216 | New state and result equal the function AfterUpdate: no write when nothing resolves; what that says is UpdateIsAllOrNothing and UpdateConvergesIff |
| UserGroupMembers.External.Delete | internal/controller/usergroupmembers/usergroupmembers.go:218-235 | New state and result equal the function AfterDelete; what that says is DeleteEmptiesGroup |
| UserGroupMembers.GroupClient.UpdateUserGroupMembers | internal/clients/slack/usergroups.go:94-110 | The remote receives the given IDs joined with commas |
| StringSets.SetsEqual | internal/controller/usergroupmembers/usergroupmembers.go:281-299 | Holds exactly when the two lists are equal as multisets; both arrays stay unchanged |
| StringSets.SortStrings | internal/controller/usergroupmembers/usergroupmembers.go:285-291 | The array ends as the insertion-sorted listing of its old contents |
| StringSets.SortedSorts | internal/controller/usergroupmembers/usergroupmembers.go:285-291 | That listing is sorted and a permutation |
| StringSets.SortedListingIsUnique | internal/controller/usergroupmembers/usergroupmembers.go:285-298 | Two sorted listings of one multiset are identical |
| StringSets.SetEqualityWithoutDuplicates | internal/controller/usergroupmembers/usergroupmembers.go:279-299 | On lists without duplicates the comparison is equality of sets |
| Joins.JoinStrings | internal/controller/usergroupmembers/usergroupmembers.go:302-311 | The accumulating loop gives the elements separated by the separator |
| Joins.SplitUndoesJoin | internal/clients/slack/usergroups.go:98-106 | Cutting the joined text at commas recovers the exact non-empty list of comma-free IDs |
| Joins.JoinUndoesSplit | internal/clients/slack/usergroups.go:98-106 | Joining the parts of any text cut at commas gives the text back |
| Joins.SplitIffJoin | internal/clients/slack/usergroups.go:98-106 | Cutting and joining are inverse bijections between texts and non-empty lists of comma-free IDs |
| Joins.JoinIsInjective | internal/clients/slack/usergroups.go:98-106 | Non-empty lists of comma-free IDs with the same joined text are equal |
| Joins.EmptyJoinsLikeBlank | internal/clients/slack/usergroups.go:98-106 | The empty list joins to the same text as one empty ID |
| Joins.JoinMentions | internal/controller/usergroupmembers/usergroupmembers.go:302-311 | Every joined string can be read off the result |
| RateLimit.DoWithRetry | internal/clients/slack/ratelimit.go:51-108 | The trace of requests, body closes and waits, and the result, are those of the first attempt that stops the machine; the return after the loop is unreachable |
| RateLimit.RetryEffects | internal/clients/slack/ratelimit.go:51-108 | For every response sequence at most four requests, each attempt once, and at most three waits; each 429 body closed exactly once, no other closed here |
| RateLimit.RetryReturnsFirstResponse | internal/clients/slack/ratelimit.go:67-70 | The call succeeds with attempt k exactly when k is the first response other than 429 after uninterrupted waits; its body is still open |
| RateLimit.ExhaustedRetriesAreRetriable | internal/clients/slack/ratelimit.go:75-80 | Four rate-limited responses and three completed waits give a retriable error |
| RateLimit.TransportFailureIsReturned | internal/clients/slack/ratelimit.go:59-65 | A transport failure after rate-limited attempts ends the call with that failure at the root, retriable exactly if it is a network one |
| RateLimit.CutShortWaitIsReturned | internal/clients/slack/ratelimit.go:97-101 | A wait that the context cuts short ends the call with the context's error at the root |
| RateLimit.BackoffCallIsUnderSevenSeconds | internal/clients/slack/ratelimit.go:82-95 | With no Retry-After header a whole call waits less than seven seconds in total |
| RateLimit.WaitDuration | internal/clients/slack/ratelimit.go:82-95 | The wait equals the function Wait of attempt, header and draw; what that says is RetryAfterIsHonouredIff, OversizedRetryAfterDoesNotWait and OtherwiseBackoff |
| RateLimit.RetryAfterIsHonouredIff | internal/clients/slack/ratelimit.go:84-87 | A positive Retry-After of n seconds gives exactly n seconds, and at least n seconds, if and only if n is at most 9223372036 |
| RateLimit.HeaderSetsTheWait | internal/clients/slack/ratelimit.go:72-103 | In the trace of a call, request, closing and wait of each rate-limited attempt stand in place, and the wait is computed from the Retry-After header of that very response, the attempt number and its draw |
| RateLimit.HeaderIsWaitedFor | internal/clients/slack/ratelimit.go:84-98 | A header of a whole number of seconds up to 9223372036 puts a wait of exactly that many seconds into the trace |
| RateLimit.OversizedRetryAfterDoesNotWait | internal/clients/slack/ratelimit.go:84-87 | From 9223372037 to 18446744073 seconds the int64 product is negative, so there is no wait |
| RateLimit.OtherwiseBackoff | internal/clients/slack/ratelimit.go:88-95 | A malformed, zero, negative or absent header falls back to the random draw, reduced to [0, min(2^attempt, 60)) seconds |
| RateLimit.AtoiRoundTrip | internal/clients/slack/ratelimit.go:85 | Reading back a printed integer gives it exactly when it fits an int64 |
| RateLimit.CalculateBackoff | internal/clients/slack/ratelimit.go:38-46 | The capped real product, truncated, and the draw below it equal the whole-number function Backoff |
| RateLimit.BackoffRange | internal/clients/slack/ratelimit.go:38-46 | The bound is min(2^attempt, 60) seconds for attempts from 0 and positive exactly from attempt -29 on; below that the draw panics |
| Client.Do | internal/clients/slack/client.go:111-170 | Result and trace equal DoResult and DoTrace: the response body is closed on every path |
| Client.DoSucceedsIff | internal/clients/slack/client.go:139-169 | A call returns a raw response if and only if the request could be built and the first attempt that is neither rate-limited nor fails in transport, among four, gets that response, readable, decodable and saying ok |
| Client.DoFailsWithTheCause | internal/clients/slack/client.go:122-167 | An error has the failure that struck at its root, or is the bare Slack error with the code of a response that says it is not ok, its message naming the code |
| Client.EveryBodyClosedOnce | internal/clients/slack/client.go:139-147 | Over a whole call every response received has its body closed exactly once |
| Client.DoErrorShape | internal/clients/slack/client.go:139-167 | Every error is a bare Slack error or a chain that contains none |
| Client.LookupErrorsAgree | internal/controller/usergroupmembers/usergroupmembers.go:271-277 | On every error a user lookup can return, the type assertion and errors.As agree |
| Client.SlackErrorIffNotOk | internal/clients/slack/client.go:162-167 | An error carries a Slack code exactly when a decoded envelope says not ok with that code |
| Client.RetriableIff | internal/clients/slack/client.go:139-167 | An error is retriable if and only if sending or waiting failed for a network reason, the rate limit was exhausted, or Slack gave one of three codes |
| Client.UnreportedNetworkFailureIff | internal/clients/slack/client.go:149-152 | A network failure is not reported as retriable exactly when it strikes while building the request or reading or decoding the response |
| Client.BrokenBodyIsNotRetriable | internal/clients/slack/client.go:149-152 | A network error while the body of the first response is read is a network error and not retriable |
| Client.RetryErrors | internal/clients/slack/ratelimit.go:59-101 | Errors of the retry loop hold no Slack error, and are network errors exactly after a network failure in sending or waiting |
| Errors.SlackErrorIsTheRoot | internal/clients/slack/errors.go:44-57 | errors.As finds a Slack error exactly when it is the innermost link |
| Errors.NetworkErrorIsTheRoot | internal/clients/slack/errors.go:61-86 | The network test holds exactly when some library link is of one of the four transport types |
| Errors.ContextChangesNothing | internal/clients/slack/errors.go:34-86 | Retriable, network and Slack-error tests survive any number of layers of context |
| Errors.AssertionAgreesIff | internal/controller/usergroupmembers/usergroupmembers.go:271-277 | The type assertion and errors.As agree exactly on bare Slack errors and on chains without one |
| Pagination.GetConversationMembers | internal/clients/slack/conversations.go:167-200 | Returns the concatenation of all pages, or the first error and no list; the cursors sent are those of the page chain |
| Pagination.GatheredIff | internal/clients/slack/conversations.go:167-200 | The result is the error of a page that failed, or a list as long as all pages together in which every item of every page stands in place |
| Pagination.FindConversationByName | internal/clients/slack/conversations.go:97-135 | Returns the first channel with the name among the pages fetched, nil if none, or the first error; the cursors sent are those of the page chain |
| Pagination.SearchedIff | internal/clients/slack/conversations.go:97-135 | The result is the error of the page the search stopped at, or the first channel on that page with the name |
| Pagination.FindOnPage | internal/clients/slack/conversations.go:122-126 | The scan of one page gives its first channel with the name |
| Pagination.EarlyStopFindsFirstOfAll | internal/clients/slack/conversations.go:97-135 | Whenever the whole listing can be read, stopping at the match gives the first match of all pages together |
| Pagination.NothingFetchedAfterMatch | internal/clients/slack/conversations.go:122-131 | A page is the last one fetched exactly when it failed, holds the match, or has no next cursor |
| Pagination.TrailFollowsCursors | internal/clients/slack/conversations.go:98-131 | The first request has no cursor and each later one carries the non-empty cursor of the page before |
| Pagination.HaltsIff | internal/clients/slack/conversations.go:99-132 | A loop halts within n requests exactly when one of the first n replies of the cursor chain fails, ends the chain, or holds a wanted item |
| ExternalNames.ParseMember | internal/controller/conversationmember/conversationmember.go:227-234 | The scan cuts at the first slash, or reports that there is none |
| ExternalNames.CutIff | internal/controller/pin/pin.go:224-230 | A name is cut into two parts exactly when it is those parts around the separator and the first part does not contain it |
| ExternalNames.PinRoundTripIff | internal/controller/pin/pin.go:219-230 | Parsing undoes formatting exactly when the channel holds no colon |
| ExternalNames.FormatUndoesParseIff | internal/controller/pin/pin.go:219-230 | Formatting undoes parsing exactly when the name holds a colon |
| ExternalNames.MemberRoundTripIff | internal/controller/conversationmember/conversationmember.go:164 | Parsing a formatted membership gives it back exactly when the channel holds no slash |
| Pins.External.Observe | internal/controller/pin/pin.go:99-147 | New state and result equal the function Observed; what that says is CalmObservePresentIff |
| Pins.External.Create | internal/controller/pin/pin.go:149-175 | New state and result equal the function AfterCreate, the two failure conditions included; what that says is CreateThenPresent and CreateRefusalIsReported |
| Pins.External.Delete | internal/controller/pin/pin.go:182-211 | New state and result equal the function AfterDelete; what that says is DeleteThenGoneIff |
| Pins.CalmObservePresentIff | internal/controller/pin/pin.go:105-146 | A fault-free Observe never fails and reports presence exactly when both parts of the name are non-empty and the message is pinned |
| Pins.CalmObserveRecords | internal/controller/pin/pin.go:105-146 | What a fault-free Observe answers and records: the date of the first pin of the message, availability, or an unavailable channel, and nothing else |
| Pins.CreateThenPresent | internal/controller/pin/pin.go:149-175 | Create succeeds exactly on an unpinned message of an open channel, pins it and nothing else, and Observe then finds it |
| Pins.DeleteThenGoneIff | internal/controller/pin/pin.go:182-211 | Delete takes exactly that pin away, except in an archived channel, where it reports success and the pin stays |
| Pins.CreateRefusalIsReported | internal/controller/pin/pin.go:162-170 | What a fault-free Create answers and records, refusals with their conditions and codes in full: unknown or archived channel, unknown message, message pinned already |
| Pins.UnansweredFails | internal/controller/pin/pin.go:119-210 | A call that is not answered makes its operation fail with the cause inside, unless the cause carries a code that the operation takes for an answer |
| Pins.UnresolvedChannelStops | internal/controller/pin/pin.go:155-158 | A channel reference that does not resolve stops Create with that error before any call |
| Pins.PresenceReachableIff | internal/controller/pin/pin.go:99-175 | From any external name a fault-free run finds the pin if and only if the name is that of a pinned message, or the message can be pinned, is not pinned yet, and its name parses back |
| Pins.LostCreateStrands | internal/controller/pin/pin.go:162-173 | A Create whose effect lands while its response is lost strands the resource: fault-free runs find a pin exactly if the external name from before is that of a pinned message, so never from no external name |
| Pins.EventuallyPresentIff | internal/controller/pin/pin.go:99-175 | After any finite run under faults, fault-free turns find the pin if and only if they could have before and no turn has pinned the message and lost its name |
| Pins.DeletionFinishesIff | internal/controller/pin/pin.go:99-211 | Fault-free turns of deletion ever report the pin missing if and only if it is not one of an archived channel |
| ConversationMembers.External.Observe | internal/controller/conversationmember/conversationmember.go:94-132 | New state and result equal the function Observed; what that says is CalmObserveFailsIff and PresenceReachableIff |
| ConversationMembers.External.Create | internal/controller/conversationmember/conversationmember.go:134-166 | New state and result equal the function AfterCreate: the join result is ignored and an existing membership accepted; what that says is CreateThenPresent |
| ConversationMembers.External.Delete | internal/controller/conversationmember/conversationmember.go:173-199 | New state and result equal the function AfterDelete; what that says is DeleteThenGone |
| ConversationMembers.External.ResolveUserID | internal/controller/conversationmember/conversationmember.go:207-224 | The ID wins over the email; an email without a user, or neither field, is an error; what that means for Create is CreateThenPresent, by SpecUser |
| ConversationMembers.CreateThenPresent | internal/controller/conversationmember/conversationmember.go:134-166 | Create succeeds exactly when the user resolves and the channel is open, adds that membership and no other, and Observe then finds it |
| ConversationMembers.CreateFailsIff | internal/controller/conversationmember/conversationmember.go:140-165 | Under any faults Create fails if and only if the user does not resolve or the invitation is refused or not answered, whatever became of the join; its error has the cause inside, and only success sets the external name |
| ConversationMembers.SpecUserIff | internal/controller/conversationmember/conversationmember.go:207-224 | The user a spec stands for is its ID if it has one, else whom the directory gives for its email |
| ConversationMembers.CalmObserveRecords | internal/controller/conversationmember/conversationmember.go:111-131 | What a fault-free Observe answers and records for a membership, its user and channel in the status included |
| ConversationMembers.UnansweredFails | internal/controller/conversationmember/conversationmember.go:111-198 | An unanswered listing or kick makes Observe or Delete fail with the cause inside, unless the cause carries a code that Delete accepts |
| ConversationMembers.UnresolvedChannelStops | internal/controller/conversationmember/conversationmember.go:140-143 | A channel reference that does not resolve stops Create with that error before any call |
| ConversationMembers.DeleteThenGone | internal/controller/conversationmember/conversationmember.go:173-199 | Fault-free Delete of a well-formed name succeeds exactly unless the channel is archived and refuses, ends exactly that membership, and Observe of a known channel then finds nothing |
| ConversationMembers.CalmObserveFailsIff | internal/controller/conversationmember/conversationmember.go:111-114 | Observe fails exactly when the channel is gone, although Delete would accept that |
| ConversationMembers.PresenceReachableIff | internal/controller/conversationmember/conversationmember.go:94-166 | From any external name a fault-free run finds the membership if and only if it is there already, or the name does not tie the resource to a channel that is gone, the user resolves, the channel is open, and the name parses back |
| ConversationMembers.LostCreateIsAdopted | internal/controller/conversationmember/conversationmember.go:153-165 | For a user given by ID or by email: after a Create whose response is lost, repeating it succeeds and adds nobody twice, and the membership is found |
| ConversationMembers.EventuallyPresentIff | internal/controller/conversationmember/conversationmember.go:94-166 | After any finite run under faults, fault-free turns find the membership if and only if they could have before the run |
| ConversationMembers.DeletionFinishesIff | internal/controller/conversationmember/conversationmember.go:94-199 | Fault-free turns of deletion ever report the membership missing if and only if its name is not tied to a channel that is gone, nor to a member of an archived channel that lets no one go |
| UserGroups.GroupClient.UpdateUserGroup | internal/clients/slack/usergroups.go:52-63 | The remote receives name and handle, and the description only if it is not empty |
| UserGroups.GroupClient.CreateUserGroup | internal/clients/slack/usergroups.go:10-30 | The remote receives the same form on creation |
| UserGroups.UpdateConvergesIff | internal/controller/usergroup/usergroup.go:169-197 | After a fault-free Update the next Observe is up to date if and only if the name is not another group's and the desired description is non-empty or the remote one empty; if the name is another's, only if nothing drifted |
| UserGroups.CalmObserveRecords | internal/controller/usergroup/usergroup.go:101-136 | A fault-free Observe reports an enabled group up to date if and only if its name, handle and description are the desired ones, and records its status and availability; of any other group nothing |
| UserGroups.CalmWritesRecord | internal/controller/usergroup/usergroup.go:139-216 | What fault-free Create and Update answer and record, the NameConflict condition in full |
| UserGroups.UnansweredFails | internal/controller/usergroup/usergroup.go:106-213 | A call that is not answered makes its operation fail with the cause inside and nothing recorded |
| UserGroups.UpdateIsAllOrNothing | internal/controller/usergroup/usergroup.go:177-194 | Under any faults other groups stay and the group stays or takes all sent fields |
| UserGroups.PresenceReachableIff | internal/controller/usergroup/usergroup.go:95-167 | A fault-free run sees the group present if and only if its external name is that of an enabled group or no group has the name |
| UserGroups.ConvergenceReachableIff | internal/controller/usergroup/usergroup.go:95-197 | A fault-free run ever finds the group up to date if and only if its enabled group has no other group's name to take and no description to clear (or nothing drifts), or it has no enabled group and the name is free |
| UserGroups.EmptyDescriptionNeverClears | internal/clients/slack/usergroups.go:52-63 | An empty desired description never clears the remote one, however often the update is repeated |
| UserGroups.LostCreateStrands | internal/controller/usergroup/usergroup.go:147-165 | A Create whose effect lands while its response is lost adds the group and strands the resource, exactly unless its stale external name is the ID that the group was given |
| UserGroups.EventuallyConvergesIff | internal/controller/usergroup/usergroup.go:95-197 | After any finite run under faults, fault-free turns bring the group up to date if and only if they could have before and no turn has made the group and lost its ID |
| UserGroups.StuckTurn | internal/controller/usergroup/usergroup.go:151-163 | Otherwise each turn sets the NameConflict condition and changes nothing in Slack |
| UserGroups.DeleteThenGone | internal/controller/usergroup/usergroup.go:199-216 | Delete succeeds exactly on a known group, disables it alone, and Observe then finds nothing |
| UserGroups.DeletionFinishes | internal/controller/usergroup/usergroup.go:95-216 | From any external name one fault-free turn of deletion ends with Observe finding nothing |
| UserGroups.External.Observe | internal/controller/usergroup/usergroup.go:95-137 | New state and result equal the function Observed; what that says is CalmObserveRecords and UnansweredFails |
| UserGroups.External.Create | internal/controller/usergroup/usergroup.go:139-167 | New state and result equal the function AfterCreate; what that says is CreatedIsUpToDate and StuckTurn |
| UserGroups.External.Update | internal/controller/usergroup/usergroup.go:169-197 | New state and result equal the function AfterUpdate; what that says is UpdateIsAllOrNothing and UpdateConvergesIff |
| UserGroups.External.Delete | internal/controller/usergroup/usergroup.go:199-216 | New state and result equal the function AfterDelete; what that says is DeleteThenGone |
| Bookmarks.BookmarkClient.EditBookmark | internal/clients/slack/bookmarks.go:56-70 | The remote receives title and link only where they are not empty |
| Bookmarks.UpdateConvergesIff | internal/controller/bookmark/bookmark.go:179-204 | After a fault-free Update the next Observe is up to date if and only if title and link are each desired non-empty or empty remotely; in an archived channel, only if nothing drifted |
| Bookmarks.CalmObserveRecords | internal/controller/bookmark/bookmark.go:97-150 | A fault-free Observe of a bookmark on the shelf reports it up to date if and only if its title and link are the desired ones, and records its status and availability; of an unknown channel that it is unavailable; otherwise nothing |
| Bookmarks.UnansweredFails | internal/controller/bookmark/bookmark.go:116-234 | A call that is not answered makes its operation fail with the cause inside, unless the cause carries a code that the operation takes for an answer |
| Bookmarks.UnresolvedChannelStops | internal/controller/bookmark/bookmark.go:105-218 | A channel reference that does not resolve stops every operation with that error before any call |
| Bookmarks.ConvergenceReachableIff | internal/controller/bookmark/bookmark.go:97-204 | From any external name a fault-free run ever finds the bookmark up to date if and only if it is on the shelf with title and link each desired non-empty or empty there (archived: with nothing drifted), or it is missing and the channel is open |
| Bookmarks.EmptyTitleNeverClears | internal/clients/slack/bookmarks.go:56-70 | An empty desired title never clears the remote one, however often the update is repeated |
| Bookmarks.UpdateIsAllOrNothing | internal/controller/bookmark/bookmark.go:192-201 | Under any faults an Update touches the title and link of one bookmark at most, both or neither |
| Bookmarks.UnavailableIsFlagged | internal/controller/bookmark/bookmark.go:116-201 | What fault-free Create and Update answer and record: an unknown or archived channel fails them with Slack's code in error and condition, a missing bookmark fails Update, and success changes the external name at most |
| Bookmarks.LostNamesDuplicate | internal/controller/bookmark/bookmark.go:152-177 | While the name that Create leaves keeps being lost, from no external name or one whose bookmark is gone, every add that reaches an open channel leaves one more copy: the copies are counted exactly |
| Bookmarks.EventuallyConvergesIff | internal/controller/bookmark/bookmark.go:97-204 | Whatever copies a finite run under faults leaves behind, fault-free turns bring the bookmark up to date if and only if they could have before the run |
| Bookmarks.DeletionFinishesIff | internal/controller/bookmark/bookmark.go:97-235 | Fault-free turns of deletion ever report the bookmark missing if and only if it is not on the shelf of an archived channel |
| Bookmarks.DeleteThenGoneIff | internal/controller/bookmark/bookmark.go:206-235 | Delete always succeeds fault-free when the channel resolves, also for an unknown channel and a bookmark already gone; Observe then finds nothing exactly unless the bookmark is on the shelf of an archived channel, and nothing but that bookmark changes |
| Bookmarks.External.Observe | internal/controller/bookmark/bookmark.go:97-150 | New state and result equal the function Observed; what that says is CalmObserveRecords and UnansweredFails |
| Bookmarks.External.Create | internal/controller/bookmark/bookmark.go:152-177 | New state and result equal the function AfterCreate; what that says is MissingTurn and LostNamesDuplicate |
| Bookmarks.External.Update | internal/controller/bookmark/bookmark.go:179-204 | New state and result equal the function AfterUpdate; what that says is UpdateIsAllOrNothing and UpdateConvergesIff |
| Bookmarks.External.Delete | internal/controller/bookmark/bookmark.go:206-235 | New state and result equal the function AfterDelete; what that says is DeleteThenGoneIff |

## Left out

- Conversation.External.Update: a private channel that refuses the join call is not modelled as such; it appears as a fault of that call.
- Pagination.GetConversationMembers: requires a cursor chain that ends, because the source loops forever on one that does not.
- Pagination.FindConversationByName: requires a chain that ends or holds a match, for the same reason; the controllers take a search as one call over a listing that does not change meanwhile.
- RateLimit.CalculateBackoff: works over reals; the products involved are exact in binary floating point, and an infinite power is capped like a large one.
- RateLimit.DoWithRetry: says nothing about the bytes of the request body across attempts, which the source does not renew, nor about real time.
- StringSets.SortStrings: is an insertion sort on arrays; the library switches to other algorithms on long slices, with the same result.
- UserGroupMembers.UpdateConvergesIff: assumes user IDs without commas and a server that keeps membership as a set.
- UserGroups.PresenceReachableIff: takes the enabled flag as Slack lists it, as do all results about user groups; the source decodes it from the field `is_usergroup`.
- Errors.ContextChangesNothing: covers non-nil errors; nil is the absence of an error value here. Formatted numbers and method names inside messages are left out of error texts.
- HTTP transport, JSON decoding, URL form encoding and authentication headers: inputs, not modelled.
- Resolving references to channel and group IDs: taken as an input that may be an error.
- Connecting, usage tracking, credentials, provider configuration, generated code and packaging: no hard property.
- Slack's normalisation of names and edits by third parties between calls: not part of this model.
- ConversationConvergence.EventuallyConvergesIff: leaves out runs in which a fault is reported with Slack's own code `channel_not_found`; the client never makes such an error (Client.SlackErrorIffNotOk).
- Pins.EventuallyPresentIff: leaves out, for the same reason, faults reported with `channel_not_found` or `is_archived`.
- Bookmarks.EventuallyConvergesIff: leaves out the same two codes, and assumes that Slack gives no bookmark ID twice.
- ConversationMembers.EventuallyPresentIff: leaves out faults reported with `already_in_channel`.
- UserGroupMembers.EventuallyConvergesIff: leaves out faults reported with `users_not_found`, and assumes that the group's list has no duplicates.
- Deadline, polling interval and requeue policy of the driver: not part of this model.
