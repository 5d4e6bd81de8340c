# Contract approval workflow — a Dafny model

This project models the core of a contract management service (Flask-Contracts-Management). In that service, companies draft a contract together, harmonize it, sign it and archive it. The modelled core is:

- **The status state machine** (`update_status`, `create_initial_status`). The phases are creating → harmonization → harmonized → signing → signed → archived. A per-company, per-role acceptance matrix holds the lawyer, economist and director flags.
  - Creating, harmonized and signed are *entry* phases: they advance on one valid action.
  - Harmonization and signing are *consensus* phases: they advance only once every company approves. In harmonization that means all three roles; in signing only the director. On that advance every flag is cleared.
- **The contract page projection** (`define_action_on_status_and_acceptances`): the action offered to a viewer, and the per-company "harmonized" / "signed" / "pending" summary.
- **The invitation gate** (`get_invitation_variants`, `remove_companies_from_invitation`): which companies may still be invited, and for which purpose, in the contract's current status. Also the fan-out of an invitation to a company's employees (`create_invitations`).
- **The effects of a status change** (`update_contract_status`): which invitations are deleted, which notification is sent and to whom, and when comments are deleted.
- **The reset on a substantive edit** (`update_contract`).
- **The id of a new reply to a comment** (`update_comment`).
- **Pagination of list endpoints** (`apply_pagination`).

Modules, one per file:

- `Domain`: roles, companies, employees.
- `Status`: the state machine as values, with its lemmas.
- `StatusUpdate`: `update_status` as the source runs it. The status record shares its mutable `companies` table with the caller, because the source's `dict.copy()` is shallow. `AcceptanceTable` is a class whose `rows` field is updated in place. The method is proved equal to `Status.Apply`, and its contract also says that the caller's status sees the updated table.
- `Projection`: the page projection.
- `Invitations`: the gate, the filter and the fan-out.
- `Effects`: the status-change and edit effects.
- `Comments`: the id of a new reply.
- `Pagination`: `apply_pagination`.
- `Wrappers`: `Option` and `Result`.

Behaviour of the code that the model keeps, even where a reader might expect otherwise:

- **Invitation purge after a status update.** The code looks the purge up by the *final* status name (app.py:382-385): harmonization → editing, harmonized → harmonization, signed → signing. Harmonization invitations are therefore deleted on reaching *harmonized*, not on entering signing. Because the lookup uses the final name, the purge also runs when the status did not change.
- **Gate filter.** The filter removes a company for every invitation of the contract and type (app.py:273-278, utils.py:58-70), whatever the invitation's state: an invitation that is no longer pending still excludes its company.
- **Acting flag.** The acting flag is *not* always true after a valid call. When a consensus phase advances, the reset at utils.py:97-100 clears it too. `Status.ActingFlagRecorded` states the exact condition.
- **Monotone phase.** The phase never moves back under a status update. A substantive edit (app.py:548-554), however, sends a contract in any phase back to creating, including an archived one.

## Model

| member | source | states |
|---|---|---|
| Status.Index | utils.py:86 | position in the ordered status list; 0 exactly for creating, 5 exactly for archived |
| Status.Next | utils.py:86-87 | the status after a non-archived one is exactly one position later |
| Status.Record | utils.py:85 | writing the acting flag keeps the matrix well formed and its companies, sets that flag and changes no other |
| Status.Reset | utils.py:97-100 | every company and role key is kept and every flag is false |
| Status.Apply | utils.py:79-101 | the new status covers the same companies and stays well formed; the acting company is needed in the matrix only when the action is valid |
| Status.InvalidActionIsNoOp | utils.py:81-83 | an action not valid from the current status returns the status unchanged, whoever sends it |
| Status.ActingFlagRecorded | utils.py:84-100 | after a valid action the acting flag is true exactly unless a consensus phase advanced and reset it |
| Status.EntryPhaseAdvances | utils.py:86-90 | from creating, harmonized or signed a valid action moves to the next status and carries every flag forward, not reset |
| Status.HarmonizationApproval | utils.py:94 | in harmonization, every company approves exactly when every role of every company has accepted |
| Status.SigningApproval | utils.py:94 | in signing, every company approves exactly when every company's director has signed |
| Status.HarmonizationGate | utils.py:91-97 | harmonization reaches harmonized exactly when, counting the acting flag, all roles of all companies accepted; otherwise it stays |
| Status.SigningGate | utils.py:91-97 | signing reaches signed exactly when, counting the acting flag, every company's director signed; other roles never count |
| Status.ConsensusAdvanceResets | utils.py:97-100 | when a consensus phase advances, every flag is false and the company and role keys are unchanged |
| Status.ResetOnlyOnConsensusAdvance | utils.py:85-100 | any call other than a consensus advance keeps every flag that was already set; a valid one that does not advance a consensus phase sets the acting flag and changes no other |
| Status.StepIsMonotone | utils.py:86-97 | the status never moves back, moves at most one step, and only for a valid action |
| Status.OneActionPerPhase | utils.py:81 | at most one action is valid from a status, and none from archived |
| Status.InitialStatusShape | utils.py:23-28 | the initial status is creating with, per company name, exactly the three roles, all false |
| Status.Run | utils.py:79-101 | a sequence of calls keeps the matrix well formed over the same companies |
| Status.ParticipantsAreAdmissible | utils.py:82-85 | a run whose calls all come from the contract's companies can be served, whatever the actions |
| Status.RunIsMonotone | utils.py:86-97 | over any run the status never moves back and advances at most one step per call |
| Status.RunKeepsInvalidActionsInert | utils.py:81-83 | a run of calls none valid from the current status can be served even from outside companies and leaves the status unchanged |
| Status.HarmonizationScenarioFirstHalf | utils.py:79-101 | two companies: A's lawyer starts harmonization and the flag carries over; A's other roles accept and the status stays harmonization |
| Status.HarmonizationScenarioSecondHalf | utils.py:79-101 | B's lawyer and economist keep harmonization; B's director, the last one pending, reaches harmonized with every flag cleared |
| StatusUpdate.ConsensusReached | utils.py:91-96 | the early-return loop answers exactly whether every company approves in the phase |
| StatusUpdate.ResetTable | utils.py:97-100 | the in-place loop leaves the table equal to the all-false reset of its old contents |
| StatusUpdate.UpdateStatus | utils.py:79-101 | the returned status shares the caller's table; name and table equal the state machine's transition; an invalid action returns the input and leaves the table untouched |
| StatusUpdate.CreateInitialStatus | utils.py:23-28 | the loop builds the creating status with one all-false three-role row per company name |
| Projection.ActionOnStatus | utils.py:33-35 | every status but archived names an action, and that action is valid from it |
| Projection.OfferedAction | utils.py:35-38 | an action is offered exactly when not archived, the viewer's flag is unset, and the viewer is not a non-director at harmonized or signing |
| Projection.CompanyAcceptances | utils.py:39-48 | the summary covers every company in harmonization or signing and none otherwise; a company is labelled approved exactly when the state machine counts it approving |
| Projection.DefineActionOnStatusAndAcceptances | utils.py:31-49 | the loop computes the offered action and the summary |
| Projection.OfferedActionTakesEffect | utils.py:35-38 | taking an offered action always changes the status |
| Projection.SummaryPredictsAdvance | utils.py:39-48 | in a consensus phase the next valid call advances exactly when, with its flag written, no company is pending |
| Invitations.FirstIndexOf | utils.py:62-65 | the index of the first company with the id, or the length when none has it |
| Invitations.IndexOfCompany | utils.py:64-65 | the search loop finds that same index |
| Invitations.DropEmpty | utils.py:67-69 | exactly the types with non-empty lists remain, with their lists |
| Invitations.DeleteEmptyTypes | utils.py:67-69 | the deletion loop removes exactly the empty types |
| Invitations.RemoveCompaniesFromInvitation | utils.py:58-70 | the pop and delete loops compute the filtered variants |
| Invitations.WithdrawCount | utils.py:59-66 | one invitation never adds a company, and removes one only if it has the addressed id and type |
| Invitations.WithdrawDistinct | utils.py:59-66 | with distinct ids, one invitation keeps the ids distinct and removes the addressed company |
| Invitations.WithdrawAllCount | utils.py:59-66 | after all invitations no company occurs more often, and an unaddressed company keeps every occurrence |
| Invitations.WithdrawAllRemovesAddressed | utils.py:59-66 | with distinct ids, every company addressed by an invitation of the type is gone from that type's list |
| Invitations.FilterRemovesOnlyAddressed | utils.py:58-70 | the filter never adds a type or company, leaves no empty type, and keeps every unaddressed company |
| Invitations.FilterRemovesAddressed | utils.py:58-70 | with distinct ids, every addressed company is removed |
| Invitations.CompaniesToInvite | app.py:263 | exactly the contract's companies other than the requester's; distinct ids stay distinct |
| Invitations.CompaniesToInviteKeepsOrder | app.py:263 | filtering two parts of the company list one after the other gives the filter of the whole, so the contract's order is kept |
| Invitations.TypesFor | app.py:264-271 | every allowed type is offered the same eligible companies |
| Invitations.QueriedInvitations | app.py:273-277 | exactly the invitations of this contract whose type is allowed |
| Invitations.QueryTypesKnown | app.py:273-278 | every queried invitation has a type present in the variants |
| Invitations.QueryAddresses | app.py:273-277 | for an allowed type, the query addresses a company exactly when an invitation of this contract and type does |
| Invitations.AllowedTypesPerStatus | app.py:264-271 | creating allows editing and harmonization; harmonization allows harmonization; harmonized and signing allow signing; signed and archived allow none |
| Invitations.GateOffersOnlyEligible | app.py:263-279 | only allowed types and no empty list are offered, and only contract companies other than the requester's |
| Invitations.GateOffersExactly | app.py:263-279 | for contract companies with distinct ids, a company is offered for a type exactly when the status allows the type, it is not the requester's, and no invitation of this contract and type addresses it |
| Invitations.GateExclusionExample | app.py:263-279 | creating, companies A, B, C, requester A, a harmonization invitation to B: B leaves the harmonization list and stays in the editing list |
| Invitations.EmployeesOf | app.py:501 | exactly the company's employees are returned |
| Invitations.EmployeesOfCounts | app.py:501 | each employee of the company occurs as often as in the directory, any other not at all |
| Invitations.EmployeesOfKeepsOrder | app.py:501 | querying two parts of a directory one after the other gives the query of the whole, so the directory's order is kept |
| Invitations.FirstDirector | app.py:491-495 | a director of the company with no director of the company earlier in the directory, or none when the company has no director |
| Invitations.CreateInvitations | app.py:491-511 | signing: one invitation to the first director, or failure without one; otherwise one pending invitation per employee in order, with notifications only for editing |
| Invitations.CreatedInvitationsCloseTheGate | app.py:491-508 | for contract companies with distinct ids, once a created invitation is stored, the gate stops offering that company for that type |
| Effects.PurgeMatchesGate | app.py:382-385 | when the status advances, the purged invitation type is exactly the type the gate offered before and not after |
| Effects.PurgeMatchesGateOnAdvance | app.py:382-385 | for each step of the status order, the purge table equals the difference of the gate's allowed types |
| Effects.PurgeEvenWithoutChange | app.py:382-385 | the purge is keyed by the final status, so a harmonize that stays in harmonization still purges editing invitations |
| Effects.NotificationFollowsTransitions | app.py:386-391 | notifications are sent only on an advance: harmonization for the first harmonize, signing when harmonization completes, archived on archive; never on sign |
| Effects.CommentsPurgedOnHarmonize | app.py:407-408 | comments are deleted exactly after a harmonize action, changed status or not |
| Effects.RecipientsFor | app.py:397-405 | the recipients are exactly the contract-company employees that qualify: directors for signing, actor included; everyone but the actor otherwise |
| Effects.RecipientsForKeepsOrder | app.py:397-405 | the recipients for two parts of a directory, one after the other, are those of the whole, so the directory's order is kept |
| Effects.RecipientsForOne | app.py:398-405 | one directory entry gives its recipient exactly once when it qualifies and nothing otherwise, so no recipient is repeated for an entry |
| Effects.NotificationRecipients | app.py:393-405 | the recipient loop computes those recipients |
| Effects.UpdateContractStatus | app.py:376-408 | the handler's new status is the state machine's; purge, notification and comment decisions follow the tables; recipients are chosen only when notifying |
| Effects.EditRestartsApproval | app.py:548-554 | a substantive edit deletes comments and restarts at creating with all flags false for the contract's companies, moving any later phase back |
| Effects.EditPurgesApprovalInvitations | app.py:549-552 | an edit purges invitations only in harmonization, harmonized and signing, never editing ones, and signing ones in harmonized and signing |
| Effects.TextOnlyEditKeepsStatus | app.py:547-555 | a text-only edit keeps the status and purges nothing |
| Comments.MaxOf | app.py:533 | an element of the list at least as large as every element |
| Comments.NewRelatedCommentId | app.py:532-533 | the new id is larger than every existing id and one more than one of them |
| Comments.NewIdIsFresh | app.py:532-533 | the new id is not among the existing ids |
| Pagination.CeilDiv | utils.py:9 | the least multiple count covering n: n ≤ q·d, (q−1)·d < n, zero only for n = 0 |
| Pagination.PagesCount | utils.py:8-9 | exactly one page for no records; otherwise the pages cover the records and one page fewer would not |
| Pagination.Slice | utils.py:15 | slicing clamps the end to the length and yields nothing past the end |
| Pagination.PageRecords | utils.py:13-15 | the records in order from (page − 1) · per page, exactly per page of them or the rest of the list if shorter, none when the start is past the end |
| Pagination.ApplyPagination | utils.py:6-16 | a page beyond the last falls back to the first; the page is always in range; its records are empty only when there are no records |
| Pagination.ChunksCount | utils.py:9 | cutting the records into pieces of per-page size yields the ceiling count of pieces |
| Pagination.ChunkAt | utils.py:13-15 | piece k holds the records from k · per page on |
| Pagination.PaginationMatchesChunks | utils.py:6-16 | for records, the page count equals the number of pieces and page k returns piece k; for no records there is no piece, yet one page, and any request returns page 1 of 1, empty |

## Left out

- Flask routing, request parsing and JSON responses: HTTP plumbing. Requests arrive as typed parameters.
- MongoDB access (mongo.py): lookups become parameters (the status, the contract's companies, the employee directory, the stored invitations). Inserts and deletions become returned decisions (`Effects.UpdateEffects`, `Effects.EditEffects`, the invitations `CreateInvitations` returns).
- Celery, e-mail sending and the creation of notification documents (`create_notifications`): the model stops at the notification type and the recipient list.
- Dates, `transform_field`, `convert_mongo_data_to_json`, `key_func_for_sorting_comments`, the sorted orders of list endpoints and the sample data file: formatting and library sorting, outside the workflow.
- Concurrency: two concurrent status updates are a read-modify-write race in the handler. The model treats each request alone.
- Unknown action strings: the source fails with a key error on them (utils.py:81-82). Actions are an enumeration here, so those inputs cannot be built.
- Unknown role names: `update_status` would add a fourth key to the company's row (utils.py:85), which then counts in the harmonization check; the page projection fails with a key error reading it (utils.py:36). Roles are an enumeration here, so neither path is modelled.
- Malformed matrices: every operation requires rows with exactly the three role keys (`Status.WellFormed`). This is the only shape `create_initial_status` writes.
- Status.Apply: with a valid action, a company missing from the matrix raises a key error in the source (utils.py:85); the model requires the acting company to be in the matrix in that case only. An invalid action from any company returns the status unchanged, as in the source. The same holds for `StatusUpdate.UpdateStatus`, `Effects.UpdateContractStatus` and `Status.Run`.
- Projection.OfferedAction: requires the viewer's company to be in the matrix; for a viewer outside the contract the source fails with a key error (utils.py:36). The same holds for `Projection.DefineActionOnStatusAndAcceptances`.
- Projection.CompanyAcceptances: the source returns a list of `[company, label]` pairs in dictionary order; the model returns a map, so the order is not modelled.
- Invitations.RemoveCompaniesFromInvitation: the source mutates a deep copy made by its only caller; the model returns the new dictionary. Order within a type's list is kept but no lemma states it.
- Invitations.GateOffersExactly: requires the contract's companies to have distinct ids, as does `Invitations.CreatedInvitationsCloseTheGate`. With a duplicated id the source pops only the first copy for each invitation (utils.py:64-66), so a further copy stays offered; that case is not stated.
- Invitations.CreateInvitations: on a signing invitation to a company without a director the source fails (`None` is subscripted); the model returns `Failure(NoDirector)`. Inserting an empty invitation list (a company without employees) is not modelled as an error.
- Effects.UpdateContractStatus: the employee query with an empty `$or` list (a contract without companies) is not modelled as an error. The director test compares the employee's role with the director role by value.
- The hard-coded company id in `get_companies`: environment data.
- Pagination.ApplyPagination: requires `perPage > 0` and `currentPage >= 1`. Negative Python slicing and division by zero are outside the intended domain. `math.ceil` over a float is modelled as exact integer ceiling division.
- Comments.NewRelatedCommentId: requires a non-empty id list; on an empty one the source fails with an index error.
