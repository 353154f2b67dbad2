# email_bot core in Dafny

email_bot is an e-mail outreach application. A React client keeps contacts and templates and
shows a dashboard. An express server keeps three PostgreSQL tables: `contacts`, `templates` and
`messages`. The server sends campaigns, logs the messages it sends, and runs an inbox in which
incoming replies get an AI-generated draft answer, which a user approves or rejects.

This project models the parts of that system that hold logic, and proves what they promise.

**Server.** `ServerDb.Db` is a class holding the three tables as sequences, plus one counter,
`clock`.
- The counter hands out row ids and `created_at` stamps, and stands in for `NOW()`.
- Each service operation is specified by a function `Op(tables, ..., fault)`. It gives the new
  tables and either the result or the thrown error.
- Each operation is carried out by a method `OpOn(db, ...)` that changes `db` in place. The loops
  of `sendCampaign` and `bulkCreate` are `while` loops.
- The `fault` parameter names the statement, counted from 0, that the database rejects.
- The route handlers answer the service result as a JSON body with status 200, or as
  `{ error: message }` with status 500.
- The error middleware of `server/index.js` maps a thrown error to a status, a message and a code.

**Client.** The zustand store (`AppStore.Store`) and the two React hooks (`ContactsHook`,
`TemplatesHook`) are classes whose methods overwrite their fields.
- Every asynchronous store action is one step. It receives how its API call settled, so the
  renders in between are not modelled.
- The list updates those methods use are pure functions in `ClientLists`.
- The views are modelled as functions: the contact search and CSV row mapping, the template
  dialogs, the recent-activity card, the dashboard counters and the campaign dialog.
- The template dialogs keep their form state in a small class.
- The campaign dialog's preview models JavaScript's `String.prototype.replace` with a global
  pattern, `$` replacement patterns included.

## Model

| member | source | states |
|---|---|---|
| TemplateText.Expand | src/components/campaign/CampaignSender.tsx:51 | Its contract: a replacement value without `$` is inserted verbatim. Its body follows JavaScript's substitution rules for a pattern without capture groups (`$$`, `$&`, `` $` ``, `$'`) |
| TemplateText.JoinSplit | src/components/campaign/CampaignSender.tsx:50-53 | Cutting a text at every occurrence of a placeholder and gluing the pieces with the placeholder gives the text back |
| TemplateText.SplitPiecesClean | src/components/campaign/CampaignSender.tsx:50-53 | No piece of the cut text contains the placeholder |
| TemplateText.ScanIsJoin | src/components/campaign/CampaignSender.tsx:50-53 | A left-to-right global replace with a `$`-free value equals cutting at every occurrence and gluing with the value |
| TemplateText.ReplaceAllCutsAndGlues | src/components/campaign/CampaignSender.tsx:51 | A global replace puts the value in place of every occurrence, and of nothing else |
| TemplateText.ReplaceLiteralCutsAndGlues | src/components/campaign/CampaignSender.tsx:51 | A literal replace equals cut-and-glue for every value, `$` included |
| TemplateText.ScanUnchanged | src/components/campaign/CampaignSender.tsx:49-54 | A text without an occurrence of the placeholder is left as it is |
| CampaignSender.ContactName | src/components/campaign/CampaignSender.tsx:52 | `contactPerson \|\| "Уважаемый клиент"`; specified by `ContactTokenFallback` |
| CampaignSender.PreviewText | src/components/campaign/CampaignSender.tsx:49-54 | The three chained global replaces; specified by the `Preview...` and `LaterPasses...` lemmas below |
| CampaignSender.PreviewUnchanged | src/components/campaign/CampaignSender.tsx:49-54 | A text with none of `{{company}}`, `{{contact}}`, `{{email}}` is returned unchanged |
| CampaignSender.PreviewPassesCutAndGlue | src/components/campaign/CampaignSender.tsx:50-53 | The preview is three cut-and-glue passes in order: company name, then contact person or greeting, then e-mail; each pass works on the previous pass's output |
| CampaignSender.PreviewAllFields | src/components/campaign/CampaignSender.tsx:50-53 | `{{company}} {{contact}} {{email}}` becomes company, person (or "Уважаемый клиент" when missing or empty) and e-mail |
| CampaignSender.ContactTokenFallback | src/components/campaign/CampaignSender.tsx:52 | `{{contact}}` becomes the contact person when it is present and non-empty, otherwise "Уважаемый клиент" |
| CampaignSender.BareContactPreview | src/components/campaign/CampaignSender.tsx:52 | A lone `{{contact}}` becomes the name the contact pass uses |
| CampaignSender.WelcomePreview | src/components/campaign/CampaignSender.test.tsx:184-197 | "Welcome to {{company}}" becomes "Welcome to " followed by the company name |
| CampaignSender.LaterPassesRescan | src/components/campaign/CampaignSender.tsx:50-53 | A company name that is itself `{{email}}` is rescanned by the e-mail pass, so `{{company}}` previews as the e-mail |
| CampaignSender.LaterPassesIdle | src/components/campaign/CampaignSender.tsx:50-53 | When the company pass leaves no contact or e-mail placeholder, the later passes change nothing |
| CampaignSender.DollarCompanyKeepsPlaceholder | src/components/campaign/CampaignSender.tsx:51 | As written, a company named `$&` previews `{{company}}` as `{{company}}` (see Findings) |
| CampaignSender.LiteralPreviewShowsCompany | src/components/campaign/CampaignSender.tsx:51 | With literal substitution the company `$&` is shown as `$&` |
| CampaignSender.LiteralPreviewAllFields | src/components/campaign/CampaignSender.tsx:50-53 | With literal substitution all three fields are inserted verbatim, whatever `$` they contain |
| CampaignSender.SelectedContactsList | src/components/campaign/CampaignSender.tsx:38-41 | The contacts whose id is selected, in contact order; specified by `RecipientLists` |
| CampaignSender.NewContacts | src/components/campaign/CampaignSender.tsx:43-45 | The status-`new` contacts of the selected list; specified by `RecipientLists` |
| CampaignSender.RecipientLists | src/components/campaign/CampaignSender.tsx:38-45 | The selected list is the contacts whose id is selected, in contact order; the new list is its status-`new` subsequence |
| CampaignSender.FindTemplate | src/components/campaign/CampaignSender.tsx:36 | `templates.find` gives the first template with the selected id, or none when no template has it |
| CampaignSender.CanSend | src/components/campaign/CampaignSender.tsx:47 | The `canSend` condition; specified by `CanSendIff` |
| CampaignSender.CanSendIff | src/components/campaign/CampaignSender.tsx:47 | `canSend` holds iff a contact is selected, the selected template id is non-empty and some template has it |
| CampaignSender.HandleSend | src/components/campaign/CampaignSender.tsx:56-64 | `onSendCampaign` is called, with the selection and the template id, exactly when `canSend` holds |
| ServerDb.FindContact | server/services/inbox.js:50-51 | The lookup finds a row with that id, or none exactly when no row has it |
| ServerDb.FindMessage | server/services/inbox.js:77-78 | The lookup finds a message with that id, or none exactly when no message has it |
| ServerDb.InsertMessage | server/services/inbox.js:38-41 | An insert appends one row with a fresh id and stamp, and keeps the tables well formed |
| ServerDb.Db.AddMessage | server/services/inbox.js:38-41 | The in-place insert leaves the tables and the row that `InsertMessage` gives |
| InboxService.DisplayName | server/services/inbox.js:54 | The contact person when it is truthy, else the company name |
| InboxService.GetDrafts | server/services/inbox.js:17-26 | The draft query changes nothing, fails only when its statement fails, and otherwise returns the joined drafts (`Drafts`) |
| InboxService.Drafts | server/services/inbox.js:17-26 | The join query's rows, newest first; specified by `DraftsAreJoinedDrafts`, `DraftsComplete` and `DraftsNewestFirst` |
| InboxService.DraftsAreJoinedDrafts | server/services/inbox.js:17-26 | Every listed draft is a `draft`-status message joined to its contact's company, e-mail and person |
| InboxService.DraftsComplete | server/services/inbox.js:17-26 | Every draft-status message whose contact exists is listed |
| InboxService.DraftsNewestFirst | server/services/inbox.js:23 | The drafts come newest first |
| InboxService.GetHistory | server/services/inbox.js:28-34 | The history query changes nothing, fails only when its statement fails, and otherwise returns the contact's history (`History`) |
| InboxService.History | server/services/inbox.js:28-34 | The contact's messages in table order; specified by `HistoryOldestFirst`, `HistoryAppend` and `RejectedLeavesHistory` |
| InboxService.HistoryOldestFirst | server/services/inbox.js:28-34 | The history holds exactly the contact's messages, in table order, with strictly increasing stamps |
| InboxService.HistoryAppend | server/services/inbox.js:44-47 | Appending a message extends the history of its own contact only |
| InboxService.SimulateIncoming | server/services/inbox.js:36-63 | The received row goes in first. An unknown contact then throws "Contact not found" with that row kept. On success exactly one `draft/draft` row follows, and it is returned |
| InboxService.IncomingHistoryEndsWithReceived | server/services/inbox.js:44-47 | The history handed to `generateDraft` is the old history followed by the received row |
| InboxService.IncomingDraftContent | server/services/inbox.js:54-59 | The draft holds what `generateDraft` returns for the display name and that history |
| InboxService.IncomingKeepsValid | server/services/inbox.js:36-63 | The tables stay well formed, whatever fails |
| InboxService.ApproveDraft | server/services/inbox.js:65-79 | The row with that id becomes `sent`/`assistant` and gets the new content only when it is truthy. No other row changes. A failing read-back throws its error. If the id is stored, the result is the first row of that id, rewritten; a missing row makes the result `undefined`, which throws |
| InboxService.ApproveIdempotent | server/services/inbox.js:65-79 | Approving twice with the same content gives what approving once gives |
| InboxService.ApprovedLeavesDrafts | server/services/inbox.js:65-76 | After an approve the id is no longer among the drafts |
| InboxService.ApproveKeepsValid | server/services/inbox.js:65-79 | The tables stay well formed |
| InboxService.RejectDraft | server/services/inbox.js:81-84 | The message with that id goes, whatever its role or status, and `{success:true}` is answered even when there was none |
| InboxService.RejectedLeavesHistory | server/services/inbox.js:81-84 | Every history afterwards is the old history with the rejected message filtered out, in the same order |
| InboxService.RejectKeepsValid | server/services/inbox.js:81-84 | The tables stay well formed |
| InboxService.GetDraftsOn | server/services/inbox.js:17-26 | Returns what `GetDrafts` specifies for the current tables |
| InboxService.GetHistoryOn | server/services/inbox.js:28-34 | Returns what `GetHistory` specifies for the current tables |
| InboxService.SimulateIncomingOn | server/services/inbox.js:36-63 | The tables and result are those `SimulateIncoming` specifies |
| InboxService.ApproveDraftOn | server/services/inbox.js:65-79 | The tables and result are those `ApproveDraft` specifies |
| InboxService.RejectDraftOn | server/services/inbox.js:81-84 | The tables and result are those `RejectDraft` specifies |
| Http.Respond | server/routes/inbox.js:30-33 | Status 200 with the value exactly on success; otherwise 500 with `{error: message}` |
| InboxRoutes.GetDraftsRoute | server/routes/inbox.js:21-34 | Answers the draft list or a 500 |
| InboxRoutes.GetMessagesRoute | server/routes/inbox.js:37-48 | Answers the contact's history or a 500 |
| InboxRoutes.SimulateIncomingRoute | server/routes/inbox.js:51-89 | Same statements and effects as the service, answered as 200 or 500 |
| InboxRoutes.ApproveRoute | server/routes/inbox.js:92-108 | The approve the route runs never passes content |
| InboxRoutes.DeleteDraftRoute | server/routes/inbox.js:111-119 | Deletes by id and answers the acknowledgement or a 500 |
| InboxRoutes.SimulateUnknownContact | server/routes/inbox.js:56-88 | For an unknown contact the received row stays and the answer is 500 "Contact not found" |
| InboxRoutes.ApproveRouteKeepsText | server/routes/inbox.js:97-104 | The approve route keeps every message text and marks the row `sent`/`assistant`. A stored id answers 200 with that row so marked; an unknown id answers 500 with the TypeError's message, never 404 |
| InboxRoutes.DeleteAlwaysSucceeds | server/routes/inbox.js:114-115 | Without a database failure the delete always answers 200 `{success:true}` |
| InboxRoutes.FirstStatementFailure | server/routes/inbox.js:31-33 | A failing first query answers 500 with its message and leaves the tables unchanged |
| CampaignService.CampaignContent | server/services/campaigns.js:10 | The logged text is the fixed prefix followed by the template id |
| CampaignService.MarkSent | server/services/campaigns.js:14-17 | Rows with that id become `sent`, with `last_contacted` now; every other row is unchanged |
| CampaignService.CampaignLog | server/services/campaigns.js:6-11 | One `assistant/sent` message per listed id, in list order |
| CampaignService.SendOne | server/services/campaigns.js:7-18 | One iteration: the INSERT, then the UPDATE, each of which may fail; specified by `SendOneOk` |
| CampaignService.SendOneOk | server/services/campaigns.js:7-18 | A successful iteration appends one `assistant/sent` message stamped with the clock, advances the clock by one, and marks that id's contacts at the new time |
| CampaignService.SendAll | server/services/campaigns.js:5-19 | The `for` loop over the ids, stopping at the first thrown error; specified by `SentCount`, `LogsOnePerId`, `UnlistedUnchanged`, `ListedMarkedSent`, `EarlierEffectsKept` and `ErrorSticks` |
| CampaignService.SendCampaign | server/services/campaigns.js:4-21 | Succeeds exactly when none of its `2 * \|ids\|` statements fails, then answers `{success:true, sentCount:\|ids\|}`; otherwise throws the database's error |
| CampaignService.SentCount | server/services/campaigns.js:18-20 | The loop succeeds exactly when no statement fails, counting every id, duplicates included; otherwise it throws the database's error |
| CampaignService.LogsOnePerId | server/services/campaigns.js:6-11 | On success the messages table gains exactly the campaign log, in order |
| CampaignService.UnlistedUnchanged | server/services/campaigns.js:14-17 | Contacts whose id is not listed are not modified, whatever fails |
| CampaignService.ListedMarkedSent | server/services/campaigns.js:14-17 | On success every listed contact is `sent`, its `last_contacted` is a time after the campaign started and no later than its end, and its other columns are kept |
| CampaignService.EarlierEffectsKept | server/services/campaigns.js:6-19 | The messages of earlier iterations are never undone by later ones |
| CampaignService.ErrorSticks | server/services/campaigns.js:6-19 | Once a statement fails, the rest of the ids run nothing |
| CampaignService.SendOneIgnoresTemplates | server/services/campaigns.js:10 | One iteration neither reads nor writes the templates table |
| CampaignService.TemplateNeverRead | server/services/campaigns.js:10 | The campaign's effect and result do not depend on the templates table |
| CampaignService.SendAllKeepsValid | server/services/campaigns.js:6-19 | The tables stay well formed |
| CampaignService.SendOneOn | server/services/campaigns.js:7-17 | One iteration on the database leaves the tables and result that `SendOne` specifies |
| CampaignService.SendCampaignOn | server/services/campaigns.js:4-21 | The in-place loop leaves the tables and answers the result that `SendCampaign` specifies |
| CampaignRoute.SendRoute | server/routes/campaign.js:6-37 | The route's loop has the campaign's effect and answers it as 200 or 500 |
| CampaignRoute.SendAnswer | server/routes/campaign.js:33 | Without failure the answer is 200 `{success:true, sentCount: contactIds.length}`, whatever the template id |
| CampaignRoute.SendFailure | server/routes/campaign.js:34-36 | A failing insert at iteration n answers 500 with the message and keeps the n earlier messages |
| ContactService.FindByEmail | server/services/contacts.js:35 | The conflict check finds a row with that e-mail, or none exactly when no row has it |
| ContactService.GetAll | server/services/contacts.js:16-19 | The list is the table in reverse order (`ORDER BY created_at DESC` over ascending stamps), fails only when the query fails, and changes nothing |
| ContactService.GetAllNewestFirst | server/services/contacts.js:17 | The list `getAll` returns is strictly newest first |
| ContactService.Create | server/services/contacts.js:21-28 | One new row is appended and returned; a known e-mail violates the unique constraint and changes nothing |
| ContactService.CreateDuplicateFails | server/services/contacts.js:23-26 | Creating with a stored e-mail fails with the unique violation |
| ContactService.CreateKeepsValid | server/services/contacts.js:21-28 | A plain insert keeps the tables well formed |
| ContactService.Upsert | server/services/contacts.js:35 | A new e-mail appends a row; a stored e-mail overwrites only that row's company name |
| ContactService.ConflictKeepsOtherColumns | server/services/contacts.js:35 | On a conflict the stored person, phone, status, last contact, notes and id are kept |
| ContactService.UpsertKeepsOthers | server/services/contacts.js:35 | Contacts with another e-mail are kept |
| ContactService.UpsertKeepsValid | server/services/contacts.js:35 | E-mails stay unique and ids and stamps stay increasing |
| ContactService.BulkCreate | server/services/contacts.js:30-41 | The upsert loop over the inputs, stopping at the first thrown error; specified by `BulkResults`, `BulkKeepsValid`, `LastDuplicateWins` and `BulkErrorSticks` |
| ContactService.BulkResults | server/services/contacts.js:30-41 | Without failure there is one result per input, in input order, with its e-mail and company |
| ContactService.BulkKeepsValid | server/services/contacts.js:30-41 | E-mails stay unique after a bulk import, whatever fails |
| ContactService.LastDuplicateWins | server/services/contacts.js:32-39 | The last input with a given e-mail decides the stored company name |
| ContactService.BulkErrorSticks | server/services/contacts.js:32-39 | Once an upsert fails, the remaining inputs run nothing |
| ContactService.Delete | server/services/contacts.js:43-46 | Exactly the rows with that id go, and `{success:true}` is answered even when there was none |
| ContactService.DeleteKeepsValid | server/services/contacts.js:43-46 | The tables stay well formed |
| ContactService.GetAllOn | server/services/contacts.js:16-19 | Returns what `GetAll` specifies for the current tables |
| ContactService.CreateOn | server/services/contacts.js:21-28 | The tables and result are those `Create` specifies |
| ContactService.BulkCreateOn | server/services/contacts.js:30-41 | The in-place loop leaves the tables and result that `BulkCreate` specifies |
| ContactService.DeleteOn | server/services/contacts.js:43-46 | The tables and result are those `Delete` specifies |
| TemplateService.FindTemplate | server/services/templates.js:18-19 | The lookup finds a template with that id, or none exactly when no template has it |
| TemplateService.GetAll | server/services/templates.js:12-15 | The list is the table in reverse order (`ORDER BY created_at DESC` over ascending stamps), fails only when the query fails, and changes nothing |
| TemplateService.GetAllNewestFirst | server/services/templates.js:13 | The list `getAll` returns is strictly newest first |
| TemplateService.GetById | server/services/templates.js:17-21 | The template with that id, or null exactly when there is none |
| TemplateService.Create | server/services/templates.js:23-29 | One template with the given name, subject and body is appended and returned |
| TemplateService.CreateKeepsValid | server/services/templates.js:23-29 | The tables stay well formed |
| TemplateService.Update | server/services/templates.js:31-42 | The matching row gets the new name, subject and body and is returned. Other rows and the order are unchanged. An unknown id throws the 404 error and changes nothing |
| TemplateService.UpdateUnknown | server/services/templates.js:36-40 | Updating an unknown id changes nothing and throws the 404 error |
| TemplateService.UpdateThenGet | server/services/templates.js:31-41 | After an update, `getById` returns the updated row |
| TemplateService.UpdateKeepsValid | server/services/templates.js:31-42 | The tables stay well formed |
| TemplateService.Delete | server/services/templates.js:44-52 | An unknown id throws the 404 error and changes nothing; otherwise exactly the rows with that id go and `{success:true}` is returned |
| TemplateService.DeleteKnownOrUnknown | server/services/templates.js:44-51 | Deleting either answers 404 unchanged, or removes every row with the id |
| TemplateService.DeleteKeepsValid | server/services/templates.js:44-52 | The tables stay well formed |
| TemplateService.GetAllOn | server/services/templates.js:12-15 | Returns what `GetAll` specifies for the current tables |
| TemplateService.GetByIdOn | server/services/templates.js:17-21 | Returns what `GetById` specifies for the current tables |
| TemplateService.CreateOn | server/services/templates.js:23-29 | The tables and result are those `Create` specifies |
| TemplateService.UpdateOn | server/services/templates.js:31-42 | The in-place rewrite leaves the tables and result that `Update` specifies |
| TemplateService.DeleteOn | server/services/templates.js:44-52 | The tables and result are those `Delete` specifies |
| TemplateRoutes.MountedUpdate | server/routes/templates.js:36-48 | The UPDATE runs without a row check; a stored id gets and returns the new name, subject and body, an unknown id changes nothing and throws reading `undefined` |
| TemplateRoutes.MountedDelete | server/routes/templates.js:50-58 | Exactly the rows with that id go, and `{success:true}` is returned whether or not one matched |
| TemplateRoutes.AgreeOnStoredIds | server/routes/templates.js:36-58 | For a stored id the mounted update and delete do exactly what the service's do |
| TemplateRoutes.UnknownIdAnswers | server/routes/templates.js:36-58 | For an unknown id the service throws its 404, while the mounted update answers 500 with the TypeError and the mounted delete answers 200 `{success:true}`, both changing nothing |
| TemplateRoutes.MountedKeepsValid | server/routes/templates.js:36-58 | Both mounted handlers keep the tables well formed |
| TemplateRoutes.GetTemplatesRoute | server/routes/templates.js:14-21 | Answers the newest-first list or a 500 |
| TemplateRoutes.CreateTemplateRoute | server/routes/templates.js:23-34 | Same statement and effect as the service's create, answered as 200 or 500 |
| TemplateRoutes.UpdateTemplateRoute | server/routes/templates.js:36-48 | The tables and answer are those `MountedUpdate` specifies |
| TemplateRoutes.DeleteTemplateRoute | server/routes/templates.js:50-58 | The tables and answer are those `MountedDelete` specifies |
| ErrorHandler.StatusOf | server/index.js:32 | The error's status when it is truthy, else 500 |
| ErrorHandler.CodeOf | server/index.js:38 | The error's code when it is truthy, else "INTERNAL_ERROR" |
| ErrorHandler.Handle | server/index.js:26-43 | `{error:{message, code}}` with that status and code; the message is the error's own unless it is masked in production for a 500 |
| ErrorHandler.MaskedExactlyInProduction | server/index.js:35-37 | The generic message is sent exactly for status 500 in production; a non-500 error, or any error outside production, keeps its message |
| ErrorHandler.EnvironmentOnlyTouchesMessage | server/index.js:32-38 | Status and code do not depend on `NODE_ENV` |
| ErrorHandler.TemplateNotFoundAnswer | server/index.js:32-38 | The template service's 404, were it thrown to the middleware, keeps status 404 and its message in every environment |
| ErrorHandler.DatabaseErrorAnswer | server/index.js:32-38 | A database error becomes a 500 that keeps the database code, with its text hidden exactly in production |
| ClientLists.Ids | src/hooks/useContacts.ts:47 | The contact ids, in list order |
| ClientLists.WithoutContact | src/store/useAppStore.ts:73 | Exactly the contacts with another id are kept, in order; an absent id changes nothing |
| ClientLists.WithoutId | src/store/useAppStore.ts:74 | Exactly the other ids are kept, in order; distinct ids stay distinct |
| ClientLists.WithoutTemplate | src/hooks/useTemplates.ts:26 | Exactly the templates with another id are kept, in order |
| ClientLists.ClearIfSelected | src/hooks/useTemplates.ts:27 | The selection goes exactly when it was that id |
| ClientLists.ReplaceTemplate | src/store/useAppStore.ts:104 | Templates with the id become the server's version; the others, the length and the order stay |
| ClientLists.ReplaceTemplateIdempotent | src/store/useAppStore.ts:104 | Replacing twice is replacing once |
| ClientLists.Patch | src/hooks/useTemplates.ts:21 | Each supplied field overrides, each other field, the id and the stamp are kept |
| ClientLists.PatchTemplates | src/hooks/useTemplates.ts:20-22 | The templates with the id are patched; the others, the length and the order stay |
| ClientLists.PatchUnknownId | src/hooks/useTemplates.ts:20-22 | An unknown id changes nothing |
| ClientLists.EmptyPatch | src/hooks/useTemplates.ts:21 | An empty patch changes nothing |
| ClientLists.Toggle | src/hooks/useContacts.ts:36-38 | The id is selected afterwards exactly when it was not before (every occurrence goes); other ids keep their membership; an unselected id is appended at the end |
| ClientLists.ToggleTwiceUnselected | src/hooks/useContacts.ts:35-39 | Toggling an unselected id twice restores the selection |
| ClientLists.ToggleTwiceSelected | src/hooks/useContacts.ts:35-39 | Toggling a selected id twice moves it to the end: same members, and the same multiset when ids are distinct |
| ClientLists.WithoutOneOccurrence | src/hooks/useContacts.ts:37 | In a list of distinct ids, removal takes out exactly one occurrence |
| ClientLists.SelectAll | src/hooks/useContacts.ts:43-48 | Either nothing or all ids in contact order: nothing when the selection is as long as the list, all ids otherwise |
| ClientLists.SelectAllTwice | src/hooks/useContacts.ts:41-52 | From a length mismatch, two clicks select nothing |
| ClientLists.SelectAllRuleSound | src/hooks/useContacts.ts:44 | Distinct selected ids of listed contacts, as many as there are contacts, cover every contact |
| ClientLists.SelectAllComparesLengthsOnly | src/hooks/useContacts.ts:44 | An equal-length selection of other ids is cleared, not completed |
| ClientLists.NewContact | src/hooks/useContacts.ts:11-16 | The input's fields, plus the new id, status `new` and the creation time |
| ClientLists.NewContacts | src/hooks/useContacts.ts:26-31 | One new contact per input, in input order |
| ClientLists.NewContactsAppend | src/hooks/useContacts.ts:25-33 | Importing two batches is importing their concatenation |
| ClientLists.NewTemplate | src/hooks/useTemplates.ts:11-15 | The input's fields, plus the new id and the creation time |
| AppStore.ContactsFrom | src/store/useAppStore.ts:41 | An array is taken as it is; anything else gives the empty list |
| AppStore.ThrownBy | src/store/useAppStore.ts:81 | A rejected call escapes with its reason; a resolved one throws nothing |
| AppStore.Store.constructor | src/store/useAppStore.ts:29-35 | Empty lists, no selection, nothing loading |
| AppStore.Store.FetchContacts | src/store/useAppStore.ts:37-47 | An array replaces the contacts, a non-array empties them, a failure keeps them; not loading afterwards |
| AppStore.Store.FetchTemplates | src/store/useAppStore.ts:49-59 | The resolved list replaces the templates, a failure keeps them; not loading afterwards |
| AppStore.Store.SetSelectedContacts | src/store/useAppStore.ts:61 | Only the contact selection changes |
| AppStore.Store.SetSelectedTemplate | src/store/useAppStore.ts:62 | Only the template selection changes |
| AppStore.Store.AddContact | src/store/useAppStore.ts:64-67 | The created contact is prepended and the list grows by one; a failure escapes and changes nothing |
| AppStore.Store.DeleteContact | src/store/useAppStore.ts:69-83 | The id leaves the selection in every case. The contact goes on success. A failure restores only the contact list and re-throws |
| AppStore.Store.ImportContacts | src/store/useAppStore.ts:85-94 | The refetched list replaces the contacts. Either call's failure escapes with the list unchanged. Not loading afterwards |
| AppStore.Store.AddTemplate | src/store/useAppStore.ts:96-99 | The created template is prepended; a failure escapes and changes nothing |
| AppStore.Store.EditTemplate | src/store/useAppStore.ts:101-106 | Templates with the id become the server's version, keeping length and order; a failure escapes and changes nothing |
| AppStore.Store.DeleteTemplate | src/store/useAppStore.ts:108-114 | A failure changes nothing. On success the template goes, and the selection is cleared exactly when it was that id |
| ContactsHook.ContactsState.constructor | src/hooks/useContacts.ts:7-8 | The initial contacts, nothing selected |
| ContactsHook.ContactsState.SetContacts | src/hooks/useContacts.ts:7 | Only the contacts change |
| ContactsHook.ContactsState.SetSelectedContacts | src/hooks/useContacts.ts:8 | Only the selection changes |
| ContactsHook.ContactsState.AddContact | src/hooks/useContacts.ts:10-18 | One `new` contact is appended at the end; the selection is kept |
| ContactsHook.ContactsState.DeleteContact | src/hooks/useContacts.ts:20-23 | The id leaves both the contacts and the selection, and nothing else does |
| ContactsHook.ContactsState.ImportContacts | src/hooks/useContacts.ts:25-33 | All inputs are appended in input order, each `new`; the selection is kept |
| ContactsHook.ContactsState.SelectContact | src/hooks/useContacts.ts:35-39 | The id's membership flips and distinct selections stay distinct; the contacts are kept |
| ContactsHook.ContactsState.SelectAllContacts | src/hooks/useContacts.ts:41-52 | Applies the select-all rule; the contacts are kept |
| TemplatesHook.TemplatesState.constructor | src/hooks/useTemplates.ts:7-8 | The initial templates, nothing selected |
| TemplatesHook.TemplatesState.SetTemplates | src/hooks/useTemplates.ts:7 | Only the templates change |
| TemplatesHook.TemplatesState.SetSelectedTemplate | src/hooks/useTemplates.ts:8 | Only the selection changes |
| TemplatesHook.TemplatesState.AddTemplate | src/hooks/useTemplates.ts:10-17 | One template is appended at the end; the selection is kept |
| TemplatesHook.TemplatesState.EditTemplate | src/hooks/useTemplates.ts:19-23 | The matching templates are patched, keeping length and order; the selection is kept |
| TemplatesHook.TemplatesState.DeleteTemplate | src/hooks/useTemplates.ts:25-28 | The template goes, and the selection becomes null exactly when it was that id |
| ContactsList.Includes | src/components/contacts/ContactsList.tsx:61-63 | `String.prototype.includes`; specified by `IncludesIff` and `IncludesAt` |
| ContactsList.IncludesIff | src/components/contacts/ContactsList.tsx:61 | `includes` holds exactly when the query occurs at some position |
| ContactsList.IncludesAt | src/components/contacts/ContactsList.tsx:61 | An occurrence at any position makes `includes` hold |
| ContactsList.Matches | src/components/contacts/ContactsList.tsx:60-63 | The three-way lower-cased test of the filter callback; `FilteredContacts` keeps exactly the contacts it accepts |
| ContactsList.FilteredContacts | src/components/contacts/ContactsList.tsx:59-64 | Exactly the contacts whose lower-cased company, e-mail or present person contains the lower-cased query, in list order |
| ContactsList.EmptyQueryKeepsAll | src/components/contacts/ContactsList.tsx:61 | An empty query keeps every contact |
| ContactsList.FormInput | src/components/contacts/ContactsList.tsx:76 | The form handed on as it is, empty optional fields included |
| ContactsList.AddContactCall | src/components/contacts/ContactsList.tsx:66-76 | `onAddContact` is called with the form exactly when company and e-mail are both non-empty |
| ContactsList.HeaderClickFlips | src/components/contacts/ContactsList.tsx:264 | On a non-empty list, clicking the header checkbox flips whether it is checked |
| ContactsList.FirstTruthy | src/components/contacts/ContactsList.tsx:103-104 | The first non-empty cell among the keys, or whatever the last key gave when there is none |
| ContactsList.RowContact | src/components/contacts/ContactsList.tsx:103-114 | A row gives a contact exactly when its resolved e-mail and company are both non-empty; the contact carries those, the first truthy person, phone and notes cells, and no `lastContacted` |
| ContactsList.Pushed | src/components/contacts/ContactsList.tsx:106-114 | At most one contact per row, exactly the row's contact when it has one, with a non-empty e-mail and company |
| ContactsList.ImportedContacts | src/components/contacts/ContactsList.tsx:102-115 | At most one contact per row, each with a non-empty e-mail and company |
| ContactsList.ImportedFromRows | src/components/contacts/ContactsList.tsx:102-115 | Every imported contact comes from a row, and every importable row contributes its contact |
| ContactsList.ImportedAppend | src/components/contacts/ContactsList.tsx:102-115 | Importing rows in two parts gives the concatenation, so output order follows row order |
| ContactsList.AllRowsImported | src/components/contacts/ContactsList.tsx:106-114 | When every row is importable, every row is imported |
| ContactsList.PushRow | src/components/contacts/ContactsList.tsx:103-114 | One callback appends the row's contact when it has an e-mail and a company, and nothing otherwise |
| ContactsList.CollectImports | src/components/contacts/ContactsList.tsx:100-115 | The `forEach`/`push` loop collects exactly the imported contacts |
| ContactsList.CompleteImport | src/components/contacts/ContactsList.tsx:117-118 | `onImportContacts` is called, with the contacts, exactly when at least one row was imported |
| EmailTemplatesView.SelectOnClick | src/components/templates/EmailTemplates.tsx:189-191 | Clicking the selected card deselects it; clicking any other card selects it |
| EmailTemplatesView.ClickTwice | src/components/templates/EmailTemplates.tsx:189-191 | Two clicks on a card restore the selection when that card or nothing was selected |
| EmailTemplatesView.FormInput | src/components/templates/EmailTemplates.tsx:56 | The form's three fields, handed on |
| EmailTemplatesView.FormOf | src/components/templates/EmailTemplates.tsx:89-93 | The template's name, subject and body |
| EmailTemplatesView.TemplateEditor.constructor | src/components/templates/EmailTemplates.tsx:37-44 | Empty form, no id being edited, both dialogs closed |
| EmailTemplatesView.TemplateEditor.SetFormData | src/components/templates/EmailTemplates.tsx:40 | Only the form changes |
| EmailTemplatesView.TemplateEditor.HandleAdd | src/components/templates/EmailTemplates.tsx:46-64 | Adds exactly when all three fields are filled; then the form resets and the dialog closes; otherwise nothing changes |
| EmailTemplatesView.TemplateEditor.HandleEdit | src/components/templates/EmailTemplates.tsx:66-85 | Also refuses without an id being edited. On success it hands on id and form, resets the form and the id, and closes the dialog |
| EmailTemplatesView.TemplateEditor.OpenEditDialog | src/components/templates/EmailTemplates.tsx:87-95 | The template's id is being edited, its fields fill the form, and the dialog opens |
| RecentActivity.Insert | src/components/dashboard/RecentActivity.tsx:20-24 | Inserting into a descending list keeps it descending and adds the contact to the multiset |
| RecentActivity.SortByRecency | src/components/dashboard/RecentActivity.tsx:20-24 | A permutation of the input, by last contact non-increasing, with a missing date counted as 0 |
| RecentActivity.InsertKeepsTies | src/components/dashboard/RecentActivity.tsx:20-24 | Inserting a contact puts it before every contact of the same key, and keeps the order among the others |
| RecentActivity.SortStable | src/components/dashboard/RecentActivity.tsx:20-24 | The sort is stable: for every key, the contacts with that key come out in input order |
| RecentActivity.Contacted | src/components/dashboard/RecentActivity.tsx:19 | Exactly the contacts whose status is not `new` |
| RecentActivity.RecentContacts | src/components/dashboard/RecentActivity.tsx:18-25 | At most five, all non-new input contacts, most recent first, none more often than it occurs, and as many as there are up to five |
| RecentActivity.FullCard | src/components/dashboard/RecentActivity.tsx:25 | With five or more contacted contacts exactly five are shown |
| RecentActivity.ShownAreMostRecent | src/components/dashboard/RecentActivity.tsx:20-25 | Every contacted contact left off was contacted no later than every one shown |
| RecentActivity.TiesShownInInputOrder | src/components/dashboard/RecentActivity.tsx:18-25 | When keys tie, the card shows the tied contacts that come first in the input, in input order |
| RecentActivity.EmptyCard | src/components/dashboard/RecentActivity.tsx:18-27 | The card is empty exactly when every contact is `new`, the empty list included |
| AppStats.Count | src/App.tsx:50 | A filter count is at most the number of contacts |
| AppStats.Stats | src/App.tsx:48-54 | Total is the number of contacts; each counter counts its status filter |
| AppStats.CountMonotone | src/App.tsx:50-52 | A filter by a weaker condition counts at least as many |
| AppStats.CountDisjoint | src/App.tsx:50-53 | Two exclusive conditions within a third count at most what the third counts |
| AppStats.StatsFunnel | src/App.tsx:49-52 | replies ≤ opened ≤ sent ≤ total |
| AppStats.OpenedAndBouncedWithinSent | src/App.tsx:50-53 | opened + bounced ≤ sent |
| AppStats.StatusesPartition | src/App.tsx:49-53 | Sent splits into still-sent, opened and bounced, and the total into new and sent |
| AppStats.SendCampaignCall | src/App.tsx:57-65 | Without a selected template (an empty id counts as none) no API call is made |

## Left out

- `generateDraft` (server/services/ai.js) is a Gemini call. It is a total function parameter `ai`, which never throws.
- Database plumbing (server/db.js, server/init-db.js) is left out. Tables are sequences kept in insertion order. ids and `created_at` come from one counter, so `NOW()` never ties.
- Foreign keys are left out: a message may name a contact id that does not exist. uuid ids are modelled as numbers.
- A database failure is the `fault` parameter, and only one statement per call can fail. Its error carries the unique constraint's code `23505` or whatever error the parameter names.
- Network, `fetch` and promise interleaving are left out. Each store action is one atomic step over given API outcomes, and the renders in between are not modelled.
- Console logging, toasts, dialogs other than the two open flags of the template editor, and the 2-second delay of the campaign dialog are left out, because they are UI or I/O.
- Papa.parse is left out; the parsed rows are the input.
- `toLowerCase` is the parameter `lower`, because Unicode case mapping is not modelled.
- `generateId` and `new Date()` are parameters (ids and stamps), because they are randomness and clock.
- The App.tsx send success path is left out, because it calls `refreshContacts`, which the contacts hook does not return. Only the template guard is modelled.
- `AppStore.Store.ImportContacts`: the fetch wrapper in src/lib/api.ts has no `bulkCreate`. With that wrapper as written, the call would always reject. The model takes the bulk call's outcome as a parameter instead.
- `ContactService.BulkCreate`: no mounted route calls it; server/routes/contacts.js has only GET, POST and DELETE. It is modelled as a service operation that nothing on the server reaches.
- `ContactService.UniqueViolation` and `ContactService.NewRow`: the constraint name `contacts_email_key` and the default status `new` are assumed from PostgreSQL's naming convention and the client's types, because the table schema (`schema.sql`) is not part of this model.
- `AppStore.Store.DeleteContact`: the fetch wrapper resolves `res.json()` whatever the HTTP status, so in the running app the rollback happens only on network failure. The model takes the outcome as a parameter.
- Response bodies are taken as well typed. `fetchTemplates` stores whatever it receives and does not check for an array, unlike `fetchContacts`; a non-array template payload is not modelled.
- `ClientLists.Patch`: a partial update whose field is present but explicitly `undefined` is not modelled; a field is either supplied or absent.
- `RecentActivity.RecentContacts`: "no duplicates" is stated as "no contact shown more often than it occurs in the input". An input that lists the same contact twice may show it twice, as the source does.
- `ServerDb.UndefinedRow`: the text of the TypeError that `toCamelCase(undefined)` throws is V8's wording from Node 16 on; older runtimes word it differently, and the model does not cover those.
- The express wiring, `listen`, the validators and schemas, the asyncHandler, and the three contact routes (server/routes/contacts.js) are left out. They are plumbing, or run the same single statements as the contact service modelled here.
- `TemplateService.Update`, `TemplateService.Delete` and `ErrorHandler.TemplateNotFoundAnswer` describe the template service, which server/index.js:20-23 does not mount. The mounted router is `TemplateRoutes`, so the running server never answers 404 for an unknown template id.
- The campaign loop never renders the template, never bounces, and never answers 404 for an unknown template id: each contact gets the fixed placeholder text naming the template id.
- The bulk upsert overwrites only `company_name` of a stored e-mail; the other columns keep their stored values.
- Approve and reject never answer 404: an unknown id gives 500 with the TypeError for approve and 200 `{success:true}` for reject.
- The mounted `/send` route runs its own copy of the campaign loop. It is modelled by the service's loop, which is statement for statement the same.

## Findings

| source | as written | input that shows it | evidently intended | confidence | as-written member | corrected member |
|---|---|---|---|---|---|---|
| src/components/campaign/CampaignSender.tsx:51 | `replace` receives the company name as a replacement string, so `$&`, `$$`, `` $` `` and `$'` in it are expanded | a contact whose company name is `$&`, previewing `{{company}}`: the preview shows `{{company}}` | the company name is inserted as it is, for example with a replacer function | not executed | CampaignSender.DollarCompanyKeepsPlaceholder | CampaignSender.LiteralPreviewShowsCompany |
