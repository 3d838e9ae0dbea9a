# Stellar Market marketplace core in Dafny

This project models the request handlers and client-side logic of the Stellar
Market freelance marketplace.

**Backend.** Clients post jobs. Freelancers apply to open jobs, and the client
accepts or rejects each application. The two sides exchange direct messages,
grouped into conversations.

**Frontend.** The model covers these pieces of the frontend:
- the pager under paginated lists;
- the inbox search, with its "You: " marker and unread badge;
- the shortened wallet address;
- the connect, disconnect and restore steps of the Freighter wallet session.

**The database.** It is a `Store` object with three tables: `jobs`,
`applications` and `messages`. Each table is a sequence kept in insertion order.
A logical `clock` stamps each new row, so `createdAt` increases with insertion.
"Newest first" is therefore the reverse of a filtered table.

**Integrity.** `Database.Consistent` states the integrity the database
maintains:
- unique ids in every table;
- at most one application per (job, freelancer);
- every application points at an existing job;
- milestones are numbered 0, 1, 2, ...

Every handler that changes the store preserves `Consistent`.

**Handler contracts.** Handlers are methods over the store. Each one states:
- its error replies, with their status codes and messages;
- the exact new contents of every table;
- what it leaves unchanged.

**Pure parts.** The pager, the search, the preview text, the badge and the
address truncation are functions. Lemmas relate them to the backend: for
example, the pager's "Showing start–end" covers exactly the rows the list
response returned. The wallet session is a class, and each of its methods is
proved against a transition function on its state.

Modules, one per file:
- `Wrappers`, `Seqs`, `Text`: an option type, and filter/reverse/find/window
  over sequences with their lemmas. `Text` also holds case-insensitive
  substring search, with lower-casing restricted to ASCII.
- `Domain`, `Database`, `Paging`: the records, the store and its invariant,
  and the shared offset pagination.
- `ApplicationRoutes`, `JobRoutes`, `MessageRoutes`: the three route files.
- `Pagination`, `Inbox`, `Wallet`: the frontend pieces.

When the list endpoints are given `limit=0`, the model follows the code:
`parseInt(limit) || 10` treats 0 as missing, so the limit is 10, not the clamp
minimum of 1. See `Paging.PageLimit`.

## Model

| member | source | states |
|---|---|---|
| Paging.PageNumber | backend/src/routes/job.routes.ts:12 | The page is at least 1. A valid page passes through. A missing, NaN, zero or negative page gives 1. |
| Paging.PageLimit | backend/src/routes/job.routes.ts:13 | The limit lies in 1..100. A missing, NaN or zero limit gives 10, a negative one 1 and one above 100 gives 100. |
| Paging.TotalPages | backend/src/routes/job.routes.ts:46 | Ceiling division: the pages hold all rows, the last page is non-empty, and there are zero pages exactly when there are zero rows. |
| Paging.PageOf | backend/src/routes/job.routes.ts:35-37 | `skip`/`take`: at most `limit` rows, namely the rows from position `(page-1)*limit` on, in order. |
| Paging.NewestFirstPageSpec | backend/src/routes/application.routes.ts:59-83 | A list response gives the page, the total of matching rows and the page count. Its rows all match and come from the table, number at most `limit`, and run strictly newest first. |
| Paging.RowOnExactlyOnePage | backend/src/routes/job.routes.ts:12-14 | Every matching row appears on exactly one page, page `i/limit + 1`, which is within the page count. |
| Paging.EarlierPagesAreFull | backend/src/routes/job.routes.ts:35-37 | Every page before the last one holds exactly `limit` rows. |
| Paging.PagesPastTheEndAreEmpty | backend/src/routes/job.routes.ts:35-37 | A page number beyond the page count gives an empty page. |
| ApplicationRoutes.Apply | backend/src/routes/application.routes.ts:9-53 | Replies 404 for an unknown job, 400 for a job that is not OPEN and 400 for the caller's own job, in that order of checks. Then 409 if the caller already applied. Otherwise exactly one PENDING application, stamped now, is appended. An error changes nothing. |
| ApplicationRoutes.ListApplications | backend/src/routes/application.routes.ts:56-88 | Lists the job's applications newest first. The page is exactly the window that `skip: (page-1)*limit, take: limit` cuts from that list. Also gives the total and page count. An unknown job gives an empty list, not 404. |
| ApplicationRoutes.UpdateStatus | backend/src/routes/application.routes.ts:91-136 | A status other than ACCEPTED/REJECTED gets 400 before any lookup. An unknown application gets 404, and a caller who does not own the job gets 403. The reply is 200 exactly when the status is valid, the application exists and the caller owns its job. Then only that application's status changes. Acceptance also assigns the freelancer and sets the job IN_PROGRESS. |
| ApplicationRoutes.RecordDecision | backend/src/routes/application.routes.ts:115-129 | The two writes of a decision. The application table is updated at that id with the new status. On acceptance the job table is updated at the application's job, and on rejection it is unchanged. Messages and the clock are untouched, and integrity is kept. |
| ApplicationRoutes.DecisionKeepsConsistent | backend/src/routes/application.routes.ts:115-129 | Recording a decision, and assigning the freelancer on acceptance, keeps the store's integrity. |
| JobRoutes.EmptyWhereListsAll | backend/src/routes/job.routes.ts:16-24 | With no category, status or search, the filter keeps every job. |
| JobRoutes.ListJobs | backend/src/routes/job.routes.ts:9-52 | Selects the jobs matching every given condition: category, status, and a case-insensitive search in title or description. They run newest first. The page is exactly the `skip`/`take` window of that list. Also gives the total and page count over the matching jobs. |
| JobRoutes.GetJob | backend/src/routes/job.routes.ts:55-82 | Replies 404 exactly for an unknown id and 200 exactly for a known one. A 200 holds that job, with milestones in `order`, and exactly the applications made to it. |
| JobRoutes.NumberMilestones | backend/src/routes/job.routes.ts:101-108 | One milestone per input, with the input's fields. The status is PENDING and `order` is the position. |
| JobRoutes.MilestoneOrdersArePositions | backend/src/routes/job.routes.ts:103-107 | The orders of n created milestones are exactly 0..n-1, all distinct. |
| JobRoutes.CreateJob | backend/src/routes/job.routes.ts:85-120 | Replies 400 exactly when title, description, budget or category is falsy, and 201 exactly otherwise. A 201 appends one OPEN job, owned by the caller, with numbered milestones and no freelancer. |
| JobRoutes.CreateKeepsConsistent | backend/src/routes/job.routes.ts:94-113 | Appending a fresh job with numbered milestones keeps the store's integrity. |
| JobRoutes.Patched | backend/src/routes/job.routes.ts:139-147 | Each truthy field of the request overwrites the job's field. Falsy fields and everything else (id, owner, freelancer, milestones, stamp) stay as they were. |
| JobRoutes.PatchIdempotent | backend/src/routes/job.routes.ts:139-147 | Applying the same update twice is the same as applying it once. |
| JobRoutes.EmptyPatchIsIdentity | backend/src/routes/job.routes.ts:141-147 | An update with every field falsy changes nothing. |
| JobRoutes.UpdateJob | backend/src/routes/job.routes.ts:123-156 | Replies 404 exactly for an unknown job, 403 exactly when the caller is not its client, and 200 exactly when the caller is its client. A 200 patches only that job and returns it. An error changes nothing. |
| JobRoutes.UpdateKeepsConsistent | backend/src/routes/job.routes.ts:139-149 | A partial update keeps the store's integrity. |
| JobRoutes.DeleteJob | backend/src/routes/job.routes.ts:159-179 | Replies 404 and 403 as for update, and 200 exactly for the owner. A 200 removes exactly that job's id from the job table and removes its applications. Messages are kept as they are. |
| JobRoutes.RemoveJob | backend/src/routes/job.routes.ts:173 | The cascading delete drops exactly the rows with that job id and the applications pointing at it. It leaves messages and the clock as they were and keeps integrity. |
| JobRoutes.DeleteKeepsConsistent | backend/src/routes/job.routes.ts:173 | Deleting a job with its applications removes exactly its id and keeps the store's integrity. |
| MessageRoutes.Send | backend/src/routes/message.routes.ts:9-36 | Replies 400 exactly when the receiver or the content is missing, and 201 exactly when both are given. A 201 appends one unread message from the caller, with the job when one is given. |
| MessageRoutes.BuildConversations | backend/src/routes/message.routes.ts:79-97 | The fold gives one entry per (counterpart, job) key, with keys distinct and every key present. The entries come in order of each key's first message, and each holds that first message. Each unread counter equals the number of unread messages to the caller in its group, and the counters sum to all of them. |
| MessageRoutes.SumUnreadBump | backend/src/routes/message.routes.ts:94-96 | Incrementing one entry's unread counter raises the sum of counters by one. |
| MessageRoutes.FirstOfGroupIsNewest | backend/src/routes/message.routes.ts:66-76 | In a strictly newest-first list, a group's first message is its newest. |
| MessageRoutes.ListConversations | backend/src/routes/message.routes.ts:66-99 | Gives one entry per conversation of the caller. Each entry holds the group's newest message and the group's unread count. Entries run newest first, and the counts sum to the caller's unread total. |
| MessageRoutes.GetMessages | backend/src/routes/message.routes.ts:39-104 | With a participant: the exchange between the two users, both directions, oldest first, restricted to the job when one is given. Without one, the conversation list holds every fact `ConversationList` states: distinct keys, each group's newest message, per-entry unread counts, newest-first order and the unread sum. |
| MessageRoutes.UnreadCount | backend/src/routes/message.routes.ts:107-124 | Counts the messages the caller received and has not read. The count is zero exactly when none is unread. |
| MessageRoutes.FetchThread | backend/src/routes/message.routes.ts:127-170 | Returns the thread as it was before marking, oldest first. Exactly the unread messages from the other user to the caller, within the job when given, become read. |
| MessageRoutes.ThreadFetchLeavesNoneUnread | backend/src/routes/message.routes.ts:154-162 | After a thread fetch, no message in scope from the other user is unread. Messages from anyone else, and every id and content, are untouched. |
| MessageRoutes.ThreadFetchUnreadCount | backend/src/routes/message.routes.ts:154-162 | The caller's unread count drops by exactly the number of messages the fetch marks read. |
| MessageRoutes.MarkReadKeepsConsistent | backend/src/routes/message.routes.ts:154-162 | Marking messages read keeps the store's integrity. |
| MessageRoutes.MarkOneRead | backend/src/routes/message.routes.ts:173-192 | Replies 204 exactly when the message exists and the caller is its receiver, and then only that message becomes read. Otherwise the update finds no row and the reply is 500, with nothing changed. |
| MessageRoutes.MarkOneReadTouchesOnlyIt | backend/src/routes/message.routes.ts:179-185 | Marking one message read changes that message's read flag only. |
| MessageRoutes.LegacyKeyCollides | backend/src/routes/message.routes.ts:82 | Two different conversations can get the same string key when an id contains a dash. |
| Pagination.Render | frontend/src/components/Pagination.tsx:13-45 | Renders nothing exactly when there are no results, and the shown end never exceeds the total. Previous is disabled exactly when page ≤ 1 and next exactly when page ≥ totalPages. On an existing page, an enabled button requests page ∓ 1 within 1..totalPages. |
| Pagination.ShownRangeIsThePage | frontend/src/components/Pagination.tsx:14-15 | On an existing page, 1 ≤ start ≤ end ≤ total and the range spans at most `limit` results. It is exactly the rows the database's skip/take returns. |
| Pagination.PastTheLastPage | frontend/src/components/Pagination.tsx:14-37 | Beyond the last page, the range is inverted (start > end) and only "previous" is enabled. |
| Pagination.PagerMatchesResponse | frontend/src/components/Pagination.tsx:14-22 | Rendered from a list response, "Showing start–end" counts and locates exactly the rows of the response. |
| Inbox.FilterConversations | frontend/src/app/messages/page.tsx:39-48 | Keeps a conversation exactly when the query occurs, ignoring case, in the username, the job title or the last message. A conversation without a job can only match by username or content. |
| Inbox.SearchKeepsOrder | frontend/src/app/messages/page.tsx:39 | The kept conversations are a subsequence of the fetched ones, in the same order. |
| Inbox.EmptySearchKeepsAll | frontend/src/app/messages/page.tsx:39-48 | An empty query keeps every conversation. |
| Inbox.SearchIgnoresQueryCase | frontend/src/app/messages/page.tsx:41-47 | Lower-casing the query does not change the result. |
| Inbox.Preview | frontend/src/app/messages/page.tsx:122-127 | Shows "You: " before the content exactly when the last sender is not the counterpart. |
| Inbox.YouMarksCallersMessages | frontend/src/app/messages/page.tsx:123-125 | For an entry of the caller's list, "You: " appears exactly when the caller sent the last message to someone else. |
| Inbox.Badge | frontend/src/app/messages/page.tsx:130-134 | A badge appears exactly when the counter is positive, and it shows the counter. |
| Inbox.BadgeIffUnread | frontend/src/app/messages/page.tsx:130-134 | For an entry of the caller's list, the badge appears exactly when a message of that conversation waits unread for the caller. It shows how many do. |
| Inbox.ThreadTargetMisreadsNoJob | backend/src/routes/message.routes.ts:82 | The thread page reads `u1-no-job` as user `u1` and job `no`, so the exchange's own job-less messages are not in the thread it asks for. |
| Inbox.ParseConversationIdRoundTrip | backend/src/routes/message.routes.ts:82 | Splitting at the first dash and mapping `no-job` to no job reads a conversation id back as its key, when the counterpart's id has no dash. |
| Inbox.ParsedThreadHoldsLastMessage | frontend/src/app/messages/page.tsx:89 | Read back that way, an entry's id opens a thread that contains the entry's last message. |
| Wallet.TruncateAddress | frontend/src/context/WalletContext.tsx:30-32 | The result is the first min(4, n) characters, then "...", then the last min(4, n) characters, with length 2·min(4, n) + 3. |
| Wallet.TruncateLongAddress | frontend/src/context/WalletContext.tsx:31 | An address of 8 or more characters shortens to 11 characters: the first four, "...", the last four. |
| Wallet.TruncateShortAddress | frontend/src/context/WalletContext.tsx:31 | An address of at most 4 characters appears whole on both sides of "...". |
| Wallet.AfterConnect | frontend/src/context/WalletContext.tsx:82-117 | Connect succeeds exactly when the extension is installed, access is granted and an address comes back. It then sets the address, clears the error and stores the flag "true". Each failure leaves the address and storage unchanged and names the failing step. `isConnecting` always ends false. |
| Wallet.AfterDisconnect | frontend/src/context/WalletContext.tsx:119-123 | Disconnect leaves no address, no error and no stored flag. Nothing else changes. |
| Wallet.AfterRestore | frontend/src/context/WalletContext.tsx:59-76 | Without the stored flag, restore changes nothing. Otherwise it records the installation check and, when the extension is installed, takes the reported address. If no address comes back, it removes the flag. |
| Wallet.ReloadRestoresConnection | frontend/src/context/WalletContext.tsx:59-111 | After a successful connect, a page reload restores the address Freighter reports. |
| Wallet.DisconnectSurvivesReload | frontend/src/context/WalletContext.tsx:59-123 | After a disconnect, a reload leaves the new provider untouched. |
| Wallet.FailedConnectKeepsSession | frontend/src/context/WalletContext.tsx:87-108 | A failed connect changes neither the address nor what the next reload restores. |
| Wallet.FailedRestoreIsFinal | frontend/src/context/WalletContext.tsx:66-75 | A restore that gets no address removes the flag, so the next reload does nothing. |
| Wallet.WalletSession.constructor | frontend/src/context/WalletContext.tsx:37-42 | A newly mounted provider has no address, no error, not connecting, the installation unknown and the current storage. |
| Wallet.WalletSession.CheckInstalled | frontend/src/context/WalletContext.tsx:44-57 | Records and returns whether the extension answered that it is installed. An error or exception counts as not installed. |
| Wallet.WalletSession.Connect | frontend/src/context/WalletContext.tsx:82-117 | Steps through the checks and updates the fields and the storage as `AfterConnect` describes. |
| Wallet.WalletSession.Disconnect | frontend/src/context/WalletContext.tsx:119-123 | Updates the fields and the storage as `AfterDisconnect` describes. |
| Wallet.WalletSession.RestoreSession | frontend/src/context/WalletContext.tsx:59-76 | Steps through the flag, the check and the address as `AfterRestore` describes. |

## Left out

- Database engine, HTTP and authentication: handlers take the authenticated user id as `caller` and work on the in-memory `Store`. The `include`/`select` shaping of related users and jobs in responses is not modelled.
- Id generation: new ids arrive as a fresh `newId` parameter. `createdAt` is a logical clock, so no two rows share a stamp and ties in `orderBy: createdAt` do not arise.
- The 500 replies from the `catch` blocks of failing database calls are not modelled, except for the single-message read. In that handler the update of a missing or foreign message always fails, so its 500 reply is modelled.
- `parseFloat` of budgets and milestone amounts: amounts are integers, and 0 stands for every falsy budget.
- Case-insensitive matching covers only ASCII letters. Full Unicode lower-casing and locale date formatting are not modelled.
- Status strings that are not a known `JobStatus` (the listing filter, the job update) are not modelled. The database rejects them, with a 500 reply.
- Deleting a job also deletes its applications, as if the relation cascaded. The database schema is not part of this model.
- DeleteJob: messages that name the deleted job keep their `jobId`. The message-to-job relation (message.routes.ts:73 includes `job`) has a referential action set in the database schema, which is not part of this model. Cascade would delete those messages, set-null would clear their `jobId`, and restrict would turn the delete into a 500. The model keeps them unchanged, so afterwards the inbox can show a conversation keyed by a job that no longer exists.
- Conversation keys: the model keys a conversation by the (counterpart, job) pair, while the route builds the string `${otherUserId}-${jobId || "no-job"}` (message.routes.ts:82). The two differ only when ids containing dashes make different pairs share one string, as `MessageRoutes.LegacyKeyCollides` shows; the model keeps such conversations apart.
- Sending a message does not check that the receiver or the job exists. The model follows the handler and does no lookup.
- `JobRoutes.GetJob`: returns the job's applications in insertion order. The route leaves their order to the database, so the model promises only which applications appear.
- The frontend's React state, effects, fetching and rendering are not modelled, and neither is the order in which React applies state setters. Each wallet method applies its updates in program order, and its intermediate states (such as `isConnecting` being true mid-connect) are not observable.
- Freighter (`isConnected`, `requestAccess`, `getAddress`) and `localStorage` are outside the model. The extension's answers are parameters, and local storage is a map field.
- `useWallet`'s error outside a provider is not modelled.
- Navbar polling, the jobs page's filter state, layout, providers and message bubbles are presentation and are not modelled.

## Findings

| source | as written | input that shows it | evidently intended | confidence | as-written member | corrected member |
|---|---|---|---|---|---|---|
| frontend/src/app/messages/[id]/page.tsx:31-32 | The thread page splits the conversation id on every "-" and takes the second field as the job. A job-less conversation's id ends in `-no-job` (backend/src/routes/message.routes.ts:82), so its job field is `no`, never `no-job`. | A conversation with user `u1` and no job has id `u1-no-job`. The page asks for participant `u1` with job `no`, and the exchange's own messages, which carry no job, are not returned or marked read. | Splitting at the first dash and mapping `no-job` to no job reads the id back as (counterpart, job), so the opened thread contains the conversation's messages. | high (not executed) | Inbox.ThreadTargetMisreadsNoJob | Inbox.ParseConversationIdRoundTrip |
