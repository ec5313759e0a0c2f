# Kanban board service — a verified model

This project models the board service of the Kanban backend
(`backend/src/index.ts`). The service is a REST API over a relational store
with these tables:

- users;
- boards, and per-board memberships with role OWNER or MEMBER;
- columns and tasks, each ordered by an integer position;
- board tags, with task–tag join rows;
- task–assignee join rows;
- invitation tokens;
- notifications.

Every board-scoped handler first resolves which board the addressed board,
column or task belongs to. It then checks that the caller is a member of
that board (or its owner, to delete it), and only then reads or changes
rows. Three groups of handlers have no board to resolve or check:

- `GET /boards` and `POST /boards` work on the caller's own boards;
- the three notification handlers work on the caller's own notifications;
- `POST /invites/accept` finds the board through the invitation token and
  checks the token (unused, unexpired) instead of a membership.

The model is organised as follows:

- `wrappers.dfy` (`Wrappers`) — the `Option` type.
- `text.dfy` (`Text`) — `String.prototype.trim`, ASCII `toLowerCase`, and
  `normalizeEmail` built from them.
- `schema.dfy` (`Schema`) — the table rows, the handler outcomes (`Status`),
  and the constants: the invitation lifetime, the default tag colour, the
  notification titles and the page size of a notification listing.
- `ordering.dfy` (`Ordering`) — the reorder batches as folds over the batch.
  It also holds `orderBy: { position: "asc" }` as an insertion-ordered
  listing.
- `tables.dfy` (`Tables`) — the integrity of the store:
  - every foreign key points at an existing row;
  - each board has exactly one OWNER row, that of its owner;
  - no two users share an e-mail (the users table is fixed, so the store's
    constructor establishes this once);
  - for each change a handler makes, a lemma that the change keeps the store
    consistent.
- `store.dfy` (`Service`) — the class `Store`:
  - one field per table;
  - the membership resolver as functions;
  - one method per handler, returning a `Status`;
  - `modifies` clauses naming exactly the tables the handler writes.
- `routes.dfy` (`Routes`) — the Express route table in registration order,
  and first-match dispatch over it.
- `scenarios.dfy` (`Scenarios`) — request sequences a client makes, and what
  the handler contracts promise about their combined effect.

The authenticated user id is a parameter of every handler. The current time
is a parameter of the two invitation handlers, `CreateInvite` and
`AcceptInvite`, the only ones that read the clock. Identifiers the storage layer would generate are parameters
that must not be in use yet. This includes the random invitation token.

## Model

| member | source | states |
|---|---|---|
| Text.Trim | backend/src/index.ts:23 | Trimming never lengthens a string. The result is empty exactly when the input is all white space. Otherwise it starts and ends with a non-space character. |
| Text.TrimIsInfix | backend/src/index.ts:23 | The trimmed string is the input with a white-space prefix and a white-space suffix removed. |
| Text.TrimIdempotent | backend/src/index.ts:23 | Trimming twice gives the same result as trimming once. |
| Text.LowerChar | backend/src/index.ts:23 | An upper-case letter A to Z becomes its own lower-case letter, 32 code points further. Any other character is kept as it is. The result is never an upper-case letter. |
| Text.ToLower | backend/src/index.ts:23 | Every character is lowered in place, so the length is kept and no upper-case letter is left. |
| Text.ToLowerKeepsSpaces | backend/src/index.ts:23 | Lowering keeps every white-space character at its place and creates none. |
| Text.ToLowerOfLower | backend/src/index.ts:23 | Lowering a string with no upper-case letter returns it unchanged. |
| Text.NormalizeEmail | backend/src/index.ts:23 | A missing e-mail normalises to "". A present one normalises to a string no longer than it, with no upper-case letter. |
| Text.NormalizeEmailTrimmed | backend/src/index.ts:23 | The normalised e-mail is empty exactly when the input is missing or blank. A non-empty result has no surrounding white space. |
| Text.NormalizeEmailIdempotent | backend/src/index.ts:23 | Normalising an already normalised e-mail changes nothing. |
| Text.NormalizeEmailValue | backend/src/index.ts:23 | The normalised e-mail is the input with an all-space prefix and an all-space suffix cut off, each remaining character lower-cased. |
| Text.TrimCaseBlind | backend/src/index.ts:23 | Two strings that agree once lower-cased trim to strings of equal length that still agree once lower-cased. |
| Text.NormalizeEmailCaseBlind | backend/src/index.ts:23 | Two addresses that differ only in the case of A to Z normalise to the same address. |
| Text.NormalizeEmailExample | backend/src/index.ts:23 | " Bob@X " normalises to "bob@x". |
| Ordering.LastPosition | backend/src/index.ts:209 | The batch gives a row no position exactly when no entry names that row. |
| Ordering.LastPositionIsLastEntry | backend/src/index.ts:209 | When the batch gives a row a position, it is the position of the last entry naming that row. |
| Ordering.LastPositionOfDistinct | backend/src/index.ts:209 | In a batch naming each row once, every row gets the position of its own entry. |
| Ordering.RepositionSpec | backend/src/index.ts:207-210 | Applying every column update of a batch keeps the set of columns. Each column takes the position of the last entry naming it. A column no entry names is unchanged. |
| Ordering.RepositionDistinct | backend/src/index.ts:207-210 | For a batch of distinct known columns, each listed column takes its entry's position and every other column is unchanged. |
| Ordering.MoveTasksSpec | backend/src/index.ts:251-254 | Applying every task update of a batch keeps the set of tasks. Each task named by an entry moves to the target column at its last entry's position. A task no entry names is unchanged. |
| Ordering.MoveTasksDistinct | backend/src/index.ts:251-254 | For a batch of distinct known tasks, each listed task ends in the target column at its entry's position, and every other task is unchanged. |
| Ordering.InsertKeepsListing | backend/src/index.ts:137-140 | Inserting a new row between the rows not after it and the rows after it keeps the listing sorted, free of repeats, and holding exactly the old rows plus the new one. |
| Ordering.InsertionPoint | backend/src/index.ts:137-140 | The returned index follows every row whose position is not after the new row's, and precedes every row whose position is after it. |
| Ordering.OrderByPosition | backend/src/index.ts:137-140 | The listing holds every row exactly once, by ascending position. |
| Tables.CreateBoardKeeps | backend/src/index.ts:112-118 | A new board together with its owner's OWNER row keeps the store consistent. |
| Tables.DeleteBoardKeeps | backend/src/index.ts:162-182 | Removing a board together with its columns, their tasks, their join rows, its memberships, tags and invitations leaves no dangling reference. |
| Tables.RepositionKeeps | backend/src/index.ts:207-210 | A column reorder batch keeps every column on its board. |
| Tables.MoveTasksKeeps | backend/src/index.ts:251-254 | A task reorder into an existing column keeps every task in an existing column. |
| Tables.DeleteColumnKeeps | backend/src/index.ts:213-220 | Removing a column with its tasks and their join rows keeps the store consistent. |
| Tables.AcceptInviteKeeps | backend/src/index.ts:342-347 | The joiner's upserted membership row and the spent token keep the store consistent. |
| Service.InviteEmailStored | backend/src/index.ts:309-317 | A non-empty request e-mail is stored as its trimmed characters, each lower-cased. It is stored as "" exactly when it is blank. |
| Service.Matching | backend/src/index.ts:397-405 | The listing holds exactly the user's notifications (only unread ones when asked for), newest first. |
| Service.NothingShown | backend/src/index.ts:397-405 | When no notification qualifies, the listing is empty. |
| Service.PastFirstPage | backend/src/index.ts:397-405 | A notification left off the first page is older than every notification on it. |
| Service.OwnedByGrows | backend/src/index.ts:112-118 | A new board joins its creator's owned boards and leaves everybody else's as they were. |
| Service.Store.constructor | backend/src/index.ts:99-418 | An empty store over the registered users is consistent; the users it is built over have distinct e-mails. |
| Service.Store.IsBoardOwner | backend/src/index.ts:81-84 | The owner of a board is also a member of it. A board that does not exist has no owner. |
| Service.Store.IsBoardMember | backend/src/index.ts:74-80 | Membership implies that the board exists. The owner is always a member, with no membership row needed. |
| Service.Store.ResolverMatchesMemberships | backend/src/index.ts:74-84 | In a consistent store, a user is a member exactly when a membership row exists. They are the owner exactly when that row is the OWNER row. |
| Service.Store.ResolvedBoardsExist | backend/src/index.ts:85-95 | In a consistent store, a task resolves to a board exactly when it exists, and every board a column or a task resolves to exists. |
| Service.Store.ListBoards | backend/src/index.ts:99-109 | The owned list and the joined list are disjoint, so no board appears twice. The owned list holds exactly the boards the user owns. Together the two lists hold exactly the boards the user is a member of. |
| Service.Store.CreateBoard | backend/src/index.ts:112-118 | Exactly one board is added, owned by the creator. Its only membership row is the creator's OWNER row. The creator's owned boards grow by the new board. The store stays consistent. |
| Service.Store.RenameBoard | backend/src/index.ts:121-128 | A missing or blank title gives BadRequest, checked before membership. A non-member gets Forbidden. Neither changes anything. Otherwise the board's title becomes the trimmed title. |
| Service.Store.FetchColumn | backend/src/index.ts:140-150 | A column is shown with its own title and position, and all of its tasks by ascending position, each with its tags and assignees. |
| Service.Store.FetchBoard | backend/src/index.ts:131-156 | A non-member gets Forbidden and no data. A member gets the board's aggregate: its columns by ascending position, each as FetchColumn shows it, the board's tags and its members with their e-mails. |
| Service.Store.DeleteBoardRows | backend/src/index.ts:162-182 | The transaction removes the board, its columns, their tasks, those tasks' tag and assignee rows, the board's memberships, its tags with their task–tag rows, and its invitations. Nothing else is removed. |
| Service.Store.DeleteBoard | backend/src/index.ts:159-185 | Only the owner may delete. Anyone else gets Forbidden and nothing changes. For the owner the board goes with everything on it, and the store stays consistent. |
| Service.Store.DeletedBoardLeavesNothing | backend/src/index.ts:159-185 | After a delete no column, tag, membership, invitation or task refers to the board, and nobody is a member of it. |
| Service.Store.CreateColumn | backend/src/index.ts:188-193 | A member adds the column with the position exactly as given. A non-member gets Forbidden and nothing changes. |
| Service.Store.RenameColumn | backend/src/index.ts:195-201 | An unknown column or a non-member gives Forbidden. Otherwise a given title replaces the column's title, and a missing title leaves the column as it was. |
| Service.Store.ApplyColumnPositions | backend/src/index.ts:207-210 | The loop leaves the column table as the batch fold describes. It reports failure exactly when some entry names no column. |
| Service.Store.ReorderColumns | backend/src/index.ts:203-211 | An empty batch, or a first entry whose column the caller may not edit, gives Forbidden and changes nothing. Authorisation looks at the first entry only. Otherwise every entry is applied in turn, and an unknown id makes the answer Failed. |
| Service.Store.DeleteColumnRows | backend/src/index.ts:217-218 | The column's tasks and their join rows are removed, then the column itself. |
| Service.Store.DeleteColumn | backend/src/index.ts:213-220 | An unknown column or a non-member gives Forbidden and nothing changes. Otherwise the column goes together with its tasks. |
| Service.Store.CreateTask | backend/src/index.ts:223-229 | A member of the column's board adds the task with the position exactly as given. Anyone else gets Forbidden and nothing changes. |
| Service.Store.RenameTask | backend/src/index.ts:231-237 | An unknown task or a non-member gives Forbidden. Otherwise a given title replaces the task's title, and a missing title leaves the task as it was. |
| Service.Store.DeleteTask | backend/src/index.ts:239-245 | An unknown task or a non-member gives Forbidden and nothing changes. Otherwise the task goes together with its tag and assignee rows. |
| Service.Store.ApplyTaskMoves | backend/src/index.ts:251-254 | The loop leaves the task table as the batch fold describes. It reports failure exactly when some entry names no task. |
| Service.Store.ReorderTasks | backend/src/index.ts:248-256 | An unknown target column or a non-member gives Forbidden and changes nothing. Otherwise every listed task moves into the target column at its position, and the answer is Failed exactly when some entry names no task. |
| Service.Store.Notify | backend/src/index.ts:26-34 | Exactly one unread notification for the user is appended. |
| Service.Store.AssignUser | backend/src/index.ts:259-289 | An unknown task or a non-member caller gives Forbidden. A target with no membership row on the task's board gives BadRequest. Neither changes anything. Otherwise the assignee row is upserted, and the target is notified unless they assigned themselves. |
| Service.Store.UnassignUser | backend/src/index.ts:291-301 | An unknown task or a non-member gives Forbidden. Otherwise the assignee row is removed, and a missing row is not an error. |
| Service.Store.BlankInviteNotifiesNobody | backend/src/index.ts:309-322 | A blank request e-mail is stored as "" and no notice is sent for it. |
| Service.Store.NotifyInvitee | backend/src/index.ts:321-330 | A user registered with the invited e-mail receives exactly one invitation notice. When no user has that e-mail, nothing is sent. |
| Service.Store.InviteNoticeNamesHolder | backend/src/index.ts:321-330 | Because e-mails are unique, an invitation notice for an e-mail is addressed to the one user registered with it. |
| Service.Store.StoreInvite | backend/src/index.ts:309-330 | The invitation is stored with accepted false, an expiry 604800000 ms after now, and the normalised e-mail. The invited user, if registered, is notified. |
| Service.Store.CreateInvite | backend/src/index.ts:304-335 | A non-member gets Forbidden and nothing changes. A member gets one new invitation with accepted false, an expiry 7 days after now and the normalised e-mail, plus at most one notice to a registered invitee. |
| Service.Store.NotifyJoined | backend/src/index.ts:351-361 | The joiner is told they joined. The owner is told too, only when the owner is someone else. |
| Service.Store.RecordJoin | backend/src/index.ts:342-347 | The joiner's membership row is upserted as MEMBER (an existing row, OWNER included, is kept), and the invitation is marked accepted. |
| Service.Store.AcceptInvite | backend/src/index.ts:337-364 | A missing, already-accepted or expired token gives BadRequest and nothing changes. Otherwise the joiner becomes a member through an upsert, the token can never be accepted again, and the owner is notified only when the owner is someone else. |
| Service.Store.ListTags | backend/src/index.ts:367-371 | A member gets exactly the board's tags. A non-member gets Forbidden and nothing. |
| Service.Store.CreateTag | backend/src/index.ts:373-378 | A member adds the tag, with the default colour when none is given. A non-member gets Forbidden and nothing changes. |
| Service.Store.AttachTag | backend/src/index.ts:380-386 | An unknown task or a non-member gives Forbidden. An unknown tag makes the insert fail. Otherwise the task–tag row is upserted. |
| Service.Store.DetachTag | backend/src/index.ts:388-394 | An unknown task or a non-member gives Forbidden. A missing task–tag row makes the delete fail. Otherwise that row is removed. |
| Service.Store.Inbox | backend/src/index.ts:397-405 | At most one page of the user's notifications (only unread ones when asked for), newest first. A qualifying notification is left out only when the page is full of newer ones. |
| Service.Store.MarkRead | backend/src/index.ts:407-413 | A missing notification, or another user's, gives NotFound and nothing changes. Otherwise exactly that notification becomes read. |
| Service.Store.ReadAll | backend/src/index.ts:415-418 | Exactly the requester's notifications become read, and nothing else changes. Afterwards their unread listing is empty. |
| Routes.DispatchIsFirstMatch | backend/src/index.ts:99-418 | Dispatch finds no handler exactly when no route accepts the request. Otherwise it runs the first route that accepts it. |
| Routes.DispatchAppend | backend/src/index.ts:99-418 | Dispatching over two tables joined end to end tries the first table before the second. |
| Routes.DispatchAvoids | backend/src/index.ts:99-418 | A handler that no route of the table names is never dispatched. |
| Routes.DispatchOffScope | backend/src/index.ts:99-418 | A request whose first path segment starts none of the table's patterns is dispatched nowhere. |
| Routes.DispatchPair | backend/src/index.ts:195-211 | Dispatch over two routes tries them in order. |
| Routes.DispatchTriple | backend/src/index.ts:231-256 | Dispatch over three routes tries them in order. |
| Routes.RegisteredInGroups | backend/src/index.ts:20-418 | The registered table dispatches group by group, in registration order. |
| Routes.ColumnReorderCovered | backend/src/index.ts:195-211 | Every request the column reorder route accepts is also accepted by the column rename route registered before it. |
| Routes.TaskReorderCovered | backend/src/index.ts:231-256 | Every request the task reorder route accepts is also accepted by the task rename route registered before it. |
| Routes.ColumnReorderUnreachable | backend/src/index.ts:195-211 | As registered, no request of any verb and path reaches the column reorder handler. |
| Routes.TaskReorderUnreachable | backend/src/index.ts:231-256 | As registered, no request of any verb and path reaches the task reorder handler. |
| Routes.ColumnReorderRequestsRename | backend/src/index.ts:195-211 | As registered, every column reorder request runs the column rename handler. |
| Routes.TaskReorderRequestsRename | backend/src/index.ts:231-256 | As registered, every task reorder request runs the task rename handler. |
| Routes.ClientTaskReorderRenames | frontend/src/stores/board.ts:11-12 | The client's `PATCH /tasks/reorder` runs the task rename handler. |
| Routes.CorrectedInGroups | backend/src/index.ts:20-418 | The corrected table also dispatches group by group. |
| Routes.CorrectedReachesColumnReorder | backend/src/index.ts:203-211 | With the reorder routes registered before the `:id` routes, every column reorder request reaches the column reorder handler. |
| Routes.CorrectedReachesTaskReorder | backend/src/index.ts:248-256 | With the reorder routes registered first, every task reorder request reaches the task reorder handler. |
| Routes.CorrectedAgreesElsewhere | backend/src/index.ts:20-418 | Every request that is not a reorder is dispatched by the corrected table exactly as by the registered one. |
| Scenarios.AcceptTwice | backend/src/index.ts:337-364 | Whatever the first accept of a token does, a second accept of it, by any user at the same or a later time, gives BadRequest. |
| Scenarios.InviteAndJoin | backend/src/index.ts:304-364 | A member invites someone, and the token is accepted within 7 days. Both calls succeed and the joiner is a member of the board. A newcomer gets a MEMBER row, and an existing row is kept. The joiner receives "Joined the board", and the owner receives "Member joined" when the owner is someone else. |
| Scenarios.AssignTwice | backend/src/index.ts:259-272 | Assigning the same user to the same task twice answers alike both times and leaves a single assignee row. |
| Scenarios.AttachThenDetach | backend/src/index.ts:380-394 | Attaching an existing tag the task does not carry and detaching it again both succeed, and the task–tag rows end as they began. |
| Scenarios.TagRoundTrip | backend/src/index.ts:373-394 | A member creates a tag, attaches it to a task and detaches it again. Every call succeeds, the tag stays with the default colour, and the task–tag rows end as they began. |
| Scenarios.MovePair | backend/src/index.ts:251-254 | A batch moving two distinct tasks to positions 0 and 1 puts both into the column at those positions and changes no other task. |
| Scenarios.MoveTwoTasks | backend/src/index.ts:248-256 | A member's reorder of tasks T1 and T2 into column C at positions 0 and 1 succeeds. Both tasks then report column C and those positions, whatever their prior column, and every other task is unchanged. |
| Scenarios.ClientReorderAsRegistered | frontend/src/stores/board.ts:11-12 | The client's task reorder request, as the routes are registered, runs the rename of a task with id "reorder" and no title. No task changes, and unless such a task exists the answer is Forbidden. |

## Left out

- Authentication is left out: register, login, the `auth` middleware, bcrypt and JWT. The authenticated user id is a parameter of each handler.
- Health check, CORS, JSON parsing and server start-up are left out: HTTP plumbing.
- Registration is not modelled, so the users table is a constant of the store.
- The clock and random values are parameters:
  - the current time is an integer in milliseconds;
  - the random invitation token is a fresh parameter;
  - the ids the storage layer generates are fresh parameters.
- Message bodies, the notification `data` payload beyond the board id, and the invite URL are left out. Only notification titles are kept.
- Service.Store.Notify: does not model `notify` swallowing a storage error. A notification is an append that always succeeds, and the handler's answer never depends on it.
- Service.Store.ApplyColumnPositions: models the `Promise.all` updates as a sequential loop in batch order. Interleavings and the batch's lack of atomicity across concurrent requests are not captured. The first failing update rejects the whole request (`Failed`) while the other updates still run.
- Service.Store.ApplyTaskMoves: models the `Promise.all` updates as a sequential loop, for the same reason.
- Storage exceptions the handlers do not catch are the single outcome `Failed`. These are an update or delete of a missing row, and a foreign key that points nowhere. The HTTP response they produce is not modelled.
- Service.Store.DeleteTask: the handler deletes only the task. Removing its tag and assignee rows is the storage schema's cascade, which is assumed here.
- Service.Store.DeleteColumnRows: removing the deleted tasks' tag and assignee rows is likewise the storage cascade.
- Service.Store.DeleteBoardRows: removing the deleted tasks' assignee rows, and the task–tag rows that attach the board's tags to other boards' tasks, is likewise the storage cascade.
- Service.Store.FetchBoard: the 404 for a board that vanishes between the membership check and the read is not modelled. In a sequential store, a member's board always exists.
- The notification listing orders by `createdAt`. The model takes the log's append order as creation order.
- POST /boards runs two separate writes, not one transaction. The model performs them together, and a failure between them is not modelled.
- Text.LowerChar, Text.ToLower, Text.NormalizeEmail: `toLowerCase` is modelled for ASCII letters only; other characters, non-ASCII letters included, are kept as they are. Unicode case mapping is left out.
- Routes: literal path segments are matched case-sensitively and without URI decoding. Express's case-insensitive matching and decoding are left out. Only the verb and path take part in dispatch.
- Two concurrent accepts of one token are not modelled. The model is sequential, so a second accept always sees the first.
- Service.Store.ReorderTasks: task reorder is authorised against the board of the target column given in the request, while column reorder is authorised against the board of the first item of the batch. The model follows each handler as written.
- Service.Store.ReorderColumns: neither reorder checks that every item of a batch belongs to the authorised board. The model keeps this, as the source does.

## Findings

| source | as written | input that shows it | evidently intended | confidence | as-written member | corrected member |
|---|---|---|---|---|---|---|
| backend/src/index.ts:195-211 | `PATCH /columns/:colId` is registered before `PATCH /columns/reorder`, and `:colId` matches the segment "reorder", so the rename handler answers every column reorder request | `PATCH /columns/reorder` with body `{ items: [...] }` runs the column rename for a column with id "reorder": Forbidden, or a no-op for lack of a title, and no column moves | the reorder route is reached: register `/columns/reorder` before `/columns/:colId` | not executed | Routes.ColumnReorderRequestsRename, Routes.ColumnReorderUnreachable | Routes.CorrectedReachesColumnReorder, Routes.CorrectedAgreesElsewhere |
| backend/src/index.ts:231-256 | `PATCH /tasks/:id` is registered before `PATCH /tasks/reorder`, so the rename handler answers every task reorder request, including the board client's drag and drop | `PATCH /tasks/reorder` with `{ columnId, items }`, as sent by frontend/src/stores/board.ts:11-12, answers Forbidden unless a task has id "reorder", and no task moves | the reorder route is reached: register `/tasks/reorder` before `/tasks/:id` | not executed | Routes.TaskReorderRequestsRename, Scenarios.ClientReorderAsRegistered | Routes.CorrectedReachesTaskReorder, Scenarios.MoveTwoTasks |
