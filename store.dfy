/**
 * The board service: the shared store (one table per field), the membership
 * resolver every handler is gated on, and one method per HTTP handler. The
 * authenticated user is a parameter; identifiers the storage layer would
 * generate, the invitation token and the current time are parameters too.
 */
module Service {
  import opened Wrappers
  import opened Schema
  import Text
  import Ordering
  import opened Tables

  /** The answer to `GET /boards`: owned boards, then boards joined through a membership. */
  datatype BoardList = BoardList(owned: set<BoardId>, joined: set<BoardId>)

  /** What `GET /boards/:id` returns, with users shown by id and e-mail only. */
  datatype TaskView = TaskView(id: TaskId, title: string, position: int, tags: set<TagId>, assignees: map<UserId, string>)
  datatype ColumnView = ColumnView(id: ColumnId, title: string, position: int, tasks: seq<TaskView>)
  datatype MemberView = MemberView(role: Role, email: string)
  datatype BoardView = BoardView(
    id: BoardId, title: string, ownerId: UserId,
    columns: seq<ColumnView>, tags: map<TagId, Tag>, members: map<UserId, MemberView>)

  function ColumnViewId(v: ColumnView): ColumnId { v.id }
  function TaskViewId(v: TaskView): TaskId { v.id }

  /** The ids of a listing of views, in the listing's order. */
  function Ids<V>(vs: seq<V>, id: V -> string): (r: seq<string>)
    ensures |r| == |vs| && forall k :: 0 <= k < |vs| ==> r[k] == id(vs[k])
  {
    seq(|vs|, k requires 0 <= k < |vs| => id(vs[k]))
  }

  /**
   * The e-mail an invitation stores: a non-empty e-mail in the request is
   * normalised (so one made only of spaces is stored as ""), otherwise none.
   */
  function InviteEmail(email: Option<string>): (r: Option<string>)
    ensures r.Some? <==> email.Some? && email.value != []
    ensures r.Some? ==> r.value == Text.NormalizeEmail(email)
  {
    if email.Some? && email.value != "" then Some(Text.NormalizeEmail(email)) else None
  }

  /**
   * A non-empty request e-mail is stored as its trimmed characters, each
   * lower-cased; it is stored empty exactly when it is blank.
   */
  lemma InviteEmailStored(email: Option<string>)
    requires email.Some? && email.value != []
    ensures InviteEmail(email).Some?
    ensures exists p: nat, q: nat :: Text.LowerStrips(email.value, InviteEmail(email).value, p, q)
    ensures InviteEmail(email).value == [] <==> Text.AllSpace(email.value)
  {
    Text.NormalizeEmailValue(email.value);
    Text.NormalizeEmailTrimmed(email);
  }

  /** A notification a listing shows: the user's own, and unread when only unread ones are asked for. */
  predicate Shown(n: Notification, user: UserId, unreadOnly: bool)
  {
    n.userId == user && (!unreadOnly || !n.read)
  }

  /** The ids of every notification shown to `user`, newest first. */
  function Matching(ns: seq<Notification>, user: UserId, unreadOnly: bool): (r: seq<NotificationId>)
    ensures forall k :: 0 <= k < |r| ==> 0 <= r[k] < |ns| && Shown(ns[r[k]], user, unreadOnly)
    ensures forall i :: 0 <= i < |ns| && Shown(ns[i], user, unreadOnly) ==> i in r
    ensures forall a, b :: 0 <= a < b < |r| ==> r[a] > r[b]
    decreases |ns|
  {
    if ns == [] then []
    else
      var n := |ns| - 1;
      var rest := Matching(ns[..n], user, unreadOnly);
      if Shown(ns[n], user, unreadOnly) then [n] + rest else rest
  }

  /** When no notification is shown, the listing is empty. */
  lemma {:induction false} NothingShown(ns: seq<Notification>, user: UserId, unreadOnly: bool)
    requires forall i :: 0 <= i < |ns| ==> !Shown(ns[i], user, unreadOnly)
    ensures Matching(ns, user, unreadOnly) == []
    decreases |ns|
  {
    if ns != [] {
      NothingShown(ns[..|ns| - 1], user, unreadOnly);
    }
  }

  /** In a newest-first list, an id past the first page is older than everything on it. */
  lemma PastFirstPage(m: seq<NotificationId>, i: NotificationId)
    requires forall a, b :: 0 <= a < b < |m| ==> m[a] > m[b]
    requires i in m && |m| > PageSize && i !in m[..PageSize]
    ensures forall k :: 0 <= k < PageSize ==> i < m[k]
  {
    forall q | 0 <= q < PageSize ensures m[q] != i {
      assert m[..PageSize][q] == m[q];
    }
  }

  /** The boards `u` owns. */
  function OwnedBy(boards: Boards, u: UserId): (r: set<BoardId>)
    ensures forall b :: b in r <==> b in boards && boards[b].ownerId == u
  {
    set b | b in boards && boards[b].ownerId == u
  }

  /** A new board joins its owner's owned boards and nobody else's. */
  lemma OwnedByGrows(boards: Boards, id: BoardId, board: Board)
    requires id !in boards
    ensures OwnedBy(boards[id := board], board.ownerId) == OwnedBy(boards, board.ownerId) + {id}
    ensures forall u :: u != board.ownerId ==> OwnedBy(boards[id := board], u) == OwnedBy(boards, u)
  {
    forall u ensures OwnedBy(boards[id := board], u) == OwnedBy(boards, u) + (if u == board.ownerId then {id} else {}) {
    }
  }

  class Store {
    /** Registration is not part of this model: the users table never changes. */
    const users: Users
    var boards: Boards
    var memberships: Memberships
    var columns: Columns
    var tasks: Tasks
    var tags: Tags
    var taskTags: TaskTags
    var taskAssignees: Assignees
    var invitations: Invitations
    var notifications: seq<Notification>

    /**
     * Integrity of the store: every reference points at an existing row, and
     * every board has exactly one OWNER membership, that of its owner. The
     * users table never changes, so the uniqueness of its e-mails, which the
     * constructor establishes, holds for good and is kept out of this predicate.
     */
    ghost predicate Valid()
      reads this`boards, this`memberships, this`columns, this`tasks, this`tags, this`taskTags,
        this`taskAssignees, this`invitations
    {
      Consistent(users, boards, memberships, columns, tasks, tags, taskTags, taskAssignees, invitations)
    }

    /** An empty store over the registered users. */
    constructor (registered: Users)
      requires EmailsUnique(registered)
      ensures Valid() && users == registered && EmailsUnique(users)
      ensures boards == map[] && memberships == map[] && columns == map[] && tasks == map[] && tags == map[]
      ensures taskTags == {} && taskAssignees == {} && invitations == map[] && notifications == []
    {
      users := registered;
      boards, memberships := map[], map[];
      columns, tasks, tags := map[], map[], map[];
      taskTags, taskAssignees, invitations, notifications := {}, {}, map[], [];
    }

    /* ------------------------- membership resolver ------------------------- */

    /** `isBoardOwner`. */
    function IsBoardOwner(b: BoardId, u: UserId): (r: bool)
      reads this`boards, this`memberships
      ensures r ==> IsBoardMember(b, u)
      ensures b !in boards ==> !r
    {
      b in boards && boards[b].ownerId == u
    }

    /** `isBoardMember`: the owner needs no membership row. */
    function IsBoardMember(b: BoardId, u: UserId): (r: bool)
      reads this`boards, this`memberships
      ensures r ==> b in boards
      ensures b in boards && boards[b].ownerId == u ==> r
    {
      if b !in boards then false
      else if boards[b].ownerId == u then true
      else (b, u) in memberships
    }

    /**
     * The owner shortcut in the resolver agrees with the memberships table:
     * a user is a member exactly when a membership row exists, and the owner
     * exactly when that row is the OWNER row.
     */
    lemma ResolverMatchesMemberships(b: BoardId, u: UserId)
      requires Valid()
      ensures IsBoardMember(b, u) <==> (b, u) in memberships
      ensures IsBoardOwner(b, u) <==> (b, u) in memberships && memberships[(b, u)] == Owner
    {
    }

    /** `getBoardIdByColumn`. */
    function BoardOfColumn(c: ColumnId): (r: Option<BoardId>)
      reads this`columns
      ensures r.Some? <==> c in columns
      ensures r.Some? ==> r.value == columns[c].boardId
    {
      if c in columns then Some(columns[c].boardId) else None
    }

    /** `getBoardIdByTask`: the board of the task's column. */
    function BoardOfTask(t: TaskId): (r: Option<BoardId>)
      reads this`tasks, this`columns
      ensures r.Some? ==> t in tasks && r == BoardOfColumn(tasks[t].columnId)
      ensures t in tasks && tasks[t].columnId in columns ==> r.Some?
    {
      if t in tasks && tasks[t].columnId in columns then Some(columns[tasks[t].columnId].boardId) else None
    }

    /** In a consistent store every column and task resolves to an existing board. */
    lemma ResolvedBoardsExist(c: ColumnId, t: TaskId)
      requires Valid()
      ensures BoardOfColumn(c).Some? ==> BoardOfColumn(c).value in boards
      ensures BoardOfTask(t).Some? <==> t in tasks
      ensures BoardOfTask(t).Some? ==> BoardOfTask(t).value in boards
    {
    }

    /** The gate of the column handlers: an unknown column is folded into "not a member". */
    predicate MayEditColumn(c: ColumnId, u: UserId)
      reads this`boards, this`memberships, this`columns
    {
      BoardOfColumn(c).Some? && IsBoardMember(BoardOfColumn(c).value, u)
    }

    /** The gate of the task handlers: an unknown task is folded into "not a member". */
    predicate MayEditTask(t: TaskId, u: UserId)
      reads this`boards, this`memberships, this`columns, this`tasks
    {
      BoardOfTask(t).Some? && IsBoardMember(BoardOfTask(t).value, u)
    }

    /* -------------------------------- boards ------------------------------- */

    /** `GET /boards`. */
    function ListBoards(u: UserId): (r: BoardList)
      reads this`boards, this`memberships
      ensures r.owned !! r.joined
      ensures forall b :: b in r.owned <==> IsBoardOwner(b, u)
      ensures forall b :: b in r.owned || b in r.joined <==> IsBoardMember(b, u)
    {
      BoardList(
        OwnedBy(boards, u),
        set k | k in memberships && k.1 == u && k.0 in boards && boards[k.0].ownerId != u :: k.0)
    }

    /** `POST /boards`: the board and its OWNER membership. */
    method CreateBoard(user: UserId, id: BoardId, title: string)
      requires Valid() && user in users && id !in boards
      modifies this`boards, this`memberships
      ensures Valid()
      ensures boards == old(boards)[id := Board(title, user)]
      ensures memberships == old(memberships)[(id, user) := Owner]
      ensures forall v :: (id, v) in memberships ==> v == user
      ensures ListBoards(user).owned == old(ListBoards(user).owned) + {id}
    {
      CreateBoardKeeps(users, boards, memberships, columns, tasks, tags, taskTags, taskAssignees, invitations,
        id, Board(title, user));
      OwnedByGrows(boards, id, Board(title, user));
      boards := boards[id := Board(title, user)];
      memberships := memberships[(id, user) := Owner];
    }

    /** `PATCH /boards/:id`: the title is validated before membership is checked. */
    method RenameBoard(user: UserId, id: BoardId, title: Option<string>) returns (status: Status)
      requires Valid()
      modifies this`boards
      ensures Valid()
      ensures status == BadRequest <==> title.None? || Text.AllSpace(title.value)
      ensures status == Forbidden <==> title.Some? && !Text.AllSpace(title.value) && !IsBoardMember(id, user)
      ensures status in {Ok, BadRequest, Forbidden}
      ensures status != Ok ==> boards == old(boards)
      ensures status == Ok ==> boards == old(boards)[id := old(boards)[id].(title := Text.Trim(title.value))]
    {
      if title.None? || Text.Trim(title.value) == "" {
        return BadRequest;
      }
      if !IsBoardMember(id, user) {
        return Forbidden;
      }
      var renamed := boards[id].(title := Text.Trim(title.value));
      UpdateBoardKeeps(users, boards, memberships, columns, tasks, tags, taskTags, taskAssignees, invitations,
        id, renamed);
      boards := boards[id := renamed];
      status := Ok;
    }

    function ColumnPositions(b: BoardId): (r: map<ColumnId, int>)
      reads this`columns
      ensures forall c :: c in r <==> c in columns && columns[c].boardId == b
    {
      map c | c in columns && columns[c].boardId == b :: columns[c].position
    }

    function TaskPositions(c: ColumnId): (r: map<TaskId, int>)
      reads this`tasks
      ensures forall t :: t in r <==> t in tasks && tasks[t].columnId == c
    {
      map t | t in tasks && tasks[t].columnId == c :: tasks[t].position
    }

    /** A task with its tags and its assignees' e-mails. */
    function TaskViewOf(t: TaskId): (r: TaskView)
      requires t in tasks
      reads this`tasks, this`taskTags, this`taskAssignees
      ensures r.id == t
    {
      TaskView(t, tasks[t].title, tasks[t].position,
        set p | p in taskTags && p.0 == t :: p.1,
        map u | u in users && (t, u) in taskAssignees :: users[u].email)
    }

    function TaskViews(ids: seq<TaskId>): (r: seq<TaskView>)
      requires forall k :: 0 <= k < |ids| ==> ids[k] in tasks
      reads this`tasks, this`taskTags, this`taskAssignees
      ensures |r| == |ids| && forall k :: 0 <= k < |ids| ==> r[k] == TaskViewOf(ids[k])
    {
      if ids == [] then [] else [TaskViewOf(ids[0])] + TaskViews(ids[1..])
    }

    function MembersOf(b: BoardId): map<UserId, MemberView>
      reads this`memberships
    {
      map u | u in users && (b, u) in memberships :: MemberView(memberships[(b, u)], users[u].email)
    }

    function TagsOf(b: BoardId): (r: map<TagId, Tag>)
      reads this`tags
      ensures forall g :: g in r <==> g in tags && tags[g].boardId == b
    {
      map g | g in tags && tags[g].boardId == b :: tags[g]
    }

    /** A column as `GET /boards/:id` shows it: its row and its tasks by ascending position. */
    ghost predicate ShowsColumn(v: ColumnView)
      reads this
    {
      && v.id in columns
      && v.title == columns[v.id].title && v.position == columns[v.id].position
      && Ordering.IsOrderedListing(Ids(v.tasks, TaskViewId), TaskPositions(v.id))
      && (forall k :: 0 <= k < |v.tasks| ==> v.tasks[k].id in tasks && v.tasks[k] == TaskViewOf(v.tasks[k].id))
    }

    /** The whole aggregate of board `id`: its columns by ascending position, its tags and members. */
    ghost predicate ShowsBoard(id: BoardId, v: BoardView)
      reads this
    {
      && id in boards
      && v.id == id && v.title == boards[id].title && v.ownerId == boards[id].ownerId
      && Ordering.IsOrderedListing(Ids(v.columns, ColumnViewId), ColumnPositions(id))
      && (forall k :: 0 <= k < |v.columns| ==> ShowsColumn(v.columns[k]))
      && v.tags == TagsOf(id)
      && v.members == MembersOf(id)
    }

    /** One column of the aggregate, its tasks ordered by position. */
    method FetchColumn(c: ColumnId) returns (v: ColumnView)
      requires c in columns
      ensures v.id == c && ShowsColumn(v)
    {
      var taskOrder := Ordering.OrderByPosition(TaskPositions(c));
      assert forall k :: 0 <= k < |taskOrder| ==> taskOrder[k] in TaskPositions(c);
      var tvs := TaskViews(taskOrder);
      assert Ids(tvs, TaskViewId) == taskOrder;
      v := ColumnView(c, columns[c].title, columns[c].position, tvs);
    }

    /** `GET /boards/:id`. */
    method FetchBoard(user: UserId, id: BoardId) returns (status: Status, view: Option<BoardView>)
      ensures status == (if IsBoardMember(id, user) then Ok else Forbidden)
      ensures status == Ok ==> view.Some? && ShowsBoard(id, view.value)
      ensures status == Forbidden ==> view.None?
    {
      if !IsBoardMember(id, user) {
        return Forbidden, None;
      }
      var colOrder := Ordering.OrderByPosition(ColumnPositions(id));
      var cols: seq<ColumnView> := [];
      var i := 0;
      while i < |colOrder|
        invariant 0 <= i <= |colOrder|
        invariant Ids(cols, ColumnViewId) == colOrder[..i]
        invariant forall k :: 0 <= k < |cols| ==> ShowsColumn(cols[k])
      {
        assert colOrder[i] in ColumnPositions(id);
        var v := FetchColumn(colOrder[i]);
        cols := cols + [v];
        assert Ids(cols, ColumnViewId) == colOrder[..i + 1];
        i := i + 1;
      }
      assert colOrder[..i] == colOrder;
      view := Some(BoardView(id, boards[id].title, boards[id].ownerId, cols, TagsOf(id), MembersOf(id)));
      status := Ok;
    }

    /**
     * The transaction of `DELETE /boards/:id`. Deletes in dependency order:
     * task-tag rows of the board's tasks, the tasks, the columns, the
     * memberships, the tags, the invitations and the board.
     */
    method DeleteBoardRows(id: BoardId)
      modifies this`boards, this`memberships, this`columns, this`tasks, this`tags
      modifies this`taskTags, this`taskAssignees, this`invitations
      ensures
        var cs := ColumnsOn(old(columns), id);
        var doomed := TasksIn(old(tasks), cs);
        var gs := TagsOn(old(tags), id);
        && boards == old(boards) - {id}
        && columns == old(columns) - cs
        && tasks == old(tasks) - doomed
        && taskTags == TagRowsOff(TagRowsWithout(old(taskTags), doomed), gs)
        && taskAssignees == AssigneeRowsWithout(old(taskAssignees), doomed)
        && memberships == MembershipsOff(old(memberships), id)
        && tags == old(tags) - gs
        && invitations == InvitationsOff(old(invitations), id)
    {
      // The source skips the task and column deletes when there is nothing to delete.
      var colIds := ColumnsOn(columns, id);
      var taskIds := TasksIn(tasks, colIds);
      taskTags := TagRowsWithout(taskTags, taskIds);
      // The storage cascade removes the deleted tasks' assignee rows with them.
      taskAssignees := AssigneeRowsWithout(taskAssignees, taskIds);
      tasks := tasks - taskIds;
      columns := columns - colIds;
      memberships := MembershipsOff(memberships, id);
      var tagIds := TagsOn(tags, id);
      // The storage cascade removes the rows attaching these tags to tasks of other boards.
      taskTags := TagRowsOff(taskTags, tagIds);
      tags := tags - tagIds;
      invitations := InvitationsOff(invitations, id);
      boards := boards - {id};
    }

    /** `DELETE /boards/:id`: only the owner may delete; the board goes with everything on it. */
    method DeleteBoard(user: UserId, id: BoardId) returns (status: Status)
      requires Valid()
      modifies this`boards, this`memberships, this`columns, this`tasks, this`tags
      modifies this`taskTags, this`taskAssignees, this`invitations
      ensures Valid()
      ensures status == (if old(IsBoardOwner(id, user)) then Ok else Forbidden)
      ensures status == Forbidden ==>
        && boards == old(boards) && memberships == old(memberships) && columns == old(columns)
        && tasks == old(tasks) && tags == old(tags) && taskTags == old(taskTags)
        && taskAssignees == old(taskAssignees) && invitations == old(invitations)
      ensures status == Ok ==>
        var cs := ColumnsOn(old(columns), id);
        var doomed := TasksIn(old(tasks), cs);
        var gs := TagsOn(old(tags), id);
        && boards == old(boards) - {id}
        && columns == old(columns) - cs
        && tasks == old(tasks) - doomed
        && taskTags == TagRowsOff(TagRowsWithout(old(taskTags), doomed), gs)
        && taskAssignees == AssigneeRowsWithout(old(taskAssignees), doomed)
        && memberships == MembershipsOff(old(memberships), id)
        && tags == old(tags) - gs
        && invitations == InvitationsOff(old(invitations), id)
    {
      if !IsBoardOwner(id, user) {
        return Forbidden;
      }
      DeleteBoardKeeps(users, boards, memberships, columns, tasks, tags, taskTags, taskAssignees, invitations, id);
      DeleteBoardRows(id);
      status := Ok;
    }

    /** After a delete nothing refers to the board and nobody is its member. */
    lemma DeletedBoardLeavesNothing(id: BoardId)
      requires Valid() && id !in boards
      ensures forall c :: c in columns ==> columns[c].boardId != id
      ensures forall g :: g in tags ==> tags[g].boardId != id
      ensures forall k :: k in memberships ==> k.0 != id
      ensures forall tok :: tok in invitations ==> invitations[tok].boardId != id
      ensures forall t :: t in tasks ==> BoardOfTask(t).Some? && BoardOfTask(t).value != id
      ensures forall u :: !IsBoardMember(id, u)
    {
    }

    /* ------------------------------- columns ------------------------------- */

    /** `POST /boards/:boardId/columns`: the position is stored as given. */
    method CreateColumn(user: UserId, boardId: BoardId, id: ColumnId, title: string, position: int) returns (status: Status)
      requires Valid() && id !in columns
      modifies this`columns
      ensures Valid()
      ensures status == (if IsBoardMember(boardId, user) then Ok else Forbidden)
      ensures columns == if status == Ok then old(columns)[id := Column(boardId, title, position)] else old(columns)
    {
      if !IsBoardMember(boardId, user) {
        return Forbidden;
      }
      CreateColumnKeeps(users, boards, memberships, columns, tasks, tags, taskTags, taskAssignees, invitations,
        id, Column(boardId, title, position));
      columns := columns[id := Column(boardId, title, position)];
      status := Ok;
    }

    /** `PATCH /columns/:colId`: a missing title leaves the row as it is. */
    method RenameColumn(user: UserId, colId: ColumnId, title: Option<string>) returns (status: Status)
      requires Valid()
      modifies this`columns
      ensures Valid()
      ensures status == (if old(MayEditColumn(colId, user)) then Ok else Forbidden)
      ensures columns == if status == Ok && title.Some?
                         then old(columns)[colId := old(columns)[colId].(title := title.value)]
                         else old(columns)
    {
      if !MayEditColumn(colId, user) {
        return Forbidden;
      }
      if title.Some? {
        var renamed := columns[colId := columns[colId].(title := title.value)];
        SameColumnsKeeps(users, boards, memberships, columns, tasks, tags, taskTags, taskAssignees, invitations,
          renamed);
        columns := renamed;
      }
      status := Ok;
    }

    /** Runs the update of every batch entry in turn; reports whether any entry named no column. */
    method ApplyColumnPositions(items: seq<Item>) returns (failed: bool)
      modifies this`columns
      ensures columns == Ordering.Reposition(old(columns), items)
      ensures failed <==> !Ordering.AllKnown(old(columns), items)
    {
      failed := false;
      var i := 0;
      while i < |items|
        invariant 0 <= i <= |items|
        invariant columns == Ordering.Reposition(old(columns), items[..i])
        invariant columns.Keys == old(columns).Keys
        invariant failed <==> !Ordering.AllKnown(old(columns), items[..i])
      {
        var it := items[i];
        if it.id in columns {
          columns := columns[it.id := columns[it.id].(position := it.position)];
        } else {
          failed := true;
        }
        assert items[..i + 1][..i] == items[..i];
        i := i + 1;
      }
      assert items[..i] == items;
    }

    /**
     * `PATCH /columns/reorder`: authorised against the board of the first
     * entry only; then every entry's update runs, and an entry naming no
     * column fails on its own without stopping the others.
     */
    method ReorderColumns(user: UserId, items: seq<Item>) returns (status: Status)
      requires Valid()
      modifies this`columns
      ensures Valid()
      ensures status == Forbidden <==> !(|items| > 0 && old(MayEditColumn(items[0].id, user)))
      ensures status == Forbidden ==> columns == old(columns)
      ensures status != Forbidden ==> columns == Ordering.Reposition(old(columns), items)
      ensures status != Forbidden ==> status == (if Ordering.AllKnown(old(columns), items) then Ok else Failed)
    {
      if |items| == 0 || !MayEditColumn(items[0].id, user) {
        return Forbidden;
      }
      RepositionKeeps(users, boards, memberships, columns, tasks, tags, taskTags, taskAssignees, invitations, items);
      var failed := ApplyColumnPositions(items);
      status := if failed then Failed else Ok;
    }

    /** The column's tasks go first, then the column; the tasks' tag and assignee rows go with them. */
    method DeleteColumnRows(colId: ColumnId)
      modifies this`columns, this`tasks, this`taskTags, this`taskAssignees
      ensures
        var doomed := TasksIn(old(tasks), {colId});
        && columns == old(columns) - {colId}
        && tasks == old(tasks) - doomed
        && taskTags == TagRowsWithout(old(taskTags), doomed)
        && taskAssignees == AssigneeRowsWithout(old(taskAssignees), doomed)
    {
      var taskIds := TasksIn(tasks, {colId});
      // The storage cascade removes the deleted tasks' tag and assignee rows with them.
      taskTags := TagRowsWithout(taskTags, taskIds);
      taskAssignees := AssigneeRowsWithout(taskAssignees, taskIds);
      tasks := tasks - taskIds;
      columns := columns - {colId};
    }

    /** `DELETE /columns/:colId`. */
    method DeleteColumn(user: UserId, colId: ColumnId) returns (status: Status)
      requires Valid()
      modifies this`columns, this`tasks, this`taskTags, this`taskAssignees
      ensures Valid()
      ensures status == (if old(MayEditColumn(colId, user)) then Ok else Forbidden)
      ensures status == Forbidden ==>
        columns == old(columns) && tasks == old(tasks) && taskTags == old(taskTags) && taskAssignees == old(taskAssignees)
      ensures status == Ok ==>
        var doomed := TasksIn(old(tasks), {colId});
        && columns == old(columns) - {colId}
        && tasks == old(tasks) - doomed
        && taskTags == TagRowsWithout(old(taskTags), doomed)
        && taskAssignees == AssigneeRowsWithout(old(taskAssignees), doomed)
    {
      if !MayEditColumn(colId, user) {
        return Forbidden;
      }
      DeleteColumnKeeps(users, boards, memberships, columns, tasks, tags, taskTags, taskAssignees, invitations, colId);
      DeleteColumnRows(colId);
      status := Ok;
    }

    /* -------------------------------- tasks -------------------------------- */

    /** `POST /columns/:colId/tasks`: the position is stored as given. */
    method CreateTask(user: UserId, colId: ColumnId, id: TaskId, title: string, position: int) returns (status: Status)
      requires Valid() && id !in tasks
      modifies this`tasks
      ensures Valid()
      ensures status == (if MayEditColumn(colId, user) then Ok else Forbidden)
      ensures tasks == if status == Ok then old(tasks)[id := Task(colId, title, position)] else old(tasks)
    {
      if !MayEditColumn(colId, user) {
        return Forbidden;
      }
      CreateTaskKeeps(users, boards, memberships, columns, tasks, tags, taskTags, taskAssignees, invitations,
        id, Task(colId, title, position));
      tasks := tasks[id := Task(colId, title, position)];
      status := Ok;
    }

    /** `PATCH /tasks/:id`: a missing title leaves the row as it is. */
    method RenameTask(user: UserId, id: TaskId, title: Option<string>) returns (status: Status)
      requires Valid()
      modifies this`tasks
      ensures Valid()
      ensures status == (if old(MayEditTask(id, user)) then Ok else Forbidden)
      ensures tasks == if status == Ok && title.Some?
                       then old(tasks)[id := old(tasks)[id].(title := title.value)]
                       else old(tasks)
    {
      if !MayEditTask(id, user) {
        return Forbidden;
      }
      if title.Some? {
        var renamed := tasks[id := tasks[id].(title := title.value)];
        SameTasksKeeps(users, boards, memberships, columns, tasks, tags, taskTags, taskAssignees, invitations,
          renamed);
        tasks := renamed;
      }
      status := Ok;
    }

    /** `DELETE /tasks/:id`, with the task's tag and assignee rows. */
    method DeleteTask(user: UserId, id: TaskId) returns (status: Status)
      requires Valid()
      modifies this`tasks, this`taskTags, this`taskAssignees
      ensures Valid()
      ensures status == (if old(MayEditTask(id, user)) then Ok else Forbidden)
      ensures status == Forbidden ==>
        tasks == old(tasks) && taskTags == old(taskTags) && taskAssignees == old(taskAssignees)
      ensures status == Ok ==>
        && tasks == old(tasks) - {id}
        && taskTags == TagRowsWithout(old(taskTags), {id})
        && taskAssignees == AssigneeRowsWithout(old(taskAssignees), {id})
    {
      if !MayEditTask(id, user) {
        return Forbidden;
      }
      DeleteTaskKeeps(users, boards, memberships, columns, tasks, tags, taskTags, taskAssignees, invitations, id);
      // The storage cascade removes the task's tag and assignee rows with it.
      taskTags := TagRowsWithout(taskTags, {id});
      taskAssignees := AssigneeRowsWithout(taskAssignees, {id});
      tasks := tasks - {id};
      status := Ok;
    }

    /** Runs the update of every batch entry in turn; reports whether any entry named no task. */
    method ApplyTaskMoves(columnId: ColumnId, items: seq<Item>) returns (failed: bool)
      modifies this`tasks
      ensures tasks == Ordering.MoveTasks(old(tasks), columnId, items)
      ensures failed <==> !Ordering.AllKnown(old(tasks), items)
    {
      failed := false;
      var i := 0;
      while i < |items|
        invariant 0 <= i <= |items|
        invariant tasks == Ordering.MoveTasks(old(tasks), columnId, items[..i])
        invariant tasks.Keys == old(tasks).Keys
        invariant failed <==> !Ordering.AllKnown(old(tasks), items[..i])
      {
        var it := items[i];
        if it.id in tasks {
          tasks := tasks[it.id := tasks[it.id].(columnId := columnId, position := it.position)];
        } else {
          failed := true;
        }
        assert items[..i + 1][..i] == items[..i];
        i := i + 1;
      }
      assert items[..i] == items;
    }

    /**
     * `PATCH /tasks/reorder`: authorised against the target column's board;
     * every listed task then moves into that column with its new position.
     */
    method ReorderTasks(user: UserId, columnId: ColumnId, items: seq<Item>) returns (status: Status)
      requires Valid()
      modifies this`tasks
      ensures Valid()
      ensures status == Forbidden <==> !MayEditColumn(columnId, user)
      ensures status == Forbidden ==> tasks == old(tasks)
      ensures status != Forbidden ==> tasks == Ordering.MoveTasks(old(tasks), columnId, items)
      ensures status != Forbidden ==> status == (if Ordering.AllKnown(old(tasks), items) then Ok else Failed)
    {
      if !MayEditColumn(columnId, user) {
        return Forbidden;
      }
      MoveTasksKeeps(users, boards, memberships, columns, tasks, tags, taskTags, taskAssignees, invitations,
        columnId, items);
      var failed := ApplyTaskMoves(columnId, items);
      status := if failed then Failed else Ok;
    }

    /* ----------------------------- assignees ------------------------------ */

    /** `notify`: appends one unread notification. */
    method Notify(userId: UserId, title: string, boardId: BoardId)
      modifies this`notifications
      ensures notifications == old(notifications) + [Notification(userId, title, boardId, false)]
    {
      notifications := notifications + [Notification(userId, title, boardId, false)];
    }

    /**
     * `POST /tasks/:taskId/assignees/:userId`: the target needs a membership
     * row; the join is an upsert; the target is notified unless they assigned themselves.
     */
    method AssignUser(user: UserId, taskId: TaskId, target: UserId) returns (status: Status)
      requires Valid()
      modifies this`taskAssignees, this`notifications
      ensures Valid()
      ensures !MayEditTask(taskId, user) ==> status == Forbidden
      ensures MayEditTask(taskId, user) ==>
        status == (if (BoardOfTask(taskId).value, target) in memberships then Ok else BadRequest)
      ensures status != Ok ==> taskAssignees == old(taskAssignees) && notifications == old(notifications)
      ensures status == Ok ==> taskAssignees == old(taskAssignees) + {(taskId, target)}
      ensures status == Ok ==>
        notifications == old(notifications) +
          (if target != user then [Notification(target, AssignedTitle, BoardOfTask(taskId).value, false)] else [])
    {
      if !MayEditTask(taskId, user) {
        return Forbidden;
      }
      var boardId := BoardOfTask(taskId).value;
      if (boardId, target) !in memberships {
        return BadRequest;
      }
      AssignKeeps(users, boards, memberships, columns, tasks, tags, taskTags, taskAssignees, invitations,
        taskId, target);
      taskAssignees := taskAssignees + {(taskId, target)};
      if target != user {
        Notify(target, AssignedTitle, boardId);
      }
      status := Ok;
    }

    /** `DELETE /tasks/:taskId/assignees/:userId`: removing a missing row is not an error. */
    method UnassignUser(user: UserId, taskId: TaskId, target: UserId) returns (status: Status)
      requires Valid()
      modifies this`taskAssignees
      ensures Valid()
      ensures status == (if MayEditTask(taskId, user) then Ok else Forbidden)
      ensures taskAssignees == if status == Ok then old(taskAssignees) - {(taskId, target)} else old(taskAssignees)
    {
      if !MayEditTask(taskId, user) {
        return Forbidden;
      }
      DropRowsKeeps(users, boards, memberships, columns, tasks, tags, taskTags, taskAssignees, invitations,
        taskTags, taskAssignees - {(taskId, target)});
      taskAssignees := taskAssignees - {(taskId, target)};
      status := Ok;
    }

    /* ------------------------------- invites ------------------------------- */

    /** Some registered user has e-mail `e`. */
    predicate RegisteredEmail(e: string)
    {
      exists u :: u in users && users[u].email == e
    }

    /** `n` is the invitation notice for the user with e-mail `e`. */
    predicate InviteNotice(n: Notification, e: string, boardId: BoardId)
    {
      n.userId in users && users[n.userId].email == e && n == Notification(n.userId, InvitedTitle, boardId, false)
    }

    /**
     * The notification log goes from `before` to `after` by an invitation to
     * `e`: one invitation notice is appended when `e` is a non-empty e-mail a
     * registered user has, and nothing otherwise.
     */
    predicate InviteLogged(before: seq<Notification>, after: seq<Notification>, e: Option<string>, boardId: BoardId)
    {
      if e.Some? && e.value != [] && RegisteredEmail(e.value)
      then |after| == |before| + 1 && after[..|before|] == before && InviteNotice(after[|before|], e.value, boardId)
      else after == before
    }

    /** A blank request e-mail is stored as "" and sends no notice. */
    lemma BlankInviteNotifiesNobody(e: string, boardId: BoardId, before: seq<Notification>, after: seq<Notification>)
      requires e != [] && Text.AllSpace(e)
      ensures InviteEmail(Some(e)) == Some([])
      ensures InviteLogged(before, after, InviteEmail(Some(e)), boardId) <==> after == before
    {
      Text.NormalizeEmailTrimmed(Some(e));
    }

    /** In a consistent store the invitation notice goes to the one user holding the e-mail. */
    lemma InviteNoticeNamesHolder(n: Notification, e: string, boardId: BoardId, u: UserId)
      requires EmailsUnique(users) && InviteNotice(n, e, boardId) && u in users && users[u].email == e
      ensures n == Notification(u, InvitedTitle, boardId, false)
    {
    }

    /** Looks the invited e-mail up among the users and, if someone has it, notifies them. */
    method NotifyInvitee(e: string, boardId: BoardId)
      modifies this`notifications
      ensures if RegisteredEmail(e)
              then |notifications| == |old(notifications)| + 1 && notifications[..|old(notifications)|] == old(notifications)
                   && InviteNotice(notifications[|old(notifications)|], e, boardId)
              else notifications == old(notifications)
    {
      if RegisteredEmail(e) {
        var u :| u in users && users[u].email == e;
        Notify(u, InvitedTitle, boardId);
      }
    }

    /** Stores the invitation and notifies the invited user if they are registered. */
    method StoreInvite(boardId: BoardId, token: Token, email: Option<string>, now: int)
      modifies this`invitations, this`notifications
      ensures invitations == old(invitations)[token := Invitation(boardId, InviteEmail(email), false, now + InviteLifetime)]
      ensures InviteLogged(old(notifications), notifications, InviteEmail(email), boardId)
    {
      var inviteEmail := InviteEmail(email);
      invitations := invitations[token := Invitation(boardId, inviteEmail, false, now + InviteLifetime)];
      if inviteEmail.Some? && inviteEmail.value != "" {
        NotifyInvitee(inviteEmail.value, boardId);
      }
    }

    /**
     * `POST /boards/:boardId/invites`: a fresh token valid for 7 days; a
     * registered user with the invited e-mail is notified at once.
     */
    method CreateInvite(user: UserId, boardId: BoardId, token: Token, email: Option<string>, now: int) returns (status: Status)
      requires Valid() && token !in invitations
      modifies this`invitations, this`notifications
      ensures Valid()
      ensures status == (if IsBoardMember(boardId, user) then Ok else Forbidden)
      ensures status == Forbidden ==> invitations == old(invitations) && notifications == old(notifications)
      ensures status == Ok ==>
        invitations == old(invitations)[token := Invitation(boardId, InviteEmail(email), false, now + InviteLifetime)]
      ensures status == Ok ==> InviteLogged(old(notifications), notifications, InviteEmail(email), boardId)
    {
      if !IsBoardMember(boardId, user) {
        return Forbidden;
      }
      CreateInviteKeeps(users, boards, memberships, columns, tasks, tags, taskTags, taskAssignees, invitations,
        token, Invitation(boardId, InviteEmail(email), false, now + InviteLifetime));
      StoreInvite(boardId, token, email, now);
      status := Ok;
    }

    /** A token can be accepted: it exists, is not accepted yet, and has not expired. */
    predicate Acceptable(token: Token, now: int)
      reads this`invitations
    {
      token in invitations && !invitations[token].accepted && !(invitations[token].expiresAt < now)
    }

    /** Tells the joiner they joined and, unless they are the owner, tells the owner. */
    method NotifyJoined(user: UserId, b: BoardId, owner: UserId)
      modifies this`notifications
      ensures notifications == old(notifications) + [Notification(user, JoinedTitle, b, false)]
        + (if owner != user then [Notification(owner, MemberJoinedTitle, b, false)] else [])
    {
      Notify(user, JoinedTitle, b);
      if owner != user {
        Notify(owner, MemberJoinedTitle, b);
      }
    }

    /** Upserts the MEMBER row for `user` on the invitation's board and marks the invitation accepted. */
    method RecordJoin(user: UserId, token: Token, inv: Invitation)
      modifies this`memberships, this`invitations
      ensures memberships == if (inv.boardId, user) in old(memberships) then old(memberships)
                             else old(memberships)[(inv.boardId, user) := Member]
      ensures invitations == old(invitations)[token := inv.(accepted := true)]
    {
      if (inv.boardId, user) !in memberships {
        memberships := memberships[(inv.boardId, user) := Member];
      }
      invitations := invitations[token := inv.(accepted := true)];
    }

    /**
     * `POST /invites/accept`: upserts a MEMBER row (an existing row is kept),
     * marks the invitation accepted, notifies the joiner and, if someone
     * else, the owner.
     */
    method AcceptInvite(user: UserId, token: Token, now: int) returns (status: Status, joined: Option<BoardId>)
      requires Valid() && user in users
      modifies this`memberships, this`invitations, this`notifications
      ensures Valid()
      ensures status == (if old(Acceptable(token, now)) then Ok else BadRequest)
      ensures status == BadRequest ==>
        joined == None && memberships == old(memberships) && invitations == old(invitations)
        && notifications == old(notifications)
      ensures status == Ok ==>
        var b := old(invitations)[token].boardId;
        var owner := boards[b].ownerId;
        && joined == Some(b)
        && invitations == old(invitations)[token := old(invitations)[token].(accepted := true)]
        && memberships == (if (b, user) in old(memberships) then old(memberships) else old(memberships)[(b, user) := Member])
        && notifications == old(notifications) + [Notification(user, JoinedTitle, b, false)]
             + (if owner != user then [Notification(owner, MemberJoinedTitle, b, false)] else [])
      ensures status == Ok ==> IsBoardMember(joined.value, user) && forall t :: !Acceptable(token, t)
    {
      if !Acceptable(token, now) {
        return BadRequest, None;
      }
      var inv := invitations[token];
      AcceptInviteKeeps(users, boards, memberships, columns, tasks, tags, taskTags, taskAssignees, invitations,
        token, user,
        if (inv.boardId, user) in memberships then memberships else memberships[(inv.boardId, user) := Member],
        invitations[token := inv.(accepted := true)]);
      RecordJoin(user, token, inv);
      NotifyJoined(user, inv.boardId, boards[inv.boardId].ownerId);
      status, joined := Ok, Some(inv.boardId);
    }

    /* --------------------------------- tags -------------------------------- */

    /** `GET /boards/:boardId/tags`. */
    method ListTags(user: UserId, boardId: BoardId) returns (status: Status, r: set<TagId>)
      ensures status == (if IsBoardMember(boardId, user) then Ok else Forbidden)
      ensures status == Ok ==> forall g :: g in r <==> g in tags && tags[g].boardId == boardId
      ensures status == Forbidden ==> r == {}
    {
      if !IsBoardMember(boardId, user) {
        return Forbidden, {};
      }
      status, r := Ok, TagsOn(tags, boardId);
    }

    /** `POST /boards/:boardId/tags`: a missing colour becomes the default one. */
    method CreateTag(user: UserId, boardId: BoardId, id: TagId, name: string, color: Option<string>) returns (status: Status)
      requires Valid() && id !in tags
      modifies this`tags
      ensures Valid()
      ensures status == (if IsBoardMember(boardId, user) then Ok else Forbidden)
      ensures status == Forbidden ==> tags == old(tags)
      ensures status == Ok ==>
        tags == old(tags)[id := Tag(boardId, name, if color.Some? then color.value else DefaultTagColor)]
    {
      if !IsBoardMember(boardId, user) {
        return Forbidden;
      }
      var tag := Tag(boardId, name, if color.Some? then color.value else DefaultTagColor);
      CreateTagKeeps(users, boards, memberships, columns, tasks, tags, taskTags, taskAssignees, invitations, id, tag);
      tags := tags[id := tag];
      status := Ok;
    }

    /**
     * `POST /tasks/:taskId/tags/:tagId`: an upsert; the tag may belong to any
     * board, but a tag that does not exist breaks the foreign key.
     */
    method AttachTag(user: UserId, taskId: TaskId, tagId: TagId) returns (status: Status)
      requires Valid()
      modifies this`taskTags
      ensures Valid()
      ensures status == (if !MayEditTask(taskId, user) then Forbidden else if tagId !in tags then Failed else Ok)
      ensures taskTags == if status == Ok then old(taskTags) + {(taskId, tagId)} else old(taskTags)
    {
      if !MayEditTask(taskId, user) {
        return Forbidden;
      }
      if tagId !in tags {
        return Failed;
      }
      AttachTagKeeps(users, boards, memberships, columns, tasks, tags, taskTags, taskAssignees, invitations,
        taskId, tagId);
      taskTags := taskTags + {(taskId, tagId)};
      status := Ok;
    }

    /** `DELETE /tasks/:taskId/tags/:tagId`: deleting a row that is not there throws. */
    method DetachTag(user: UserId, taskId: TaskId, tagId: TagId) returns (status: Status)
      requires Valid()
      modifies this`taskTags
      ensures Valid()
      ensures status == (if !MayEditTask(taskId, user) then Forbidden
                         else if (taskId, tagId) !in old(taskTags) then Failed else Ok)
      ensures taskTags == if status == Ok then old(taskTags) - {(taskId, tagId)} else old(taskTags)
    {
      if !MayEditTask(taskId, user) {
        return Forbidden;
      }
      if (taskId, tagId) !in taskTags {
        return Failed;
      }
      DropRowsKeeps(users, boards, memberships, columns, tasks, tags, taskTags, taskAssignees, invitations,
        taskTags - {(taskId, tagId)}, taskAssignees);
      taskTags := taskTags - {(taskId, tagId)};
      status := Ok;
    }

    /* ---------------------------- notifications ---------------------------- */

    /** `GET /notifications`: the user's newest notifications, one page of them. */
    function Inbox(user: UserId, unreadOnly: bool): (r: seq<NotificationId>)
      reads this`notifications
      ensures |r| <= PageSize
      ensures forall k :: 0 <= k < |r| ==> 0 <= r[k] < |notifications| && Shown(notifications[r[k]], user, unreadOnly)
      ensures forall a, b :: 0 <= a < b < |r| ==> r[a] > r[b]
      ensures forall i :: 0 <= i < |notifications| && Shown(notifications[i], user, unreadOnly) && i !in r ==>
        |r| == PageSize && forall k :: 0 <= k < |r| ==> i < r[k]
    {
      var m := Matching(notifications, user, unreadOnly);
      if |m| <= PageSize then m
      else
        assert forall i :: 0 <= i < |notifications| && Shown(notifications[i], user, unreadOnly) && i !in m[..PageSize] ==>
          forall k :: 0 <= k < PageSize ==> i < m[k] by {
          forall i | 0 <= i < |notifications| && Shown(notifications[i], user, unreadOnly) && i !in m[..PageSize] {
            PastFirstPage(m, i);
          }
        }
        m[..PageSize]
    }

    /** `PATCH /notifications/:id/read`: someone else's notification reads as missing. */
    method MarkRead(user: UserId, id: NotificationId) returns (status: Status)
      modifies this`notifications
      ensures status == (if 0 <= id < |old(notifications)| && old(notifications)[id].userId == user then Ok else NotFound)
      ensures notifications == if status == Ok then old(notifications)[id := old(notifications)[id].(read := true)]
                               else old(notifications)
    {
      if !(0 <= id < |notifications|) || notifications[id].userId != user {
        return NotFound;
      }
      notifications := notifications[id := notifications[id].(read := true)];
      status := Ok;
    }

    /** `POST /notifications/read-all`. */
    method ReadAll(user: UserId)
      modifies this`notifications
      ensures |notifications| == |old(notifications)|
      ensures forall i :: 0 <= i < |notifications| ==>
        notifications[i] == if old(notifications)[i].userId == user then old(notifications)[i].(read := true)
                            else old(notifications)[i]
      ensures Inbox(user, true) == []
    {
      var ns := notifications;
      notifications := seq(|ns|, i requires 0 <= i < |ns| =>
        if ns[i].userId == user then ns[i].(read := true) else ns[i]);
      NothingShown(notifications, user, true);
    }
  }
}
