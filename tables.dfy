/**
 * The board service's tables as values: the foreign keys and the ownership
 * rule the storage schema enforces, the row sets the delete cascades remove,
 * and, for every change a handler makes, the fact that it keeps the tables
 * consistent.
 */
module Tables {
  import opened Schema
  import Ordering

  type Users = map<UserId, User>
  type Boards = map<BoardId, Board>
  type Memberships = map<(BoardId, UserId), Role>
  type Columns = map<ColumnId, Column>
  type Tasks = map<TaskId, Task>
  type Tags = map<TagId, Tag>
  type TaskTags = set<(TaskId, TagId)>
  type Assignees = set<(TaskId, UserId)>
  type Invitations = map<Token, Invitation>

  /** No two users share an e-mail: the storage schema keeps that column unique. */
  ghost predicate EmailsUnique(users: Users)
  {
    forall u, v :: u in users && v in users && users[u].email == users[v].email ==> u == v
  }

  /**
   * Owners are users; every membership row names a board and a user; every
   * board has an OWNER row for its owner and no other OWNER row.
   */
  ghost predicate BoardsOk(users: Users, boards: Boards, ms: Memberships)
  {
    && (forall b :: b in boards ==> boards[b].ownerId in users)
    && (forall k :: k in ms ==> k.0 in boards && k.1 in users)
    && (forall b :: b in boards ==> (b, boards[b].ownerId) in ms && ms[(b, boards[b].ownerId)] == Owner)
    && (forall k :: k in ms && ms[k] == Owner ==> boards[k.0].ownerId == k.1)
  }

  /** Every foreign key points at an existing row, and the ownership rule of BoardsOk holds. */
  ghost predicate Consistent(users: Users, boards: Boards, ms: Memberships, columns: Columns, tasks: Tasks,
                             tags: Tags, taskTags: TaskTags, assignees: Assignees, invitations: Invitations)
  {
    && BoardsOk(users, boards, ms)
    && (forall c :: c in columns ==> columns[c].boardId in boards)
    && (forall t :: t in tasks ==> tasks[t].columnId in columns)
    && (forall g :: g in tags ==> tags[g].boardId in boards)
    && (forall p :: p in taskTags ==> p.0 in tasks && p.1 in tags)
    && (forall p :: p in assignees ==> p.0 in tasks && p.1 in users)
    && (forall tok :: tok in invitations ==> invitations[tok].boardId in boards)
  }

  /* -------------------------- rows a cascade removes ------------------------- */

  /** The columns of board `b`. */
  function ColumnsOn(columns: Columns, b: BoardId): set<ColumnId>
  {
    set c | c in columns && columns[c].boardId == b
  }

  /** The tasks that sit in one of the columns `cs`. */
  function TasksIn(tasks: Tasks, cs: set<ColumnId>): set<TaskId>
  {
    set t | t in tasks && tasks[t].columnId in cs
  }

  /** The tags of board `b`. */
  function TagsOn(tags: Tags, b: BoardId): set<TagId>
  {
    set g | g in tags && tags[g].boardId == b
  }

  /** The task-tag rows whose task is not one of `gone`. */
  function TagRowsWithout(rows: TaskTags, gone: set<TaskId>): TaskTags
  {
    set p | p in rows && p.0 !in gone
  }

  /** The task-tag rows whose tag is not one of `gone`. */
  function TagRowsOff(rows: TaskTags, gone: set<TagId>): TaskTags
  {
    set p | p in rows && p.1 !in gone
  }

  /** The assignee rows whose task is not one of `gone`. */
  function AssigneeRowsWithout(rows: Assignees, gone: set<TaskId>): Assignees
  {
    set p | p in rows && p.0 !in gone
  }

  /** The membership rows of every board but `b`. */
  function MembershipsOff(ms: Memberships, b: BoardId): Memberships
  {
    map k | k in ms && k.0 != b :: ms[k]
  }

  /** The invitations to every board but `b`. */
  function InvitationsOff(invitations: Invitations, b: BoardId): Invitations
  {
    map tok | tok in invitations && invitations[tok].boardId != b :: invitations[tok]
  }

  /* ------------------------- changes that keep integrity ------------------------ */

  /** A new board together with its owner's OWNER row. */
  lemma CreateBoardKeeps(users: Users, boards: Boards, ms: Memberships, columns: Columns, tasks: Tasks,
                         tags: Tags, taskTags: TaskTags, assignees: Assignees, invitations: Invitations,
                         id: BoardId, board: Board)
    requires Consistent(users, boards, ms, columns, tasks, tags, taskTags, assignees, invitations)
    requires id !in boards && board.ownerId in users
    ensures Consistent(users, boards[id := board], ms[(id, board.ownerId) := Owner], columns, tasks,
                       tags, taskTags, assignees, invitations)
    ensures forall k :: k in ms ==> k.0 != id
  {
  }

  /** A change to a board that keeps its owner. */
  lemma UpdateBoardKeeps(users: Users, boards: Boards, ms: Memberships, columns: Columns, tasks: Tasks,
                         tags: Tags, taskTags: TaskTags, assignees: Assignees, invitations: Invitations,
                         id: BoardId, board: Board)
    requires Consistent(users, boards, ms, columns, tasks, tags, taskTags, assignees, invitations)
    requires id in boards && board.ownerId == boards[id].ownerId
    ensures Consistent(users, boards[id := board], ms, columns, tasks, tags, taskTags, assignees, invitations)
  {
  }

  /** Removing a board with its columns, their tasks, and every row that points at any of them. */
  lemma DeleteBoardKeeps(users: Users, boards: Boards, ms: Memberships, columns: Columns, tasks: Tasks,
                         tags: Tags, taskTags: TaskTags, assignees: Assignees, invitations: Invitations,
                         id: BoardId)
    requires Consistent(users, boards, ms, columns, tasks, tags, taskTags, assignees, invitations)
    ensures
      var cs := ColumnsOn(columns, id);
      var ts := TasksIn(tasks, cs);
      var gs := TagsOn(tags, id);
      Consistent(users, boards - {id}, MembershipsOff(ms, id), columns - cs, tasks - ts, tags - gs,
                 TagRowsOff(TagRowsWithout(taskTags, ts), gs), AssigneeRowsWithout(assignees, ts),
                 InvitationsOff(invitations, id))
  {
    var cs := ColumnsOn(columns, id);
    var ts := TasksIn(tasks, cs);
    var ms' := MembershipsOff(ms, id);
    var boards' := boards - {id};
    assert BoardsOk(users, boards', ms') by {
      forall k | k in ms' && ms'[k] == Owner ensures boards'[k.0].ownerId == k.1 {
        assert ms'[k] == ms[k];
      }
    }
  }

  /** A column added to an existing board. */
  lemma CreateColumnKeeps(users: Users, boards: Boards, ms: Memberships, columns: Columns, tasks: Tasks,
                          tags: Tags, taskTags: TaskTags, assignees: Assignees, invitations: Invitations,
                          id: ColumnId, column: Column)
    requires Consistent(users, boards, ms, columns, tasks, tags, taskTags, assignees, invitations)
    requires column.boardId in boards
    ensures Consistent(users, boards, ms, columns[id := column], tasks, tags, taskTags, assignees, invitations)
  {
  }

  /** The same columns, each on the board it was on. */
  lemma SameColumnsKeeps(users: Users, boards: Boards, ms: Memberships, columns: Columns, tasks: Tasks,
                         tags: Tags, taskTags: TaskTags, assignees: Assignees, invitations: Invitations,
                         columns': Columns)
    requires Consistent(users, boards, ms, columns, tasks, tags, taskTags, assignees, invitations)
    requires columns'.Keys == columns.Keys
    requires forall c :: c in columns ==> columns'[c].boardId == columns[c].boardId
    ensures Consistent(users, boards, ms, columns', tasks, tags, taskTags, assignees, invitations)
  {
  }

  /** A column reorder batch keeps every column on its board. */
  lemma RepositionKeeps(users: Users, boards: Boards, ms: Memberships, columns: Columns, tasks: Tasks,
                        tags: Tags, taskTags: TaskTags, assignees: Assignees, invitations: Invitations,
                        items: seq<Item>)
    requires Consistent(users, boards, ms, columns, tasks, tags, taskTags, assignees, invitations)
    ensures Consistent(users, boards, ms, Ordering.Reposition(columns, items), tasks, tags, taskTags, assignees,
                       invitations)
  {
    Ordering.RepositionSpec(columns, items);
    SameColumnsKeeps(users, boards, ms, columns, tasks, tags, taskTags, assignees, invitations,
      Ordering.Reposition(columns, items));
  }

  /** A column removed with its tasks and their tag and assignee rows. */
  lemma DeleteColumnKeeps(users: Users, boards: Boards, ms: Memberships, columns: Columns, tasks: Tasks,
                          tags: Tags, taskTags: TaskTags, assignees: Assignees, invitations: Invitations,
                          id: ColumnId)
    requires Consistent(users, boards, ms, columns, tasks, tags, taskTags, assignees, invitations)
    ensures
      var ts := TasksIn(tasks, {id});
      Consistent(users, boards, ms, columns - {id}, tasks - ts, tags, TagRowsWithout(taskTags, ts),
                 AssigneeRowsWithout(assignees, ts), invitations)
  {
  }

  /** A task added to an existing column. */
  lemma CreateTaskKeeps(users: Users, boards: Boards, ms: Memberships, columns: Columns, tasks: Tasks,
                        tags: Tags, taskTags: TaskTags, assignees: Assignees, invitations: Invitations,
                        id: TaskId, task: Task)
    requires Consistent(users, boards, ms, columns, tasks, tags, taskTags, assignees, invitations)
    requires task.columnId in columns
    ensures Consistent(users, boards, ms, columns, tasks[id := task], tags, taskTags, assignees, invitations)
  {
  }

  /** The same tasks, each in an existing column. */
  lemma SameTasksKeeps(users: Users, boards: Boards, ms: Memberships, columns: Columns, tasks: Tasks,
                       tags: Tags, taskTags: TaskTags, assignees: Assignees, invitations: Invitations,
                       tasks': Tasks)
    requires Consistent(users, boards, ms, columns, tasks, tags, taskTags, assignees, invitations)
    requires tasks'.Keys == tasks.Keys
    requires forall t :: t in tasks' ==> tasks'[t].columnId in columns
    ensures Consistent(users, boards, ms, columns, tasks', tags, taskTags, assignees, invitations)
  {
  }

  /** A task reorder batch moves tasks only into an existing column. */
  lemma MoveTasksKeeps(users: Users, boards: Boards, ms: Memberships, columns: Columns, tasks: Tasks,
                       tags: Tags, taskTags: TaskTags, assignees: Assignees, invitations: Invitations,
                       target: ColumnId, items: seq<Item>)
    requires Consistent(users, boards, ms, columns, tasks, tags, taskTags, assignees, invitations)
    requires target in columns
    ensures Consistent(users, boards, ms, columns, Ordering.MoveTasks(tasks, target, items), tags, taskTags,
                       assignees, invitations)
  {
    Ordering.MoveTasksSpec(tasks, target, items);
    SameTasksKeeps(users, boards, ms, columns, tasks, tags, taskTags, assignees, invitations,
      Ordering.MoveTasks(tasks, target, items));
  }

  /** A task removed with its tag and assignee rows. */
  lemma DeleteTaskKeeps(users: Users, boards: Boards, ms: Memberships, columns: Columns, tasks: Tasks,
                        tags: Tags, taskTags: TaskTags, assignees: Assignees, invitations: Invitations,
                        id: TaskId)
    requires Consistent(users, boards, ms, columns, tasks, tags, taskTags, assignees, invitations)
    ensures Consistent(users, boards, ms, columns, tasks - {id}, tags, TagRowsWithout(taskTags, {id}),
                       AssigneeRowsWithout(assignees, {id}), invitations)
  {
  }

  /** A tag added to an existing board. */
  lemma CreateTagKeeps(users: Users, boards: Boards, ms: Memberships, columns: Columns, tasks: Tasks,
                       tags: Tags, taskTags: TaskTags, assignees: Assignees, invitations: Invitations,
                       id: TagId, tag: Tag)
    requires Consistent(users, boards, ms, columns, tasks, tags, taskTags, assignees, invitations)
    requires tag.boardId in boards
    ensures Consistent(users, boards, ms, columns, tasks, tags[id := tag], taskTags, assignees, invitations)
  {
  }

  /** A task-tag row between an existing task and an existing tag. */
  lemma AttachTagKeeps(users: Users, boards: Boards, ms: Memberships, columns: Columns, tasks: Tasks,
                       tags: Tags, taskTags: TaskTags, assignees: Assignees, invitations: Invitations,
                       t: TaskId, g: TagId)
    requires Consistent(users, boards, ms, columns, tasks, tags, taskTags, assignees, invitations)
    requires t in tasks && g in tags
    ensures Consistent(users, boards, ms, columns, tasks, tags, taskTags + {(t, g)}, assignees, invitations)
  {
  }

  /** An assignee row between an existing task and an existing user. */
  lemma AssignKeeps(users: Users, boards: Boards, ms: Memberships, columns: Columns, tasks: Tasks,
                    tags: Tags, taskTags: TaskTags, assignees: Assignees, invitations: Invitations,
                    t: TaskId, u: UserId)
    requires Consistent(users, boards, ms, columns, tasks, tags, taskTags, assignees, invitations)
    requires t in tasks && u in users
    ensures Consistent(users, boards, ms, columns, tasks, tags, taskTags, assignees + {(t, u)}, invitations)
  {
  }

  /** Removing join rows never breaks a reference. */
  lemma DropRowsKeeps(users: Users, boards: Boards, ms: Memberships, columns: Columns, tasks: Tasks,
                      tags: Tags, taskTags: TaskTags, assignees: Assignees, invitations: Invitations,
                      taskTags': TaskTags, assignees': Assignees)
    requires Consistent(users, boards, ms, columns, tasks, tags, taskTags, assignees, invitations)
    requires taskTags' <= taskTags && assignees' <= assignees
    ensures Consistent(users, boards, ms, columns, tasks, tags, taskTags', assignees', invitations)
  {
  }

  /** An invitation to an existing board. */
  lemma CreateInviteKeeps(users: Users, boards: Boards, ms: Memberships, columns: Columns, tasks: Tasks,
                          tags: Tags, taskTags: TaskTags, assignees: Assignees, invitations: Invitations,
                          token: Token, inv: Invitation)
    requires Consistent(users, boards, ms, columns, tasks, tags, taskTags, assignees, invitations)
    requires inv.boardId in boards
    ensures Consistent(users, boards, ms, columns, tasks, tags, taskTags, assignees, invitations[token := inv])
  {
  }

  /** Accepting an invitation: the joiner's row (MEMBER unless they already had one) and the spent token. */
  lemma AcceptInviteKeeps(users: Users, boards: Boards, ms: Memberships, columns: Columns, tasks: Tasks,
                          tags: Tags, taskTags: TaskTags, assignees: Assignees, invitations: Invitations,
                          token: Token, u: UserId, ms': Memberships, invitations': Invitations)
    requires Consistent(users, boards, ms, columns, tasks, tags, taskTags, assignees, invitations)
    requires token in invitations && u in users
    requires ms' == if (invitations[token].boardId, u) in ms then ms else ms[(invitations[token].boardId, u) := Member]
    requires invitations' == invitations[token := invitations[token].(accepted := true)]
    ensures Consistent(users, boards, ms', columns, tasks, tags, taskTags, assignees, invitations')
  {
  }
}
