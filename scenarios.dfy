/**
 * Client scenarios: sequences of requests a board client makes, with what
 * the service's contracts promise about their combined effect.
 */
module Scenarios {
  import opened Wrappers
  import opened Schema
  import opened Service
  import Ordering
  import Routes

  /**
   * Accepting one token twice, by any two users at any two times in order:
   * whatever the first call does, the second is refused and changes nothing.
   */
  method AcceptTwice(s: Store, u1: UserId, u2: UserId, token: Token, now: int, later: int)
    returns (first: Status, second: Status)
    requires s.Valid() && u1 in s.users && u2 in s.users && now <= later
    modifies s`memberships, s`invitations, s`notifications
    ensures s.Valid()
    ensures second == BadRequest
  {
    var board: Option<BoardId>;
    first, board := s.AcceptInvite(u1, token, now);
    second, board := s.AcceptInvite(u2, token, later);
  }

  /**
   * From index `from` on, the log holds exactly the join notices: the joiner's
   * "Joined the board" and, when the owner is someone else, the owner's
   * "Member joined".
   */
  predicate JoinNotices(ns: seq<Notification>, from: int, joiner: UserId, owner: UserId, boardId: BoardId)
  {
    && 0 <= from && |ns| == from + (if owner != joiner then 2 else 1)
    && ns[from] == Notification(joiner, JoinedTitle, boardId, false)
    && (owner != joiner ==> ns[from + 1] == Notification(owner, MemberJoinedTitle, boardId, false))
  }

  /** Appending the join notices to a log puts them right after it. */
  lemma JoinNoticesAppended(before: seq<Notification>, after: seq<Notification>, joiner: UserId, owner: UserId, boardId: BoardId)
    requires after == before + [Notification(joiner, JoinedTitle, boardId, false)]
      + (if owner != joiner then [Notification(owner, MemberJoinedTitle, boardId, false)] else [])
    ensures JoinNotices(after, |before|, joiner, owner, boardId)
  {
  }

  /**
   * A member invites an e-mail and someone holding the token accepts before
   * the week is out: they become a member, whatever e-mail they registered
   * with, since accepting does not compare the invited e-mail. A newcomer
   * holds a MEMBER row; the joiner is told they joined, and the owner is
   * told too when the owner is someone else.
   */
  method InviteAndJoin(s: Store, inviter: UserId, boardId: BoardId, token: Token, email: Option<string>,
                       joiner: UserId, now: int, later: int)
    returns (invited: Status, joined: Status)
    requires s.Valid() && token !in s.invitations && joiner in s.users
    requires s.IsBoardMember(boardId, inviter)
    requires now <= later <= now + InviteLifetime
    modifies s`memberships, s`invitations, s`notifications
    ensures s.Valid()
    ensures invited == Ok && joined == Ok
    ensures s.IsBoardMember(boardId, joiner)
    ensures (boardId, joiner) !in old(s.memberships) ==> s.memberships == old(s.memberships)[(boardId, joiner) := Member]
    ensures (boardId, joiner) in old(s.memberships) ==> s.memberships == old(s.memberships)
    ensures exists from :: |old(s.notifications)| <= from && JoinNotices(s.notifications, from, joiner, s.boards[boardId].ownerId, boardId)
  {
    invited := s.CreateInvite(inviter, boardId, token, email, now);
    assert s.invitations[token] == Invitation(boardId, InviteEmail(email), false, now + InviteLifetime);
    assert s.Acceptable(token, later);
    var owner := s.boards[boardId].ownerId;
    var mid := s.notifications;
    var board: Option<BoardId>;
    joined, board := s.AcceptInvite(joiner, token, later);
    JoinNoticesAppended(mid, s.notifications, joiner, owner, boardId);
  }

  /**
   * Assigning the same user to the same task twice: both calls answer alike
   * and the task keeps a single assignee row for them.
   */
  method AssignTwice(s: Store, user: UserId, taskId: TaskId, target: UserId) returns (first: Status, second: Status)
    requires s.Valid()
    modifies s`taskAssignees, s`notifications
    ensures s.Valid()
    ensures first == second
    ensures first == Ok ==> s.taskAssignees == old(s.taskAssignees) + {(taskId, target)}
    ensures first != Ok ==> s.taskAssignees == old(s.taskAssignees)
  {
    first := s.AssignUser(user, taskId, target);
    second := s.AssignUser(user, taskId, target);
  }

  /** Adding a row that was not there and removing it again gives back the rows. */
  lemma AddThenRemove<T>(rows: set<T>, x: T)
    requires x !in rows
    ensures rows + {x} - {x} == rows
  {
  }

  /**
   * Attaching an existing tag the task does not carry yet and detaching it
   * again: both calls succeed and the task-tag rows end as they began.
   */
  method AttachThenDetach(s: Store, user: UserId, taskId: TaskId, g: TagId) returns (attached: Status, detached: Status)
    requires s.Valid() && g in s.tags && (taskId, g) !in s.taskTags
    requires s.MayEditTask(taskId, user)
    modifies s`taskTags
    ensures s.Valid()
    ensures attached == Ok && detached == Ok
    ensures s.taskTags == old(s.taskTags)
  {
    var rows := s.taskTags;
    attached := s.AttachTag(user, taskId, g);
    assert s.taskTags == rows + {(taskId, g)};
    detached := s.DetachTag(user, taskId, g);
    AddThenRemove(rows, (taskId, g));
  }

  /**
   * A member creates a tag, attaches it to a task and detaches it again:
   * every call succeeds, and the task-tag rows end as they began.
   */
  method TagRoundTrip(s: Store, user: UserId, boardId: BoardId, g: TagId, name: string, taskId: TaskId)
    returns (created: Status, attached: Status, detached: Status)
    requires s.Valid() && g !in s.tags
    requires s.IsBoardMember(boardId, user) && s.MayEditTask(taskId, user)
    modifies s`tags, s`taskTags
    ensures s.Valid()
    ensures created == Ok && attached == Ok && detached == Ok
    ensures s.tags == old(s.tags)[g := Tag(boardId, name, DefaultTagColor)]
    ensures s.taskTags == old(s.taskTags)
  {
    assert (taskId, g) !in s.taskTags;
    created := s.CreateTag(user, boardId, g, name, None);
    attached, detached := AttachThenDetach(s, user, taskId, g);
  }

  /** A batch moving two different tasks into `c` at positions 0 and 1, on the task table alone. */
  lemma MovePair(ts: map<TaskId, Task>, c: ColumnId, t1: TaskId, t2: TaskId)
    requires t1 in ts && t2 in ts && t1 != t2
    ensures var moved := Ordering.MoveTasks(ts, c, [Item(t1, 0), Item(t2, 1)]);
      && moved.Keys == ts.Keys
      && moved[t1] == ts[t1].(columnId := c, position := 0)
      && moved[t2] == ts[t2].(columnId := c, position := 1)
      && forall t :: t in ts && t != t1 && t != t2 ==> moved[t] == ts[t]
  {
    var items := [Item(t1, 0), Item(t2, 1)];
    assert Ordering.DistinctIds(items) && Ordering.AllKnown(ts, items);
    Ordering.MoveTasksSpec(ts, c, items);
    Ordering.MoveTasksDistinct(ts, c, items);
    assert items[0] == Item(t1, 0) && items[1] == Item(t2, 1);
    forall t | t in ts && t != t1 && t != t2 ensures Ordering.MoveTasks(ts, c, items)[t] == ts[t] {
      assert forall k :: 0 <= k < |items| ==> items[k].id != t;
    }
  }

  /**
   * A drag and drop that moves two different tasks into column `c` at
   * positions 0 and 1: both tasks then report column `c` and those positions.
   */
  method MoveTwoTasks(s: Store, user: UserId, c: ColumnId, t1: TaskId, t2: TaskId) returns (status: Status)
    requires s.Valid() && t1 in s.tasks && t2 in s.tasks && t1 != t2
    requires s.MayEditColumn(c, user)
    modifies s`tasks
    ensures s.Valid()
    ensures status == Ok
    ensures s.tasks.Keys == old(s.tasks).Keys
    ensures s.tasks[t1] == old(s.tasks[t1]).(columnId := c, position := 0)
    ensures s.tasks[t2] == old(s.tasks[t2]).(columnId := c, position := 1)
    ensures forall t :: t in old(s.tasks) && t != t1 && t != t2 ==> s.tasks[t] == old(s.tasks[t])
  {
    MovePair(s.tasks, c, t1, t2);
    assert Ordering.AllKnown(s.tasks, [Item(t1, 0), Item(t2, 1)]);
    status := s.ReorderTasks(user, c, [Item(t1, 0), Item(t2, 1)]);
  }

  /**
   * The board client's reorder request, `PATCH /tasks/reorder` with a
   * column and a batch, as the service registers its routes: it reaches the
   * task rename handler with task id "reorder" and no title, so no task
   * moves, and unless some task has the id "reorder" the answer is 403.
   */
  method ClientReorderAsRegistered(s: Store, user: UserId) returns (status: Status)
    requires s.Valid()
    modifies s`tasks
    ensures Routes.Dispatch(Routes.Registered, Routes.Patch, ["tasks", "reorder"]) == Some(Routes.RenameTask)
    ensures s.tasks == old(s.tasks)
    ensures "reorder" !in old(s.tasks) ==> status == Forbidden
  {
    Routes.ClientTaskReorderRenames();
    status := s.RenameTask(user, "reorder", None);
  }
}
