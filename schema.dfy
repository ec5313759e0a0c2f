/**
 * Rows of the board service's tables and the outcomes of its handlers.
 * Identifiers are the storage layer's string keys.
 */
module Schema {
  import opened Wrappers

  type UserId = string
  type BoardId = string
  type ColumnId = string
  type TaskId = string
  type TagId = string
  type Token = string

  /** A notification's id is its place in the append-only notification log. */
  type NotificationId = int

  datatype Role = Owner | Member

  /** A registered user; the credential hash is not part of this model. */
  datatype User = User(email: string)

  datatype Board = Board(title: string, ownerId: UserId)

  datatype Column = Column(boardId: BoardId, title: string, position: int)

  datatype Task = Task(columnId: ColumnId, title: string, position: int)

  datatype Tag = Tag(boardId: BoardId, name: string, color: string)

  datatype Invitation = Invitation(boardId: BoardId, email: Option<string>, accepted: bool, expiresAt: int)

  /** The payload of every notification the core sends carries the board it is about. */
  datatype Notification = Notification(userId: UserId, title: string, boardId: BoardId, read: bool)

  /** One entry of a reorder batch. */
  datatype Item = Item(id: string, position: int)

  /**
   * What a handler answers. `Failed` stands for a storage exception the
   * handler does not catch (a missing row for an update or delete, a foreign
   * key that points nowhere): the request ends without a defined response.
   */
  datatype Status = Ok | BadRequest | Forbidden | NotFound | Failed

  /** An invitation lives for 7 days, counted in milliseconds. */
  const InviteLifetime: int := 1000 * 60 * 60 * 24 * 7

  const DefaultTagColor: string := "#3b82f6"

  const AssignedTitle: string := "Assigned to a task"
  const InvitedTitle: string := "Board invitation"
  const JoinedTitle: string := "Joined the board"
  const MemberJoinedTitle: string := "Member joined"

  /** How many notifications one listing returns at most. */
  const PageSize: nat := 50
}
