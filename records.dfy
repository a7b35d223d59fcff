/** The entities the engine stores, their synchronisation metadata, and the
    operations of the pending-operations queue. Timestamps are milliseconds. */
module Records {
  import opened Common

  /** The `syncStatus` tag; `Untagged` is a record that carries none
      (records fetched from the remote API arrive without one). */
  datatype SyncStatus = Untagged | Synced | Pending | Failed | DeletePending | DeleteFailed

  /** A post. `updatedAt` is absent when the record carries no update time. */
  datatype Post = Post(id: int, userId: int, title: string, body: string,
                       updatedAt: Option<int>, syncStatus: SyncStatus)

  datatype Comment = Comment(id: int, postId: int, name: string, email: string,
                             body: string, syncStatus: SyncStatus)

  datatype User = User(id: int, name: string, username: string, email: string)

  /** The `keyPath: 'id'` of the posts, comments and users stores. */
  function PostKey(p: Post): int { p.id }
  function CommentKey(c: Comment): int { c.id }
  function UserKey(u: User): int { u.id }

  /** The `data` carried by a queued operation. */
  datatype Payload = PostData(post: Post) | CommentData(comment: Comment) | UserData(user: User)
  {
    function Id(): int
    {
      match this
      case PostData(p) => p.id
      case CommentData(c) => c.id
      case UserData(u) => u.id
    }
  }

  /** A queued operation: `opType` is the `type` field ('create', 'update', 'delete')
      and `entityType` names the entity ('post', 'comment', ...). */
  datatype SyncOperation = SyncOperation(operation: string, opType: string, entityType: string,
                                         data: Payload, timestamp: int)

  /** A record of the auto-numbered `syncQueue` store: one operation, or a whole list
      of records stored as a single value (what a put of an array produces there). */
  datatype QueueRecord = Queued(op: SyncOperation) | QueuedList(items: seq<QueueRecord>)
}
