/** The user service: users are looked up by id in the remote API when online,
    mirrored into the `users` store, and read from that store offline or when the
    remote call fails. `online` is the connectivity flag at the time of the call;
    each `Reply` is what the remote call delivered. */
module Users {
  import opened Common
  import opened Records
  import opened ObjectStores

  class UserService {
    /** The `users` store of the browser database the entity services use. */
    const users: ObjectStore<User>

    ghost predicate Valid()
      reads this, users
    {
      users.Valid() && users.keyOf == UserKey
    }

    constructor (users: ObjectStore<User>)
      requires users.Valid() && users.keyOf == UserKey
      ensures Valid() && this.users == users
    {
      this.users := users;
    }

    /** `fetchAndStoreAllUsers`: bulk-puts the fetched list and returns it unchanged. */
    method FetchAndStoreAllUsers(reply: Reply<seq<User>>) returns (r: Result<seq<User>>)
      requires Valid()
      modifies users
      ensures Valid()
      ensures reply.Answered? ==>
                r == Ok(reply.value) && users.records == PutEach(old(users.records), reply.value, UserKey)
      ensures reply.Unavailable? ==> r == Err(RemoteUnavailable) && users.records == old(users.records)
    {
      if reply.Unavailable? {
        return Err(RemoteUnavailable);
      }
      users.PutAll(reply.value);
      r := Ok(reply.value);
    }

    /** `getUserByIdOffline`: the stored user, or no value when none has that id
        (a missing key is not an error). */
    method GetUserByIdOffline(userId: int) returns (r: Option<User>)
      requires Valid()
      ensures r.Some? <==> userId in users.records
      ensures r.Some? ==> r.value == users.records[userId] && r.value.id == userId
    {
      r := users.Get(userId);
    }

    /** `getUserById`: online, the remote user is stored and returned, so a later
        offline lookup of its id finds it; offline or after a remote failure, the
        stored user, if any. */
    method GetUserById(online: bool, userId: int, reply: Reply<User>) returns (r: Option<User>)
      requires Valid()
      modifies users
      ensures Valid()
      ensures online && reply.Answered? ==>
                r == Some(reply.value) && users.records == old(users.records)[reply.value.id := reply.value]
      ensures online && reply.Answered? ==> reply.value.id in users.records && users.records[reply.value.id] == reply.value
      ensures !(online && reply.Answered?) ==> users.records == old(users.records)
      ensures !(online && reply.Answered?) ==>
                (r.Some? <==> userId in old(users.records)) && (r.Some? ==> r.value == old(users.records)[userId])
    {
      if online && reply.Answered? {
        users.Put(reply.value);
        return Some(reply.value);
      }
      r := GetUserByIdOffline(userId);
    }
  }
}
