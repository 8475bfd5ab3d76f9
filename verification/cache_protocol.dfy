/** Hit and miss behaviour of each cached operation, as written. */
module CacheProtocol {
  import opened Options
  import opened MachineInts
  import opened Records
  import opened HostDb
  import opened Cached

  /** A `get_user_by_uid` hit, positive or negative, returns the stored
      entry without asking the host and changes nothing. */
  lemma UserByUidHit(c: Cache, db: Db, uid: Int32)
    requires uid in c.users
    ensures UserByUid(c, db, uid) == Returned(c, c.users[uid], false)
  {
  }

  /** A `get_user_by_uid` miss: a found user is stored under the id and its
      name is linked to its own id; a missing user is stored as `None` under
      the id and nothing else changes. */
  lemma UserByUidMiss(c: Cache, db: Db, uid: Int32)
    requires uid !in c.users
    ensures var s := UserByUid(c, db, uid);
      match db.pwuid(uid)
      case Some(pw) =>
        && s.result == Some(User(pw.pwUid, pw.pwName, AsU32(pw.pwGid)))
        && s.cache == c.(users := c.users[uid := s.result],
                         usersBack := c.usersBack[pw.pwName := Some(pw.pwUid)])
      case None =>
        s.result == None && s.cache == c.(users := c.users[uid := None])
  {
  }

  /** Whatever the first call did, repeating it at once returns the same
      value from the cache without asking the host. */
  lemma UserByUidRepeat(c: Cache, db: Db, uid: Int32)
    ensures var s := UserByUid(c, db, uid);
      UserByUid(s.cache, db, uid) == Returned(s.cache, s.result, false)
  {
  }

  /** A `get_user_by_name` hit holding an id returns the entry stored under
      that id; one holding the negative marker returns `None`. Neither asks
      the host nor changes the cache. */
  lemma UserByNameHit(c: Cache, db: Db, name: string)
    requires name in c.usersBack
    ensures c.usersBack[name].None? ==> UserByName(c, db, name) == Returned(c, None, false)
    ensures c.usersBack[name].Some? && c.usersBack[name].value in c.users ==>
              UserByName(c, db, name) == Returned(c, c.users[c.usersBack[name].value], false)
  {
  }

  /** A `get_user_by_name` miss: a found user links the name to the user's
      id and is stored under that id; a missing one stores only the
      negative marker under the name. */
  lemma UserByNameMiss(c: Cache, db: Db, name: string)
    requires name !in c.usersBack
    ensures var s := UserByName(c, db, name);
      match db.pwnam(name)
      case Some(pw) =>
        && s == Returned(s.cache, Some(User(pw.pwUid, pw.pwName, AsU32(pw.pwGid))), true)
        && s.cache == c.(usersBack := c.usersBack[name := Some(pw.pwUid)],
                         users := c.users[pw.pwUid := s.result])
      case None =>
        s == Returned(c.(usersBack := c.usersBack[name := None]), None, true)
  {
  }

  /** A `get_user_by_name` that returned, repeated at once, returns the same
      value from the cache without asking the host. */
  lemma UserByNameRepeat(c: Cache, db: Db, name: string)
    ensures var s := UserByName(c, db, name);
      s.Returned? ==> UserByName(s.cache, db, name) == Returned(s.cache, s.result, false)
  {
  }

  /** A user found by id can then be found by its name from the cache
      alone, provided the host's record carries the id it was found by. */
  lemma UidThenNameIsHit(c: Cache, db: Db, uid: Int32)
    requires UidConsistent(db)
    requires uid !in c.users
    ensures var s := UserByUid(c, db, uid);
      s.result.Some? ==> UserByName(s.cache, db, s.result.value.name) == Returned(s.cache, s.result, false)
  {
  }

  /** A user found by name can then be found by its id from the cache
      alone. */
  lemma NameThenUidIsHit(c: Cache, db: Db, name: string)
    requires name !in c.usersBack
    ensures var s := UserByName(c, db, name);
      s.result.Some? ==> UserByUid(s.cache, db, s.result.value.uid) == Returned(s.cache, s.result, false)
  {
  }

  /** A negative answer by id is kept for that id only: every other
      returning lookup answers as it would have before it. */
  lemma NegativeUidIsolated(c: Cache, db: Db, uid: Int32, other: Int32, name: string)
    requires uid !in c.users && db.pwuid(uid).None?
    requires other != uid
    ensures var s := UserByUid(c, db, uid);
      && UserByUid(s.cache, db, other).result == UserByUid(c, db, other).result
      && (UserByName(c, db, name).Returned? ==>
            UserByName(s.cache, db, name).Returned? &&
            UserByName(s.cache, db, name).result == UserByName(c, db, name).result)
  {
  }

  /** A negative answer by name is kept for that name only: every other
      lookup by id or name answers as it would have before it. */
  lemma NegativeNameIsolated(c: Cache, db: Db, name: string, uid: Int32, other: string)
    requires name !in c.usersBack && db.pwnam(name).None?
    requires other != name
    ensures var s := UserByName(c, db, name);
      && UserByUid(s.cache, db, uid).result == UserByUid(c, db, uid).result
      && UserByName(s.cache, db, other).Panicked? == UserByName(c, db, other).Panicked?
      && (UserByName(c, db, other).Returned? ==>
            UserByName(s.cache, db, other).result == UserByName(c, db, other).result)
  {
  }

  /** A `get_group_by_gid` hit returns the stored entry without asking the
      host and changes nothing. */
  lemma GroupByGidHit(c: Cache, db: Db, gid: UInt32)
    requires gid in c.groups
    ensures GroupByGid(c, db, gid) == Returned(c, c.groups[gid], false)
  {
  }

  /** A `get_group_by_gid` miss: a found group only links its name to its
      own id in `groups_back`; a missing group changes nothing. */
  lemma GroupByGidMiss(c: Cache, db: Db, gid: UInt32)
    requires gid !in c.groups
    ensures var s := GroupByGid(c, db, gid);
      match db.grgid(gid)
      case Some(gr) =>
        s == Returned(c.(groupsBack := c.groupsBack[gr.grName := Some(gr.grGid)]),
                      StructToGroup(Some(gr)), true)
      case None =>
        s == Returned(c, None, true)
  {
  }

  /** A `get_group_by_name` hit holding an id that is a key returns the
      entry stored under that id; one holding the negative marker returns
      `None`. Neither asks the host nor changes the cache. */
  lemma GroupByNameHit(c: Cache, db: Db, name: string)
    requires name in c.groupsBack
    ensures c.groupsBack[name].None? ==> GroupByName(c, db, name) == Returned(c, None, false)
    ensures c.groupsBack[name].Some? && c.groupsBack[name].value in c.groups ==>
              GroupByName(c, db, name) == Returned(c, c.groups[c.groupsBack[name].value], false)
  {
  }

  /** A `get_group_by_name` miss: a found group is stored under its own id
      in `groups`; a missing group changes nothing. */
  lemma GroupByNameMiss(c: Cache, db: Db, name: string)
    requires name !in c.groupsBack
    ensures var s := GroupByName(c, db, name);
      match db.grnam(name)
      case Some(gr) =>
        s == Returned(c.(groups := c.groups[gr.grGid := StructToGroup(Some(gr))]),
                      StructToGroup(Some(gr)), true)
      case None =>
        s == Returned(c, None, true)
  {
  }

  /** `get_group_by_gid` never stores the answer under the id it was asked
      for, positive or negative: repeating a miss asks the host again. That
      the second answer equals the first is a property of the fixed oracle,
      not of the crate, which would see any change the host made between
      the two calls. */
  lemma GroupByGidMissRepeats(c: Cache, db: Db, gid: UInt32)
    requires gid !in c.groups
    ensures var s := GroupByGid(c, db, gid);
      GroupByGid(s.cache, db, gid) == Returned(s.cache, s.result, true)
  {
  }

  /** `get_group_by_name` never stores the answer under the name it was
      asked for, positive or negative: repeating a miss asks the host again.
      That the second answer equals the first is a property of the fixed
      oracle, not of the crate, which would see any change the host made
      between the two calls. */
  lemma GroupByNameMissRepeats(c: Cache, db: Db, name: string)
    requires name !in c.groupsBack
    ensures var s := GroupByName(c, db, name);
      GroupByName(s.cache, db, name) == Returned(s.cache, s.result, true)
  {
  }

  /** A group found by id, looked up by its name next, panics unless an
      earlier lookup by name had stored that group under its id. */
  lemma GidThenNamePanics(c: Cache, db: Db, gid: UInt32)
    requires GidConsistent(db)
    requires gid !in c.groups
    ensures var s := GroupByGid(c, db, gid);
      s.result.Some? ==> GroupByName(s.cache, db, s.result.value.name).Panicked?
  {
  }

  /** `get_current_uid` on a cache that has the uid answers it without
      asking; otherwise it asks once. Either way a repeat is a pure hit. */
  lemma CurrentUidRepeat(c: Cache, db: Db)
    ensures var s := CurrentUid(c, db);
      CurrentUid(s.cache, db) == Returned(s.cache, s.result, false)
  {
  }
}
