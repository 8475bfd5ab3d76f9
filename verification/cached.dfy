/** `OSUsers` and its `Users` operations (src/lib.rs:187-197, 247-357):
    the caching lookup layer, as written. */
module Cached {
  import opened Options
  import opened MachineInts
  import opened Records
  import opened HostDb

  /** The state of one `OSUsers` value. Each map holds positive results
      (`Some`) and negative ones (`None`); a missing key was never asked. */
  datatype Cache = Cache(
    users: map<Int32, Option<User>>,
    usersBack: map<string, Option<Int32>>,
    groups: map<UInt32, Option<Group>>,
    groupsBack: map<string, Option<UInt32>>,
    uid: Option<Int32>)

  /** What one operation does: it returns a value, leaving the cache
      `cache` and having consulted the host database or not (`dbCalled`);
      or it panics by indexing a map at a missing key, which ends the
      program and leaves no cache behind. */
  datatype Step<+R> = Returned(cache: Cache, result: R, dbCalled: bool) | Panicked
  {
    /** The same step with its returned value transformed. */
    function Map<S>(f: R -> S): Step<S>
    {
      match this
      case Returned(c, r, called) => Returned(c, f(r), called)
      case Panicked => Panicked
    }
  }

  /** `empty_cache`: nothing asked yet. */
  function EmptyCache(): (c: Cache)
    ensures c.users == map[] && c.usersBack == map[]
    ensures c.groups == map[] && c.groupsBack == map[]
    ensures c.uid.None?
  {
    Cache(map[], map[], map[], map[], None)
  }

  /** `get_user_by_uid`. A hit returns the stored entry. A miss asks the
      host, stores the answer under `uid` and, when a user is found, links
      the user's name to the user's id. */
  function UserByUid(c: Cache, db: Db, uid: Int32): (s: Step<Option<User>>)
    ensures s.Returned?
    ensures s.dbCalled <==> uid !in c.users
    ensures uid in c.users ==> s.cache == c && s.result == c.users[uid]
    ensures uid !in c.users ==> s.result == PasswdToUser(db.pwuid(uid))
    ensures uid in s.cache.users && s.cache.users[uid] == s.result
    ensures s.cache == c.(users := s.cache.users, usersBack := s.cache.usersBack)
  {
    if uid in c.users then
      Returned(c, c.users[uid], false)
    else
      match PasswdToUser(db.pwuid(uid))
      case Some(user) =>
        Returned(c.(users := c.users[uid := Some(user)],
                    usersBack := c.usersBack[user.name := Some(user.uid)]),
                 Some(user), true)
      case None =>
        Returned(c.(users := c.users[uid := None]), None, true)
  }

  /** `get_user_by_name`. A hit holding an id returns `users[id]`, which
      panics when that id is not a key; a hit holding the negative marker
      returns `None`. A miss asks the host and stores the answer under the
      name and, when a user is found, the user under the user's id. */
  function UserByName(c: Cache, db: Db, name: string): (s: Step<Option<User>>)
    ensures s.Panicked? <==>
              name in c.usersBack && c.usersBack[name].Some? && c.usersBack[name].value !in c.users
    ensures s.Returned? ==> (s.dbCalled <==> name !in c.usersBack)
    ensures s.Returned? && name in c.usersBack ==> s.cache == c
    ensures s.Returned? && name !in c.usersBack ==> s.result == PasswdToUser(db.pwnam(name))
    ensures s.Returned? ==> name in s.cache.usersBack
    ensures s.Returned? ==> s.cache == c.(users := s.cache.users, usersBack := s.cache.usersBack)
  {
    if name in c.usersBack then
      match c.usersBack[name]
      case Some(id) => if id in c.users then Returned(c, c.users[id], false) else Panicked
      case None => Returned(c, None, false)
    else
      match PasswdToUser(db.pwnam(name))
      case Some(user) =>
        Returned(c.(usersBack := c.usersBack[name := Some(user.uid)],
                    users := c.users[user.uid := Some(user)]),
                 Some(user), true)
      case None =>
        Returned(c.(usersBack := c.usersBack[name := None]), None, true)
  }

  /** `get_group_by_gid`. The lookup runs on a copy of `groups`, so the
      answer is never stored under `gid`: only the name link of a found
      group survives. */
  function GroupByGid(c: Cache, db: Db, gid: UInt32): (s: Step<Option<Group>>)
    ensures s.Returned?
    ensures s.dbCalled <==> gid !in c.groups
    ensures gid in c.groups ==> s.cache == c && s.result == c.groups[gid]
    ensures gid !in c.groups ==> s.result == StructToGroup(db.grgid(gid))
    ensures s.cache == c.(groupsBack := s.cache.groupsBack)
  {
    if gid in c.groups then
      Returned(c, c.groups[gid], false)
    else
      match StructToGroup(db.grgid(gid))
      case Some(group) =>
        Returned(c.(groupsBack := c.groupsBack[group.name := Some(group.gid)]), Some(group), true)
      case None =>
        Returned(c, None, true)
  }

  /** `get_group_by_name`. The lookup runs on a copy of `groups_back`, so
      the answer is never stored under the name: only the group of a found
      name survives, under its id. A hit holding an id indexes `groups`,
      which panics when that id is not a key. */
  function GroupByName(c: Cache, db: Db, name: string): (s: Step<Option<Group>>)
    ensures s.Panicked? <==>
              name in c.groupsBack && c.groupsBack[name].Some? && c.groupsBack[name].value !in c.groups
    ensures s.Returned? ==> (s.dbCalled <==> name !in c.groupsBack)
    ensures s.Returned? && name in c.groupsBack ==> s.cache == c
    ensures s.Returned? && name !in c.groupsBack ==> s.result == StructToGroup(db.grnam(name))
    ensures s.Returned? ==> s.cache == c.(groups := s.cache.groups)
  {
    if name in c.groupsBack then
      match c.groupsBack[name]
      case Some(id) => if id in c.groups then Returned(c, c.groups[id], false) else Panicked
      case None => Returned(c, None, false)
    else
      match StructToGroup(db.grnam(name))
      case Some(group) =>
        Returned(c.(groups := c.groups[group.gid := Some(group)]), Some(group), true)
      case None =>
        Returned(c, None, true)
  }

  /** `get_current_uid`: asks the host once per cache, then answers from
      the cache. */
  function CurrentUid(c: Cache, db: Db): (s: Step<Int32>)
    ensures s.Returned? && s.cache.uid == Some(s.result)
    ensures s.dbCalled <==> c.uid.None?
    ensures c.uid.Some? ==> s.cache == c && s.result == c.uid.value
    ensures c.uid.None? ==> s.result == db.getuid
    ensures s.cache == c.(uid := s.cache.uid)
  {
    match c.uid
    case Some(uid) => Returned(c, uid, false)
    case None => Returned(c.(uid := Some(db.getuid)), db.getuid, true)
  }
}
