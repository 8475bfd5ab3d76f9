/** The free functions (src/lib.rs:359-382): each runs one operation on a
    fresh `empty_cache()` and drops the cache. */
module Stateless {
  import opened Options
  import opened MachineInts
  import opened Records
  import opened HostDb
  import Cached

  /** `get_user_by_uid`: the host's answer for the id, converted. */
  function UserByUid(db: Db, uid: Int32): (r: Option<User>)
    ensures r == PasswdToUser(db.pwuid(uid))
  {
    Cached.UserByUid(Cached.EmptyCache(), db, uid).result
  }

  /** `get_user_by_name`: the host's answer for the name, converted. */
  function UserByName(db: Db, name: string): (r: Option<User>)
    ensures r == PasswdToUser(db.pwnam(name))
  {
    Cached.UserByName(Cached.EmptyCache(), db, name).result
  }

  /** `get_group_by_gid`: the host's answer for the id, converted. */
  function GroupByGid(db: Db, gid: UInt32): (r: Option<Group>)
    ensures r == StructToGroup(db.grgid(gid))
  {
    Cached.GroupByGid(Cached.EmptyCache(), db, gid).result
  }

  /** `get_group_by_name`: the host's answer for the name, converted; on a
      fresh cache the panicking index is never reached. */
  function GroupByName(db: Db, name: string): (r: Option<Group>)
    ensures r == StructToGroup(db.grnam(name))
  {
    Cached.GroupByName(Cached.EmptyCache(), db, name).result
  }

  /** `get_current_uid`: the host's answer. */
  function CurrentUid(db: Db): (r: Int32)
    ensures r == db.getuid
  {
    Cached.CurrentUid(Cached.EmptyCache(), db).result
  }
}
