/** A program's use of one `OSUsers` value over time: a sequence of
    queries, each run on the cache the previous one left. */
module Sessions {
  import opened Options
  import opened MachineInts
  import opened Records
  import opened HostDb
  import opened Cached
  import IntendedGroups
  import Stateless

  /** One call of a `Users` method. */
  datatype Query =
    | ByUid(uid: Int32)
    | ByName(name: string)
    | ByGid(gid: UInt32)
    | ByGroupName(groupName: string)
    | WhoAmI

  /** What that call returns. */
  datatype Answer =
    | UserAnswer(user: Option<User>)
    | GroupAnswer(group: Option<Group>)
    | UidAnswer(currentUid: Int32)

  /** Which group lookups a session uses: the crate's own group lookups, or the
      ones that store their answers in the cache. */
  datatype GroupLookups = AsWritten | Intended

  /** One query against cache `c`. */
  function Perform(v: GroupLookups, c: Cache, db: Db, q: Query): Step<Answer>
  {
    match q
    case ByUid(uid) => UserByUid(c, db, uid).Map(r => UserAnswer(r))
    case ByName(name) => UserByName(c, db, name).Map(r => UserAnswer(r))
    case ByGid(gid) =>
      (if v.AsWritten? then Cached.GroupByGid(c, db, gid)
       else IntendedGroups.GroupByGid(c, db, gid)).Map(r => GroupAnswer(r))
    case ByGroupName(name) =>
      (if v.AsWritten? then Cached.GroupByName(c, db, name)
       else IntendedGroups.GroupByName(c, db, name)).Map(r => GroupAnswer(r))
    case WhoAmI => CurrentUid(c, db).Map(r => UidAnswer(r))
  }

  /** The queries in order from cache `c`: the final cache, or `None` if
      one of them panicked. */
  function Replay(v: GroupLookups, c: Cache, db: Db, qs: seq<Query>): Option<Cache>
    decreases |qs|
  {
    if qs == [] then Some(c)
    else
      var s := Perform(v, c, db, qs[0]);
      if s.Panicked? then None else Replay(v, s.cache, db, qs[1..])
  }

  /** The answer of the free function for the query. */
  function Fresh(db: Db, q: Query): Answer
  {
    match q
    case ByUid(uid) => UserAnswer(Stateless.UserByUid(db, uid))
    case ByName(name) => UserAnswer(Stateless.UserByName(db, name))
    case ByGid(gid) => GroupAnswer(Stateless.GroupByGid(db, gid))
    case ByGroupName(name) => GroupAnswer(Stateless.GroupByName(db, name))
    case WhoAmI => UidAnswer(Stateless.CurrentUid(db))
  }

  /** Every free function asks the host exactly once: its fresh cache
      never holds an answer, so nothing is shared between calls. */
  lemma FreshCallAlwaysQueries(v: GroupLookups, db: Db, q: Query)
    ensures Perform(v, EmptyCache(), db, q).Returned?
    ensures Perform(v, EmptyCache(), db, q).dbCalled
    ensures Perform(v, EmptyCache(), db, q).result == Fresh(db, q)
  {
  }
}
