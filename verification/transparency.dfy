/** Caching is invisible on a coherent host: every answer a cache gives is
    the answer the free function would give, and no stored entry ever
    changes. */
module Transparency {
  import opened Options
  import opened MachineInts
  import opened Records
  import opened HostDb
  import opened Cached
  import opened Sessions
  import opened CacheInvariants
  import IntendedGroups

  /** The id a host user answer carries, if any. */
  function UidOf(p: Option<PasswdRecord>): Option<Int32>
  {
    if p.Some? then Some(p.value.pwUid) else None
  }

  /** The id a host group answer carries, if any. */
  function GidOf(p: Option<GroupRecord>): Option<UInt32>
  {
    if p.Some? then Some(p.value.grGid) else None
  }

  /** Every entry of the cache is what the host says for its key. */
  ghost predicate Agrees(c: Cache, db: Db)
  {
    && (forall x :: x in c.users ==> c.users[x] == PasswdToUser(db.pwuid(x)))
    && (forall n :: n in c.usersBack ==> c.usersBack[n] == UidOf(db.pwnam(n)))
    && (forall x :: x in c.groups ==> c.groups[x] == StructToGroup(db.grgid(x)))
    && (forall n :: n in c.groupsBack ==> c.groupsBack[n] == GidOf(db.grnam(n)))
    && (c.uid.Some? ==> c.uid.value == db.getuid)
  }

  /** Each map of `c'` keeps every entry of the same map of `c`. */
  ghost predicate Extends(c: Cache, c': Cache)
  {
    && (forall x :: x in c.users ==> x in c'.users && c'.users[x] == c.users[x])
    && (forall n :: n in c.usersBack ==> n in c'.usersBack && c'.usersBack[n] == c.usersBack[n])
    && (forall x :: x in c.groups ==> x in c'.groups && c'.groups[x] == c.groups[x])
    && (forall n :: n in c.groupsBack ==> n in c'.groupsBack && c'.groupsBack[n] == c.groupsBack[n])
    && (c.uid.Some? ==> c'.uid == c.uid)
  }

  /** `get_user_by_uid` on an agreeing cache answers as the host does. */
  lemma UserByUidTransparent(c: Cache, db: Db, uid: Int32)
    requires Coherent(db) && Agrees(c, db)
    ensures var s := UserByUid(c, db, uid);
      s.result == PasswdToUser(db.pwuid(uid)) && Agrees(s.cache, db) && Extends(c, s.cache)
  {
  }

  /** `get_user_by_name` on an agreeing closed cache answers as the host
      does. */
  lemma UserByNameTransparent(c: Cache, db: Db, name: string)
    requires Coherent(db) && Agrees(c, db) && UsersBackClosed(c)
    ensures var s := UserByName(c, db, name);
      s.Returned? && s.result == PasswdToUser(db.pwnam(name)) && Agrees(s.cache, db) && Extends(c, s.cache)
   {
    if name in c.usersBack && c.usersBack[name].Some? {
      var id := c.usersBack[name].value;
      assert db.pwuid(id) == db.pwnam(name);
    }
  }

  /** `get_group_by_gid`, as written or as intended, on an agreeing cache
      answers as the host does. */
  lemma GroupByGidTransparent(v: GroupLookups, c: Cache, db: Db, gid: UInt32)
    requires Coherent(db) && Agrees(c, db)
    ensures var s := Perform(v, c, db, ByGid(gid));
      s.Returned? && s.result == GroupAnswer(StructToGroup(db.grgid(gid))) && Agrees(s.cache, db) && Extends(c, s.cache)
  {
  }

  /** `get_group_by_name` as written, on an agreeing cache, answers as the
      host does whenever it does not panic. */
  lemma WrittenGroupByNameTransparent(c: Cache, db: Db, name: string)
    requires Coherent(db) && Agrees(c, db)
    ensures var s := Cached.GroupByName(c, db, name);
      s.Returned? ==> s.result == StructToGroup(db.grnam(name)) && Agrees(s.cache, db) && Extends(c, s.cache)
  {
    if name in c.groupsBack && c.groupsBack[name].Some? {
      var id := c.groupsBack[name].value;
      assert db.grgid(id) == db.grnam(name);
    }
  }

  /** The corrected group lookup by name, on an agreeing cache, answers as
      the host does whenever it does not panic. */
  lemma IntendedGroupByNameTransparent(c: Cache, db: Db, name: string)
    requires Coherent(db) && Agrees(c, db)
    ensures var s := IntendedGroups.GroupByName(c, db, name);
      s.Returned? ==> s.result == StructToGroup(db.grnam(name)) && Agrees(s.cache, db) && Extends(c, s.cache)
  {
    if name in c.groupsBack && c.groupsBack[name].Some? {
      var id := c.groupsBack[name].value;
      assert db.grgid(id) == db.grnam(name);
    }
  }

  /** `get_group_by_name`, as written or as intended, on an agreeing cache
      answers as the host does whenever it does not panic. */
  lemma GroupByNameTransparent(v: GroupLookups, c: Cache, db: Db, name: string)
    requires Coherent(db) && Agrees(c, db)
    ensures var s := Perform(v, c, db, ByGroupName(name));
      s.Returned? ==> s.result == GroupAnswer(StructToGroup(db.grnam(name))) && Agrees(s.cache, db) && Extends(c, s.cache)
  {
    if v.AsWritten? {
      WrittenGroupByNameTransparent(c, db, name);
    } else {
      IntendedGroupByNameTransparent(c, db, name);
    }
  }

  /** On a coherent host, one query on an agreeing closed cache returns the
      free function's answer, keeps the cache agreeing and only adds to it.
      Only a by-name group lookup can panic. */
  lemma PerformIsTransparent(v: GroupLookups, c: Cache, db: Db, q: Query)
    requires Coherent(db)
    requires Agrees(c, db) && UsersBackClosed(c)
    ensures var s := Perform(v, c, db, q);
      s.Returned? ==> s.result == Fresh(db, q) && Agrees(s.cache, db) && Extends(c, s.cache)
    ensures Perform(v, c, db, q).Panicked? ==> q.ByGroupName?
  {
    match q
    case ByUid(uid) => UserByUidTransparent(c, db, uid);
    case ByName(name) => UserByNameTransparent(c, db, name);
    case ByGid(gid) => GroupByGidTransparent(v, c, db, gid);
    case ByGroupName(name) => GroupByNameTransparent(v, c, db, name);
    case WhoAmI =>
  }

  /** A whole session from an agreeing closed cache on a coherent host ends
      in an agreeing closed cache that extends the one it started from. */
  lemma {:induction false} ReplayKeepsAgreement(v: GroupLookups, c: Cache, db: Db, qs: seq<Query>)
    requires Coherent(db)
    requires Agrees(c, db) && UsersBackClosed(c)
    ensures Replay(v, c, db, qs).Some? ==>
              var c' := Replay(v, c, db, qs).value;
              Agrees(c', db) && UsersBackClosed(c') && Extends(c, c')
    decreases |qs|
  {
    if qs != [] {
      PerformIsTransparent(v, c, db, qs[0]);
      PerformKeepsUsersClosed(v, c, db, qs[0]);
      var s := Perform(v, c, db, qs[0]);
      if s.Returned? {
        ReplayKeepsAgreement(v, s.cache, db, qs[1..]);
      }
    }
  }

  /** After any session started from `empty_cache()` on a coherent host, a
      query answers what the free function answers, and the only query that
      can panic is a group lookup by name. */
  lemma CachedAnswersAreFresh(v: GroupLookups, db: Db, qs: seq<Query>, q: Query)
    requires Coherent(db)
    requires Replay(v, EmptyCache(), db, qs).Some?
    ensures var s := Perform(v, Replay(v, EmptyCache(), db, qs).value, db, q);
      (s.Returned? ==> s.result == Fresh(db, q)) && (s.Panicked? ==> q.ByGroupName?)
  {
    ReplayKeepsAgreement(v, EmptyCache(), db, qs);
    PerformIsTransparent(v, Replay(v, EmptyCache(), db, qs).value, db, q);
  }

  /** A host whose id query says there is no user 7 while its name query
      finds "ghost" with id 7. */
  function SplitDb(): Db
  {
    Db(x => None,
       n => if n == "ghost" then Some(PasswdRecord("ghost", 7, 7)) else None,
       x => None,
       n => None,
       0)
  }

  /** On an incoherent host the cache is not additive: the negative entry
      stored for id 7 is overwritten by the insert of a later by-name
      lookup. */
  lemma IncoherentHostOverwrites()
    ensures !Coherent(SplitDb())
    ensures var c1 := UserByUid(EmptyCache(), SplitDb(), 7).cache;
      && c1.users[7] == None
      && UserByName(c1, SplitDb(), "ghost").Returned?
      && !Extends(c1, UserByName(c1, SplitDb(), "ghost").cache)
  {
    var db := SplitDb();
    assert db.pwnam("ghost").Some? && db.pwuid(db.pwnam("ghost").value.pwUid) != db.pwnam("ghost");
    var c1 := UserByUid(EmptyCache(), db, 7).cache;
    var c2 := UserByName(c1, db, "ghost").cache;
    assert 7 in c1.users && c2.users[7] != c1.users[7];
  }
}
