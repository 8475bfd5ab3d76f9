/** The group lookups run `.entry` on a clone of a map (src/lib.rs:292,
    312), so `get_group_by_gid` never fills `groups` and
    `get_group_by_name` never fills `groups_back`. The index
    `self.groups[gid]` (src/lib.rs:328) then reaches a missing key on a
    perfectly coherent host. The lookups that store their answers in the
    cache itself never do. */
module GroupCacheFinding {
  import opened Options
  import opened MachineInts
  import opened Records
  import opened HostDb
  import opened Cached
  import opened Sessions
  import opened CacheInvariants
  import IntendedGroups

  /** A host with no users and one group, "wheel", id 0, member "alice". */
  function WheelDb(): Db
  {
    Db(x => None,
       n => None,
       x => if x == 0 then Some(GroupRecord("wheel", 0, [Some("alice"), None])) else None,
       n => if n == "wheel" then Some(GroupRecord("wheel", 0, [Some("alice"), None])) else None,
       0)
  }

  /** As written: on this coherent host, asking group 0 and then group
      "wheel" on one cache panics, although the first answer was found. */
  lemma WheelGidThenNamePanics()
    ensures Coherent(WheelDb())
    ensures Cached.GroupByGid(EmptyCache(), WheelDb(), 0).result == Some(Group(0, "wheel", ["alice"]))
    ensures Replay(AsWritten, EmptyCache(), WheelDb(), [ByGid(0), ByGroupName("wheel")]) == None
  {
    var db := WheelDb();
    var s := Cached.GroupByGid(EmptyCache(), db, 0);
    assert MemberNames([Some("alice"), None]) == ["alice"] by {
      assert [Some("alice"), None][1..] == [None];
    }
    assert s.cache.groupsBack == map["wheel" := Some(0)];
    assert [ByGid(0), ByGroupName("wheel")][1..] == [ByGroupName("wheel")];
  }

  /** As intended: the same two queries return the group twice, the
      second time from the cache. */
  lemma WheelGidThenNameIntended()
    ensures var s := IntendedGroups.GroupByGid(EmptyCache(), WheelDb(), 0);
      IntendedGroups.GroupByName(s.cache, WheelDb(), "wheel") == Returned(s.cache, s.result, false)
  {
  }

  /** One intended query keeps both kinds of name link closed. */
  lemma PerformIntendedKeepsClosed(c: Cache, db: Db, q: Query)
    requires UidConsistent(db) && GidConsistent(db)
    requires UsersBackClosed(c) && GroupsBackClosed(c)
    ensures Perform(Intended, c, db, q).Returned?
    ensures UsersBackClosed(Perform(Intended, c, db, q).cache)
    ensures GroupsBackClosed(Perform(Intended, c, db, q).cache)
  {
  }

  /** With the intended group lookups, a session from a closed cache never
      panics and ends closed. */
  lemma {:induction false} IntendedReplayNeverPanics(c: Cache, db: Db, qs: seq<Query>)
    requires UidConsistent(db) && GidConsistent(db)
    requires UsersBackClosed(c) && GroupsBackClosed(c)
    ensures Replay(Intended, c, db, qs).Some?
    ensures UsersBackClosed(Replay(Intended, c, db, qs).value)
    ensures GroupsBackClosed(Replay(Intended, c, db, qs).value)
    decreases |qs|
  {
    if qs != [] {
      PerformIntendedKeepsClosed(c, db, qs[0]);
      IntendedReplayNeverPanics(Perform(Intended, c, db, qs[0]).cache, db, qs[1..]);
    }
  }

  /** Every session from `empty_cache()` with the intended group lookups
      runs to the end: each by-name lookup returns a group or `None`. */
  lemma IntendedSessionsNeverPanic(db: Db, qs: seq<Query>)
    requires UidConsistent(db) && GidConsistent(db)
    ensures Replay(Intended, EmptyCache(), db, qs).Some?
  {
    IntendedReplayNeverPanics(EmptyCache(), db, qs);
  }

  /** With the intended group lookups a negative answer is cached: the
      repeat returns it without asking the host, by id and by name. */
  lemma IntendedCachesNegativeGroups(c: Cache, db: Db, gid: UInt32, name: string)
    ensures var s := IntendedGroups.GroupByGid(c, db, gid);
      IntendedGroups.GroupByGid(s.cache, db, gid) == Returned(s.cache, s.result, false)
    ensures var s := IntendedGroups.GroupByName(c, db, name);
      s.Returned? ==> IntendedGroups.GroupByName(s.cache, db, name) == Returned(s.cache, s.result, false)
  {
  }
}
