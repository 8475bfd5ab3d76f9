/** The invariant that makes the index `self.users[uid]` in
    `get_user_by_name` safe, and its group counterpart. */
module CacheInvariants {
  import opened Options
  import opened MachineInts
  import opened Records
  import opened HostDb
  import opened Cached
  import opened Sessions

  /** Every id a user name is linked to is a key of `users`. */
  ghost predicate UsersBackClosed(c: Cache)
  {
    forall name :: name in c.usersBack && c.usersBack[name].Some? ==> c.usersBack[name].value in c.users
  }

  /** Every id a group name is linked to is a key of `groups`. */
  ghost predicate GroupsBackClosed(c: Cache)
  {
    forall name :: name in c.groupsBack && c.groupsBack[name].Some? ==> c.groupsBack[name].value in c.groups
  }

  /** On a closed cache `get_user_by_name` never panics. */
  lemma ClosedUserByNameReturns(c: Cache, db: Db, name: string)
    requires UsersBackClosed(c)
    ensures UserByName(c, db, name).Returned?
  {
  }

  /** One query of either kind of session keeps the user links closed. */
  lemma PerformKeepsUsersClosed(v: GroupLookups, c: Cache, db: Db, q: Query)
    requires UidConsistent(db)
    requires UsersBackClosed(c)
    ensures Perform(v, c, db, q).Returned? ==> UsersBackClosed(Perform(v, c, db, q).cache)
  {
  }

  /** A whole session from a closed cache ends in a closed cache. */
  lemma {:induction false} ReplayKeepsUsersClosed(v: GroupLookups, c: Cache, db: Db, qs: seq<Query>)
    requires UidConsistent(db)
    requires UsersBackClosed(c)
    ensures Replay(v, c, db, qs).Some? ==> UsersBackClosed(Replay(v, c, db, qs).value)
    decreases |qs|
  {
    if qs != [] {
      PerformKeepsUsersClosed(v, c, db, qs[0]);
      var s := Perform(v, c, db, qs[0]);
      if s.Returned? {
        ReplayKeepsUsersClosed(v, s.cache, db, qs[1..]);
      }
    }
  }

  /** After any session started from `empty_cache()`, `get_user_by_name`
      cannot panic, whatever name it is asked. */
  lemma UserByNameSafeAfterAnySession(v: GroupLookups, db: Db, qs: seq<Query>, name: string)
    requires UidConsistent(db)
    requires Replay(v, EmptyCache(), db, qs).Some?
    ensures UserByName(Replay(v, EmptyCache(), db, qs).value, db, name).Returned?
  {
    ReplayKeepsUsersClosed(v, EmptyCache(), db, qs);
  }

  /** A host that answers id 1 with the record of a user whose id is 2. */
  function MislabelledDb(): Db
  {
    Db(x => if x == 1 then Some(PasswdRecord("eve", 2, 100)) else None,
       n => None,
       x => None,
       n => None,
       0)
  }

  /** Without `UidConsistent` the invariant fails: asking id 1 links "eve"
      to id 2, which is not a key, and asking "eve" next panics. */
  lemma MislabelledRecordBreaksUserIndex()
    ensures !UidConsistent(MislabelledDb())
    ensures Replay(AsWritten, EmptyCache(), MislabelledDb(), [ByUid(1)]).Some?
    ensures !UsersBackClosed(Replay(AsWritten, EmptyCache(), MislabelledDb(), [ByUid(1)]).value)
    ensures Replay(AsWritten, EmptyCache(), MislabelledDb(), [ByUid(1), ByName("eve")]) == None
  {
    var db := MislabelledDb();
    assert db.pwuid(1).Some? && db.pwuid(1).value.pwUid != 1;
    var c1 := UserByUid(EmptyCache(), db, 1).cache;
    assert c1.usersBack["eve"] == Some(2);
    assert [ByUid(1), ByName("eve")][1..] == [ByName("eve")];
  }
}
