/** The host's identity database, seen as a fixed oracle. It replaces the
    foreign calls `getpwuid`, `getpwnam`, `getgrgid`, `getgrnam` and
    `getuid` (src/lib.rs:149-157): each answers a null record (`None`) or
    a record. */
module HostDb {
  import opened Options
  import opened MachineInts
  import opened Records

  datatype Db = Db(
    pwuid: Int32 -> Option<PasswdRecord>,
    pwnam: string -> Option<PasswdRecord>,
    grgid: UInt32 -> Option<GroupRecord>,
    grnam: string -> Option<GroupRecord>,
    getuid: Int32)

  /** A user record found by id carries that id. */
  ghost predicate UidConsistent(db: Db)
  {
    forall x :: db.pwuid(x).Some? ==> db.pwuid(x).value.pwUid == x
  }

  /** A group record found by id carries that id. */
  ghost predicate GidConsistent(db: Db)
  {
    forall x :: db.grgid(x).Some? ==> db.grgid(x).value.grGid == x
  }

  /** The by-id and by-name queries describe one and the same set of
      records: each record is found under its own id and its own name. */
  ghost predicate Coherent(db: Db)
  {
    && UidConsistent(db)
    && GidConsistent(db)
    && (forall x :: db.pwuid(x).Some? ==> db.pwnam(db.pwuid(x).value.pwName) == db.pwuid(x))
    && (forall n :: db.pwnam(n).Some? ==>
          db.pwnam(n).value.pwName == n && db.pwuid(db.pwnam(n).value.pwUid) == db.pwnam(n))
    && (forall x :: db.grgid(x).Some? ==> db.grnam(db.grgid(x).value.grName) == db.grgid(x))
    && (forall n :: db.grnam(n).Some? ==>
          db.grnam(n).value.grName == n && db.grgid(db.grnam(n).value.grGid) == db.grnam(n))
  }
}
