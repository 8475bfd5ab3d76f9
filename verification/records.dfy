/** The value types handed to callers, the host records they are copied
    from, and the conversion between the two (src/lib.rs:159-245). */
module Records {
  import opened Options
  import opened MachineInts

  /** A user: id, login name and primary group id. */
  datatype User = User(uid: Int32, name: string, primaryGroup: UInt32)

  /** A group: id, name and the names of its non-primary members, in order. */
  datatype Group = Group(gid: UInt32, name: string, members: seq<string>)

  /** The fields of a host `passwd` record that the conversion reads.
      The host stores the primary group as a signed C `int`. */
  datatype PasswdRecord = PasswdRecord(pwName: string, pwUid: Int32, pwGid: Int32)

  /** The fields of a host `group` record that the conversion reads.
      `grMem` is the member-pointer array; a `None` entry is a null
      pointer. The walk's test `groups.offset(i).as_ref()` is a null test,
      which can fail only at `i = 0`, when `gr_mem` itself is null: the
      empty sequence models that null `gr_mem`. A sequence that ends after
      a non-null entry has no counterpart in the crate's `members` loop, whose array always
      ends in a null entry; the walk stops there as well. */
  datatype GroupRecord = GroupRecord(grName: string, grGid: UInt32, grMem: seq<Option<string>>)

  /** Reference definition of the member walk: the strings before the
      first null entry, in order. */
  function MemberNames(entries: seq<Option<string>>): (names: seq<string>)
    ensures |names| <= |entries|
    ensures forall i :: 0 <= i < |names| ==> entries[i] == Some(names[i])
    ensures |names| < |entries| ==> entries[|names|].None?
    decreases |entries|
  {
    if |entries| == 0 || entries[0].None? then []
    else [entries[0].value] + MemberNames(entries[1..])
  }

  /** `members`: walks the array one entry at a time, stopping at the first
      null entry, or at once when the array pointer is null (empty
      `entries`), and returns what it collected. */
  method Members(entries: seq<Option<string>>) returns (names: seq<string>)
    ensures names == MemberNames(entries)
  {
    var i := 0;
    names := [];
    while i < |entries|
      invariant 0 <= i <= |entries|
      invariant |names| == i
      invariant forall j :: 0 <= j < i ==> entries[j] == Some(names[j])
    {
      match entries[i] {
        case None =>
          MemberNamesUnique(entries, names);
          return;
        case Some(username) =>
          names := names + [username];
      }
      i := i + 1;
    }
    MemberNamesUnique(entries, names);
  }

  /** The contract of `MemberNames` pins its result down: any sequence of
      names that matches the entries up to a null entry or the end is it. */
  lemma MemberNamesUnique(entries: seq<Option<string>>, names: seq<string>)
    requires |names| <= |entries|
    requires forall j :: 0 <= j < |names| ==> entries[j] == Some(names[j])
    requires |names| < |entries| ==> entries[|names|].None?
    ensures names == MemberNames(entries)
  {
  }

  /** `passwd_to_user`: a null record gives `None`; otherwise the user is
      built from the record's fields, the group id cast with `as u32`. */
  function PasswdToUser(p: Option<PasswdRecord>): (u: Option<User>)
    ensures u.None? <==> p.None?
    ensures u.Some? ==> u.value.uid == p.value.pwUid && u.value.name == p.value.pwName
    ensures u.Some? ==> u.value.primaryGroup == AsU32(p.value.pwGid)
  {
    match p
    case None => None
    case Some(pw) => Some(User(pw.pwUid, pw.pwName, AsU32(pw.pwGid)))
  }

  /** `struct_to_group`: a null record gives `None`; otherwise the group
      with the record's id, name and walked member list. */
  function StructToGroup(p: Option<GroupRecord>): (g: Option<Group>)
    ensures g.None? <==> p.None?
    ensures g.Some? ==> g.value.gid == p.value.grGid && g.value.name == p.value.grName
    ensures g.Some? ==> g.value.members == MemberNames(p.value.grMem)
    ensures g.Some? ==> |g.value.members| <= |p.value.grMem|
  {
    match p
    case None => None
    case Some(gr) => Some(Group(gr.grGid, gr.grName, MemberNames(gr.grMem)))
  }

  /** The host record a user is read from: the inverse of `PasswdToUser`. */
  function UserToPasswd(u: User): PasswdRecord
  {
    PasswdRecord(u.name, u.uid, AsI32(u.primaryGroup))
  }

  /** Converting a user's record gives back the user, and a record is the
      record of the user converted from it: nothing is lost either way. */
  lemma UserRoundTrip(u: User, p: PasswdRecord)
    ensures PasswdToUser(Some(UserToPasswd(u))) == Some(u)
    ensures UserToPasswd(PasswdToUser(Some(p)).value) == p
  {
  }

  /** A list of names as a host array: one non-null entry per name, then
      the terminating null. */
  function NullTerminated(names: seq<string>): (entries: seq<Option<string>>)
    ensures |entries| == |names| + 1
  {
    if names == [] then [None] else [Some(names[0])] + NullTerminated(names[1..])
  }

  /** The walk recovers exactly the names written before the terminator,
      whatever unreadable or stale entries follow it. */
  lemma {:induction false} MembersOfNullTerminated(names: seq<string>, rest: seq<Option<string>>)
    ensures MemberNames(NullTerminated(names) + rest) == names
    decreases |names|
  {
    if names != [] {
      var tail := NullTerminated(names[1..]);
      assert NullTerminated(names) + rest == [Some(names[0])] + (tail + rest);
      assert (NullTerminated(names) + rest)[1..] == tail + rest;
      MembersOfNullTerminated(names[1..], rest);
    }
  }

  /** A host record holding a group. */
  function GroupToStruct(g: Group): GroupRecord
  {
    GroupRecord(g.name, g.gid, NullTerminated(g.members))
  }

  /** Converting a group's record gives back the group, member list and
      its order included. */
  lemma GroupRoundTrip(g: Group)
    ensures StructToGroup(Some(GroupToStruct(g))) == Some(g)
  {
    MembersOfNullTerminated(g.members, []);
    assert NullTerminated(g.members) + [] == NullTerminated(g.members);
  }

  /** A group with no members is a present group with an empty list, not the
      absent group of a null record. */
  lemma EmptyMemberListIsNotAbsence(name: string, gid: UInt32)
    ensures StructToGroup(Some(GroupRecord(name, gid, [None]))) == Some(Group(gid, name, []))
    ensures StructToGroup(Some(GroupRecord(name, gid, []))) == Some(Group(gid, name, []))
    ensures StructToGroup(None) == None
  {
  }
}
