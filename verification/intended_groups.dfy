/** The group lookups as the documentation of `Users` and `OSUsers`
    describes them (src/lib.rs:113-117, 187): the same protocol as the user
    lookups, with every answer stored in the cache itself rather than in a
    discarded copy of one of its maps. */
module IntendedGroups {
  import opened Options
  import opened MachineInts
  import opened Records
  import opened HostDb
  import opened Cached

  /** By id: a hit returns the stored entry; a miss stores the answer under
      `gid` and, for a found group, links its name to its id. */
  function GroupByGid(c: Cache, db: Db, gid: UInt32): (s: Step<Option<Group>>)
    ensures s.Returned?
    ensures s.dbCalled <==> gid !in c.groups
    ensures gid in c.groups ==> s.cache == c && s.result == c.groups[gid]
    ensures gid !in c.groups ==> s.result == StructToGroup(db.grgid(gid))
    ensures gid in s.cache.groups && s.cache.groups[gid] == s.result
    ensures gid !in c.groups && s.result.Some? ==>
              s.cache.groupsBack == c.groupsBack[s.result.value.name := Some(s.result.value.gid)]
    ensures gid !in c.groups && s.result.None? ==> s.cache.groupsBack == c.groupsBack
    ensures s.cache == c.(groups := s.cache.groups, groupsBack := s.cache.groupsBack)
  {
    if gid in c.groups then
      Returned(c, c.groups[gid], false)
    else
      match StructToGroup(db.grgid(gid))
      case Some(group) =>
        Returned(c.(groups := c.groups[gid := Some(group)],
                    groupsBack := c.groupsBack[group.name := Some(group.gid)]),
                 Some(group), true)
      case None =>
        Returned(c.(groups := c.groups[gid := None]), None, true)
  }

  /** By name: a hit holding an id returns `groups[id]` (still a panicking
      index); a hit holding the negative marker returns `None`; a miss
      stores the answer under the name and a found group under its id. */
  function GroupByName(c: Cache, db: Db, name: string): (s: Step<Option<Group>>)
    ensures s.Panicked? <==>
              name in c.groupsBack && c.groupsBack[name].Some? && c.groupsBack[name].value !in c.groups
    ensures s.Returned? ==> (s.dbCalled <==> name !in c.groupsBack)
    ensures s.Returned? && name in c.groupsBack ==> s.cache == c
    ensures s.Returned? && name !in c.groupsBack ==> s.result == StructToGroup(db.grnam(name))
    ensures s.Returned? ==> name in s.cache.groupsBack
    ensures s.Returned? && name !in c.groupsBack && s.result.Some? ==>
              s.cache.groups == c.groups[s.result.value.gid := s.result]
    ensures s.Returned? && name !in c.groupsBack && s.result.None? ==> s.cache.groups == c.groups
    ensures s.Returned? ==> s.cache == c.(groups := s.cache.groups, groupsBack := s.cache.groupsBack)
  {
    if name in c.groupsBack then
      match c.groupsBack[name]
      case Some(id) => if id in c.groups then Returned(c, c.groups[id], false) else Panicked
      case None => Returned(c, None, false)
    else
      match StructToGroup(db.grnam(name))
      case Some(group) =>
        Returned(c.(groupsBack := c.groupsBack[name := Some(group.gid)],
                    groups := c.groups[group.gid := Some(group)]),
                 Some(group), true)
      case None =>
        Returned(c.(groupsBack := c.groupsBack[name := None]), None, true)
  }
}
