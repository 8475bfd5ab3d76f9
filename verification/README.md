# users: the caching lookup layer, in Dafny

A model of the caching core of the Rust `users` crate (`src/lib.rs`). The crate wraps
the host's user and group database (`getpwuid`, `getpwnam`, `getgrgid`, `getgrnam`,
`getuid`). It turns the returned C records into owned `User` and `Group` values. Its
`OSUsers` type memoizes user answers, positive or negative, by id and by name. As written,
the group lookups keep only the cross-link from the other key (see Findings).

The host database is an oracle `HostDb.Db`: five pure functions that answer a null
record (`None`) or a record. Each `Users` method becomes a pure step
`(Cache, Db, key) -> Step`. A step either returns (new cache, result, `dbCalled`) or
panics. The `Panicked` outcome models Rust's `HashMap` index at a missing key, which
`get_user_by_name` and `get_group_by_name` both use.

Modules:
- `Options` and `MachineInts`: `Option`, the `i32`/`u32` ranges, and the `as u32` cast.
- `Records`: `User`, `Group`, the host records, the member walk and the two conversions.
- `HostDb`: the oracle and the consistency assumptions about it.
- `Cached`: `OSUsers` as `Cache`, `empty_cache`, and the five operations as written.
- `Stateless`: the five free functions.
- `Sessions`: sequences of queries on one cache (`Replay`).
- `CacheProtocol`: hit, miss and repeat behaviour.
- `CacheInvariants`: the index-safety invariant for users.
- `Transparency`: on a coherent host, cached answers equal fresh ones.
- `IntendedGroups` and `GroupCacheFinding`: the group-cache defect and its correction.

Assumptions about the host are explicit `requires`:
- `UidConsistent`: a record found by id carries that id.
- `GidConsistent`: the same for groups.
- `Coherent`: both of the above, and each record is also found under its own name.

The crate's own tests at `src/lib.rs:405` and `src/lib.rs:414` rely on `UidConsistent`.

Where the crate's doc comments and its code disagree, the model follows the code:
- The crate documents the cache as "only additive" (`src/lib.rs:70`). The code's `insert` calls
  can overwrite an entry. `Transparency.PerformIsTransparent` proves additivity (`Extends`) only
  for a coherent host. `Transparency.IncoherentHostOverwrites` shows an overwrite when the id and
  name queries disagree.
- The crate documents the cache as "holding on to every result" (`src/lib.rs:55-57`) and
  `OSUsers` as caching every result (`src/lib.rs:187`). As written, the group lookups store
  neither their own key nor a negative answer, because they work on a clone of a map (see Findings).

## Model

| member | source | states |
|---|---|---|
| MachineInts.AsU32 | src/lib.rs:202 | `pw_gid as u32` keeps a non-negative id and adds 2^32 to a negative one |
| MachineInts.ReinterpretRoundTrip | src/lib.rs:202 | the `i32`-to-`u32` reinterpretation is a bijection, so no group id is lost |
| Records.MemberNames | src/lib.rs:221-245 | the walk yields exactly the strings before the first null entry, in order, and never more than there are entries |
| Records.Members | src/lib.rs:221-245 | the loop that stops at the first null entry, or at once for a null array pointer (an empty sequence), computes the reference walk |
| Records.PasswdToUser | src/lib.rs:199-207 | a null record gives `None`; otherwise the user carries the record's uid and name, and its group id cast to `u32` |
| Records.StructToGroup | src/lib.rs:209-219 | a null record gives `None`; otherwise the group carries the record's gid and name, and its members are exactly the walk of the record's member array |
| Records.UserRoundTrip | src/lib.rs:199-207 | the user conversion loses nothing: user to record to user, and record to user to record, are identities |
| Records.MembersOfNullTerminated | src/lib.rs:225-245 | writing names as a null-terminated array and walking it gives the names back, whatever follows the null |
| Records.GroupRoundTrip | src/lib.rs:209-219 | the group conversion gives back the group it was written from, member order included |
| Records.EmptyMemberListIsNotAbsence | src/lib.rs:209-219 | a group with no members is `Some` with an empty list, distinct from `None` for a null record |
| Cached.EmptyCache | src/lib.rs:348-356 | a new cache has all four maps empty and no stored uid |
| Cached.UserByUid | src/lib.rs:248-266 | a hit returns the stored entry unchanged with no host call; a miss asks the host and stores the answer under the uid; only the two user maps change |
| Cached.UserByName | src/lib.rs:268-289 | panics exactly when the name links to an id that is not a key; a hit asks nothing and changes nothing; a miss asks the host; only the user maps change |
| Cached.GroupByGid | src/lib.rs:291-309 | a hit returns the stored entry; a miss asks the host; only `groups_back` can change |
| Cached.GroupByName | src/lib.rs:311-332 | panics exactly when the name links to an id that is not a key; a miss asks the host; only `groups` can change |
| Cached.CurrentUid | src/lib.rs:334-343 | the host is asked only when no uid is stored; the stored uid is returned afterwards; only the uid field changes |
| Stateless.UserByUid | src/lib.rs:359-362 | the free function returns the host's answer for the uid, converted |
| Stateless.UserByName | src/lib.rs:364-367 | the free function returns the host's answer for the name, converted |
| Stateless.GroupByGid | src/lib.rs:369-372 | the free function returns the host's answer for the gid, converted |
| Stateless.GroupByName | src/lib.rs:374-377 | the free function returns the host's answer for the name, converted, and cannot panic on its fresh cache |
| Stateless.CurrentUid | src/lib.rs:379-382 | the free function returns the host's current uid |
| Sessions.FreshCallAlwaysQueries | src/lib.rs:348-382 | every free function asks the host exactly once and shares nothing with other calls |
| CacheProtocol.UserByUidHit | src/lib.rs:249-264 | a uid hit, positive or negative, returns the stored entry with no host call and no change |
| CacheProtocol.UserByUidMiss | src/lib.rs:250-262 | a found user is stored under the uid and its name linked to its own uid; a missing one is stored as `None` and nothing else changes |
| CacheProtocol.UserByUidRepeat | src/lib.rs:248-266 | repeating a uid lookup returns the same value from the cache with no host call |
| CacheProtocol.UserByNameHit | src/lib.rs:284-287 | a name hit holding an id returns `users[id]`; one holding the negative marker returns `None`; neither asks the host |
| CacheProtocol.UserByNameMiss | src/lib.rs:270-282 | a found user links the name to its uid and is stored under that uid; a missing one stores only the negative marker |
| CacheProtocol.UserByNameRepeat | src/lib.rs:268-289 | repeating a name lookup that returned gives the same value from the cache with no host call |
| CacheProtocol.UidThenNameIsHit | src/lib.rs:253-256 | a user found by uid is then found by name from the cache alone, for a host whose records carry their own uid |
| CacheProtocol.NameThenUidIsHit | src/lib.rs:273-276 | a user found by name is then found by uid from the cache alone |
| CacheProtocol.NegativeUidIsolated | src/lib.rs:258-261 | a negative uid answer changes no other lookup's answer |
| CacheProtocol.NegativeNameIsolated | src/lib.rs:278-281 | a negative name answer changes no other lookup's answer |
| CacheProtocol.GroupByGidHit | src/lib.rs:307 | a gid hit returns the stored entry with no host call and no change |
| CacheProtocol.GroupByGidMiss | src/lib.rs:293-305 | a found group only links its name to its gid in `groups_back`; a missing group changes nothing |
| CacheProtocol.GroupByNameHit | src/lib.rs:327-330 | a group-name hit holding a stored gid returns `groups[gid]`; one holding the negative marker returns `None`; neither asks the host |
| CacheProtocol.GroupByNameMiss | src/lib.rs:313-325 | a found group is stored under its own gid in `groups`; a missing group changes nothing |
| CacheProtocol.GroupByGidMissRepeats | src/lib.rs:292-305 | a gid miss is never stored under the gid, positive or negative: the repeat asks the host again |
| CacheProtocol.GroupByNameMissRepeats | src/lib.rs:312-325 | a group-name miss is never stored under the name, positive or negative: the repeat asks the host again |
| CacheProtocol.GidThenNamePanics | src/lib.rs:296-299 | for a host whose group records carry their own gid, a group found by a gid miss, looked up next by name, panics unless a by-name lookup had stored it |
| CacheProtocol.CurrentUidRepeat | src/lib.rs:334-343 | after any call, the next call returns the same uid with no host call and no change |
| CacheInvariants.ClosedUserByNameReturns | src/lib.rs:284-285 | when every linked id is a key of `users`, the index in `get_user_by_name` cannot panic |
| CacheInvariants.PerformKeepsUsersClosed | src/lib.rs:254-255 | each operation keeps every name-linked uid a key of `users`, for a host whose records carry their own uid |
| CacheInvariants.ReplayKeepsUsersClosed | src/lib.rs:247-344 | for a host whose user records carry their own uid, any sequence of operations from a closed cache ends in a closed cache |
| CacheInvariants.UserByNameSafeAfterAnySession | src/lib.rs:348-356 | for a host whose user records carry their own uid, after any sequence of operations from `empty_cache()`, `get_user_by_name` cannot panic |
| CacheInvariants.MislabelledRecordBreaksUserIndex | src/lib.rs:253-256 | if a host record found by uid carries another uid, the invariant fails and the next name lookup panics |
| Transparency.UserByUidTransparent | src/lib.rs:248-266 | on a coherent host and an agreeing cache, a uid lookup answers as the host does and only adds entries |
| Transparency.UserByNameTransparent | src/lib.rs:268-289 | on a coherent host and an agreeing cache whose name-linked uids are keys, a name lookup answers as the host does, never panics and only adds entries |
| Transparency.GroupByGidTransparent | src/lib.rs:291-309 | on a coherent host and an agreeing cache, a gid lookup, as written and as intended, answers as the host does and only adds entries |
| Transparency.WrittenGroupByNameTransparent | src/lib.rs:311-332 | on a coherent host and an agreeing cache, the as-written group-name lookup, when it does not panic, answers as the host does and only adds entries |
| Transparency.IntendedGroupByNameTransparent | src/lib.rs:311-332 | the same for the corrected group-name lookup, on a coherent host and an agreeing cache |
| Transparency.GroupByNameTransparent | src/lib.rs:311-332 | on a coherent host and an agreeing cache, a group-name lookup that does not panic answers as the host does and only adds entries |
| Transparency.PerformIsTransparent | src/lib.rs:247-344 | on a coherent host and a cache that agrees with it and whose name-linked uids are keys, any operation answers as the free function does and only adds entries; only a group-name lookup can panic |
| Transparency.ReplayKeepsAgreement | src/lib.rs:247-344 | on a coherent host, any sequence of operations from an agreeing cache whose name-linked uids are keys keeps it agreeing and only adds entries |
| Transparency.CachedAnswersAreFresh | src/lib.rs:348-382 | on a coherent host, after any sequence from `empty_cache()`, a cached answer equals the free function's answer |
| Transparency.IncoherentHostOverwrites | src/lib.rs:275 | when the id and name queries disagree, a by-name insert overwrites a stored negative uid entry |
| IntendedGroups.GroupByGid | src/lib.rs:291-309 | corrected: a miss stores the answer under the gid; a found group's name is linked to its gid, and a missing group leaves the name links alone |
| IntendedGroups.GroupByName | src/lib.rs:311-332 | corrected: a miss stores the answer under the name; a found group is stored under its gid, and a missing group leaves `groups` alone |
| GroupCacheFinding.WheelGidThenNamePanics | src/lib.rs:292-328 | as written, on a coherent host, a gid lookup then a name lookup of the same group panics |
| GroupCacheFinding.WheelGidThenNameIntended | src/lib.rs:113-117 | corrected, the same two lookups return the group, the second from the cache |
| GroupCacheFinding.PerformIntendedKeepsClosed | src/lib.rs:311-332 | corrected, for a host whose user and group records carry their own ids, each operation on a closed cache keeps both kinds of name link closed and never panics |
| GroupCacheFinding.IntendedReplayNeverPanics | src/lib.rs:247-344 | corrected, for a host whose user and group records carry their own ids, any sequence from a closed cache runs to the end and ends closed |
| GroupCacheFinding.IntendedSessionsNeverPanic | src/lib.rs:116 | corrected, for a host whose user and group records carry their own ids, every sequence from `empty_cache()` runs to the end, so a group-name lookup returns a group or `None` |
| GroupCacheFinding.IntendedCachesNegativeGroups | src/lib.rs:291-332 | corrected, a negative group answer is cached and the repeat asks nothing |

## Findings

| source | as written | input that shows it | evidently intended | confidence | as-written member | corrected member |
|---|---|---|---|---|---|---|
| src/lib.rs:292-328 | both group lookups call `.entry` on a clone of a map, so `get_group_by_gid` never fills `groups` and `get_group_by_name` never fills `groups_back`; `self.groups[gid]` then indexes a key that may be absent | on `empty_cache()` with a host holding group "wheel" with gid 0: `get_group_by_gid(0)`, then `get_group_by_name("wheel")` panics | each lookup stores its answer in the cache itself, as the user lookups do, so the name lookup returns a group or `None` | high, not executed | GroupCacheFinding.WheelGidThenNamePanics | GroupCacheFinding.IntendedSessionsNeverPanic |

`Sessions.Replay` takes the group lookups as a parameter. `AsWritten` is the crate's
code. `Intended` is the corrected form.

## Left out

- The foreign calls `getpwuid`, `getpwnam`, `getgrgid`, `getgrnam` and `getuid` (`src/lib.rs:149-157`). They are replaced by the oracle `HostDb.Db`, which is fixed for a whole session. A host database that changes between calls is not modelled: an incoherent oracle covers only id and name queries that disagree. In particular, the as-written group lookups ask the host again for the same key, and the fixed oracle forces the same answer both times, where the crate would see any change.
- The C layouts `c_passwd` and `c_group`, `ptr::read` and `String::from_raw_buf`. A record is modelled as already-owned strings and integers. `PasswdRecord` keeps only the fields the conversion reads.
- Passing a name that is not NUL-terminated to `getpwnam`/`getgrnam` (`src/lib.rs:271, 314`). This is string marshalling at the foreign boundary; the oracle receives the name itself.
- The walk's `offset(i).as_ref()` is a null test, so its `None` arm fires only for a null `gr_mem`, modelled as an empty member sequence. A member sequence that ends after a non-null entry has no counterpart in the source; a read past the end of a host array is undefined behaviour and has no model.
- The doc-tests and unit tests (`src/lib.rs:34-37, 62-68, 87-95, 384-415`). They query the real host. Their two assertions (`src/lib.rs:405` and `src/lib.rs:414`) both follow from the `UidConsistent` assumption.
- `HashMap` hashing, the cost of cloning, and thread safety. Maps are Dafny `map`s, and the crate has no concurrency.
