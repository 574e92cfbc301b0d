/** The Redis-backed cache (go-redis/cache) as a map from key to entry.

    Two families of entries share the key space: users, keyed by e-mail
    address or Clerk id, and consolidated account details, keyed by the
    user's hex id. A read is a hit, a miss, or a failure; reading an entry
    of the other family fails to decode. Whether a call fails is an input
    (`fault`); a failed write or delete leaves the map unchanged. Entry
    lifetimes (the 24-hour TTL) are not modelled.
 */
module Cache {
  import opened Base
  import opened Models

  datatype Entry = UserEntry(user: User) | DetailsEntry(details: AccountDetails)

  type Store = map<string, Entry>

  /** The outcome of `rcache.Get`: `Miss` is go-redis/cache's ErrCacheMiss. */
  datatype Lookup<T> = Hit(value: T) | Miss | Failed(error: Error)

  /** Which of a handler's cache calls fail, and with what. */
  datatype CacheFaults = CacheFaults(onGet: Option<Error>, onSet: Option<Error>, onDelete: Option<Error>)

  const NoCacheFaults: CacheFaults := CacheFaults(None, None, None)

  /** The TTL every write in the core uses, in hours. */
  const EntryTtlHours: int := 24

  /** rcache.Get into a models.User. */
  function GetUser(c: Store, key: string, fault: Option<Error>): (r: Lookup<User>)
    ensures fault.Some? ==> r == Failed(fault.value)
    ensures fault.None? ==> (r.Miss? <==> key !in c)
    ensures r.Hit? ==> key in c && c[key] == UserEntry(r.value)
  {
    if fault.Some? then Failed(fault.value)
    else if key !in c then Miss
    else match c[key]
      case UserEntry(u) => Hit(u)
      case DetailsEntry(_) => Failed(DecodeError(key))
  }

  /** rcache.Get into a models.AccountDetailsResponse. */
  function GetDetails(c: Store, key: string, fault: Option<Error>): (r: Lookup<AccountDetails>)
    ensures fault.Some? ==> r == Failed(fault.value)
    ensures fault.None? ==> (r.Miss? <==> key !in c)
    ensures r.Hit? ==> key in c && c[key] == DetailsEntry(r.value)
  {
    if fault.Some? then Failed(fault.value)
    else if key !in c then Miss
    else match c[key]
      case DetailsEntry(d) => Hit(d)
      case UserEntry(_) => Failed(DecodeError(key))
  }

  /** rcache.Set: the new map and the error, if any. */
  function Set(c: Store, key: string, e: Entry, fault: Option<Error>): (r: (Store, Option<Error>))
    ensures r.1 == fault
    ensures fault.Some? ==> r.0 == c
    ensures fault.None? ==> key in r.0 && r.0[key] == e
    ensures forall k :: k != key ==> (k in r.0 <==> k in c) && (k in c ==> r.0[k] == c[k])
  {
    if fault.Some? then (c, fault) else (c[key := e], None)
  }

  /** rcache.Delete. Deleting an absent key is not an error. */
  function Delete(c: Store, key: string, fault: Option<Error>): (r: (Store, Option<Error>))
    ensures r.1 == fault
    ensures fault.Some? ==> r.0 == c
    ensures fault.None? ==> key !in r.0
    ensures forall k :: k != key ==> (k in r.0 <==> k in c) && (k in c ==> r.0[k] == c[k])
  {
    if fault.Some? then (c, fault) else (c - {key}, None)
  }

  /** A successful write is read back unchanged. */
  lemma GetAfterSet(c: Store, key: string, d: AccountDetails, u: User)
    ensures GetDetails(Set(c, key, DetailsEntry(d), None).0, key, None) == Hit(d)
    ensures GetUser(Set(c, key, UserEntry(u), None).0, key, None) == Hit(u)
  {
  }

  /** After a successful delete the key reads as a miss. */
  lemma GetAfterDelete(c: Store, key: string)
    ensures GetDetails(Delete(c, key, None).0, key, None) == Miss
    ensures GetUser(Delete(c, key, None).0, key, None) == Miss
  {
  }
}
