/** Read-through user lookups: the handler's `GetUserByEmail`
    (handlers/utils.go:47-74), keyed by e-mail address, and the
    `GetUserFromClerkId` middleware (router/custom_middleware.go:13-45),
    keyed by the value of the `Clerk` request header. The user collection
    is a sequence; a lookup is `FindOne`, the first match in store order.
 */
module Identity {
  import opened Base
  import opened ObjectIds
  import opened Models
  import opened Seqs
  import opened Cache
  import opened Effects

  type UserStore = seq<User>

  function HasEmail(email: string): User -> bool
  {
    (u: User) => u.email == email
  }

  function HasClerkId(clerkId: string): User -> bool
  {
    (u: User) => u.clerkId == clerkId
  }

  function HasUserId(id: ObjectId): User -> bool
  {
    (u: User) => u.id == id
  }

  /** Handler.GetUserByEmail: a hit answers from the cache; a miss reads the
      collection and caches what it found; any other cache failure is
      returned as it is. Returns the answer, the cache and the effects. */
  function GetUserByEmail(c: Store, users: UserStore, email: string, faults: CacheFaults, dbFault: Option<Error>)
    : (r: (Result<User>, Store, seq<Effect>))
    ensures 1 <= |r.2| && r.2[0] == CacheGet(email)
    ensures UserLookup("email", email) in r.2 <==> GetUser(c, email, faults.onGet).Miss?
    ensures r.0.Ok? ==> GetUser(r.1, email, None) == Hit(r.0.value)
    ensures r.0.Ok? && GetUser(c, email, faults.onGet).Miss? ==> r.0.value.email == email && r.0.value in users
    ensures r.0.Err? ==> r.1 == c
    ensures forall k :: k != email ==> (k in r.1 <==> k in c) && (k in c ==> r.1[k] == c[k])
    ensures faults.onGet.Some? ==> r == (Err(faults.onGet.value), c, [CacheGet(email)])
    ensures faults.onGet.None? && email in c && c[email].UserEntry? ==> r == (Ok(c[email].user), c, [CacheGet(email)])
    ensures faults.onGet.None? && email in c && c[email].DetailsEntry? ==> r == (Err(DecodeError(email)), c, [CacheGet(email)])
    ensures faults.onGet.None? && email !in c ==>
      var found := FindOne(users, HasEmail(email), dbFault);
      && (found.Err? ==> r.0 == Err(found.error) && r.1 == c)
      && (found.Ok? && faults.onSet.Some? ==> r.0 == Err(faults.onSet.value) && r.1 == c)
      && (found.Ok? && faults.onSet.None? ==> r.0 == found && r.1 == c[email := UserEntry(found.value)])
  {
    match GetUser(c, email, faults.onGet)
    case Hit(u) => (Ok(u), c, [CacheGet(email)])
    case Failed(e) => (Err(e), c, [CacheGet(email)])
    case Miss =>
      var effects := [CacheGet(email), UserLookup("email", email)];
      match FindOne(users, HasEmail(email), dbFault)
      case Err(e) => (Err(e), c, effects)
      case Ok(u) =>
        var (c', setErr) := Set(c, email, UserEntry(u), faults.onSet);
        if setErr.Some? then (Err(setErr.value), c', effects + [CacheSet(email)])
        else (Ok(u), c', effects + [CacheSet(email)])
  }

  /** A successful lookup leaves the cache able to answer the same question:
      the next fault-free call is a hit with the same user and no read of the
      collection. */
  lemma GetUserByEmailReadThrough(c: Store, users: UserStore, email: string, faults: CacheFaults, dbFault: Option<Error>)
    requires GetUserByEmail(c, users, email, faults, dbFault).0.Ok?
    ensures var (r, c', _) := GetUserByEmail(c, users, email, faults, dbFault);
      GetUserByEmail(c', users, email, NoCacheFaults, None) == (r, c', [CacheGet(email)])
  {
  }

  /** What the middleware does with the request. */
  datatype Outcome = Next | Reject(message: string)

  /** GetUserFromClerkId: a cache failure other than a miss rejects the
      request; a hit, or a miss with no header, passes it on untouched; a
      miss with a header reads the collection by `clerk_id`, caches the user
      and passes it on, any failure there rejecting it. */
  function GetUserFromClerkId(c: Store, users: UserStore, clerkId: string, faults: CacheFaults, dbFault: Option<Error>)
    : (r: (Outcome, Store, seq<Effect>))
    ensures 1 <= |r.2| && r.2[0] == CacheGet(clerkId)
    ensures UserLookup("clerk_id", clerkId) in r.2 <==> GetUser(c, clerkId, faults.onGet).Miss? && clerkId != ""
    ensures r.0.Reject? <==>
      || GetUser(c, clerkId, faults.onGet).Failed?
      || (GetUser(c, clerkId, faults.onGet).Miss? && clerkId != ""
          && (FindOne(users, HasClerkId(clerkId), dbFault).Err? || faults.onSet.Some?))
    ensures r.1 != c ==>
      && r.0.Next? && clerkId != "" && clerkId in r.1
      && r.1[clerkId].UserEntry? && r.1[clerkId].user.clerkId == clerkId
      && r.1 == c[clerkId := r.1[clerkId]]
    ensures CacheSet(clerkId) in r.2 ==> FindOne(users, HasClerkId(clerkId), dbFault).Ok?
    ensures r.1 != c ==>
      && FindOne(users, HasClerkId(clerkId), dbFault).Ok?
      && r.1 == c[clerkId := UserEntry(FindOne(users, HasClerkId(clerkId), dbFault).value)]
    ensures GetUser(c, clerkId, faults.onGet).Miss? && clerkId != ""
            && FindOne(users, HasClerkId(clerkId), dbFault).Ok? && faults.onSet.None? ==>
      && r.0.Next?
      && r.1 == c[clerkId := UserEntry(FindOne(users, HasClerkId(clerkId), dbFault).value)]
  {
    match GetUser(c, clerkId, faults.onGet)
    case Failed(e) => (Reject("failed get user from cache"), c, [CacheGet(clerkId)])
    case Hit(_) => (Next, c, [CacheGet(clerkId)])
    case Miss =>
      if clerkId == "" then (Next, c, [CacheGet(clerkId)])
      else
        var effects := [CacheGet(clerkId), UserLookup("clerk_id", clerkId)];
        match FindOne(users, HasClerkId(clerkId), dbFault)
        case Err(_) => (Reject("failed getting users from headers"), c, effects)
        case Ok(u) =>
          var (c', setErr) := Set(c, clerkId, UserEntry(u), faults.onSet);
          if setErr.Some? then (Reject("failed set user in cache"), c', effects + [CacheSet(clerkId)])
          else (Next, c', effects + [CacheSet(clerkId)])
  }

  /** After the middleware has passed a request with a Clerk id on, the next
      fault-free request with that id is a cache hit: no read of the
      collection and no change to the cache. */
  lemma ClerkMiddlewareSettles(c: Store, users: UserStore, clerkId: string, faults: CacheFaults, dbFault: Option<Error>)
    requires clerkId != "" && faults.onGet.None?
    requires GetUserFromClerkId(c, users, clerkId, faults, dbFault).0.Next?
    requires clerkId in c ==> c[clerkId].UserEntry?
    ensures var c' := GetUserFromClerkId(c, users, clerkId, faults, dbFault).1;
      GetUserFromClerkId(c', users, clerkId, NoCacheFaults, None) == (Next, c', [CacheGet(clerkId)])
  {
  }
}
