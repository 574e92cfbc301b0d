/** The cache-backed aggregation state machine: `FetchDataAndCache`
    (handlers/utils.go:138-183) and its two projections, and the explicit
    invalidation `ClearCache` (handlers/health.go:19-36).

    Each operation returns its answer, the cache afterwards and the effects
    it had, so "nothing was fetched" and "nothing else changed" are
    statements about those results.
 */
module Aggregate {
  import opened Base
  import opened ObjectIds
  import opened Models
  import opened Fetch
  import opened Normalize
  import opened Cache
  import opened Effects
  import opened Tokens
  import opened Identity
  import opened Seqs

  /** What gathering one token's details yields: the normalised details or
      the error, and the provider calls made. */
  type Gather = Token -> (Result<AccountDetails>, seq<ProviderCall>)

  /** The handler's context: how one token's details are gathered. */
  datatype Env = Env(gather: Gather)

  /** The wiring the handlers use: each token goes through GetAccountDetails
      with the handler's provider, window and id source. */
  function PlaidEnv(p: Provider, w: Window, newId: ObjectId): (env: Env)
    ensures forall t :: env.gather(t) == GetAccountDetails(p, w, t, newId)
  {
    Env((t: Token) => GetAccountDetails(p, w, t, newId))
  }

  const NoDetails: AccountDetails := AccountDetails([], [])

  function ProviderEffects(calls: seq<ProviderCall>): (r: seq<Effect>)
    ensures |r| == |calls| && forall i :: 0 <= i < |r| ==> r[i] == ProviderCalled(calls[i])
  {
    seq(|calls|, i requires 0 <= i < |calls| => ProviderCalled(calls[i]))
  }

  /** What the provider and normaliser produce for one token. */
  function TokenDetails(env: Env, t: Token): Result<AccountDetails>
  {
    env.gather(t).0
  }

  /** The token loop: each token's accounts and transactions are appended to
      what has been gathered so far; the first failing token ends the loop. */
  function Consolidate(env: Env, tokens: seq<Token>, acc: AccountDetails): (r: (Result<AccountDetails>, seq<Effect>))
    ensures forall i :: 0 <= i < |r.1| ==> r.1[i].ProviderCalled?
    ensures r.0.Ok? ==> acc.accounts <= r.0.value.accounts && acc.transactions <= r.0.value.transactions
    decreases |tokens|
  {
    if tokens == [] then (Ok(acc), [])
    else
      var res := env.gather(tokens[0]);
      var effects := ProviderEffects(res.1);
      match res.0
      case Err(e) => (Err(e), effects)
      case Ok(d) =>
        var rest := Consolidate(env, tokens[1..], AccountDetails(acc.accounts + d.accounts, acc.transactions + d.transactions));
        (rest.0, effects + rest.1)
  }

  /** Reference definition: the per-token results laid end to end, in token
      order, each token's own order kept. */
  function Concatenated(env: Env, tokens: seq<Token>): AccountDetails
    decreases |tokens|
  {
    if tokens == [] then NoDetails
    else
      var front := Concatenated(env, tokens[..|tokens| - 1]);
      var d := match TokenDetails(env, tokens[|tokens| - 1])
        case Ok(d) => d
        case Err(_) => NoDetails;
      AccountDetails(front.accounts + d.accounts, front.transactions + d.transactions)
  }

  lemma {:induction false} ConcatenatedCons(env: Env, t: Token, tokens: seq<Token>)
    requires TokenDetails(env, t).Ok?
    ensures var d := TokenDetails(env, t).value;
      var rest := Concatenated(env, tokens);
      Concatenated(env, [t] + tokens) == AccountDetails(d.accounts + rest.accounts, d.transactions + rest.transactions)
    decreases |tokens|
  {
    if tokens == [] {
      assert ([t] + tokens)[..0] == [];
    } else {
      var pre := tokens[..|tokens| - 1];
      ConcatenatedCons(env, t, pre);
      assert ([t] + tokens)[..|[t] + tokens| - 1] == [t] + pre;
    }
  }

  /** The loop gathers exactly the concatenation when every token succeeds,
      and otherwise fails with the error of the first token that fails. */
  lemma {:induction false} ConsolidateIsConcatenation(env: Env, tokens: seq<Token>, acc: AccountDetails)
    ensures var r := Consolidate(env, tokens, acc).0;
      && (r.Ok? <==> forall i :: 0 <= i < |tokens| ==> TokenDetails(env, tokens[i]).Ok?)
      && (r.Ok? ==> r.value == AccountDetails(acc.accounts + Concatenated(env, tokens).accounts,
                                               acc.transactions + Concatenated(env, tokens).transactions))
      && (r.Err? ==> exists i :: 0 <= i < |tokens| && TokenDetails(env, tokens[i]) == Err(r.error)
                       && forall j :: 0 <= j < i ==> TokenDetails(env, tokens[j]).Ok?)
    decreases |tokens|
  {
    if tokens != [] {
      var t := tokens[0];
      var rest := tokens[1..];
      assert tokens == [t] + rest;
      match TokenDetails(env, t)
      case Err(e) =>
        assert TokenDetails(env, tokens[0]) == Err(e);
      case Ok(d) =>
        var acc' := AccountDetails(acc.accounts + d.accounts, acc.transactions + d.transactions);
        ConsolidateIsConcatenation(env, rest, acc');
        ConcatenatedCons(env, t, rest);
        var r := Consolidate(env, tokens, acc).0;
        if r.Err? {
          var i :| 0 <= i < |rest| && TokenDetails(env, rest[i]) == Err(r.error)
            && forall j :: 0 <= j < i ==> TokenDetails(env, rest[j]).Ok?;
          assert TokenDetails(env, tokens[i + 1]) == Err(r.error);
          assert forall j :: 0 <= j < i + 1 ==> TokenDetails(env, tokens[j]).Ok? by {
            forall j | 0 <= j < i + 1 ensures TokenDetails(env, tokens[j]).Ok? {
              if j > 0 {
                assert tokens[j] == rest[j - 1];
              }
            }
          }
        } else {
          assert forall i :: 0 <= i < |tokens| ==> TokenDetails(env, tokens[i]).Ok? by {
            forall i | 0 <= i < |tokens| ensures TokenDetails(env, tokens[i]).Ok? {
              if i > 0 {
                assert tokens[i] == rest[i - 1];
              }
            }
          }
        }
    }
  }

  /** The cache key of a user's consolidated details. */
  function DetailsKey(userId: ObjectId): string
  {
    Hex(userId)
  }

  /** The fetch path: read the user's tokens, gather every token's details,
      then cache the result for 24 hours. A failed write fails the call even
      though the details were gathered. */
  function FetchAndStore(env: Env, c: Store, store: TokenStore, userId: ObjectId, faults: CacheFaults, tokensFault: Option<Error>)
    : (r: (Result<AccountDetails>, Store, seq<Effect>))
    ensures 1 <= |r.2| && r.2[0] == TokensRead(userId)
    ensures tokensFault.Some? ==> r == (Err(tokensFault.value), c, [TokensRead(userId)])
    ensures r.0.Ok? ==> r.1 == c[DetailsKey(userId) := DetailsEntry(r.0.value)] && r.2[|r.2| - 1] == CacheSet(DetailsKey(userId))
    ensures r.1 != c ==> r.2[|r.2| - 1] == CacheSet(DetailsKey(userId))
    ensures forall k :: k != DetailsKey(userId) ==> (k in r.1 <==> k in c) && (k in c ==> r.1[k] == c[k])
  {
    var key := DetailsKey(userId);
    match GetTokens(store, userId, tokensFault)
    case Err(e) => (Err(e), c, [TokensRead(userId)])
    case Ok(tokens) =>
      var gathered := Consolidate(env, tokens, NoDetails);
      var effects := [TokensRead(userId)] + gathered.1;
      match gathered.0
      case Err(e) => (Err(e), c, effects)
      case Ok(d) =>
        var written := Set(c, key, DetailsEntry(d), faults.onSet);
        if written.1.Some? then (Err(written.1.value), written.0, effects + [CacheSet(key)])
        else (Ok(d), written.0, effects + [CacheSet(key)])
  }

  /** FetchDataAndCache. With `reset` the user's key is deleted first (a
      failed delete ends the call) and the fetch path is taken whatever the
      read returns; without it a miss takes the fetch path, a hit answers
      from the cache and any other read failure is returned. */
  function FetchDataAndCache(env: Env, c: Store, store: TokenStore, userId: ObjectId, reset: bool,
                             faults: CacheFaults, tokensFault: Option<Error>)
    : (r: (Result<AccountDetails>, Store, seq<Effect>))
    ensures reset ==> 1 <= |r.2| && r.2[0] == CacheDelete(DetailsKey(userId))
    ensures reset && faults.onDelete.Some? ==> r == (Err(faults.onDelete.value), c, [CacheDelete(DetailsKey(userId))])
    ensures forall k :: k != DetailsKey(userId) ==> (k in r.1 <==> k in c) && (k in c ==> r.1[k] == c[k])
    ensures r.0.Ok? ==> DetailsKey(userId) in r.1 && r.1[DetailsKey(userId)] == DetailsEntry(r.0.value)
  {
    var key := DetailsKey(userId);
    if reset && faults.onDelete.Some? then (Err(faults.onDelete.value), c, [CacheDelete(key)])
    else
      var c1 := if reset then Delete(c, key, None).0 else c;
      var before := if reset then [CacheDelete(key), CacheGet(key)] else [CacheGet(key)];
      var got := GetDetails(c1, key, faults.onGet);
      if got.Miss? || reset then
        var fetched := FetchAndStore(env, c1, store, userId, faults, tokensFault);
        (fetched.0, fetched.1, before + fetched.2)
      else match got
        case Failed(e) => (Err(e), c1, before)
        case Hit(d) => (Ok(d), c1, before)
  }

  /** The fetch path was taken: the token collection was read. */
  predicate Fetched(effects: seq<Effect>)
  {
    exists i :: 0 <= i < |effects| && effects[i].TokensRead?
  }

  /** With `reset` and a successful delete, the fetch path is taken whatever
      the cache read returns. */
  lemma ResetAlwaysFetches(env: Env, c: Store, store: TokenStore, userId: ObjectId, faults: CacheFaults, tokensFault: Option<Error>)
    requires faults.onDelete.None?
    ensures var r := FetchDataAndCache(env, c, store, userId, true, faults, tokensFault);
      |r.2| >= 3 && r.2[..3] == [CacheDelete(DetailsKey(userId)), CacheGet(DetailsKey(userId)), TokensRead(userId)]
  {
  }

  /** A hit answers with the cached value and touches nothing else: no
      token read, no provider call, no write. */
  lemma HitIsServedFromCache(env: Env, c: Store, store: TokenStore, userId: ObjectId, faults: CacheFaults, tokensFault: Option<Error>)
    requires GetDetails(c, DetailsKey(userId), faults.onGet).Hit?
    ensures FetchDataAndCache(env, c, store, userId, false, faults, tokensFault)
      == (Ok(GetDetails(c, DetailsKey(userId), faults.onGet).value), c, [CacheGet(DetailsKey(userId))])
  {
  }

  /** A read failure other than a miss is returned as it is, with nothing
      fetched and the cache unchanged. */
  lemma ReadFailureIsReturned(env: Env, c: Store, store: TokenStore, userId: ObjectId, faults: CacheFaults, tokensFault: Option<Error>)
    requires GetDetails(c, DetailsKey(userId), faults.onGet).Failed?
    ensures FetchDataAndCache(env, c, store, userId, false, faults, tokensFault)
      == (Err(GetDetails(c, DetailsKey(userId), faults.onGet).error), c, [CacheGet(DetailsKey(userId))])
  {
  }

  /** After any successful call, a second fault-free call without reset
      answers the same details from the cache and changes nothing. */
  lemma SecondCallIsAHit(env: Env, c: Store, store: TokenStore, userId: ObjectId, reset: bool,
                         faults: CacheFaults, tokensFault: Option<Error>)
    requires FetchDataAndCache(env, c, store, userId, reset, faults, tokensFault).0.Ok?
    ensures var (r, c', _) := FetchDataAndCache(env, c, store, userId, reset, faults, tokensFault);
      FetchDataAndCache(env, c', store, userId, false, NoCacheFaults, None) == (r, c', [CacheGet(DetailsKey(userId))])
  {
  }

  /** On the fetch path the answer is the concatenation of every token's
      details in token order, the provider was called for the tokens, and
      the cache now holds exactly that answer. A failed write returns an
      error although the details were gathered. */
  lemma FetchPathResult(env: Env, c: Store, store: TokenStore, userId: ObjectId, reset: bool,
                        faults: CacheFaults)
    requires reset ==> faults.onDelete.None?
    requires reset || GetDetails(c, DetailsKey(userId), faults.onGet).Miss?
    requires forall t :: t in store && t.user.id == userId ==> TokenDetails(env, t).Ok?
    ensures var r := FetchDataAndCache(env, c, store, userId, reset, faults, None);
      var tokens := Filter(store, (t: Token) => t.user.id == userId);
      && Fetched(r.2)
      && (faults.onSet.None? ==> r.0 == Ok(Concatenated(env, tokens)))
      && (faults.onSet.Some? ==> r.0 == Err(faults.onSet.value))
  {
    var key := DetailsKey(userId);
    var tokens := Filter(store, (t: Token) => t.user.id == userId);
    assert GetTokens(store, userId, None) == Ok(tokens);
    assert forall i :: 0 <= i < |tokens| ==> TokenDetails(env, tokens[i]).Ok? by {
      forall i | 0 <= i < |tokens| ensures TokenDetails(env, tokens[i]).Ok? {
        assert tokens[i] in store && tokens[i].user.id == userId;
      }
    }
    ConsolidateIsConcatenation(env, tokens, NoDetails);
    var gathered := Consolidate(env, tokens, NoDetails);
    var all := Concatenated(env, tokens);
    assert NoDetails.accounts + all.accounts == all.accounts;
    assert NoDetails.transactions + all.transactions == all.transactions;
    assert gathered.0 == Ok(Concatenated(env, tokens));
    var c1 := if reset then Delete(c, key, None).0 else c;
    var fetched := FetchAndStore(env, c1, store, userId, faults, None);
    assert fetched.2[0] == TokensRead(userId);
    assert faults.onSet.None? ==> fetched.0 == Ok(Concatenated(env, tokens));
    var before := if reset then [CacheDelete(key), CacheGet(key)] else [CacheGet(key)];
    var r := FetchDataAndCache(env, c, store, userId, reset, faults, None);
    assert r == (fetched.0, fetched.1, before + fetched.2);
    assert r.2[|before|] == TokensRead(userId);
  }

  /** A fetch that fails before the write: a failed token read returns
      that error, otherwise the first of the user's tokens whose details
      fail decides the error; the cache is not written. */
  lemma FetchAndStoreFailure(env: Env, c: Store, store: TokenStore, userId: ObjectId,
                             faults: CacheFaults, tokensFault: Option<Error>)
    requires tokensFault.Some? || exists t :: t in store && t.user.id == userId && TokenDetails(env, t).Err?
    ensures var r := FetchAndStore(env, c, store, userId, faults, tokensFault);
      var tokens := GetTokens(store, userId, None).value;
      && r.0.Err?
      && r.1 == c
      && CacheSet(DetailsKey(userId)) !in r.2
      && (tokensFault.Some? ==> r.0.error == tokensFault.value)
      && (tokensFault.None? ==> exists i :: 0 <= i < |tokens| && TokenDetails(env, tokens[i]) == Err(r.0.error)
                                   && forall j :: 0 <= j < i ==> TokenDetails(env, tokens[j]).Ok?)
  {
    if tokensFault.None? {
      var tokens := GetTokens(store, userId, None).value;
      var t :| t in store && t.user.id == userId && TokenDetails(env, t).Err?;
      var k :| 0 <= k < |store| && store[k] == t;
      assert t in tokens;
      ConsolidateFailure(env, tokens);
      var g := Consolidate(env, tokens, NoDetails);
      assert FetchAndStore(env, c, store, userId, faults, None) == (g.0, c, [TokensRead(userId)] + g.1);
      var i :| 0 <= i < |tokens| && TokenDetails(env, tokens[i]) == Err(g.0.error)
            && forall j :: 0 <= j < i ==> TokenDetails(env, tokens[j]).Ok?;
    }
  }

  /** When some token fails, the loop fails with the first failing token's
      error, having only called the provider. */
  lemma ConsolidateFailure(env: Env, tokens: seq<Token>)
    requires exists t :: t in tokens && TokenDetails(env, t).Err?
    ensures var g := Consolidate(env, tokens, NoDetails);
      && g.0.Err?
      && (exists i :: 0 <= i < |tokens| && TokenDetails(env, tokens[i]) == Err(g.0.error)
            && forall j :: 0 <= j < i ==> TokenDetails(env, tokens[j]).Ok?)
      && !(exists e :: e in g.1 && e.CacheSet?)
  {
    ConsolidateIsConcatenation(env, tokens, NoDetails);
  }

  /** The fetch path of FetchDataAndCache when it fails before the write:
      the error is the token read's or the first failing token's, and the
      cache is left as it was after the optional delete. */
  lemma FetchPathFailure(env: Env, c: Store, store: TokenStore, userId: ObjectId, reset: bool,
                         faults: CacheFaults, tokensFault: Option<Error>)
    requires reset ==> faults.onDelete.None?
    requires reset || GetDetails(c, DetailsKey(userId), faults.onGet).Miss?
    requires tokensFault.Some? || exists t :: t in store && t.user.id == userId && TokenDetails(env, t).Err?
    ensures var r := FetchDataAndCache(env, c, store, userId, reset, faults, tokensFault);
      var tokens := GetTokens(store, userId, None).value;
      && r.0.Err?
      && r.1 == (if reset then c - {DetailsKey(userId)} else c)
      && CacheSet(DetailsKey(userId)) !in r.2
      && (tokensFault.Some? ==> r.0.error == tokensFault.value)
      && (tokensFault.None? ==> exists i :: 0 <= i < |tokens| && TokenDetails(env, tokens[i]) == Err(r.0.error)
                                   && forall j :: 0 <= j < i ==> TokenDetails(env, tokens[j]).Ok?)
  {
    var key := DetailsKey(userId);
    var c1 := if reset then Delete(c, key, None).0 else c;
    var before := if reset then [CacheDelete(key), CacheGet(key)] else [CacheGet(key)];
    FetchAndStoreFailure(env, c1, store, userId, faults, tokensFault);
    var fetched := FetchAndStore(env, c1, store, userId, faults, tokensFault);
    assert FetchDataAndCache(env, c, store, userId, reset, faults, tokensFault) == (fetched.0, fetched.1, before + fetched.2);
  }

  /** FetchAccountDetails: the accounts of FetchDataAndCache(reset=false). */
  function FetchAccountDetails(env: Env, c: Store, store: TokenStore, userId: ObjectId, faults: CacheFaults, tokensFault: Option<Error>)
    : (r: (Result<seq<Option<Account>>>, Store))
    ensures var full := FetchDataAndCache(env, c, store, userId, false, faults, tokensFault);
      && r.1 == full.1
      && (r.0.Ok? <==> full.0.Ok?)
      && (r.0.Ok? ==> r.0.value == full.0.value.accounts)
      && (r.0.Err? ==> r.0.error == full.0.error)
  {
    var (full, c', _) := FetchDataAndCache(env, c, store, userId, false, faults, tokensFault);
    match full
    case Ok(d) => (Ok(d.accounts), c')
    case Err(e) => (Err(e), c')
  }

  /** FetchTransactionDetails: the transactions of FetchDataAndCache(reset=false). */
  function FetchTransactionDetails(env: Env, c: Store, store: TokenStore, userId: ObjectId, faults: CacheFaults, tokensFault: Option<Error>)
    : (r: (Result<seq<Transaction>>, Store))
    ensures var full := FetchDataAndCache(env, c, store, userId, false, faults, tokensFault);
      && r.1 == full.1
      && (r.0.Ok? <==> full.0.Ok?)
      && (r.0.Ok? ==> r.0.value == full.0.value.transactions)
      && (r.0.Err? ==> r.0.error == full.0.error)
  {
    var (full, c', _) := FetchDataAndCache(env, c, store, userId, false, faults, tokensFault);
    match full
    case Ok(d) => (Ok(d.transactions), c')
    case Err(e) => (Err(e), c')
  }

  // ---------------------------------------------------------------------------
  // Health
  // ---------------------------------------------------------------------------

  /** HandleHealthCheck: the body is always "OK". */
  function HandleHealthCheck(): (body: string)
    ensures body == "OK"
  {
    "OK"
  }

  /** ClearCache: look the user up by e-mail (read-through), then delete the
      key of their consolidated details. */
  function ClearCache(c: Store, users: UserStore, email: string, faults: CacheFaults, dbFault: Option<Error>)
    : (r: (Response<()>, Store))
    ensures var lookup := GetUserByEmail(c, users, email, faults, dbFault);
      && (lookup.0.Err? ==> r == (Failure(StatusInternalServerError, "failed getting users account"), c))
      && (lookup.0.Ok? && faults.onDelete.Some? ==> r == (Failure(StatusInternalServerError, "failed clearing cache"), lookup.1))
      && (lookup.0.Ok? && faults.onDelete.None? ==>
            r.0 == Success("cache cleared", ()) && r.1 == lookup.1 - {DetailsKey(lookup.0.value.id)})
  {
    var (found, c1, _) := GetUserByEmail(c, users, email, faults, dbFault);
    match found
    case Err(_) => (Failure(StatusInternalServerError, "failed getting users account"), c1)
    case Ok(u) =>
      var (c2, err) := Delete(c1, DetailsKey(u.id), faults.onDelete);
      if err.Some? then (Failure(StatusInternalServerError, "failed clearing cache"), c2)
      else (Success("cache cleared", ()), c2)
  }

  /** After a successful ClearCache, the next FetchDataAndCache for that
      user without reset takes the fetch path. */
  lemma ClearCacheForcesRefetch(c: Store, users: UserStore, email: string, faults: CacheFaults, dbFault: Option<Error>,
                                env: Env, store: TokenStore, tokensFault: Option<Error>, getFault: Option<Error>)
    requires ClearCache(c, users, email, faults, dbFault).0.Success?
    ensures var u := GetUserByEmail(c, users, email, faults, dbFault).0.value;
      var c' := ClearCache(c, users, email, faults, dbFault).1;
      var r := FetchDataAndCache(env, c', store, u.id, false, NoCacheFaults.(onGet := None), tokensFault);
      GetDetails(c', DetailsKey(u.id), None) == Miss && r.2[1] == TokensRead(u.id)
  {
  }
}
