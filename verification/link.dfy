/** Linking a bank: link-token creation with its purpose and product rules
    (app/clients/plaid_client.go:97-136), the public-token exchange and its
    transfer gate (app/clients/plaid_client.go:142-166), and the exchange
    handler that saves the connection and refreshes the user's cached
    details (handlers/plaid.go:90-137, 203-236).

    The provider's link-token, exchange and transfer endpoints are oracles.
    The client's product list is the one piece of client state that
    matters: it is threaded through explicitly.
 */
module Link {
  import opened Base
  import opened ObjectIds
  import opened Models
  import opened Seqs
  import opened Cache
  import opened Effects
  import opened Tokens
  import opened Identity
  import opened Aggregate

  const ProductTransactions: string := "transactions"
  const ProductTransfer: string := "transfer"
  const SubtypeCreditCard: string := "credit card"
  const SubtypeChecking: string := "checking"

  /** The account filter of a link request. `NoFilter` is the zero value a
      lookup of an unknown purpose in the filter table would give. */
  datatype AccountFilter = CreditFilter(subtypes: seq<string>) | DepositoryFilter(subtypes: seq<string>) | NoFilter

  /** purposeToAccountFilter. */
  function FilterFor(p: Purpose): (f: AccountFilter)
    ensures p == PurposeCredit <==> f == CreditFilter([SubtypeCreditCard])
    ensures p == PurposeDebit <==> f == DepositoryFilter([SubtypeChecking])
  {
    if p == PurposeCredit then CreditFilter([SubtypeCreditCard])
    else if p == PurposeDebit then DepositoryFilter([SubtypeChecking])
    else NoFilter
  }

  datatype LinkRequest = LinkRequest(clientUserId: string, products: seq<string>, filter: AccountFilter)

  datatype Exchange = Exchange(accessToken: string, itemId: string)

  /** The provider's linking endpoints. */
  datatype Linker = Linker(
    linkTokenCreate: LinkRequest -> Result<string>,
    exchange: string -> Result<Exchange>,
    transfer: string -> Option<Error>)

  /** What linking did, in order. */
  datatype Step =
    | UserRead(email: string)
    | LinkTokenRequested(request: LinkRequest)
    | Exchanged(publicToken: string)
    | TransferCreated(accessToken: string)
    | TokenSaved(token: Token)
    | Refreshed(userId: ObjectId)

  datatype LinkToken = LinkToken(token: string, userId: string)

  /** The client's direct user lookup by e-mail (no cache). */
  function FindUser(users: UserStore, email: string, dbFault: Option<Error>): (r: Result<User>)
    ensures r.Ok? ==> r.value in users && r.value.email == email
    ensures dbFault.None? ==> (r.Err? <==> forall i :: 0 <= i < |users| ==> users[i].email != email)
  {
    FindOne(users, HasEmail(email), dbFault)
  }

  /** PlaidClient.GetUser: the looked-up user reduced to id, username and
      e-mail. */
  function GetUser(users: UserStore, email: string, dbFault: Option<Error>): (r: Result<User>)
    ensures r.Ok? <==> FindUser(users, email, dbFault).Ok?
    ensures r.Ok? ==> var u := FindUser(users, email, dbFault).value;
      r.value == User(u.id, u.username, u.email, "", "")
    ensures r.Err? ==> r.error == FindUser(users, email, dbFault).error
  {
    var u :- FindUser(users, email, dbFault);
    Ok(User(u.id, u.username, u.email, "", ""))
  }

  /** LinkTokenCreate: reject an unknown purpose first; then look the user
      up; a debit link replaces the client's products by ["transactions"]
      before the request is sent, and the replacement outlives the call.
      Returns the link token, the client's products afterwards and the steps
      taken. */
  function LinkTokenCreate(products: seq<string>, lk: Linker, users: UserStore, email: string, purpose: string,
                           dbFault: Option<Error>)
    : (r: (Result<LinkToken>, seq<string>, seq<Step>))
    ensures PurposeFromString(purpose).1.Some? ==> r == (Err(InvalidPurpose), products, [])
    ensures r.1 != products ==> purpose == "debit" && r.1 == [ProductTransactions]
    ensures purpose == "debit" && FindUser(users, email, dbFault).Ok? ==> r.1 == [ProductTransactions]
    ensures PurposeFromString(purpose).1.None? ==> 1 <= |r.2| && r.2[0] == UserRead(email)
    ensures forall i :: 0 <= i < |r.2| && r.2[i].LinkTokenRequested? ==>
      && r.2[i].request.products == r.1
      && r.2[i].request.filter == FilterFor(PurposeFromString(purpose).0)
      && r.2[i].request.filter != NoFilter
    ensures r.0.Ok? ==> exists i :: (0 <= i < |users| && users[i].email == email
      && r.0.value.userId == Hex(users[i].id) && FromHex(r.0.value.userId) == Ok(users[i].id))
    ensures PurposeFromString(purpose).1.None? && FindUser(users, email, dbFault).Err? ==>
      r == (Err(FindUser(users, email, dbFault).error), products, [UserRead(email)])
    ensures PurposeFromString(purpose).1.None? && FindUser(users, email, dbFault).Ok? ==>
      var id := Hex(FindUser(users, email, dbFault).value.id);
      var request := LinkRequest(id, r.1, FilterFor(PurposeFromString(purpose).0));
      && r.2 == [UserRead(email), LinkTokenRequested(request)]
      && (r.0.Ok? <==> lk.linkTokenCreate(request).Ok?)
      && (r.0.Err? ==> r.0.error == lk.linkTokenCreate(request).error)
      && (r.0.Ok? ==> r.0.value == LinkToken(lk.linkTokenCreate(request).value, id))
  {
    var (purp, invalid) := PurposeFromString(purpose);
    if invalid.Some? then (Err(invalid.value), products, [])
    else match FindUser(users, email, dbFault)
      case Err(e) => (Err(e), products, [UserRead(email)])
      case Ok(u) =>
        var id := Hex(u.id);
        HexRoundTrip(u.id);
        var products' := if purp == PurposeDebit then [ProductTransactions] else products;
        var request := LinkRequest(id, products', FilterFor(purp));
        var steps := [UserRead(email), LinkTokenRequested(request)];
        match lk.linkTokenCreate(request)
        case Err(e) => (Err(e), products', steps)
        case Ok(t) => (Ok(LinkToken(t, id)), products', steps)
  }

  /** PlaidClient.ExchangePublicToken: exchange, then create a transfer iff
      the client's products include "transfer"; either failure fails the
      exchange. */
  function ExchangePublicToken(products: seq<string>, lk: Linker, publicToken: string): (r: (Result<Exchange>, seq<Step>))
    ensures 1 <= |r.1| <= 2 && r.1[0] == Exchanged(publicToken)
    ensures |r.1| == 2 <==> lk.exchange(publicToken).Ok? && ProductTransfer in products
    ensures |r.1| == 2 ==> r.1[1] == TransferCreated(lk.exchange(publicToken).value.accessToken)
    ensures r.0.Ok? <==> (lk.exchange(publicToken).Ok?
      && (ProductTransfer in products ==> lk.transfer(lk.exchange(publicToken).value.accessToken).None?))
    ensures r.0.Ok? ==> r.0.value == lk.exchange(publicToken).value
  {
    match lk.exchange(publicToken)
    case Err(e) => (Err(e), [Exchanged(publicToken)])
    case Ok(x) =>
      if ItemExists(products, ProductTransfer) then
        var steps := [Exchanged(publicToken), TransferCreated(x.accessToken)];
        match lk.transfer(x.accessToken)
        case Some(e) => (Err(e), steps)
        case None => (Ok(x), steps)
      else (Ok(x), [Exchanged(publicToken)])
  }

  /** Once a debit link has gone as far as the user lookup, no later
      exchange creates a transfer, whatever the products were before. */
  lemma DebitLinkDisablesTransfer(products: seq<string>, lk: Linker, users: UserStore, email: string,
                                  dbFault: Option<Error>, publicToken: string)
    requires FindUser(users, email, dbFault).Ok?
    ensures var products' := LinkTokenCreate(products, lk, users, email, "debit", dbFault).1;
      |ExchangePublicToken(products', lk, publicToken).1| == 1
  {
  }

  /** The exchange request body. */
  datatype Input = Input(email: string, publicToken: string, purpose: Purpose, institution: string, institutionId: string)

  /** The request as the handler uses it: when the e-mail field starts with
      "public" the two fields were sent the wrong way round and are swapped. */
  function SwapIfPublic(input: Input): (r: Input)
    ensures HasPrefix(input.email, "public") ==> r == input.(email := input.publicToken, publicToken := input.email)
    ensures !HasPrefix(input.email, "public") ==> r == input
  {
    if HasPrefix(input.email, "public") then input.(email := input.publicToken, publicToken := input.email) else input
  }

  /** What the lookup relies on: the swap only exchanges the two fields,
      and afterwards the e-mail used for the lookup starts with "public" only
      when both fields did. */
  lemma SwapIfPublicNormalises(input: Input)
    ensures var r := SwapIfPublic(input);
      && r.(email := input.email, publicToken := input.publicToken) == input
      && multiset{r.email, r.publicToken} == multiset{input.email, input.publicToken}
      && (HasPrefix(r.email, "public") ==> HasPrefix(input.email, "public") && HasPrefix(input.publicToken, "public"))
  {
  }

  /** The connection record assembled from the exchange, the looked-up user
      and the request. */
  function AssembleToken(x: Exchange, user: User, input: Input): (t: Token)
    ensures t.value == x.accessToken && t.itemId == x.itemId && t.user == user
    ensures t.institution == input.institution && t.institutionId == input.institutionId && t.purpose == input.purpose
  {
    Token(NilObjectId, user, x.accessToken, x.itemId, input.institution, input.institutionId, input.purpose)
  }

  /** GetandSaveAccountDetails: refresh the whole user's cached details
      (reset), not only the new connection's. A failed refresh writes a 500
      body and returns that write's result, which is nil: the caller never
      sees the error. */
  function GetandSaveAccountDetails(env: Env, c: Store, store: TokenStore, t: Token, faults: CacheFaults, tokensFault: Option<Error>)
    : (r: (Option<Error>, Store, seq<Effect>))
    ensures r.0 == None
    ensures var full := FetchDataAndCache(env, c, store, t.user.id, true, faults, tokensFault);
      r.1 == full.1 && r.2 == full.2
  {
    var (_, c', effects) := FetchDataAndCache(env, c, store, t.user.id, true, faults, tokensFault);
    (None, c', effects)
  }

  datatype Exchanged = ExchangeResult(accessToken: string, itemId: string, input: Input)

  /** The state the exchange handler touches. */
  datatype State = State(products: seq<string>, tokens: TokenStore, cache: Store)

  /** The ExchangePublicToken handler: swap the fields if needed, look the
      user up, exchange, save the assembled connection, refresh the user's
      cached details, each step only after the previous one succeeded. */
  function ExchangeHandler(s: State, lk: Linker, env: Env, users: UserStore, raw: Input, newId: ObjectId,
                           dbFault: Option<Error>, saveFault: Option<Error>, faults: CacheFaults, tokensFault: Option<Error>)
    : (r: (Response<Exchanged>, State, seq<Step>))
    ensures r.1.products == s.products
    ensures var input := SwapIfPublic(raw);
      && (GetUser(users, input.email, dbFault).Err? ==>
            r == (Failure(StatusInternalServerError, "Failure to get user for token"), s, [UserRead(input.email)]))
      && (GetUser(users, input.email, dbFault).Ok? && ExchangePublicToken(s.products, lk, input.publicToken).0.Err? ==>
            r.0 == Failure(StatusInternalServerError, "Failure to exchange for token") && r.1 == s)
    ensures r.1.tokens != s.tokens ==>
      var input := SwapIfPublic(raw);
      var user := GetUser(users, input.email, dbFault).value;
      var x := ExchangePublicToken(s.products, lk, input.publicToken).0.value;
      && GetUser(users, input.email, dbFault).Ok?
      && ExchangePublicToken(s.products, lk, input.publicToken).0.Ok?
      && r.1.tokens == s.tokens + [AssembleToken(x, user, input).(id := newId)]
      && r.0 == Success("Access token created successfully", ExchangeResult(x.accessToken, x.itemId, input))
    ensures !r.0.Success? ==> r.1 == s
    ensures r.0.Success? ==>
      var user := GetUser(users, SwapIfPublic(raw).email, dbFault).value;
      && r.1.cache == FetchDataAndCache(env, s.cache, r.1.tokens, user.id, true, faults, tokensFault).1
      && |r.2| >= 2 && r.2[|r.2| - 1] == Refreshed(user.id)
  {
    var input := SwapIfPublic(raw);
    match GetUser(users, input.email, dbFault)
    case Err(_) => (Failure(StatusInternalServerError, "Failure to get user for token"), s, [UserRead(input.email)])
    case Ok(user) =>
      var (exchanged, exSteps) := ExchangePublicToken(s.products, lk, input.publicToken);
      var steps := [UserRead(input.email)] + exSteps;
      match exchanged
      case Err(_) => (Failure(StatusInternalServerError, "Failure to exchange for token"), s, steps)
      case Ok(x) =>
        var t := AssembleToken(x, user, input);
        var (tokens', saveErr) := SaveToken(s.tokens, t, newId, saveFault);
        if saveErr.Some? then (Failure(StatusInternalServerError, "Failure to save token"), s, steps)
        else
          var saved := tokens'[|tokens'| - 1];
          var (_, c', _) := GetandSaveAccountDetails(env, s.cache, tokens', saved, faults, tokensFault);
          (Success("Access token created successfully", ExchangeResult(x.accessToken, x.itemId, input)),
           State(s.products, tokens', c'),
           steps + [TokenSaved(saved), Refreshed(user.id)])
  }

  /** The order of the handler's steps. */
  function StepRank(st: Step): int
  {
    match st
    case UserRead(_) => 0
    case LinkTokenRequested(_) => 1
    case Exchanged(_) => 2
    case TransferCreated(_) => 3
    case TokenSaved(_) => 4
    case Refreshed(_) => 5
  }

  /** Steps happen in the order lookup, exchange, (transfer), save, refresh,
      and a connection is saved only when every earlier step succeeded; when
      it is, the handler reports success whatever the refresh did. */
  lemma ExchangeHandlerOrder(s: State, lk: Linker, env: Env, users: UserStore, raw: Input, newId: ObjectId,
                             dbFault: Option<Error>, saveFault: Option<Error>, faults: CacheFaults, tokensFault: Option<Error>)
    ensures var (resp, s', steps) := ExchangeHandler(s, lk, env, users, raw, newId, dbFault, saveFault, faults, tokensFault);
      && (forall i, j :: 0 <= i < j < |steps| ==> StepRank(steps[i]) < StepRank(steps[j]))
      && ((exists i :: 0 <= i < |steps| && steps[i].TokenSaved?) <==> s'.tokens != s.tokens)
      && (s'.tokens != s.tokens <==> resp.Success?)
  {
    var r := ExchangeHandler(s, lk, env, users, raw, newId, dbFault, saveFault, faults, tokensFault);
    if r.1.tokens != s.tokens {
      assert r.2[|r.2| - 2].TokenSaved?;
    }
  }

  /** The saved connection carries the exchange's access token and item id,
      the user found under the (possibly swapped) e-mail, and the request's
      institution and purpose; its id is a new one. */
  lemma ExchangeHandlerSavesAssembledToken(s: State, lk: Linker, env: Env, users: UserStore, raw: Input, newId: ObjectId,
                                           faults: CacheFaults, tokensFault: Option<Error>)
    requires ExchangeHandler(s, lk, env, users, raw, newId, None, None, faults, tokensFault).0.Success?
    ensures var s' := ExchangeHandler(s, lk, env, users, raw, newId, None, None, faults, tokensFault).1;
      var input := SwapIfPublic(raw);
      var t := s'.tokens[|s'.tokens| - 1];
      && |s'.tokens| == |s.tokens| + 1
      && t.id == newId
      && t.value == lk.exchange(input.publicToken).value.accessToken
      && t.itemId == lk.exchange(input.publicToken).value.itemId
      && t.user.id == FindUser(users, input.email, None).value.id
      && t.user.email == input.email
      && t.institution == input.institution && t.purpose == input.purpose
  {
  }
}
