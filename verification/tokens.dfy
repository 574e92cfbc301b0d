/** The connection-token collection (app/clients/plaid_client.go:426-492)
    as a sequence in the store's natural order. `FindOne` returns the first
    matching document in that order. Whether a store call fails is an input
    (`fault`).
 */
module Tokens {
  import opened Base
  import opened ObjectIds
  import opened Models
  import opened Seqs

  type TokenStore = seq<Token>

  ghost predicate UniqueIds(s: TokenStore)
  {
    forall i, j :: 0 <= i < j < |s| ==> s[i].id != s[j].id
  }

  /** SaveToken: the token gets a new id and is inserted. */
  function SaveToken(s: TokenStore, t: Token, newId: ObjectId, fault: Option<Error>): (r: (TokenStore, Option<Error>))
    ensures r.1 == fault
    ensures fault.Some? ==> r.0 == s
    ensures fault.None? ==>
      && |r.0| == |s| + 1 && r.0[..|s|] == s
      && r.0[|s|].id == newId && r.0[|s|].(id := t.id) == t
  {
    if fault.Some? then (s, fault) else (s + [t.(id := newId)], None)
  }

  /** A new id not already in the store keeps the ids unique, whatever id
      the caller's token carried. */
  lemma SaveTokenKeepsIdsUnique(s: TokenStore, t: Token, newId: ObjectId, fault: Option<Error>)
    requires UniqueIds(s)
    requires forall i :: 0 <= i < |s| ==> s[i].id != newId
    ensures UniqueIds(SaveToken(s, t, newId, fault).0)
  {
  }

  function HasId(id: ObjectId): Token -> bool
  {
    (t: Token) => t.id == id
  }

  /** UpdateToken: `$set` of value and item_id on the first record with the
      id. Matching nothing is not an error. */
  function UpdateToken(s: TokenStore, id: ObjectId, value: string, itemId: string, fault: Option<Error>)
    : (r: (TokenStore, Option<Error>))
    ensures r.1 == fault && |r.0| == |s|
    ensures fault.Some? || (forall i :: 0 <= i < |s| ==> s[i].id != id) ==> r.0 == s
    ensures forall i :: 0 <= i < |s| ==>
      && r.0[i].(value := s[i].value, itemId := s[i].itemId) == s[i]
      && (s[i].id != id ==> r.0[i] == s[i])
    ensures fault.None? ==> forall i :: 0 <= i < |s| && s[i].id == id && (forall j :: 0 <= j < i ==> s[j].id != id) ==>
      r.0[i].value == value && r.0[i].itemId == itemId
  {
    if fault.Some? then (s, fault)
    else match FindIndex(s, HasId(id))
      case None => (s, None)
      case Some(i) => (s[i := s[i].(value := value, itemId := itemId)], None)
  }

  /** With unique ids the record with that id carries the new value and item
      id, every other record is untouched, and the ids stay unique. */
  lemma UpdateTokenExact(s: TokenStore, id: ObjectId, value: string, itemId: string, i: int)
    requires UniqueIds(s) && 0 <= i < |s| && s[i].id == id
    ensures var r := UpdateToken(s, id, value, itemId, None).0;
      && r[i] == s[i].(value := value, itemId := itemId)
      && (forall j :: 0 <= j < |s| && j != i ==> r[j] == s[j])
      && UniqueIds(r)
  {
    var k := FindIndex(s, HasId(id));
    assert HasId(id)(s[i]);
    assert k == Some(i);
  }

  /** GetTokens: the records whose user id matches, in store order. */
  function GetTokens(s: TokenStore, userId: ObjectId, fault: Option<Error>): (r: Result<seq<Token>>)
    ensures fault.Some? <==> r.Err?
    ensures r.Err? ==> r.error == fault.value
    ensures r.Ok? ==> forall i :: 0 <= i < |r.value| ==> r.value[i].user.id == userId && r.value[i] in s
    ensures r.Ok? ==> forall i :: 0 <= i < |s| && s[i].user.id == userId ==> s[i] in r.value
  {
    if fault.Some? then Err(fault.value)
    else Ok(Filter(s, (t: Token) => t.user.id == userId))
  }

  /** The user's tokens come back in collection order, each as often as it
      is stored, and no other token. */
  lemma GetTokensCountsAndOrder(s: TokenStore, userId: ObjectId)
    ensures var r := GetTokens(s, userId, None).value;
      && (forall t :: (multiset(r)[t] == if t.user.id == userId then multiset(s)[t] else 0))
      && (forall n :: (0 <= n <= |s| ==> GetTokens(s[..n], userId, None).value <= r))
  {
    FilterCounts(s, (t: Token) => t.user.id == userId);
    FilterPrefixes(s, (t: Token) => t.user.id == userId);
  }

  function MatchesIdOrValue(id: ObjectId, accessToken: string): Token -> bool
  {
    (t: Token) => t.id == id || t.value == accessToken
  }

  function MatchesValue(accessToken: string): Token -> bool
  {
    (t: Token) => t.value == accessToken
  }

  /** GetToken: with a token id, a malformed id fails before any query and
      the query is `_id` OR `value`; without one it is `value` alone. */
  function GetToken(s: TokenStore, accessToken: string, tokenId: string, fault: Option<Error>): (r: Result<Token>)
    ensures tokenId != "" && FromHex(tokenId).Err? ==> r == Err(InvalidHex(tokenId))
    ensures r.Ok? ==> r.value in s && (r.value.value == accessToken || (tokenId != "" && Hex(r.value.id) == Lower(tokenId)))
    ensures r.Ok? && tokenId == "" ==> r.value.value == accessToken
  {
    if tokenId != "" then
      var id :- FromHex(tokenId);
      FromHexExactly(tokenId);
      FindOne(s, MatchesIdOrValue(id, accessToken), fault)
    else FindOne(s, MatchesValue(accessToken), fault)
  }

  /** Either clause of the `$or` suffices: a record with the right id is
      found even when its value differs, and one with the right value is
      found even when its id differs. */
  lemma GetTokenEitherClause(s: TokenStore, accessToken: string, id: ObjectId)
    ensures (exists i :: 0 <= i < |s| && (s[i].id == id || s[i].value == accessToken))
      ==> GetToken(s, accessToken, Hex(id), None).Ok?
  {
    HexRoundTrip(id);
    if exists i :: 0 <= i < |s| && (s[i].id == id || s[i].value == accessToken) {
      var i :| 0 <= i < |s| && (s[i].id == id || s[i].value == accessToken);
      assert MatchesIdOrValue(id, accessToken)(s[i]);
    }
  }

  function MatchesUser(u: User): Token -> bool
  {
    (t: Token) => t.user.id == u.id || t.user.username == u.username || t.user.email == u.email
  }

  /** GetUserToken: the first token whose embedded user has the same id,
      username or e-mail. */
  function GetUserToken(s: TokenStore, u: User, fault: Option<Error>): (r: Result<Token>)
    ensures r.Ok? ==> r.value in s && (r.value.user.id == u.id || r.value.user.username == u.username || r.value.user.email == u.email)
    ensures fault.None? ==> (r.Err? <==> forall i :: 0 <= i < |s| ==> !MatchesUser(u)(s[i]))
  {
    FindOne(s, MatchesUser(u), fault)
  }

  /** itemExists: linear membership test. */
  function ItemExists(products: seq<string>, product: string): (r: bool)
    ensures r <==> product in products
  {
    if products == [] then false else products[0] == product || ItemExists(products[1..], product)
  }
}
