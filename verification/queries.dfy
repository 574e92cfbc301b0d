/** Questions answered from a user's consolidated account list
    (handlers/accounts.go, handlers/plaid.go:238-308): which account types
    are linked, the first depository balance, lookup by account id.

    The list comes from `FetchAccountDetails` and can hold nil slots (credit
    accounts with no liability). Every loop here reads a field of each
    account it passes, so reaching a nil slot is a nil dereference: the scan
    fails with `Panic`, and a handler answers `Abort`.
 */
module Queries {
  import opened Base
  import opened ObjectIds
  import opened Models
  import opened Fetch
  import opened Cache
  import opened Tokens
  import opened Identity
  import opened Aggregate
  import Link

  type Accounts = seq<Option<Account>>

  /** Everything the account handlers read besides the cache: how details
      are gathered, the connection collection and which calls fail. */
  datatype Session = Session(env: Env, tokens: TokenStore, faults: CacheFaults, tokensFault: Option<Error>)

  predicate NoNilSlots(accs: Accounts)
  {
    forall j :: 0 <= j < |accs| ==> accs[j].Some?
  }

  /** A front-to-back loop that stops at the first account satisfying `p`;
      a nil slot reached first panics. */
  function Scan(accs: Accounts, p: Account -> bool): (r: Result<Option<nat>>)
    ensures r.Ok? && r.value.Some? ==>
      && r.value.value < |accs| && accs[r.value.value].Some? && p(accs[r.value.value].value)
      && forall j :: 0 <= j < r.value.value ==> accs[j].Some? && !p(accs[j].value)
    ensures r == Ok(None) <==> forall j :: 0 <= j < |accs| ==> accs[j].Some? && !p(accs[j].value)
    ensures r.Err? ==> r.error.Panic? && exists k :: (0 <= k < |accs| && accs[k].None?
      && forall j :: 0 <= j < k ==> accs[j].Some? && !p(accs[j].value))
    decreases |accs|
  {
    if accs == [] then Ok(None)
    else match accs[0]
      case None => Err(Panic("nil account"))
      case Some(a) =>
        if p(a) then Ok(Some(0))
        else match Scan(accs[1..], p)
          case Ok(Some(i)) => Ok(Some(i + 1))
          case Ok(None) => Ok(None)
          case Err(e) =>
            var k :| 0 <= k < |accs[1..]| && accs[1..][k].None?
              && forall j :: 0 <= j < k ==> accs[1..][j].Some? && !p(accs[1..][j].value);
            assert accs[k + 1].None?;
            Err(e)
  }

  /** Without nil slots the scan never fails, and it finds something iff
      some account satisfies `p`. */
  lemma ScanWithoutNils(accs: Accounts, p: Account -> bool)
    requires NoNilSlots(accs)
    ensures Scan(accs, p).Ok?
    ensures Scan(accs, p).value.Some? <==> exists i :: 0 <= i < |accs| && p(accs[i].value)
  {
  }

  function HasType(accType: string): Account -> bool
  {
    (a: Account) => a.accType == accType
  }

  function HasAccountId(accId: string): Account -> bool
  {
    (a: Account) => a.id == accId
  }

  /** GetUserAccounts: FetchAccountDetails without reset, error included. */
  function GetUserAccounts(s: Session, c: Store, userId: ObjectId): (r: (Result<Accounts>, Store))
    ensures var full := FetchDataAndCache(s.env, c, s.tokens, userId, false, s.faults, s.tokensFault);
      && r.1 == full.1
      && (r.0.Ok? <==> full.0.Ok?)
      && (r.0.Ok? ==> r.0.value == full.0.value.accounts)
      && (r.0.Err? ==> r.0.error == full.0.error)
  {
    FetchAccountDetails(s.env, c, s.tokens, userId, s.faults, s.tokensFault)
  }

  /** AccountLinked over an already fetched list: is there an account whose
      type is exactly `accType`? */
  function Linked(accs: Accounts, accType: string): (r: Result<bool>)
    ensures r.Err? ==> r.error.Panic?
    ensures NoNilSlots(accs) ==> r == Ok(exists i :: 0 <= i < |accs| && accs[i].value.accType == accType)
    ensures r == Ok(true) ==> exists i :: 0 <= i < |accs| && accs[i].Some? && accs[i].value.accType == accType
  {
    LinkedScan(accs, accType);
    match Scan(accs, HasType(accType))
    case Err(e) => Err(e)
    case Ok(found) => Ok(found.Some?)
  }

  lemma LinkedScan(accs: Accounts, accType: string)
    ensures NoNilSlots(accs) ==> (Scan(accs, HasType(accType)).Ok?
      && (Scan(accs, HasType(accType)).value.Some? <==> exists i :: 0 <= i < |accs| && accs[i].value.accType == accType))
  {
    if NoNilSlots(accs) {
      ScanWithoutNils(accs, HasType(accType));
      if exists i :: 0 <= i < |accs| && accs[i].value.accType == accType {
        var i :| 0 <= i < |accs| && accs[i].value.accType == accType;
        assert HasType(accType)(accs[i].value);
      }
    }
  }

  /** AccountLinked: fetch the user's accounts (errors propagate), then ask
      `Linked`. */
  function AccountLinked(s: Session, c: Store, userId: ObjectId, accType: string): (r: (Result<bool>, Store))
    ensures var fetched := GetUserAccounts(s, c, userId);
      && r.1 == fetched.1
      && (fetched.0.Err? ==> r.0 == Err(fetched.0.error))
      && (fetched.0.Ok? ==> r.0 == Linked(fetched.0.value, accType))
  {
    var (fetched, c') := GetUserAccounts(s, c, userId);
    match fetched
    case Err(e) => (Err(e), c')
    case Ok(accs) => (Linked(accs, accType), c')
  }

  /** IsDebitAccountLinked: a "depository" account exists. */
  function IsDebitAccountLinked(s: Session, c: Store, userId: ObjectId): (r: (Result<bool>, Store))
    ensures var fetched := GetUserAccounts(s, c, userId);
      && r.1 == fetched.1
      && (fetched.0.Err? ==> r.0 == Err(fetched.0.error))
      && (fetched.0.Ok? && NoNilSlots(fetched.0.value) ==>
            r.0 == Ok(exists i :: 0 <= i < |fetched.0.value| && fetched.0.value[i].value.accType == DepositoryType))
  {
    AccountLinked(s, c, userId, DepositoryType)
  }

  /** IsCreditAccountLinked: a "credit" account exists. */
  function IsCreditAccountLinked(s: Session, c: Store, userId: ObjectId): (r: (Result<bool>, Store))
    ensures var fetched := GetUserAccounts(s, c, userId);
      && r.1 == fetched.1
      && (fetched.0.Err? ==> r.0 == Err(fetched.0.error))
      && (fetched.0.Ok? && NoNilSlots(fetched.0.value) ==>
            r.0 == Ok(exists i :: 0 <= i < |fetched.0.value| && fetched.0.value[i].value.accType == CreditType))
  {
    AccountLinked(s, c, userId, CreditType)
  }

  datatype LinkedKinds = LinkedKinds(debit: bool, credit: bool)

  /** ArePlaidAccountsLinked: look the user up with the client's uncached
      query (404 on failure), then the debit check, then the credit check;
      either check failing is a 500. Only the checks touch the cache. */
  function ArePlaidAccountsLinked(s: Session, c: Store, users: UserStore, email: string, dbFault: Option<Error>)
    : (r: (Response<LinkedKinds>, Store))
    ensures var found := Link.FindUser(users, email, dbFault);
      && (found.Err? ==> r == (Failure(StatusNotFound, "user not found"), c))
      && (found.Ok? ==>
            var debit := IsDebitAccountLinked(s, c, found.value.id);
            && (debit.0.Err? ==> r == (Failure(StatusInternalServerError, LinkedFailure), debit.1))
            && (debit.0.Ok? ==>
                  var credit := IsCreditAccountLinked(s, debit.1, found.value.id);
                  && r.1 == credit.1
                  && (credit.0.Err? ==> r.0 == Failure(StatusInternalServerError, LinkedFailure))
                  && (credit.0.Ok? ==> r.0 == Success("", LinkedKinds(debit.0.value, credit.0.value)))))
  {
    match Link.FindUser(users, email, dbFault)
    case Err(_) => (Failure(StatusNotFound, "user not found"), c)
    case Ok(u) =>
      var (debit, c2) := IsDebitAccountLinked(s, c, u.id);
      match debit
      case Err(_) => (Failure(StatusInternalServerError, LinkedFailure), c2)
      case Ok(d) =>
        var (credit, c3) := IsCreditAccountLinked(s, c2, u.id);
        match credit
        case Err(_) => (Failure(StatusInternalServerError, LinkedFailure), c3)
        case Ok(cr) => (Success("", LinkedKinds(d, cr)), c3)
  }

  /** The message of both 500s (the source reuses the credit wording). */
  const LinkedFailure: string := "Error on fetching user's credit accounts"

  /** With a working cache and a list without nil slots, the answer reports
      for the one fetched list whether some account is "depository" and
      whether some account is "credit". */
  lemma ArePlaidAccountsLinkedAnswers(s: Session, c: Store, users: UserStore, email: string, dbFault: Option<Error>)
    requires s.faults == NoCacheFaults
    requires Link.FindUser(users, email, dbFault).Ok?
    requires var id := Link.FindUser(users, email, dbFault).value.id;
      GetUserAccounts(s, c, id).0.Ok? && NoNilSlots(GetUserAccounts(s, c, id).0.value)
    ensures var id := Link.FindUser(users, email, dbFault).value.id;
      var accs := GetUserAccounts(s, c, id).0.value;
      ArePlaidAccountsLinked(s, c, users, email, dbFault).0 == Success("", LinkedKinds(
        exists i :: 0 <= i < |accs| && accs[i].value.accType == DepositoryType,
        exists i :: 0 <= i < |accs| && accs[i].value.accType == CreditType))
  {
    var id := Link.FindUser(users, email, dbFault).value.id;
    LinkedChecksShareOneList(s, c, id);
  }

  /** With a working cache the two checks answer about the same list: the
      credit check is served from what the debit check cached. */
  lemma LinkedChecksShareOneList(s: Session, c: Store, userId: ObjectId)
    requires s.faults == NoCacheFaults
    requires IsDebitAccountLinked(s, c, userId).0.Ok?
    ensures var c' := IsDebitAccountLinked(s, c, userId).1;
      var accs := GetUserAccounts(s, c, userId).0.value;
      IsCreditAccountLinked(s, c', userId) == (Linked(accs, CreditType), c')
  {
    SecondCallIsAHit(s.env, c, s.tokens, userId, false, NoCacheFaults, s.tokensFault);
  }

  /** GetDebitAccountBalance over a fetched list: the balances of the first
      depository account, not a sum; none is nil. */
  function FirstDepositoryBalance(accs: Accounts): (r: Result<Option<Balance>>)
    ensures r.Err? ==> r.error.Panic?
    ensures r.Ok? && r.value.Some? ==> exists i :: (0 <= i < |accs| && accs[i].Some?
      && accs[i].value.accType == DepositoryType
      && r.value.value == Balance(accs[i].value.availableBalance, accs[i].value.currentBalance)
      && forall j :: 0 <= j < i ==> accs[j].Some? && accs[j].value.accType != DepositoryType)
    ensures r == Ok(None) <==> forall j :: 0 <= j < |accs| ==> accs[j].Some? && accs[j].value.accType != DepositoryType
  {
    match Scan(accs, HasType(DepositoryType))
    case Err(e) => Err(e)
    case Ok(None) =>
      assert forall j :: 0 <= j < |accs| ==> accs[j].Some? && !HasType(DepositoryType)(accs[j].value);
      Ok(None)
    case Ok(Some(i)) =>
      var a := accs[i].value;
      assert HasType(DepositoryType)(a);
      Ok(Some(Balance(a.availableBalance, a.currentBalance)))
  }

  /** GetDebitAccountBalance: a failed fetch is swallowed and reads as no
      balance, exactly like having no depository account. */
  function GetDebitAccountBalance(s: Session, c: Store, userId: ObjectId): (r: (Result<Option<Balance>>, Store))
    ensures var fetched := GetUserAccounts(s, c, userId);
      && r.1 == fetched.1
      && (fetched.0.Err? ==> r.0 == Ok(None))
      && (fetched.0.Ok? ==> r.0 == FirstDepositoryBalance(fetched.0.value))
    ensures r.0.Err? ==> r.0.error.Panic?
  {
    var (fetched, c') := GetUserAccounts(s, c, userId);
    match fetched
    case Err(_) => (Ok(None), c')
    case Ok(accs) => (FirstDepositoryBalance(accs), c')
  }

  /** The hex-id guard both account handlers start with. */
  function ParseUserId(text: string): (r: Result<ObjectId>)
    ensures r.Err? <==> FromHex(text).Err?
    ensures r.Ok? ==> Hex(r.value) == Lower(text)
  {
    FromHexExactly(text);
    FromHex(text)
  }

  /** GetUsersAccountsByUserID: a malformed id is 400 before any fetch; a
      failed fetch is 500. */
  function GetUsersAccountsByUserId(s: Session, c: Store, idText: string): (r: (Response<Accounts>, Store))
    ensures FromHex(idText).Err? ==> r == (Failure(StatusBadRequest, "invalid user id"), c)
    ensures FromHex(idText).Ok? ==> var fetched := GetUserAccounts(s, c, FromHex(idText).value);
      && r.1 == fetched.1
      && (fetched.0.Err? ==> r.0 == Failure(StatusInternalServerError, "failed getting users accounts"))
      && (fetched.0.Ok? ==> r.0 == Success("user accounts", fetched.0.value))
  {
    match ParseUserId(idText)
    case Err(_) => (Failure(StatusBadRequest, "invalid user id"), c)
    case Ok(id) =>
      var (fetched, c') := GetUserAccounts(s, c, id);
      match fetched
      case Err(_) => (Failure(StatusInternalServerError, "failed getting users accounts"), c')
      case Ok(accs) => (Success("user accounts", accs), c')
  }

  /** GetAccount: a malformed id is 400 before any fetch; a failed fetch is
      500; otherwise the first account with the id. When none matches the
      handler formats a nil error, which panics: `Abort`, not a 404. */
  function GetAccount(s: Session, c: Store, idText: string, accId: string): (r: (Response<Account>, Store))
    ensures FromHex(idText).Err? ==> r == (Failure(StatusBadRequest, "invalid user id"), c)
    ensures FromHex(idText).Ok? && GetUserAccounts(s, c, FromHex(idText).value).0.Err? ==>
      r.0 == Failure(StatusInternalServerError, "failed getting users account")
    ensures r.0.Success? ==> FromHex(idText).Ok? && var accs := GetUserAccounts(s, c, FromHex(idText).value).0.value;
      exists i :: 0 <= i < |accs| && accs[i] == Some(r.0.data) && r.0.data.id == accId
        && forall j :: 0 <= j < i ==> accs[j].Some? && accs[j].value.id != accId
    ensures FromHex(idText).Ok? && GetUserAccounts(s, c, FromHex(idText).value).0.Ok? ==>
      var accs := GetUserAccounts(s, c, FromHex(idText).value).0.value;
      (r.0.Abort? <==> !exists i :: 0 <= i < |accs| && accs[i].Some? && accs[i].value.id == accId
                                     && forall j :: 0 <= j < i ==> accs[j].Some?)
  {
    match ParseUserId(idText)
    case Err(_) => (Failure(StatusBadRequest, "invalid user id"), c)
    case Ok(id) =>
      var (fetched, c') := GetUserAccounts(s, c, id);
      match fetched
      case Err(_) => (Failure(StatusInternalServerError, "failed getting users account"), c')
      case Ok(accs) =>
        match Scan(accs, HasAccountId(accId))
        case Err(_) => (Abort("nil account"), c')
        case Ok(None) => (Abort("account not found: nil error"), c')
        case Ok(Some(i)) => (Success("account", accs[i].value), c')
  }
}
