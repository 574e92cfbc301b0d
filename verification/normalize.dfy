/** `PlaidResponseToPB` (app/clients/plaid_client.go:299-422): the provider's
    liabilities, accounts and transactions turned into the canonical
    AccountDetails of one connection, and `GetAccountDetails`, which routes,
    fetches and normalises.

    `primitive.NewObjectID()` is a parameter (`newId`): the model shows it is
    never used.
 */
module Normalize {
  import opened Base
  import opened ObjectIds
  import opened Models
  import opened Dates
  import opened Fetch
  import opened Seqs

  // ---------------------------------------------------------------------------
  // Liability lookup
  // ---------------------------------------------------------------------------

  /** The liabilities keyed by account id, built front to back so a later
      record with the same id replaces an earlier one. A record without an
      account id fails the whole conversion. */
  function LiabilityMap(ls: seq<Liability>): (r: Result<map<string, Liability>>)
    ensures r.Err? <==> exists i :: 0 <= i < |ls| && ls[i].accountId.None?
    ensures r.Err? ==> r.error == MissingLiabilityAccountId
    ensures r.Ok? ==> forall id :: id in r.value <==> exists i :: 0 <= i < |ls| && ls[i].accountId == Some(id)
    decreases |ls|
  {
    if ls == [] then Ok(map[])
    else
      var pre := ls[..|ls| - 1];
      var l := ls[|ls| - 1];
      assert forall i :: 0 <= i < |pre| ==> pre[i] == ls[i];
      var m :- LiabilityMap(pre);
      match l.accountId
      case None => Err(MissingLiabilityAccountId)
      case Some(id) => Ok(m[id := l])
  }

  /** `ls[i]` carries `id` and no later record does. */
  predicate LastWithId(ls: seq<Liability>, i: int, id: string)
  {
    0 <= i < |ls| && ls[i].accountId == Some(id) && forall j :: i < j < |ls| ==> ls[j].accountId != Some(id)
  }

  /** The record stored under an id is the last one carrying that id. */
  lemma {:induction false} LastLiabilityWins(ls: seq<Liability>, id: string)
    requires LiabilityMap(ls).Ok? && id in LiabilityMap(ls).value
    ensures exists i :: LastWithId(ls, i, id) && LiabilityMap(ls).value[id] == ls[i]
    decreases |ls|
  {
    var pre := ls[..|ls| - 1];
    var l := ls[|ls| - 1];
    var m := LiabilityMap(pre).value;
    assert LiabilityMap(ls).value == m[l.accountId.value := l];
    if l.accountId == Some(id) {
      assert LastWithId(ls, |ls| - 1, id);
    } else {
      LastLiabilityWins(pre, id);
      var i :| LastWithId(pre, i, id) && m[id] == pre[i];
      forall j | i < j < |ls| ensures ls[j].accountId != Some(id) {
        if j < |pre| {
          assert ls[j] == pre[j];
        }
      }
      assert ls[i] == pre[i];
      assert LastWithId(ls, i, id);
    }
  }

  // ---------------------------------------------------------------------------
  // Accounts
  // ---------------------------------------------------------------------------

  /** The owner id the normaliser stores: `ObjectIDFromHex(user.ID.Hex())`,
      falling back to a new id on a parse error. The fallback never fires. */
  function ResolveUserId(user: User, newId: ObjectId): (r: ObjectId)
    ensures r == user.id
  {
    HexRoundTrip(user.id);
    match FromHex(Hex(user.id))
    case Ok(id) => id
    case Err(_) => newId
  }

  function ConvertApr(a: ProviderApr): Apr
  {
    Apr(a.percentage, a.aprType, a.balanceSubjectToApr, a.interestCharge)
  }

  /** An account carries none of the credit-only fields: no id, APRs, limit
      or statement data. */
  predicate HasNoCreditFields(acc: Account)
  {
    && acc.id == "" && acc.aprs == [] && acc.creditLimit == 0.0 && !acc.isOverdue
    && acc.lastPaymentAmount == 0.0 && acc.lastStatementIssueDate == ""
    && acc.lastStatementBalance == 0.0 && acc.minimumPaymentAmount == 0.0
    && acc.nextPaymentDueDate == ""
  }

  /** The account's identity and balances come from the provider record. */
  predicate CopiesProvider(acc: Account, a: ProviderAccount, owner: ObjectId)
  {
    && acc.plaidAccountId == a.accountId && acc.userId == owner
    && acc.name == a.name && acc.officialName == a.officialName
    && acc.accType == a.accType && acc.subtype == a.subtype
    && acc.availableBalance == a.available && acc.currentBalance == a.current
    && acc.currency == a.currency
  }

  /** The credit fields come from the liability record, APRs in their order. */
  predicate CopiesLiability(acc: Account, a: ProviderAccount, l: Liability)
  {
    && acc.id == a.accountId && acc.creditLimit == a.limit
    && |acc.aprs| == |l.aprs|
    && (forall x :: 0 <= x < |l.aprs| ==> acc.aprs[x] == ConvertApr(l.aprs[x]))
    && acc.isOverdue == l.isOverdue && acc.lastPaymentAmount == l.lastPaymentAmount
    && acc.lastStatementIssueDate == l.lastStatementIssueDate
    && acc.lastStatementBalance == l.lastStatementBalance
    && acc.minimumPaymentAmount == l.minimumPaymentAmount
    && acc.nextPaymentDueDate == l.nextPaymentDueDate
  }

  function DebitAccount(a: ProviderAccount, owner: ObjectId): (acc: Account)
    ensures CopiesProvider(acc, a, owner) && HasNoCreditFields(acc)
  {
    Account("", a.accountId, owner, a.name, a.officialName, a.accType, a.subtype,
            a.available, a.current, 0.0, a.currency, [], false, 0.0, "", 0.0, 0.0, "")
  }

  function CreditAccount(a: ProviderAccount, l: Liability, owner: ObjectId): (acc: Account)
    ensures CopiesProvider(acc, a, owner) && CopiesLiability(acc, a, l)
  {
    Account(a.accountId, a.accountId, owner, a.name, a.officialName, a.accType, a.subtype,
            a.available, a.current, a.limit, a.currency,
            seq(|l.aprs|, x requires 0 <= x < |l.aprs| => ConvertApr(l.aprs[x])),
            l.isOverdue, l.lastPaymentAmount, l.lastStatementIssueDate, l.lastStatementBalance,
            l.minimumPaymentAmount, l.nextPaymentDueDate)
  }

  /** One slot per provider account, in order. Debit fills every slot;
      any other purpose fills a slot only when the account has a liability
      and leaves the others nil (`None`). */
  function ConvertAccounts(accounts: seq<ProviderAccount>, liabilities: map<string, Liability>, owner: ObjectId, purpose: Purpose)
    : (r: seq<Option<Account>>)
    ensures |r| == |accounts|
    ensures purpose == PurposeDebit ==> forall i :: 0 <= i < |r| ==>
      r[i].Some? && CopiesProvider(r[i].value, accounts[i], owner) && HasNoCreditFields(r[i].value)
    ensures purpose != PurposeDebit ==> forall i :: 0 <= i < |r| ==>
      (r[i].Some? <==> accounts[i].accountId in liabilities)
      && (r[i].Some? ==> CopiesProvider(r[i].value, accounts[i], owner)
                         && CopiesLiability(r[i].value, accounts[i], liabilities[accounts[i].accountId]))
  {
    seq(|accounts|, i requires 0 <= i < |accounts| =>
      if purpose == PurposeDebit then Some(DebitAccount(accounts[i], owner))
      else if accounts[i].accountId in liabilities then Some(CreditAccount(accounts[i], liabilities[accounts[i].accountId], owner))
      else None)
  }

  // ---------------------------------------------------------------------------
  // Transactions
  // ---------------------------------------------------------------------------

  function ConvertTransaction(t: ProviderTransaction, d: Date, owner: ObjectId): Transaction
    requires Valid(d)
  {
    Transaction(
      t.transactionId, t.transactionId, t.accountId, owner, t.transactionType, t.pendingTransactionId,
      t.categoryId, t.category,
      TransactionDetails(t.location.address, t.location.city, t.location.region, t.location.postalCode,
                         t.location.country, t.location.storeNumber, t.referenceNumber),
      t.name, t.originalDescription, t.amount, t.currency, UnixMillis(d), t.pending, t.merchantName,
      t.paymentChannel, t.authorizedDate, t.primaryCategory, t.detailedCategory, false)
  }

  /** Every date of `ts` is accepted by the "2006-01-02" layout. */
  predicate AllDatesParse(ts: seq<ProviderTransaction>)
  {
    forall i :: 0 <= i < |ts| ==> Parse(ts[i].date).Ok?
  }

  /** One canonical transaction per provider transaction, in order. The first
      date the layout rejects fails the whole conversion with no partial
      result. */
  function ConvertTransactions(ts: seq<ProviderTransaction>, owner: ObjectId): (r: Result<seq<Transaction>>)
    ensures r.Ok? <==> AllDatesParse(ts)
    ensures r.Err? ==> exists i :: (0 <= i < |ts| && Parse(ts[i].date).Err?
      && (forall j :: 0 <= j < i ==> Parse(ts[j].date).Ok?) && r.error == DateParseError(ts[i].date))
    ensures r.Ok? ==> |r.value| == |ts| && forall i :: 0 <= i < |ts| ==>
      && r.value[i].id == ts[i].transactionId
      && r.value[i].plaidTransactionId == ts[i].transactionId
      && r.value[i].plaidAccountId == ts[i].accountId
      && r.value[i].userId == owner
      && !r.value[i].inPlan
      && r.value[i].date == UnixMillis(Parse(ts[i].date).value)
    decreases |ts|
  {
    if ts == [] then Ok([])
    else
      var d :- Parse(ts[0].date);
      var rest :- ConvertTransactions(ts[1..], owner);
      Ok([ConvertTransaction(ts[0], d, owner)] + rest)
  }

  /** For dates in the years UnixNano can hold, the stored value is a whole
      number of days after the epoch, and that day prints back as the
      provider's date text. */
  lemma TransactionDateRoundTrip(ts: seq<ProviderTransaction>, owner: ObjectId, i: int)
    requires ConvertTransactions(ts, owner).Ok? && 0 <= i < |ts|
    requires 1678 <= Parse(ts[i].date).value.year <= 2261
    ensures var d := Parse(ts[i].date).value;
      && ConvertTransactions(ts, owner).value[i].date == DaysFromCivil(d) * MillisPerDay
      && Format(d) == ts[i].date
  {
    var d := Parse(ts[i].date).value;
    UnixMillisExact(d);
    FormatParse(ts[i].date);
  }

  // ---------------------------------------------------------------------------
  // The whole conversion
  // ---------------------------------------------------------------------------

  /** PlaidResponseToPB: the liability map first (its failure wins), then the
      accounts, then the transactions. */
  function PlaidResponseToPB(raw: Raw, user: User, purpose: Purpose, newId: ObjectId): (r: Result<AccountDetails>)
    ensures r.Ok? <==> LiabilityMap(raw.liabilities).Ok? && AllDatesParse(raw.transactions)
    ensures LiabilityMap(raw.liabilities).Err? ==> r == Err(MissingLiabilityAccountId)
    ensures r.Ok? ==> |r.value.accounts| == |raw.accounts| && |r.value.transactions| == |raw.transactions|
    ensures r.Ok? ==> forall i :: 0 <= i < |r.value.accounts| && r.value.accounts[i].Some? ==>
      r.value.accounts[i].value.userId == user.id
    ensures r.Ok? ==> forall i :: 0 <= i < |r.value.transactions| ==> r.value.transactions[i].userId == user.id
    ensures LiabilityMap(raw.liabilities).Ok? ==>
      var ts := ConvertTransactions(raw.transactions, ResolveUserId(user, newId));
      && (ts.Err? ==> r == Err(ts.error))
      && (ts.Ok? ==> r == Ok(AccountDetails(
            ConvertAccounts(raw.accounts, LiabilityMap(raw.liabilities).value, ResolveUserId(user, newId), purpose),
            ts.value)))
  {
    var liabilities :- LiabilityMap(raw.liabilities);
    var owner := ResolveUserId(user, newId);
    var accounts := ConvertAccounts(raw.accounts, liabilities, owner, purpose);
    var transactions :- ConvertTransactions(raw.transactions, owner);
    Ok(AccountDetails(accounts, transactions))
  }

  /** GetAccountDetails: fetch by purpose, then normalise with the token's
      user and purpose. Also returns the provider calls made. */
  function GetAccountDetails(p: Provider, w: Window, token: Token, newId: ObjectId): (r: (Result<AccountDetails>, seq<ProviderCall>))
    ensures r.1 == FetchRaw(p, w, token).1
    ensures FetchRaw(p, w, token).0.Err? ==> r.0 == Err(FetchRaw(p, w, token).0.error)
    ensures token.purpose == PurposeDebit && r.0.Ok? ==>
      && r.0.value.transactions == []
      && forall i :: 0 <= i < |r.0.value.accounts| ==>
           r.0.value.accounts[i].Some? && r.0.value.accounts[i].value.accType == DepositoryType
           && HasNoCreditFields(r.0.value.accounts[i].value)
    ensures token.purpose != PurposeDebit && r.0.Ok? ==>
      forall i :: 0 <= i < |r.0.value.accounts| && r.0.value.accounts[i].Some? ==>
        r.0.value.accounts[i].value.accType == CreditType
        && p.liabilitiesGet(token.value).Ok? && LiabilityMap(p.liabilitiesGet(token.value).value).Ok?
        && r.0.value.accounts[i].value.id in LiabilityMap(p.liabilitiesGet(token.value).value).value
    ensures FetchRaw(p, w, token).0.Ok? ==>
      r.0 == PlaidResponseToPB(FetchRaw(p, w, token).0.value, token.user, token.purpose, newId)
  {
    var (raw, calls) := FetchRaw(p, w, token);
    match raw
    case Err(e) => (Err(e), calls)
    case Ok(raw) => (PlaidResponseToPB(raw, token.user, token.purpose, newId), calls)
  }

  /** A debit connection's details are its provider's depository accounts,
      each converted in the provider's order, with no transactions. */
  lemma DebitDetails(p: Provider, w: Window, token: Token, newId: ObjectId)
    requires token.purpose == PurposeDebit && FetchDebitInfo(p, token.value).Ok?
    ensures GetAccountDetails(p, w, token, newId).0
      == Ok(AccountDetails(ConvertAccounts(FetchDebitInfo(p, token.value).value, map[], token.user.id, PurposeDebit), []))
  {
    assert LiabilityMap([]) == Ok(map[]);
    assert ConvertTransactions([], token.user.id) == Ok([]);
  }

  /** Any other connection's details are the first-seen credit accounts of
      all transaction pages, each converted against the liability map, and
      the merged transactions, each converted. */
  lemma CreditDetails(p: Provider, w: Window, token: Token, newId: ObjectId)
    requires token.purpose != PurposeDebit
    requires p.liabilitiesGet(token.value).Ok? && LiabilityMap(p.liabilitiesGet(token.value).value).Ok?
    requires FetchCreditInfo(p, token.value, w, true).0.Ok?
    requires AllDatesParse(FetchCreditInfo(p, token.value, w, true).0.value.transactions.items)
    ensures var credit := FetchCreditInfo(p, token.value, w, true).0.value;
      var lm := LiabilityMap(p.liabilitiesGet(token.value).value).value;
      && credit.accounts.items == FirstOccurrences({}, SeenAccounts(p, token.value, w, true), AccountKey, IsCreditAccount)
      && GetAccountDetails(p, w, token, newId).0 == Ok(AccountDetails(
           ConvertAccounts(credit.accounts.items, lm, token.user.id, token.purpose),
           ConvertTransactions(credit.transactions.items, token.user.id).value))
  {
    FetchCreditAccounts(p, token.value, w, true);
  }
}
