/** The provider side of `PlaidClient` (app/clients/plaid_client.go): which
    endpoints a token's purpose sends the client to, how the transactions
    endpoint is paged, and how pages are merged into one list of credit-card
    accounts and one list of their transactions.

    The provider is an oracle: each endpoint is a total function from the
    request to a result, so "what the network answered" is an input. The
    90-day date window is computed from the clock in the source and is a
    parameter here.
 */
module Fetch {
  import opened Base
  import opened Models
  import opened Seqs

  /** Transactions requested per page (`fetchNext` in the source). */
  const PageSize: int := 500

  const CreditType: string := "credit"
  const DepositoryType: string := "depository"

  type Int32 = x: int | -0x8000_0000 <= x < 0x8000_0000

  /** The start and end dates ("2006-01-02" text) of the transactions window. */
  datatype Window = Window(start: string, end: string)

  /** A transactions request: count and offset are the paging options. */
  datatype TxRequest = TxRequest(token: string, start: string, end: string, count: int, offset: int)

  /** One transactions response: the accounts and transactions of the page and
      the provider's total number of transactions in the window. */
  datatype Page = Page(accounts: seq<ProviderAccount>, transactions: seq<ProviderTransaction>, total: Int32)

  /** The three provider endpoints the core calls. `liabilitiesGet` answers
      with the credit-card liabilities of the item. */
  datatype Provider = Provider(
    accountsGet: string -> Result<seq<ProviderAccount>>,
    liabilitiesGet: string -> Result<seq<Liability>>,
    transactionsGet: TxRequest -> Result<Page>)

  /** A provider call, in the order the client issues them. */
  datatype ProviderCall = AccountsGet(token: string) | LiabilitiesGet(token: string) | TransactionsGet(request: TxRequest)

  predicate IsCreditAccount(a: ProviderAccount)
  {
    a.accType == CreditType
  }

  predicate IsDepositoryAccount(a: ProviderAccount)
  {
    a.accType == DepositoryType
  }

  function AccountKey(a: ProviderAccount): string
  {
    a.accountId
  }

  function TransactionKey(t: ProviderTransaction): string
  {
    t.transactionId
  }

  // ---------------------------------------------------------------------------
  // Debit: accounts only
  // ---------------------------------------------------------------------------

  /** fetchDebitInfo: the depository accounts of the accounts endpoint's
      answer, in order, and no transactions. */
  function FetchDebitInfo(p: Provider, token: string): (r: Result<seq<ProviderAccount>>)
    ensures p.accountsGet(token).Err? <==> r.Err?
    ensures r.Err? ==> r.error == p.accountsGet(token).error
    ensures r.Ok? ==> forall i :: 0 <= i < |r.value| ==>
      IsDepositoryAccount(r.value[i]) && r.value[i] in p.accountsGet(token).value
    ensures r.Ok? ==> forall a :: a in p.accountsGet(token).value && IsDepositoryAccount(a) ==> a in r.value
    ensures r.Ok? ==> forall a :: (multiset(r.value)[a] ==
      if IsDepositoryAccount(a) then multiset(p.accountsGet(token).value)[a] else 0)
    ensures r.Ok? ==> forall n :: (0 <= n <= |p.accountsGet(token).value| ==>
      Filter(p.accountsGet(token).value[..n], IsDepositoryAccount) <= r.value)
  {
    var all :- p.accountsGet(token);
    FilterCounts(all, IsDepositoryAccount);
    FilterPrefixes(all, IsDepositoryAccount);
    Ok(Filter(all, IsDepositoryAccount))
  }

  // ---------------------------------------------------------------------------
  // Credit: paged transactions, merged
  // ---------------------------------------------------------------------------

  /** The offsets of the follow-up requests: the source's loop
      `for i := 500; i < total; i += min(500, total-i)`. */
  function LoopOffsets(i: int, total: int): (r: seq<int>)
    ensures r == [] <==> total <= i
    ensures forall n :: 0 <= n < |r| ==> i <= r[n] < total
    ensures forall n :: 0 < n < |r| ==> r[n - 1] < r[n]
    decreases total - i
  {
    if i < total then [i] + LoopOffsets(i + if PageSize < total - i then PageSize else total - i, total) else []
  }

  /** Pages needed for `total` transactions, ceil(total / 500). */
  function PageCount(total: int): nat
  {
    if total <= 0 then 0 else (total + PageSize - 1) / PageSize
  }

  /** Closed form of the loop: offsets 500*j, 500*(j+1), ... below `total`. */
  lemma {:induction false} LoopOffsetsFrom(j: nat, total: int)
    requires 1 <= j
    ensures |LoopOffsets(PageSize * j, total)| == if PageCount(total) <= j then 0 else PageCount(total) - j
    ensures forall n :: 0 <= n < |LoopOffsets(PageSize * j, total)| ==> LoopOffsets(PageSize * j, total)[n] == PageSize * (j + n)
    decreases total - PageSize * j
  {
    var i := PageSize * j;
    if i < total {
      if PageSize < total - i {
        LoopOffsetsFrom(j + 1, total);
        assert PageSize * (j + 1) == i + PageSize;
      } else {
        assert LoopOffsets(total, total) == [];
        assert PageCount(total) == j + 1;
      }
    } else {
      assert PageCount(total) <= j;
    }
  }

  /** Eligibility of a transaction: its account id has been accepted. */
  function OnAccepted(ids: set<string>): ProviderTransaction -> bool
  {
    (t: ProviderTransaction) => t.accountId in ids
  }

  /** Both merged lists with the ids seen so far. */
  datatype Merged = Merged(accounts: Kept<ProviderAccount>, transactions: Kept<ProviderTransaction>)

  const NoneMerged: Merged := Merged(Kept([], {}), Kept([], {}))

  /** One page merged in: first its credit accounts whose id is new, then its
      transactions whose account id has been accepted and whose own id is new.
      A page's accounts go in before its transactions. */
  function MergePage(m: Merged, page: Page): (r: Merged)
    ensures r.accounts.items == m.accounts.items + FirstOccurrences(m.accounts.ids, page.accounts, AccountKey, IsCreditAccount)
    ensures r.accounts.ids == m.accounts.ids + EligibleIds(page.accounts, AccountKey, IsCreditAccount)
    ensures r.transactions.items ==
      m.transactions.items + FirstOccurrences(m.transactions.ids, page.transactions, TransactionKey, OnAccepted(r.accounts.ids))
  {
    var accounts := Keep(m.accounts, page.accounts, AccountKey, IsCreditAccount);
    var ids := accounts.ids;
    KeepIsFirstOccurrences(m.accounts, page.accounts, AccountKey, IsCreditAccount);
    KeepIds(m.accounts, page.accounts, AccountKey, IsCreditAccount);
    KeepIsFirstOccurrences(m.transactions, page.transactions, TransactionKey, OnAccepted(ids));
    Merged(accounts, Keep(m.transactions, page.transactions, TransactionKey, OnAccepted(ids)))
  }

  /** The merge invariant: account ids distinct and all accounts credit,
      transaction ids distinct, every transaction on an accepted account. */
  ghost predicate WellMerged(m: Merged)
  {
    && Consistent(m.accounts, AccountKey)
    && Consistent(m.transactions, TransactionKey)
    && (forall i :: 0 <= i < |m.accounts.items| ==> IsCreditAccount(m.accounts.items[i]))
    && (forall i :: 0 <= i < |m.transactions.items| ==> m.transactions.items[i].accountId in m.accounts.ids)
  }

  lemma MergePagePreserves(m: Merged, page: Page)
    requires WellMerged(m)
    ensures WellMerged(MergePage(m, page))
    ensures |m.accounts.items| <= |MergePage(m, page).accounts.items|
      && MergePage(m, page).accounts.items[..|m.accounts.items|] == m.accounts.items
    ensures |m.transactions.items| <= |MergePage(m, page).transactions.items|
      && MergePage(m, page).transactions.items[..|m.transactions.items|] == m.transactions.items
  {
    var r := MergePage(m, page);
    var ids := r.accounts.ids;
    KeepConsistent(m.accounts, page.accounts, AccountKey, IsCreditAccount);
    KeepIds(m.accounts, page.accounts, AccountKey, IsCreditAccount);
    KeepConsistent(m.transactions, page.transactions, TransactionKey, OnAccepted(ids));
    forall i | 0 <= i < |r.accounts.items| ensures IsCreditAccount(r.accounts.items[i]) {
      if i < |m.accounts.items| {
        assert r.accounts.items[i] == m.accounts.items[i];
      }
    }
    forall i | 0 <= i < |r.transactions.items| ensures r.transactions.items[i].accountId in ids {
      if i < |m.transactions.items| {
        assert r.transactions.items[i] == m.transactions.items[i];
      } else {
        assert OnAccepted(ids)(r.transactions.items[i]);
      }
    }
  }

  /** After a page the accepted transaction ids are the earlier ones plus the
      ids of the page's transactions whose account is accepted by then. */
  lemma MergePageTransactionIds(m: Merged, page: Page)
    ensures var r := MergePage(m, page);
      r.transactions.ids == m.transactions.ids
        + (set j | 0 <= j < |page.transactions| && page.transactions[j].accountId in r.accounts.ids :: page.transactions[j].transactionId)
  {
    var r := MergePage(m, page);
    var ids := r.accounts.ids;
    KeepIds(m.transactions, page.transactions, TransactionKey, OnAccepted(ids));
  }

  /** The requests after the first one, each answered and merged in turn; the
      first failure ends the loop with that error. */
  function FetchPages(p: Provider, base: TxRequest, offsets: seq<int>, m: Merged): (r: (Result<Merged>, seq<ProviderCall>))
    ensures 1 <= |r.1| <= |offsets| || (offsets == [] && r.1 == [])
    ensures r.0.Ok? ==> |r.1| == |offsets|
    ensures forall k :: 0 <= k < |r.1| ==> r.1[k] == TransactionsGet(base.(offset := offsets[k]))
    ensures r.0.Err? ==> 1 <= |r.1| <= |offsets| && p.transactionsGet(base.(offset := offsets[|r.1| - 1])) == Err(r.0.error)
    decreases |offsets|
  {
    if offsets == [] then (Ok(m), [])
    else
      var req := base.(offset := offsets[0]);
      match p.transactionsGet(req)
      case Err(e) => (Err(e), [TransactionsGet(req)])
      case Ok(page) =>
        var rest := FetchPages(p, base, offsets[1..], MergePage(m, page));
        (rest.0, [TransactionsGet(req)] + rest.1)
  }

  /** The accounts of the pages answered for `offsets`, concatenated. */
  function PagedAccounts(p: Provider, base: TxRequest, offsets: seq<int>): seq<ProviderAccount>
    decreases |offsets|
  {
    if offsets == [] then []
    else
      var here := match p.transactionsGet(base.(offset := offsets[0]))
        case Ok(page) => page.accounts
        case Err(_) => [];
      here + PagedAccounts(p, base, offsets[1..])
  }

  lemma {:induction false} FetchPagesAccounts(p: Provider, base: TxRequest, offsets: seq<int>, m: Merged)
    requires FetchPages(p, base, offsets, m).0.Ok?
    ensures FetchPages(p, base, offsets, m).0.value.accounts
      == Keep(m.accounts, PagedAccounts(p, base, offsets), AccountKey, IsCreditAccount)
    decreases |offsets|
  {
    if offsets == [] {
      assert m.accounts == Keep(m.accounts, [], AccountKey, IsCreditAccount);
    } else {
      var page := p.transactionsGet(base.(offset := offsets[0])).value;
      var m' := MergePage(m, page);
      FetchPagesAccounts(p, base, offsets[1..], m');
      KeepAppend(m.accounts, page.accounts, PagedAccounts(p, base, offsets[1..]), AccountKey, IsCreditAccount);
    }
  }

  lemma {:induction false} FetchPagesPreserves(p: Provider, base: TxRequest, offsets: seq<int>, m: Merged)
    requires WellMerged(m)
    requires FetchPages(p, base, offsets, m).0.Ok?
    ensures WellMerged(FetchPages(p, base, offsets, m).0.value)
    decreases |offsets|
  {
    if offsets != [] {
      var page := p.transactionsGet(base.(offset := offsets[0])).value;
      MergePagePreserves(m, page);
      FetchPagesPreserves(p, base, offsets[1..], MergePage(m, page));
    }
  }

  /** The first request of the window: 500 transactions from offset 0. */
  function FirstRequest(token: string, w: Window): TxRequest
  {
    TxRequest(token, w.start, w.end, PageSize, 0)
  }

  /** fetchCreditInfo: the first page, then, when the provider reports more
      than 500 transactions and `fetchAll` is set, the loop's further pages.
      Returns the merged result and the calls made. */
  function FetchCreditInfo(p: Provider, token: string, w: Window, fetchAll: bool): (r: (Result<Merged>, seq<ProviderCall>))
    ensures 1 <= |r.1| && r.1[0] == TransactionsGet(FirstRequest(token, w))
    ensures forall k :: 0 <= k < |r.1| ==> r.1[k].TransactionsGet? && r.1[k].request.count == PageSize
  {
    var first := FirstRequest(token, w);
    match p.transactionsGet(first)
    case Err(e) => (Err(e), [TransactionsGet(first)])
    case Ok(page) =>
      var m := MergePage(NoneMerged, page);
      if page.total > PageSize && fetchAll then
        var rest := FetchPages(p, first, LoopOffsets(PageSize, page.total), m);
        (rest.0, [TransactionsGet(first)] + rest.1)
      else (Ok(m), [TransactionsGet(first)])
  }

  /** Every account the credit fetch saw, in the order it saw them. */
  function SeenAccounts(p: Provider, token: string, w: Window, fetchAll: bool): seq<ProviderAccount>
  {
    var first := FirstRequest(token, w);
    match p.transactionsGet(first)
    case Err(_) => []
    case Ok(page) =>
      page.accounts
        + if page.total > PageSize && fetchAll then PagedAccounts(p, first, LoopOffsets(PageSize, page.total)) else []
  }

  /** A successful credit fetch issues one request per 500 transactions the
      provider reports (one when it reports 500 or fewer, or `fetchAll` is
      off), at offsets 0, 500, 1000, ... */
  lemma FetchCreditPlan(p: Provider, token: string, w: Window, fetchAll: bool)
    requires FetchCreditInfo(p, token, w, fetchAll).0.Ok?
    ensures var calls := FetchCreditInfo(p, token, w, fetchAll).1;
      var total := p.transactionsGet(FirstRequest(token, w)).value.total;
      && |calls| == (if total > PageSize && fetchAll then PageCount(total) else 1)
      && forall k :: 0 <= k < |calls| ==> calls[k] == TransactionsGet(FirstRequest(token, w).(offset := PageSize * k))
  {
    var first := FirstRequest(token, w);
    var page := p.transactionsGet(first).value;
    if page.total > PageSize && fetchAll {
      LoopOffsetsFrom(1, page.total);
    }
  }

  /** The merged accounts are exactly the first-seen credit accounts of all
      pages: credit-typed, distinct ids, in the order first met, each the
      first record met with its id. */
  lemma FetchCreditAccounts(p: Provider, token: string, w: Window, fetchAll: bool)
    requires FetchCreditInfo(p, token, w, fetchAll).0.Ok?
    ensures FetchCreditInfo(p, token, w, fetchAll).0.value.accounts.items
      == FirstOccurrences({}, SeenAccounts(p, token, w, fetchAll), AccountKey, IsCreditAccount)
  {
    var first := FirstRequest(token, w);
    var page := p.transactionsGet(first).value;
    var m := MergePage(NoneMerged, page);
    if page.total > PageSize && fetchAll {
      var offs := LoopOffsets(PageSize, page.total);
      FetchPagesAccounts(p, first, offs, m);
      KeepAppend(NoneMerged.accounts, page.accounts, PagedAccounts(p, first, offs), AccountKey, IsCreditAccount);
    } else {
      assert SeenAccounts(p, token, w, fetchAll) == page.accounts + [] == page.accounts;
    }
    KeepIsFirstOccurrences(NoneMerged.accounts, SeenAccounts(p, token, w, fetchAll), AccountKey, IsCreditAccount);
  }

  /** The credit fetch's result satisfies the merge invariant. */
  lemma FetchCreditWellMerged(p: Provider, token: string, w: Window, fetchAll: bool)
    requires FetchCreditInfo(p, token, w, fetchAll).0.Ok?
    ensures WellMerged(FetchCreditInfo(p, token, w, fetchAll).0.value)
  {
    var first := FirstRequest(token, w);
    var page := p.transactionsGet(first).value;
    MergePagePreserves(NoneMerged, page);
    if page.total > PageSize && fetchAll {
      FetchPagesPreserves(p, first, LoopOffsets(PageSize, page.total), MergePage(NoneMerged, page));
    }
  }

  /** A transaction met before any page has offered its credit account is
      dropped for good, even when the account arrives on a later page. */
  lemma TransactionBeforeItsAccountIsDropped(a: ProviderAccount, t: ProviderTransaction)
    requires IsCreditAccount(a) && t.accountId == a.accountId
    ensures var m := MergePage(MergePage(NoneMerged, Page([], [t], 2)), Page([a], [], 2));
      m.accounts.items == [a] && m.transactions.items == []
  {
    KeepOne(NoneMerged.transactions, t, TransactionKey, OnAccepted({}));
    KeepOne(NoneMerged.accounts, a, AccountKey, IsCreditAccount);
  }

  /** Within one page the accounts are merged first, so a page's transaction
      on an account listed later on the same page is kept. */
  lemma SamePageOrderDoesNotMatter(a: ProviderAccount, t: ProviderTransaction)
    requires IsCreditAccount(a) && t.accountId == a.accountId
    ensures MergePage(NoneMerged, Page([a], [t], 1)).transactions.items == [t]
  {
    KeepOne(NoneMerged.accounts, a, AccountKey, IsCreditAccount);
    KeepOne(NoneMerged.transactions, t, TransactionKey, OnAccepted(NoneMerged.accounts.ids + {a.accountId}));
  }

  // ---------------------------------------------------------------------------
  // Routing by purpose
  // ---------------------------------------------------------------------------

  /** What GetAccountDetails hands to the normaliser. */
  datatype Raw = Raw(liabilities: seq<Liability>, accounts: seq<ProviderAccount>, transactions: seq<ProviderTransaction>)

  /** GetAccountDetails up to the normaliser: a debit token reads the accounts
      endpoint only; any other purpose reads the liabilities and then the
      paged transactions (with `fetchAll` on). */
  function FetchRaw(p: Provider, w: Window, token: Token): (r: (Result<Raw>, seq<ProviderCall>))
    ensures token.purpose == PurposeDebit ==> r.1 == [AccountsGet(token.value)]
    ensures token.purpose == PurposeDebit && r.0.Ok? ==>
      r.0.value.liabilities == [] && r.0.value.transactions == []
      && forall i :: 0 <= i < |r.0.value.accounts| ==> IsDepositoryAccount(r.0.value.accounts[i])
    ensures token.purpose != PurposeDebit ==>
      && 1 <= |r.1| && r.1[0] == LiabilitiesGet(token.value)
      && (p.liabilitiesGet(token.value).Ok? <==> |r.1| >= 2)
    ensures token.purpose != PurposeDebit && r.0.Ok? ==>
      p.liabilitiesGet(token.value).Ok? && r.0.value.liabilities == p.liabilitiesGet(token.value).value
      && forall i :: 0 <= i < |r.0.value.accounts| ==> IsCreditAccount(r.0.value.accounts[i])
    ensures token.purpose == PurposeDebit ==>
      && (FetchDebitInfo(p, token.value).Err? ==> r.0 == Err(FetchDebitInfo(p, token.value).error))
      && (FetchDebitInfo(p, token.value).Ok? ==> r.0 == Ok(Raw([], FetchDebitInfo(p, token.value).value, [])))
    ensures token.purpose != PurposeDebit && p.liabilitiesGet(token.value).Err? ==>
      r == (Err(p.liabilitiesGet(token.value).error), [LiabilitiesGet(token.value)])
    ensures token.purpose != PurposeDebit && p.liabilitiesGet(token.value).Ok? ==>
      var credit := FetchCreditInfo(p, token.value, w, true);
      && r.1 == [LiabilitiesGet(token.value)] + credit.1
      && (r.0.Err? <==> credit.0.Err?)
      && (r.0.Err? ==> r.0.error == credit.0.error)
      && (r.0.Ok? ==> r.0.value.accounts == credit.0.value.accounts.items
                      && r.0.value.transactions == credit.0.value.transactions.items)
  {
    if token.purpose == PurposeDebit then
      match FetchDebitInfo(p, token.value)
      case Err(e) => (Err(e), [AccountsGet(token.value)])
      case Ok(accounts) => (Ok(Raw([], accounts, [])), [AccountsGet(token.value)])
    else
      match p.liabilitiesGet(token.value)
      case Err(e) => (Err(e), [LiabilitiesGet(token.value)])
      case Ok(liabilities) =>
        var credit := FetchCreditInfo(p, token.value, w, true);
        var calls := [LiabilitiesGet(token.value)] + credit.1;
        match credit.0
        case Err(e) => (Err(e), calls)
        case Ok(m) =>
          FetchCreditWellMerged(p, token.value, w, true);
          (Ok(Raw(liabilities, m.accounts.items, m.transactions.items)), calls)
  }
}
