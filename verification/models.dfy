/** The records the pipeline moves around: users, connection tokens, the
    provider's account/transaction/liability records and the canonical
    Account/Transaction shapes the normaliser produces.

    Monetary values are `real`: the source's float32/float64 fields and their
    conversions are not modelled bit for bit. Creation/update timestamps are
    left out.
 */
module Models {
  import opened Base
  import opened ObjectIds

  /** models.Purpose is a Go string type, so a stored token may carry any text. */
  type Purpose = string

  const PurposeCredit: Purpose := "credit"
  const PurposeDebit: Purpose := "debit"
  const PurposeUnknown: Purpose := "unknown"

  /** models.PurposeFromString: the two recognised spellings, otherwise
      PURPOSE_UNKNOWN together with an error. Matching is case-sensitive. */
  function PurposeFromString(s: string): (r: (Purpose, Option<Error>))
    ensures r.1.None? <==> r.0 != PurposeUnknown
    ensures r.1.Some? ==> r.1.value == InvalidPurpose
  {
    if s == "credit" then (PurposeCredit, None)
    else if s == "debit" then (PurposeDebit, None)
    else (PurposeUnknown, Some(InvalidPurpose))
  }

  /** A known purpose comes only from its own spelling, and every other string,
      "unknown" and "Credit" included, is rejected. */
  lemma PurposeFromStringExact(s: string)
    ensures PurposeFromString(s).0 == PurposeCredit <==> s == "credit"
    ensures PurposeFromString(s).0 == PurposeDebit <==> s == "debit"
    ensures PurposeFromString(s).1.Some? <==> s != "credit" && s != "debit"
  {
  }

  /** `PurposeFromString(string(p)) == p` holds for exactly the two known
      purposes: the text of PURPOSE_UNKNOWN does not parse back. */
  lemma PurposeRoundTrip(p: Purpose)
    ensures PurposeFromString(p) == (p, None) <==> p == PurposeCredit || p == PurposeDebit
    ensures PurposeFromString(PurposeUnknown).1 == Some(InvalidPurpose)
  {
  }

  /** models.User. `clerkId` is the stored `clerk_id` field the identity
      middleware filters on; the Go struct does not decode it. */
  datatype User = User(id: ObjectId, username: string, email: string, phoneNumber: string, clerkId: string)

  /** models.Token: one connection to an institution. */
  datatype Token = Token(
    id: ObjectId,
    user: User,
    value: string,
    itemId: string,
    institution: string,
    institutionId: string,
    purpose: Purpose)

  /** The provider's account record (plaid.AccountBase), optional fields read
      through their getters (absent text reads as ""). */
  datatype ProviderAccount = ProviderAccount(
    accountId: string,
    name: string,
    officialName: string,
    accType: string,
    subtype: string,
    available: real,
    current: real,
    limit: real,
    currency: string)

  datatype ProviderApr = ProviderApr(percentage: real, aprType: string, balanceSubjectToApr: real, interestCharge: real)

  /** The provider's credit-card liability record; its account id may be absent. */
  datatype Liability = Liability(
    accountId: Option<string>,
    aprs: seq<ProviderApr>,
    isOverdue: bool,
    lastPaymentAmount: real,
    lastStatementIssueDate: string,
    lastStatementBalance: real,
    minimumPaymentAmount: real,
    nextPaymentDueDate: string)

  datatype Location = Location(address: string, city: string, region: string, postalCode: string, country: string, storeNumber: string)

  /** The provider's transaction record (plaid.Transaction). */
  datatype ProviderTransaction = ProviderTransaction(
    transactionId: string,
    accountId: string,
    transactionType: string,
    pendingTransactionId: string,
    categoryId: string,
    category: seq<string>,
    location: Location,
    referenceNumber: string,
    name: string,
    originalDescription: string,
    amount: real,
    currency: string,
    date: string,
    pending: bool,
    merchantName: string,
    paymentChannel: string,
    authorizedDate: string,
    primaryCategory: string,
    detailedCategory: string)

  datatype Apr = Apr(percentage: real, aprType: string, balanceSubjectToApr: real, interestCharge: real)

  /** models.Account. `id` holds the provider's account id (the normaliser
      assigns it) and is "" where it is left unset, as for debit accounts. */
  datatype Account = Account(
    id: string,
    plaidAccountId: string,
    userId: ObjectId,
    name: string,
    officialName: string,
    accType: string,
    subtype: string,
    availableBalance: real,
    currentBalance: real,
    creditLimit: real,
    currency: string,
    aprs: seq<Apr>,
    isOverdue: bool,
    lastPaymentAmount: real,
    lastStatementIssueDate: string,
    lastStatementBalance: real,
    minimumPaymentAmount: real,
    nextPaymentDueDate: string)

  datatype TransactionDetails = TransactionDetails(
    address: string, city: string, state: string, zipcode: string,
    country: string, storeNumber: string, referenceNumber: string)

  /** models.Transaction; `date` is UTC-midnight epoch milliseconds. */
  datatype Transaction = Transaction(
    id: string,
    plaidTransactionId: string,
    plaidAccountId: string,
    userId: ObjectId,
    transactionType: string,
    pendingTransactionId: string,
    categoryId: string,
    category: seq<string>,
    details: TransactionDetails,
    name: string,
    originalDescription: string,
    amount: real,
    currency: string,
    date: int,
    pending: bool,
    merchantName: string,
    paymentChannel: string,
    authorizedDate: string,
    primaryCategory: string,
    detailedCategory: string,
    inPlan: bool)

  /** models.AccountDetailsResponse. The account list holds pointers in Go and
      the credit normaliser can leave a slot nil: `None` is that nil slot. */
  datatype AccountDetails = AccountDetails(accounts: seq<Option<Account>>, transactions: seq<Transaction>)

  /** models.GetDebitAccountBalanceResponse. */
  datatype Balance = Balance(available: real, current: real)
}
