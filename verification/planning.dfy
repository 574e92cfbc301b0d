/** The planning views of handlers/planning.go: the KPI totals and the
    waterfall series reshaping. The planning service is an oracle keyed by
    the user's hex id. Amounts are `real`; the float32 narrowing of series
    values is not modelled.
 */
module Planning {
  import opened Base
  import opened ObjectIds
  import opened Models
  import opened Fetch
  import opened Cache
  import opened Identity
  import opened Queries

  datatype PaymentPlan = PaymentPlan(paymentPlanId: string, amount: real)

  /** One month of the waterfall: amount per account id. */
  type WaterfallMonth = map<string, real>

  /** The planning service: a user's payment plans and their waterfall. */
  datatype Planner = Planner(
    plans: string -> Result<seq<PaymentPlan>>,
    waterfall: string -> Result<seq<WaterfallMonth>>)

  datatype Kpi = Kpi(debit: real, credit: real, paymentPlans: real)

  /** Reference total: the current balances of the "credit" accounts. */
  function CreditTotal(accs: Accounts): real
    requires NoNilSlots(accs)
  {
    if accs == [] then 0.0
    else
      var a := accs[|accs| - 1].value;
      CreditTotal(accs[..|accs| - 1]) + (if a.accType == CreditType then a.currentBalance else 0.0)
  }

  /** The KPI credit loop: every slot is read, so a nil slot panics. */
  method TotalCredit(accs: Accounts) returns (r: Result<real>)
    ensures r.Ok? <==> NoNilSlots(accs)
    ensures r.Err? ==> r.error.Panic?
    ensures r.Ok? ==> r.value == CreditTotal(accs)
  {
    var total := 0.0;
    var i := 0;
    while i < |accs|
      invariant 0 <= i <= |accs|
      invariant NoNilSlots(accs[..i]) && total == CreditTotal(accs[..i])
    {
      if accs[i].None? {
        return Err(Panic("nil account"));
      }
      var a := accs[i].value;
      assert accs[..i + 1][..i] == accs[..i];
      if a.accType == CreditType {
        total := total + a.currentBalance;
      }
      i := i + 1;
    }
    assert accs[..i] == accs;
    return Ok(total);
  }

  /** Reference total of the plan amounts. */
  function PlanTotal(plans: seq<PaymentPlan>): real
  {
    if plans == [] then 0.0 else PlanTotal(plans[..|plans| - 1]) + plans[|plans| - 1].amount
  }

  method TotalPlans(plans: seq<PaymentPlan>) returns (total: real)
    ensures total == PlanTotal(plans)
  {
    total := 0.0;
    var i := 0;
    while i < |plans|
      invariant 0 <= i <= |plans| && total == PlanTotal(plans[..i])
    {
      assert plans[..i + 1][..i] == plans[..i];
      total := total + plans[i].amount;
      i := i + 1;
    }
    assert plans[..i] == plans;
  }

  /** GetKPIs: look the user up (404), fetch accounts (404), total the credit
      balances, take the first depository current balance (0 when there is
      none or its fetch fails), total the plans (500 when the planning
      service fails). */
  method GetKpis(s: Session, c: Store, users: UserStore, email: string, dbFault: Option<Error>, planner: Planner)
    returns (r: Response<Kpi>, c': Store)
    ensures GetUserByEmail(c, users, email, s.faults, dbFault).0.Err? ==> r == Failure(StatusNotFound, "user not found")
    ensures r.Success? ==>
      var lookup := GetUserByEmail(c, users, email, s.faults, dbFault);
      && lookup.0.Ok?
      && var u := lookup.0.value;
         var fetched := GetUserAccounts(s, lookup.1, u.id);
         var debit := GetDebitAccountBalance(s, fetched.1, u.id);
         && fetched.0.Ok? && NoNilSlots(fetched.0.value)
         && r.data.credit == CreditTotal(fetched.0.value)
         && debit.0.Ok?
         && r.data.debit == (if debit.0.value.Some? then debit.0.value.value.current else 0.0)
         && planner.plans(Hex(u.id)).Ok?
         && r.data.paymentPlans == PlanTotal(planner.plans(Hex(u.id)).value)
    ensures r.Failure? && r.message == "user payment plans for KPI not found" ==>
      planner.plans(Hex(GetUserByEmail(c, users, email, s.faults, dbFault).0.value.id)).Err?
    ensures var lookup := GetUserByEmail(c, users, email, s.faults, dbFault);
      lookup.0.Ok? ==>
        var u := lookup.0.value;
        var fetched := GetUserAccounts(s, lookup.1, u.id);
        var debit := GetDebitAccountBalance(s, fetched.1, u.id);
        && (fetched.0.Err? ==> r == Failure(StatusNotFound, "user accounts not found") && c' == fetched.1)
        && (fetched.0.Ok? && !NoNilSlots(fetched.0.value) ==> r == Abort("nil account"))
        && (fetched.0.Ok? && NoNilSlots(fetched.0.value) && debit.0.Err? ==> r == Abort("nil account"))
        && (fetched.0.Ok? && NoNilSlots(fetched.0.value) && debit.0.Ok? ==>
              && c' == debit.1
              && (planner.plans(Hex(u.id)).Err? ==>
                    r == Failure(StatusInternalServerError, "user payment plans for KPI not found"))
              && (planner.plans(Hex(u.id)).Ok? ==> r.Success? && r.message == "account"))
  {
    var (found, c1, _) := GetUserByEmail(c, users, email, s.faults, dbFault);
    if found.Err? {
      return Failure(StatusNotFound, "user not found"), c1;
    }
    var u := found.value;
    var (fetched, c2) := GetUserAccounts(s, c1, u.id);
    if fetched.Err? {
      return Failure(StatusNotFound, "user accounts not found"), c2;
    }
    var credit := TotalCredit(fetched.value);
    if credit.Err? {
      return Abort("nil account"), c2;
    }
    var (balance, c3) := GetDebitAccountBalance(s, c2, u.id);
    if balance.Err? {
      return Abort("nil account"), c3;
    }
    var debit := if balance.value.Some? then balance.value.value.current else 0.0;
    var plans := planner.plans(Hex(u.id));
    if plans.Err? {
      return Failure(StatusInternalServerError, "user payment plans for KPI not found"), c3;
    }
    var planTotal := TotalPlans(plans.value);
    return Success("account", Kpi(debit, credit.value, planTotal)), c3;
  }

  // ---------------------------------------------------------------------------
  // Waterfall
  // ---------------------------------------------------------------------------

  /** `accs[i]` carries `id` and no later account does. */
  predicate LastAccountWithId(accs: Accounts, i: int, id: string)
  {
    0 <= i < |accs| && accs[i].Some? && accs[i].value.id == id
    && forall j :: i < j < |accs| ==> accs[j].Some? ==> accs[j].value.id != id
  }

  /** accountIdToName: official name per account id, built front to back so
      the last account with an id wins; a nil slot panics. */
  function NameTable(accs: Accounts): (r: Result<map<string, string>>)
    ensures r.Ok? <==> NoNilSlots(accs)
    ensures r.Err? ==> r.error.Panic?
    ensures r.Ok? ==> forall id :: id in r.value <==> exists i :: 0 <= i < |accs| && accs[i].value.id == id
    decreases |accs|
  {
    if accs == [] then Ok(map[])
    else
      var pre := accs[..|accs| - 1];
      assert forall i :: 0 <= i < |pre| ==> pre[i] == accs[i];
      match NameTable(pre)
      case Err(e) => Err(e)
      case Ok(m) =>
        match accs[|accs| - 1]
        case None => Err(Panic("nil account"))
        case Some(a) => Ok(m[a.id := a.officialName])
  }

  /** The name under an id is the official name of the last account with it. */
  lemma {:induction false} LastNameWins(accs: Accounts, id: string)
    requires NameTable(accs).Ok? && id in NameTable(accs).value
    ensures exists i :: LastAccountWithId(accs, i, id) && NameTable(accs).value[id] == accs[i].value.officialName
    decreases |accs|
  {
    var pre := accs[..|accs| - 1];
    var a := accs[|accs| - 1].value;
    var m := NameTable(pre).value;
    assert NameTable(accs).value == m[a.id := a.officialName];
    if a.id == id {
      assert LastAccountWithId(accs, |accs| - 1, id);
    } else {
      LastNameWins(pre, id);
      var i :| LastAccountWithId(pre, i, id) && m[id] == pre[i].value.officialName;
      forall j | i < j < |accs| ensures accs[j].Some? ==> accs[j].value.id != id {
        if j < |pre| {
          assert accs[j] == pre[j];
        }
      }
      assert accs[i] == pre[i];
      assert LastAccountWithId(accs, i, id);
    }
  }

  /** Number of slots in a series: one per month of a year. */
  const SeriesLength: int := 12

  datatype Series = Series(name: string, data: seq<real>, accId: string)

  /** A series is named by the account's official name when the account is
      known, otherwise by its id. */
  function SeriesName(names: map<string, string>, accId: string): string
  {
    if accId in names then names[accId] else accId
  }

  /** Every series has twelve slots and is stored under its own id. */
  ghost predicate WellShaped(series: map<string, Series>)
  {
    forall k :: k in series ==> |series[k].data| == SeriesLength && series[k].accId == k
  }

  /** One month: each account id in the month writes slot `idx + 1` of its
      series, creating a zeroed, named series on first sight. */
  function AddMonth(series: map<string, Series>, idx: nat, month: WaterfallMonth, names: map<string, string>)
    : (r: map<string, Series>)
    requires WellShaped(series) && idx + 1 < SeriesLength
    ensures WellShaped(r)
    ensures r.Keys == series.Keys + month.Keys
  {
    map k | k in series.Keys + month.Keys ::
      if k in month then
        var base := if k in series then series[k] else Series(SeriesName(names, k), seq(SeriesLength, _ => 0.0), k);
        base.(data := base.data[idx + 1 := month[k]])
      else series[k]
  }

  /** The series loop over the months in order. A non-empty month at index
      11 or later writes past the twelve slots and panics. */
  function BuildSeries(months: seq<WaterfallMonth>, names: map<string, string>): (r: Result<map<string, Series>>)
    ensures r.Err? ==> r.error.Panic?
    ensures r.Ok? ==> WellShaped(r.value)
    decreases |months|
  {
    if months == [] then Ok(map[])
    else
      var n := |months| - 1;
      match BuildSeries(months[..n], names)
      case Err(e) => Err(e)
      case Ok(series) =>
        if |months[n]| == 0 then Ok(series)
        else if n + 1 >= SeriesLength then Err(Panic("index out of range"))
        else Ok(AddMonth(series, n, months[n], names))
  }

  /** Reference definition: the account ids seen in any month. */
  function AllIds(months: seq<WaterfallMonth>): set<string>
  {
    if months == [] then {} else AllIds(months[..|months| - 1]) + months[|months| - 1].Keys
  }

  /** Reference definition: slot `j` holds month `j - 1`'s amount for the
      account, or zero; slot 0 is never written. */
  function Column(months: seq<WaterfallMonth>, k: string): (col: seq<real>)
    ensures |col| == SeriesLength
  {
    seq(SeriesLength, j requires 0 <= j < SeriesLength =>
      if 1 <= j <= |months| && k in months[j - 1] then months[j - 1][k] else 0.0)
  }

  function Expected(months: seq<WaterfallMonth>, names: map<string, string>): map<string, Series>
  {
    map k | k in AllIds(months) :: Series(SeriesName(names, k), Column(months, k), k)
  }

  /** The loop panics exactly when some non-empty month has index 11 or more. */
  predicate FitsInYear(months: seq<WaterfallMonth>)
  {
    forall i :: 0 <= i < |months| && |months[i]| > 0 ==> i + 1 < SeriesLength
  }

  lemma AllIdsMembership(months: seq<WaterfallMonth>, k: string)
    ensures k in AllIds(months) <==> exists i :: 0 <= i < |months| && k in months[i]
    decreases |months|
  {
    if months != [] {
      var pre := months[..|months| - 1];
      AllIdsMembership(pre, k);
      assert forall i :: 0 <= i < |pre| ==> pre[i] == months[i];
      if k in AllIds(pre) {
        var i :| 0 <= i < |pre| && k in pre[i];
        assert k in months[i];
      }
    }
  }

  /** A column gains at most the newest month's slot. */
  lemma ColumnStep(months: seq<WaterfallMonth>, k: string)
    requires |months| > 0
    ensures var n := |months| - 1;
      Column(months, k) == if k in months[n] && n + 1 < SeriesLength
        then Column(months[..n], k)[n + 1 := months[n][k]]
        else Column(months[..n], k)
  {
    var n := |months| - 1;
    var pre := months[..n];
    assert forall i :: 0 <= i < n ==> pre[i] == months[i];
  }

  /** An id absent from every month has an all-zero column. */
  lemma ColumnOfUnseen(months: seq<WaterfallMonth>, k: string)
    requires k !in AllIds(months)
    ensures Column(months, k) == seq(SeriesLength, _ => 0.0)
  {
    AllIdsMembership(months, k);
  }

  /** An empty month adds nothing. */
  lemma ExpectedEmptyMonth(months: seq<WaterfallMonth>, names: map<string, string>)
    requires |months| > 0 && |months[|months| - 1]| == 0
    ensures Expected(months, names) == Expected(months[..|months| - 1], names)
  {
    var n := |months| - 1;
    assert months[n].Keys == {};
    assert AllIds(months) == AllIds(months[..n]);
    forall k | k in AllIds(months) ensures Column(months, k) == Column(months[..n], k) {
      ColumnStep(months, k);
    }
  }

  /** A fitting, non-empty month turns the table for the earlier months into
      the table for all of them. */
  lemma ExpectedAddMonth(months: seq<WaterfallMonth>, names: map<string, string>)
    requires |months| > 0 && |months| < SeriesLength
    ensures var n := |months| - 1;
      WellShaped(Expected(months[..n], names))
      && AddMonth(Expected(months[..n], names), n, months[n], names) == Expected(months, names)
  {
    var n := |months| - 1;
    var pre := months[..n];
    var before := Expected(pre, names);
    var r := AddMonth(before, n, months[n], names);
    var e := Expected(months, names);
    assert AllIds(months) == AllIds(pre) + months[n].Keys;
    forall k | k in e ensures k in r && r[k] == e[k] {
      ColumnStep(months, k);
      if k !in AllIds(pre) {
        ColumnOfUnseen(pre, k);
      }
    }
    assert r == e;
  }

  /** The months fit exactly when the earlier ones do and the newest does. */
  lemma FitsInYearSnoc(months: seq<WaterfallMonth>)
    requires |months| > 0
    ensures var n := |months| - 1;
      FitsInYear(months) <==> FitsInYear(months[..n]) && (|months[n]| > 0 ==> n + 1 < SeriesLength)
  {
    var n := |months| - 1;
    assert forall i :: 0 <= i < n ==> months[..n][i] == months[i];
  }

  /** The loop fails exactly when a month does not fit the twelve slots. */
  lemma {:induction false} BuildSeriesFails(months: seq<WaterfallMonth>, names: map<string, string>)
    ensures BuildSeries(months, names).Ok? <==> FitsInYear(months)
    decreases |months|
  {
    if months != [] {
      var n := |months| - 1;
      BuildSeriesFails(months[..n], names);
      FitsInYearSnoc(months);
    }
  }

  /** The series loop computes exactly the reference table, and fails only
      when a month does not fit the twelve slots. */
  lemma {:induction false} BuildSeriesIsExpected(months: seq<WaterfallMonth>, names: map<string, string>)
    ensures BuildSeries(months, names).Ok? <==> FitsInYear(months)
    ensures BuildSeries(months, names).Ok? ==> BuildSeries(months, names).value == Expected(months, names)
    decreases |months|
  {
    BuildSeriesFails(months, names);
    if months != [] && BuildSeries(months, names).Ok? {
      var n := |months| - 1;
      BuildSeriesIsExpected(months[..n], names);
      if |months[n]| == 0 {
        ExpectedEmptyMonth(months, names);
      } else {
        ExpectedAddMonth(months, names);
      }
    }
  }

  /** GetWaterfall: look the user up (404), fetch accounts (500), build the
      name table, fetch the waterfall (500), build the series. The response
      is the table itself: the handler lists it in map order. */
  function GetWaterfall(s: Session, c: Store, users: UserStore, email: string, dbFault: Option<Error>, planner: Planner)
    : (r: (Response<map<string, Series>>, Store))
    ensures GetUserByEmail(c, users, email, s.faults, dbFault).0.Err? ==> r.0 == Failure(StatusNotFound, "user not found")
    ensures r.0.Success? ==>
      var lookup := GetUserByEmail(c, users, email, s.faults, dbFault);
      && lookup.0.Ok?
      && var u := lookup.0.value;
         var fetched := GetUserAccounts(s, lookup.1, u.id);
         && fetched.0.Ok? && NoNilSlots(fetched.0.value)
         && planner.waterfall(Hex(u.id)).Ok?
         && FitsInYear(planner.waterfall(Hex(u.id)).value)
         && r.0.data == Expected(planner.waterfall(Hex(u.id)).value, NameTable(fetched.0.value).value)
    ensures var lookup := GetUserByEmail(c, users, email, s.faults, dbFault);
      lookup.0.Ok? ==>
        var u := lookup.0.value;
        var fetched := GetUserAccounts(s, lookup.1, u.id);
        var months := planner.waterfall(Hex(u.id));
        && r.1 == fetched.1
        && (fetched.0.Err? ==> r.0 == Failure(StatusInternalServerError, "failed getting users accounts"))
        && (fetched.0.Ok? && !NoNilSlots(fetched.0.value) ==> r.0 == Abort("nil account"))
        && (fetched.0.Ok? && NoNilSlots(fetched.0.value) ==>
              && (months.Err? ==> r.0 == Failure(StatusInternalServerError, "Error fetching user's waterfall"))
              && (months.Ok? && !FitsInYear(months.value) ==> r.0 == Abort("index out of range"))
              && (months.Ok? && FitsInYear(months.value) ==>
                    r.0 == Success("waterfall", Expected(months.value, NameTable(fetched.0.value).value))))
  {
    var (found, c1, _) := GetUserByEmail(c, users, email, s.faults, dbFault);
    match found
    case Err(_) => (Failure(StatusNotFound, "user not found"), c1)
    case Ok(u) =>
      var (fetched, c2) := GetUserAccounts(s, c1, u.id);
      match fetched
      case Err(_) => (Failure(StatusInternalServerError, "failed getting users accounts"), c2)
      case Ok(accs) =>
        match NameTable(accs)
        case Err(_) => (Abort("nil account"), c2)
        case Ok(names) =>
          match planner.waterfall(Hex(u.id))
          case Err(_) => (Failure(StatusInternalServerError, "Error fetching user's waterfall"), c2)
          case Ok(months) =>
            BuildSeriesIsExpected(months, names);
            match BuildSeries(months, names)
            case Err(_) => (Abort("index out of range"), c2)
            case Ok(series) => (Success("waterfall", series), c2)
  }
}
