/** The payment-reminder handler (handlers/notification.go:26-101): group
    the planning service's upcoming payment actions by user and account,
    compare each user's total with their first depository balance, and send
    one message per user.

    Go iterates the grouping maps in an unspecified order. The model keeps
    users, and each user's accounts, in order of first appearance, which is
    one of the orders the runtime may pick; only which failure is reported
    first and the order of message lines and responses depend on it. The
    message text is kept as structure (headline and lines): number
    formatting is not modelled.
 */
module Notification {
  import opened Base
  import opened ObjectIds
  import opened Models
  import opened Seqs
  import opened Cache
  import opened Identity
  import opened Queries

  datatype PaymentAction = PaymentAction(accountId: string, amount: real)

  /** One (user, account) bucket's running amount. */
  datatype Bucket = Bucket(accountId: string, amount: real)

  /** A user's buckets, in order of first appearance. */
  datatype Group = Group(userId: string, buckets: seq<Bucket>)

  function IsAccount(acc: string): Bucket -> bool
  {
    (b: Bucket) => b.accountId == acc
  }

  function IsUser(u: string): Group -> bool
  {
    (g: Group) => g.userId == u
  }

  /** `buckets[acc] += amount`, creating the bucket at zero first. */
  function AddToBuckets(bs: seq<Bucket>, acc: string, amount: real): seq<Bucket>
  {
    match FindIndex(bs, IsAccount(acc))
    case None => bs + [Bucket(acc, amount)]
    case Some(k) => bs[k := bs[k].(amount := bs[k].amount + amount)]
  }

  /** `groups[u][acc] += amount`, creating the user's map first. */
  function AddAction(gs: seq<Group>, u: string, acc: string, amount: real): seq<Group>
  {
    match FindIndex(gs, IsUser(u))
    case None => gs + [Group(u, [Bucket(acc, amount)])]
    case Some(j) => gs[j := gs[j].(buckets := AddToBuckets(gs[j].buckets, acc, amount))]
  }

  /** The grouping loop: action `i` belongs to user `userIds[i]`. An action
      with no user id at its index is an out-of-range read and panics. */
  function GroupActions(userIds: seq<string>, actions: seq<PaymentAction>): (r: Result<seq<Group>>)
    ensures r.Ok? <==> |actions| <= |userIds|
    ensures r.Err? ==> r.error.Panic?
    decreases |actions|
  {
    if actions == [] then Ok([])
    else
      var n := |actions| - 1;
      match GroupActions(userIds, actions[..n])
      case Err(e) => Err(e)
      case Ok(gs) =>
        if n >= |userIds| then Err(Panic("index out of range"))
        else Ok(AddAction(gs, userIds[n], actions[n].accountId, actions[n].amount))
  }

  // ---------------------------------------------------------------------------
  // What the grouping means
  // ---------------------------------------------------------------------------

  /** The buckets of user `u`, none when the user has no group. */
  function BucketsOf(gs: seq<Group>, u: string): seq<Bucket>
  {
    match FindIndex(gs, IsUser(u))
    case None => []
    case Some(j) => gs[j].buckets
  }

  /** The amount of bucket `acc`, zero when absent. */
  function AmountOf(bs: seq<Bucket>, acc: string): real
  {
    match FindIndex(bs, IsAccount(acc))
    case None => 0.0
    case Some(k) => bs[k].amount
  }

  predicate HasBucket(bs: seq<Bucket>, acc: string)
  {
    FindIndex(bs, IsAccount(acc)).Some?
  }

  /** Reference definition: the total of the actions of user `u` on account
      `acc`. */
  function ActionSum(userIds: seq<string>, actions: seq<PaymentAction>, u: string, acc: string): real
    requires |actions| <= |userIds|
  {
    if actions == [] then 0.0
    else
      var n := |actions| - 1;
      ActionSum(userIds, actions[..n], u, acc)
        + (if userIds[n] == u && actions[n].accountId == acc then actions[n].amount else 0.0)
  }

  /** Reference definition: the total of all actions of user `u`. */
  function UserSum(userIds: seq<string>, actions: seq<PaymentAction>, u: string): real
    requires |actions| <= |userIds|
  {
    if actions == [] then 0.0
    else
      var n := |actions| - 1;
      UserSum(userIds, actions[..n], u) + (if userIds[n] == u then actions[n].amount else 0.0)
  }

  /** The sum of a user's bucket amounts, in bucket order. */
  function Total(bs: seq<Bucket>): real
  {
    if bs == [] then 0.0 else Total(bs[..|bs| - 1]) + bs[|bs| - 1].amount
  }

  lemma AddToBucketsEffect(bs: seq<Bucket>, acc: string, amount: real, acc': string)
    ensures AmountOf(AddToBuckets(bs, acc, amount), acc') == AmountOf(bs, acc') + (if acc' == acc then amount else 0.0)
    ensures HasBucket(AddToBuckets(bs, acc, amount), acc') <==> HasBucket(bs, acc') || acc' == acc
  {
    var r := AddToBuckets(bs, acc, amount);
    match FindIndex(bs, IsAccount(acc))
    case None =>
      FindIndexSnoc(bs, Bucket(acc, amount), IsAccount(acc'));
      assert forall i :: 0 <= i < |bs| ==> r[i] == bs[i];
    case Some(k) =>
      FindIndexSame(bs, r, IsAccount(acc'));
  }

  /** Adding to a bucket adds to the total. */
  lemma {:induction false} TotalUpdate(bs: seq<Bucket>, k: int, amount: real)
    requires 0 <= k < |bs|
    ensures Total(bs[k := bs[k].(amount := bs[k].amount + amount)]) == Total(bs) + amount
    decreases |bs|
  {
    var n := |bs| - 1;
    var r := bs[k := bs[k].(amount := bs[k].amount + amount)];
    if k < n {
      TotalUpdate(bs[..n], k, amount);
      assert r[..n] == bs[..n][k := bs[k].(amount := bs[k].amount + amount)];
    } else {
      assert r[..n] == bs[..n];
    }
  }

  lemma AddToBucketsTotal(bs: seq<Bucket>, acc: string, amount: real)
    ensures Total(AddToBuckets(bs, acc, amount)) == Total(bs) + amount
  {
    match FindIndex(bs, IsAccount(acc))
    case None =>
      assert (bs + [Bucket(acc, amount)])[..|bs|] == bs;
    case Some(k) =>
      TotalUpdate(bs, k, amount);
  }

  lemma AddActionEffect(gs: seq<Group>, u: string, acc: string, amount: real, u': string)
    ensures BucketsOf(AddAction(gs, u, acc, amount), u') ==
      if u' == u then AddToBuckets(BucketsOf(gs, u), acc, amount) else BucketsOf(gs, u')
    ensures FindIndex(AddAction(gs, u, acc, amount), IsUser(u')).Some? <==> FindIndex(gs, IsUser(u')).Some? || u' == u
  {
    var r := AddAction(gs, u, acc, amount);
    match FindIndex(gs, IsUser(u))
    case None =>
      FindIndexSnoc(gs, Group(u, [Bucket(acc, amount)]), IsUser(u'));
      assert forall i :: 0 <= i < |gs| ==> r[i] == gs[i];
      assert AddToBuckets([], acc, amount) == [Bucket(acc, amount)];
    case Some(j) =>
      FindIndexSame(gs, r, IsUser(u'));
  }

  /** Some action of user `u` is on account `acc`. */
  predicate Occurs(userIds: seq<string>, actions: seq<PaymentAction>, u: string, acc: string)
    requires |actions| <= |userIds|
  {
    exists i :: 0 <= i < |actions| && userIds[i] == u && actions[i].accountId == acc
  }

  /** Some action belongs to user `u`. */
  predicate IsActionUser(userIds: seq<string>, actions: seq<PaymentAction>, u: string)
    requires |actions| <= |userIds|
  {
    exists i :: 0 <= i < |actions| && userIds[i] == u
  }

  lemma OccursSnoc(userIds: seq<string>, actions: seq<PaymentAction>, u: string, acc: string)
    requires 0 < |actions| <= |userIds|
    ensures var n := |actions| - 1;
      && (Occurs(userIds, actions, u, acc) <==>
           Occurs(userIds, actions[..n], u, acc) || (userIds[n] == u && actions[n].accountId == acc))
      && (IsActionUser(userIds, actions, u) <==> IsActionUser(userIds, actions[..n], u) || userIds[n] == u)
  {
    var n := |actions| - 1;
    assert forall i :: 0 <= i < n ==> actions[..n][i] == actions[i];
  }

  /** A bucket holds exactly the total of its user's actions on that
      account. */
  lemma {:induction false} GroupActionsAmounts(userIds: seq<string>, actions: seq<PaymentAction>, u: string, acc: string)
    requires |actions| <= |userIds|
    ensures AmountOf(BucketsOf(GroupActions(userIds, actions).value, u), acc) == ActionSum(userIds, actions, u, acc)
    decreases |actions|
  {
    if actions != [] {
      var n := |actions| - 1;
      GroupActionsAmounts(userIds, actions[..n], u, acc);
      var gs := GroupActions(userIds, actions[..n]).value;
      AddActionEffect(gs, userIds[n], actions[n].accountId, actions[n].amount, u);
      if u == userIds[n] {
        AddToBucketsEffect(BucketsOf(gs, u), actions[n].accountId, actions[n].amount, acc);
      }
    }
  }

  /** A bucket exists exactly for the (user, account) pairs that occur. */
  lemma {:induction false} GroupActionsBuckets(userIds: seq<string>, actions: seq<PaymentAction>, u: string, acc: string)
    requires |actions| <= |userIds|
    ensures HasBucket(BucketsOf(GroupActions(userIds, actions).value, u), acc) <==> Occurs(userIds, actions, u, acc)
    decreases |actions|
  {
    if actions != [] {
      var n := |actions| - 1;
      GroupActionsBuckets(userIds, actions[..n], u, acc);
      OccursSnoc(userIds, actions, u, acc);
      var gs := GroupActions(userIds, actions[..n]).value;
      AddActionEffect(gs, userIds[n], actions[n].accountId, actions[n].amount, u);
      if u == userIds[n] {
        AddToBucketsEffect(BucketsOf(gs, u), actions[n].accountId, actions[n].amount, acc);
      }
    }
  }

  /** A user has a group exactly when one of the actions is theirs. */
  lemma {:induction false} GroupActionsUsers(userIds: seq<string>, actions: seq<PaymentAction>, u: string)
    requires |actions| <= |userIds|
    ensures FindIndex(GroupActions(userIds, actions).value, IsUser(u)).Some? <==> IsActionUser(userIds, actions, u)
    decreases |actions|
  {
    if actions != [] {
      var n := |actions| - 1;
      OccursSnoc(userIds, actions, u, "");
      GroupActionsUsers(userIds, actions[..n], u);
      var gs := GroupActions(userIds, actions[..n]).value;
      AddActionEffect(gs, userIds[n], actions[n].accountId, actions[n].amount, u);
    }
  }

  /** A user's buckets add up to all of that user's actions. */
  lemma {:induction false} GroupActionsTotals(userIds: seq<string>, actions: seq<PaymentAction>, u: string)
    requires |actions| <= |userIds|
    ensures Total(BucketsOf(GroupActions(userIds, actions).value, u)) == UserSum(userIds, actions, u)
    decreases |actions|
  {
    if actions != [] {
      var n := |actions| - 1;
      GroupActionsTotals(userIds, actions[..n], u);
      var gs := GroupActions(userIds, actions[..n]).value;
      AddActionEffect(gs, userIds[n], actions[n].accountId, actions[n].amount, u);
      if u == userIds[n] {
        AddToBucketsTotal(BucketsOf(gs, u), actions[n].accountId, actions[n].amount);
      }
    }
  }

  /** No two groups belong to the same user. */
  predicate DistinctUsers(gs: seq<Group>)
  {
    forall i, j :: 0 <= i < j < |gs| ==> gs[i].userId != gs[j].userId
  }

  /** Adding an action keeps the users distinct. */
  lemma AddActionDistinct(gs: seq<Group>, u: string, acc: string, amount: real)
    requires DistinctUsers(gs)
    ensures DistinctUsers(AddAction(gs, u, acc, amount))
  {
    var r := AddAction(gs, u, acc, amount);
    match FindIndex(gs, IsUser(u))
    case None =>
      assert r == gs + [Group(u, [Bucket(acc, amount)])];
      forall i, j | 0 <= i < j < |r| ensures r[i].userId != r[j].userId {
        if j == |gs| {
          assert !IsUser(u)(gs[i]);
        }
      }
    case Some(k) =>
      assert forall i :: 0 <= i < |gs| ==> r[i].userId == gs[i].userId;
  }

  /** Users appear once each: one group, hence one message, per user. */
  lemma {:induction false} GroupActionsDistinctUsers(userIds: seq<string>, actions: seq<PaymentAction>)
    requires |actions| <= |userIds|
    ensures DistinctUsers(GroupActions(userIds, actions).value)
    decreases |actions|
  {
    if actions != [] {
      var n := |actions| - 1;
      GroupActionsDistinctUsers(userIds, actions[..n]);
      AddActionDistinct(GroupActions(userIds, actions[..n]).value, userIds[n], actions[n].accountId, actions[n].amount);
    }
  }

  /** The notified users are exactly the users of the actions. */
  lemma NotifiedUsers(userIds: seq<string>, actions: seq<PaymentAction>, u: string)
    requires |actions| <= |userIds|
    ensures (exists j :: 0 <= j < |GroupActions(userIds, actions).value| && GroupActions(userIds, actions).value[j].userId == u)
      <==> IsActionUser(userIds, actions, u)
  {
    var gs := GroupActions(userIds, actions).value;
    GroupActionsUsers(userIds, actions, u);
    if exists j :: 0 <= j < |gs| && gs[j].userId == u {
      var j :| 0 <= j < |gs| && gs[j].userId == u;
      assert IsUser(u)(gs[j]);
    }
  }

  // ---------------------------------------------------------------------------
  // Messages
  // ---------------------------------------------------------------------------

  /** The first sentence of a message. */
  datatype Headline = Missing(shortfall: real, total: real) | AllSet(total: real)

  /** One line per bucket: the account's name and the bucket amount. */
  datatype Line = Line(name: string, amount: real)

  datatype Notice = Notice(userId: string, headline: Headline, lines: seq<Line>)

  /** The headline: "missing" exactly when the balance is below the total. */
  function ChooseHeadline(balance: real, total: real): (h: Headline)
    ensures h.Missing? <==> balance < total
    ensures h.Missing? ==> h.shortfall == total - balance && h.shortfall > 0.0
    ensures h.total == total
  {
    if balance < total then Missing(total - balance, total) else AllSet(total)
  }

  /** The name of the first account whose id is the bucket's account id, ""
      when none is; a nil slot reached first panics. */
  function AccountName(accs: Accounts, accId: string): (r: Result<string>)
    ensures r.Err? <==> Scan(accs, HasAccountId(accId)).Err?
    ensures r == Ok("") <== Scan(accs, HasAccountId(accId)) == Ok(None)
    ensures Scan(accs, HasAccountId(accId)).Ok? && Scan(accs, HasAccountId(accId)).value.Some? ==>
      var i := Scan(accs, HasAccountId(accId)).value.value;
      r == Ok(accs[i].value.name) && accs[i].value.id == accId
  {
    match Scan(accs, HasAccountId(accId))
    case Err(e) => Err(e)
    case Ok(None) => Ok("")
    case Ok(Some(i)) => Ok(accs[i].value.name)
  }

  function Lines(accs: Accounts, bs: seq<Bucket>): (r: Result<seq<Line>>)
    ensures r.Ok? ==> |r.value| == |bs| && forall k :: 0 <= k < |bs| ==>
      r.value[k].amount == bs[k].amount && AccountName(accs, bs[k].accountId) == Ok(r.value[k].name)
    ensures r.Err? <==> exists k :: 0 <= k < |bs| && AccountName(accs, bs[k].accountId).Err?
    decreases |bs|
  {
    if bs == [] then Ok([])
    else
      var n := |bs| - 1;
      match Lines(accs, bs[..n])
      case Err(e) =>
        var k :| 0 <= k < n && AccountName(accs, bs[..n][k].accountId).Err?;
        assert bs[k] == bs[..n][k];
        Err(e)
      case Ok(ls) =>
        match AccountName(accs, bs[n].accountId)
        case Err(e) => Err(e)
        case Ok(name) =>
          assert forall k :: 0 <= k < n ==> bs[k] == bs[..n][k];
          Ok(ls + [Line(name, bs[n].amount)])
  }

  /** The planning service and the SMS sender. */
  datatype Services = Services(
    upcoming: Result<(seq<string>, seq<PaymentAction>)>,
    sendSms: (string, Notice) -> Result<bool>)

  /** The message for one user: fetch accounts (failure ends the handler
      with 500), the first depository balance (none is a nil dereference),
      the headline and the lines. The "debit balance" error exit re-tests an
      error already known to be nil and is never taken. */
  function Compose(s: Session, c: Store, g: Group): (r: (Response<Notice>, Store))
    ensures r.0.Success? ==>
      var id := if FromHex(g.userId).Ok? then FromHex(g.userId).value else NilObjectId;
      var fetched := GetUserAccounts(s, c, id);
      var balance := GetDebitAccountBalance(s, fetched.1, id);
      && fetched.0.Ok?
      && balance.0.Ok? && balance.0.value.Some?
      && r.0.data.userId == g.userId
      && r.0.data.headline.total == Total(g.buckets)
      && r.0.data.headline == ChooseHeadline(balance.0.value.value.current, Total(g.buckets))
      && Lines(fetched.0.value, g.buckets) == Ok(r.0.data.lines)
    ensures var id := if FromHex(g.userId).Ok? then FromHex(g.userId).value else NilObjectId;
      GetUserAccounts(s, c, id).0.Err? ==> r.0 == Failure(StatusInternalServerError, "error listing accounts")
    ensures var id := if FromHex(g.userId).Ok? then FromHex(g.userId).value else NilObjectId;
      var fetched := GetUserAccounts(s, c, id);
      var balance := GetDebitAccountBalance(s, fetched.1, id);
      fetched.0.Ok? ==>
        && r.1 == balance.1
        && (balance.0.Err? || balance.0.value.None? ==> r.0.Abort?)
        && (balance.0.Ok? && balance.0.value.Some? ==>
              (r.0.Abort? <==> Lines(fetched.0.value, g.buckets).Err?)
              && (r.0.Success? <==> Lines(fetched.0.value, g.buckets).Ok?))
    ensures r.0.Failure? ==> r.0.status == StatusInternalServerError && r.0.message == "error listing accounts"
  {
    var id := match FromHex(g.userId) case Ok(i) => i case Err(_) => NilObjectId;
    var (fetched, c1) := GetUserAccounts(s, c, id);
    match fetched
    case Err(_) => (Failure(StatusInternalServerError, "error listing accounts"), c1)
    case Ok(accs) =>
      var (balance, c2) := GetDebitAccountBalance(s, c1, id);
      match balance
      case Err(_) => (Abort("nil account"), c2)
      case Ok(None) => (Abort("nil debit balance"), c2)
      case Ok(Some(b)) =>
        match Lines(accs, g.buckets)
        case Err(_) => (Abort("nil account"), c2)
        case Ok(lines) => (Success("", Notice(g.userId, ChooseHeadline(b.current, Total(g.buckets)), lines)), c2)
  }

  /** The message loop over the users in order; the first failure ends it. */
  function ComposeAll(s: Session, c: Store, gs: seq<Group>): (r: (Response<seq<Notice>>, Store))
    ensures r.0.Success? ==> |r.0.data| == |gs| && forall j :: 0 <= j < |gs| ==>
      r.0.data[j].userId == gs[j].userId && r.0.data[j].headline.total == Total(gs[j].buckets)
    decreases |gs|
  {
    if gs == [] then (Success("", []), c)
    else
      var (first, c1) := Compose(s, c, gs[0]);
      match first
      case Failure(status, msg) => (Failure(status, msg), c1)
      case Abort(why) => (Abort(why), c1)
      case Success(_, n) =>
        var (rest, c2) := ComposeAll(s, c1, gs[1..]);
        match rest
        case Success(_, ns) => (Success("", [n] + ns), c2)
        case Failure(status, msg) => (Failure(status, msg), c2)
        case Abort(why) => (Abort(why), c2)
  }

  /** GetUserByID: a malformed id fails before the read; otherwise the
      first user with that id, or the read's failure. */
  function UserById(users: UserStore, idText: string, fault: Option<Error>): (r: Result<User>)
    ensures FromHex(idText).Err? ==> r.Err?
    ensures FromHex(idText).Ok? && fault.None? ==>
      (r.Ok? <==> exists i :: 0 <= i < |users| && users[i].id == FromHex(idText).value)
    ensures r.Ok? ==> r.value in users && Hex(r.value.id) == Lower(idText)
  {
    var id :- FromHex(idText);
    FromHexExactly(idText);
    FindOne(users, HasUserId(id), fault)
  }

  /** One message handed to the sender: no user for the id is `None` (the
      nil user's phone number is then dereferenced), otherwise the sender's
      answer. */
  function SendOne(users: UserStore, dbFault: Option<Error>, n: Notice, send: (string, Notice) -> Result<bool>): Option<Result<bool>>
  {
    match UserById(users, n.userId, dbFault)
    case Err(_) => None
    case Ok(u) => Some(send(u.phoneNumber, n))
  }

  /** The sender accepted the message for `n`. */
  predicate Delivered(users: UserStore, dbFault: Option<Error>, n: Notice, send: (string, Notice) -> Result<bool>)
  {
    var o := SendOne(users, dbFault, n, send);
    o.Some? && o.value.Ok?
  }

  /** The send loop, in message order: a missing user panics and the first
      failed send ends the handler with 500. */
  function SendAll(users: UserStore, dbFault: Option<Error>, notices: seq<Notice>, send: (string, Notice) -> Result<bool>): (r: Response<seq<bool>>)
    ensures r.Success? ==> (r.message == "successfully notified users" && |r.data| == |notices|
      && forall j :: 0 <= j < |notices| ==> SendOne(users, dbFault, notices[j], send) == Some(Ok(r.data[j])))
    ensures r.Failure? ==> r == Failure(StatusInternalServerError, "error sending SMS")
    decreases |notices|
  {
    if notices == [] then Success("successfully notified users", [])
    else
      match SendOne(users, dbFault, notices[0], send)
      case None => Abort("nil user")
      case Some(Err(_)) => Failure(StatusInternalServerError, "error sending SMS")
      case Some(Ok(resp)) =>
        match SendAll(users, dbFault, notices[1..], send)
        case Success(_, rest) => Success("successfully notified users", [resp] + rest)
        case Failure(status, msg) => Failure(status, msg)
        case Abort(why) => Abort(why)
  }

  /** A send loop that does not succeed stopped at a message after which
      nothing was sent: every earlier message was delivered, and that one
      failed at the sender (500) or had no user (a panic). */
  lemma {:induction false} SendAllStops(users: UserStore, dbFault: Option<Error>, notices: seq<Notice>, send: (string, Notice) -> Result<bool>)
    ensures var r := SendAll(users, dbFault, notices, send);
      !r.Success? ==> exists j :: (0 <= j < |notices|
        && (forall i :: 0 <= i < j ==> Delivered(users, dbFault, notices[i], send))
        && (r.Failure? <==> SendOne(users, dbFault, notices[j], send).Some?)
        && (r.Failure? ==> SendOne(users, dbFault, notices[j], send).value.Err?))
    decreases |notices|
  {
    var r := SendAll(users, dbFault, notices, send);
    if notices != [] && !r.Success? {
      var o := SendOne(users, dbFault, notices[0], send);
      if o.Some? && o.value.Ok? {
        var tail := notices[1..];
        SendAllStops(users, dbFault, tail, send);
        var j :| 0 <= j < |tail|
          && (forall i :: 0 <= i < j ==> Delivered(users, dbFault, tail[i], send))
          && (r.Failure? <==> SendOne(users, dbFault, tail[j], send).Some?)
          && (r.Failure? ==> SendOne(users, dbFault, tail[j], send).value.Err?);
        assert tail[j] == notices[j + 1];
        forall i | 0 <= i < j + 1 ensures Delivered(users, dbFault, notices[i], send) {
          if i > 0 {
            assert notices[i] == tail[i - 1];
          }
        }
      } else {
        assert SendOne(users, dbFault, notices[0], send) == o;
      }
    }
  }

  /** NotifyUsersUpcomingPaymentActions. */
  function NotifyUsersUpcomingPaymentActions(s: Session, c: Store, users: UserStore, dbFault: Option<Error>, sv: Services)
    : (r: (Response<seq<bool>>, Store))
    ensures sv.upcoming.Err? ==> r == (Failure(StatusInternalServerError, "error listing upcoming PaymentActions"), c)
    ensures sv.upcoming.Ok? && |sv.upcoming.value.1| > |sv.upcoming.value.0| ==> r.0.Abort?
    ensures r.0.Success? ==> sv.upcoming.Ok? && var (userIds, actions) := sv.upcoming.value;
      && |actions| <= |userIds|
      && var gs := GroupActions(userIds, actions).value;
         && ComposeAll(s, c, gs).0.Success?
         && r.0 == SendAll(users, dbFault, ComposeAll(s, c, gs).0.data, sv.sendSms)
         && |r.0.data| == |gs|
    ensures sv.upcoming.Ok? && |sv.upcoming.value.1| <= |sv.upcoming.value.0| ==>
      var (userIds, actions) := sv.upcoming.value;
      var composed := ComposeAll(s, c, GroupActions(userIds, actions).value);
      && r.1 == composed.1
      && (composed.0.Failure? ==> r.0 == Failure(composed.0.status, composed.0.message))
      && (composed.0.Abort? ==> r.0 == Abort(composed.0.reason))
      && (composed.0.Success? ==> r.0 == SendAll(users, dbFault, composed.0.data, sv.sendSms))
  {
    match sv.upcoming
    case Err(_) => (Failure(StatusInternalServerError, "error listing upcoming PaymentActions"), c)
    case Ok((userIds, actions)) =>
      match GroupActions(userIds, actions)
      case Err(_) => (Abort("index out of range"), c)
      case Ok(gs) =>
        var (composed, c1) := ComposeAll(s, c, gs);
        match composed
        case Failure(status, msg) => (Failure(status, msg), c1)
        case Abort(why) => (Abort(why), c1)
        case Success(_, notices) => (SendAll(users, dbFault, notices, sv.sendSms), c1)
  }

  /** On success every user with an upcoming payment got exactly one
      message, nobody else got one, and each message's total is the sum of
      all of that user's upcoming payments. */
  lemma NotifiedExactlyOnce(s: Session, c: Store, users: UserStore, dbFault: Option<Error>, sv: Services)
    requires NotifyUsersUpcomingPaymentActions(s, c, users, dbFault, sv).0.Success?
    ensures sv.upcoming.Ok? && |sv.upcoming.value.1| <= |sv.upcoming.value.0|
    ensures var (userIds, actions) := sv.upcoming.value;
      var composed := ComposeAll(s, c, GroupActions(userIds, actions).value).0;
      && composed.Success?
      && DistinctNotices(composed.data)
      && (forall u :: IsActionUser(userIds, actions, u) <==> Notified(composed.data, u))
      && forall j :: 0 <= j < |composed.data| ==>
           composed.data[j].headline.total == UserSum(userIds, actions, composed.data[j].userId)
  {
    var (userIds, actions) := sv.upcoming.value;
    var gs := GroupActions(userIds, actions).value;
    var ns := ComposeAll(s, c, gs).0.data;
    GroupActionsDistinctUsers(userIds, actions);
    ComposedNotices(gs, ns);
    forall u ensures IsActionUser(userIds, actions, u) <==> Notified(ns, u) {
      NotifiedUsers(userIds, actions, u);
    }
    forall u ensures Total(BucketsOf(gs, u)) == UserSum(userIds, actions, u) {
      GroupActionsTotals(userIds, actions, u);
    }
  }

  predicate DistinctNotices(ns: seq<Notice>)
  {
    forall i, j :: 0 <= i < j < |ns| ==> ns[i].userId != ns[j].userId
  }

  predicate Notified(ns: seq<Notice>, u: string)
  {
    exists j :: 0 <= j < |ns| && ns[j].userId == u
  }

  /** Messages that follow distinct groups one for one are distinct,
      cover exactly the groups' users and carry each user's bucket total. */
  lemma ComposedNotices(gs: seq<Group>, ns: seq<Notice>)
    requires DistinctUsers(gs)
    requires |ns| == |gs| && forall j :: 0 <= j < |gs| ==>
      ns[j].userId == gs[j].userId && ns[j].headline.total == Total(gs[j].buckets)
    ensures DistinctNotices(ns)
    ensures forall u :: Notified(ns, u) <==> exists j :: 0 <= j < |gs| && gs[j].userId == u
    ensures forall j :: 0 <= j < |ns| ==> ns[j].headline.total == Total(BucketsOf(gs, ns[j].userId))
  {
    forall u ensures Notified(ns, u) <==> exists j :: 0 <= j < |gs| && gs[j].userId == u {
      if Notified(ns, u) {
        var j :| 0 <= j < |ns| && ns[j].userId == u;
        assert gs[j].userId == u;
      }
      if exists j :: 0 <= j < |gs| && gs[j].userId == u {
        var j :| 0 <= j < |gs| && gs[j].userId == u;
        assert ns[j].userId == u;
      }
    }
    forall j | 0 <= j < |ns| ensures ns[j].headline.total == Total(BucketsOf(gs, ns[j].userId)) {
      var u := gs[j].userId;
      assert IsUser(u)(gs[j]);
      assert FindIndex(gs, IsUser(u)) == Some(j);
    }
  }
}
