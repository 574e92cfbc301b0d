/** The user-collection handlers of handlers/user.go: create-if-absent
    (`CreateUser`, `CreateUserClerkWebhook`), the phone update, the
    `CleanUp` sweep and the `GetUserByID` guard. The collection is a
    sequence in store order; a `FindOne`, `UpdateOne` or `DeleteOne` acts on
    the first matching record. Request-body parsing is not modelled: the
    parsed body is an input.
 */
module Users {
  import opened Base
  import opened ObjectIds
  import opened Models
  import opened Seqs
  import opened Cache
  import opened Identity

  ghost predicate UniqueUserIds(s: UserStore)
  {
    forall i, j :: 0 <= i < j < |s| ==> s[i].id != s[j].id
  }

  /** The existence rule both creation handlers share: look the e-mail up
      through the cache; when that fails for any reason (the lookup hands
      back no user on every error) insert `candidate`; when it succeeds
      answer with the existing id. The "error checking if user already
      exists" branch is never reached. */
  function CreateIfAbsent(c: Store, users: UserStore, email: string, candidate: User,
                          faults: CacheFaults, dbFault: Option<Error>, insertFault: Option<Error>)
    : (r: (Response<ObjectId>, Store, UserStore))
    ensures var lookup := GetUserByEmail(c, users, email, faults, dbFault);
      && r.1 == lookup.1
      && (lookup.0.Ok? ==> r.0 == Success("users already exists", lookup.0.value.id) && r.2 == users)
      && (lookup.0.Err? && insertFault.Some? ==> r.0 == Failure(StatusInternalServerError, "failed to create user") && r.2 == users)
      && (lookup.0.Err? && insertFault.None? ==> r.0 == Success("new user created", candidate.id) && r.2 == users + [candidate])
  {
    var (found, c', _) := GetUserByEmail(c, users, email, faults, dbFault);
    match found
    case Ok(u) => (Success("users already exists", u.id), c', users)
    case Err(_) =>
      if insertFault.Some? then (Failure(StatusInternalServerError, "failed to create user"), c', users)
      else (Success("new user created", candidate.id), c', users + [candidate])
  }

  /** CreateUser: the body's user, given a new id, is inserted unless a user
      with its e-mail is found. */
  function CreateUser(c: Store, users: UserStore, body: User, newId: ObjectId,
                      faults: CacheFaults, dbFault: Option<Error>, insertFault: Option<Error>)
    : (r: (Response<ObjectId>, Store, UserStore))
    ensures r.2 == users || r.2 == users + [body.(id := newId)]
    ensures r.2 != users ==> r.0 == Success("new user created", newId)
    ensures r.0.Failure? ==> r.0 == Failure(StatusInternalServerError, "failed to create user") && r.2 == users
    ensures r.0.Success? && r.0.message == "users already exists" ==> r.2 == users
    ensures !r.0.Abort?
  {
    CreateIfAbsent(c, users, body.email, body.(id := newId), faults, dbFault, insertFault)
  }

  /** With a working cache and store, a registered e-mail is never inserted
      again: the first user with that e-mail answers. */
  lemma CreateUserExisting(c: Store, users: UserStore, body: User, newId: ObjectId, i: int)
    requires 0 <= i < |users| && users[i].email == body.email
    requires forall j :: 0 <= j < i ==> users[j].email != body.email
    requires body.email !in c
    ensures CreateUser(c, users, body, newId, NoCacheFaults, None, None).0 == Success("users already exists", users[i].id)
    ensures CreateUser(c, users, body, newId, NoCacheFaults, None, None).2 == users
  {
    assert HasEmail(body.email)(users[i]);
    assert FindOne(users, HasEmail(body.email), None).Ok?;
  }

  /** A failing cache read counts as "no such user": the registered e-mail is
      inserted a second time. */
  lemma CreateUserDuplicatesOnCacheFailure(c: Store, u: User, body: User, newId: ObjectId, e: Error)
    requires body.email == u.email
    ensures var r := CreateUser(c, [u], body, newId, NoCacheFaults.(onGet := Some(e)), None, None);
      r.0 == Success("new user created", newId) && r.2 == [u, body.(id := newId)]
  {
  }

  /** CreateUserClerkWebhook: the same rule keyed on the event's e-mail; the
      record inserted is the one the event converts to (`NewDBUser`, given as
      `dbUser`). */
  function CreateUserClerkWebhook(c: Store, users: UserStore, email: string, dbUser: User,
                                  faults: CacheFaults, dbFault: Option<Error>, insertFault: Option<Error>)
    : (r: (Response<ObjectId>, Store, UserStore))
    ensures r.2 == users || r.2 == users + [dbUser]
    ensures r.2 != users <==> GetUserByEmail(c, users, email, faults, dbFault).0.Err? && insertFault.None?
    ensures r.0.Failure? ==> r.0 == Failure(StatusInternalServerError, "failed to create user")
  {
    CreateIfAbsent(c, users, email, dbUser, faults, dbFault, insertFault)
  }

  /** The prefix UpdateUserPhone puts in front of the number it stores. */
  const CountryCode: string := "+1"

  /** `UpdateOne({_id: id}, {$set: {phone_number: phone}})`: the store
      afterwards and the modified count, which is 1 exactly when a record
      matched and its phone actually changed. */
  function SetPhone(users: UserStore, id: ObjectId, phone: string): (r: (UserStore, int))
    ensures |r.0| == |users|
    ensures forall i :: 0 <= i < |users| ==> r.0[i].(phoneNumber := users[i].phoneNumber) == users[i]
    ensures forall i :: 0 <= i < |users| && users[i].id != id ==> r.0[i] == users[i]
    ensures r.1 == 0 <==> r.0 == users
    ensures r.1 == 0 || r.1 == 1
    ensures (forall i :: 0 <= i < |users| ==> users[i].id != id) ==> r.1 == 0
    ensures forall i :: 0 <= i < |users| && users[i].id == id && (forall j :: 0 <= j < i ==> users[j].id != id) ==>
      r.0[i].phoneNumber == phone && (r.1 == 1 <==> users[i].phoneNumber != phone)
  {
    match FindIndex(users, HasUserId(id))
    case None => (users, 0)
    case Some(k) =>
      if users[k].phoneNumber == phone then (users, 0)
      else
        var r := users[k := users[k].(phoneNumber := phone)];
        assert r[k] != users[k];
        (r, 1)
  }

  /** UpdateUserPhone: a failed lookup is 404; an input equal to the phone
      the lookup returned needs no write; otherwise the phone is set to "+1"
      followed by the input. The cached user is not refreshed. */
  function UpdateUserPhone(c: Store, users: UserStore, email: string, input: string,
                           faults: CacheFaults, dbFault: Option<Error>, updateFault: Option<Error>)
    : (r: (Response<int>, Store, UserStore))
    ensures var lookup := GetUserByEmail(c, users, email, faults, dbFault);
      && r.1 == lookup.1
      && (lookup.0.Err? ==> r.0 == Failure(StatusNotFound, "user not found") && r.2 == users)
      && (lookup.0.Ok? && lookup.0.value.phoneNumber == input ==> r.0 == Success("no update needed", 0) && r.2 == users)
      && (lookup.0.Ok? && lookup.0.value.phoneNumber != input && updateFault.Some? ==>
            r.0 == Failure(StatusInternalServerError, "failed to update user") && r.2 == users)
      && (lookup.0.Ok? && lookup.0.value.phoneNumber != input && updateFault.None? ==>
            r.0.Success? && r.0.message == "updated user"
            && r.2 == SetPhone(users, lookup.0.value.id, CountryCode + input).0
            && (r.0.data == 1 <==> r.2 != users))
  {
    var (found, c', _) := GetUserByEmail(c, users, email, faults, dbFault);
    match found
    case Err(_) => (Failure(StatusNotFound, "user not found"), c', users)
    case Ok(u) =>
      if u.phoneNumber == input then (Success("no update needed", 0), c', users)
      else if updateFault.Some? then (Failure(StatusInternalServerError, "failed to update user"), c', users)
      else
        var (users', modified) := SetPhone(users, u.id, CountryCode + input);
        (Success("updated user", modified), c', users')
  }

  /** Repeating an update changes nothing further: the stored record already
      carries "+1" and the input, so the second write modifies no record
      (whether or not the cached user is stale). */
  lemma UpdateUserPhoneSettles(c: Store, users: UserStore, email: string, input: string)
    requires UpdateUserPhone(c, users, email, input, NoCacheFaults, None, None).0.Success?
    ensures var (_, c', users') := UpdateUserPhone(c, users, email, input, NoCacheFaults, None, None);
      var again := UpdateUserPhone(c', users', email, input, NoCacheFaults, None, None);
      again.2 == users' && again.0.Success? && again.0.data == 0
  {
    var (found, c', _) := GetUserByEmail(c, users, email, NoCacheFaults, None);
    var u := found.value;
    GetUserByEmailReadThrough(c, users, email, NoCacheFaults, None);
    if u.phoneNumber != input {
      var users' := SetPhone(users, u.id, CountryCode + input).0;
      var k := FindIndex(users, HasUserId(u.id));
      if k.Some? {
        assert FindIndex(users', HasUserId(u.id)) == k by {
          assert forall j :: 0 <= j < |users| ==> users'[j].id == users[j].id by {
            forall j | 0 <= j < |users| ensures users'[j].id == users[j].id {
              assert users'[j].(phoneNumber := users[j].phoneNumber) == users[j];
            }
          }
          assert HasUserId(u.id)(users'[k.value]);
        }
        assert users'[k.value].phoneNumber == CountryCode + input;
      } else {
        assert users' == users;
      }
    }
  }

  /** The phone value the front end stores for an unknown number. */
  const UndefinedPhone: string := "+1undefined"

  /** The records CleanUp deletes: in live mode, each "+1undefined" user
      whose delete call succeeds (`deleteFails` says which calls fail). */
  predicate IsRemoved(test: string, deleteFails: ObjectId -> bool, u: User)
  {
    test == "false" && u.phoneNumber == UndefinedPhone && !deleteFails(u.id)
  }

  function Removed(test: string, deleteFails: ObjectId -> bool): User -> bool
  {
    (u: User) => IsRemoved(test, deleteFails, u)
  }

  function Survives(test: string, deleteFails: ObjectId -> bool): User -> bool
  {
    (u: User) => !IsRemoved(test, deleteFails, u)
  }

  /** `DeleteOne({_id: id})`: removes the first record with that id. */
  function DeleteFirst(users: UserStore, id: ObjectId): (r: UserStore)
    ensures (forall i :: 0 <= i < |users| ==> users[i].id != id) ==> r == users
    ensures forall k :: 0 <= k < |users| && users[k].id == id && (forall j :: 0 <= j < k ==> users[j].id != id) ==>
      r == users[..k] + users[k + 1..]
  {
    match FindIndex(users, HasUserId(id))
    case None => users
    case Some(k) => users[..k] + users[k + 1..]
  }

  /** One step of the sweep: with unique ids, deleting the next record's id
      removes exactly that record from "survivors so far + the rest". */
  lemma DeleteNext(users: UserStore, i: int, p: User -> bool)
    requires UniqueUserIds(users) && 0 <= i < |users|
    ensures DeleteFirst(Filter(users[..i], p) + users[i..], users[i].id) == Filter(users[..i], p) + users[i + 1..]
  {
    var front := Filter(users[..i], p);
    var s := front + users[i..];
    forall j | 0 <= j < |front| ensures s[j].id != users[i].id {
      assert front[j] in users[..i];
      var m :| 0 <= m < i && users[..i][m] == front[j];
    }
    assert s[|front|] == users[i];
    assert s[..|front|] + s[|front| + 1..] == front + users[i + 1..];
  }

  /** One iteration of the sweep over user `u`: the store afterwards. */
  function SweepOne(store: UserStore, u: User, test: string, deleteFails: ObjectId -> bool): UserStore
  {
    if IsRemoved(test, deleteFails, u) then DeleteFirst(store, u.id) else store
  }

  /** Filtering one more element of a prefix. */
  lemma FilterNext(users: UserStore, i: int, p: User -> bool)
    requires 0 <= i < |users|
    ensures Filter(users[..i + 1], p) == Filter(users[..i], p) + (if p(users[i]) then [users[i]] else [])
  {
    assert users[..i + 1] == users[..i] + [users[i]];
    FilterSnoc(users[..i], users[i], p);
  }

  /** A record that stays moves from "the rest" to "survivors so far". */
  lemma SweepKeeps(users: UserStore, i: int, front: UserStore, p: User -> bool)
    requires 0 <= i < |users| && p(users[i]) && front == Filter(users[..i], p)
    ensures front + users[i..] == Filter(users[..i + 1], p) + users[i + 1..]
  {
    FilterNext(users, i, p);
    assert users[i..] == [users[i]] + users[i + 1..];
  }

  /** A record that is deleted leaves "survivors so far" unchanged. */
  lemma SweepDrops(users: UserStore, i: int, p: User -> bool)
    requires UniqueUserIds(users) && 0 <= i < |users| && !p(users[i])
    ensures DeleteFirst(Filter(users[..i], p) + users[i..], users[i].id) == Filter(users[..i + 1], p) + users[i + 1..]
  {
    FilterNext(users, i, p);
    DeleteNext(users, i, p);
  }

  /** The sweep keeps "survivors so far + the rest" in step with its index. */
  lemma SweepStep(users: UserStore, i: int, store: UserStore, test: string, deleteFails: ObjectId -> bool)
    requires UniqueUserIds(users) && 0 <= i < |users|
    requires store == Filter(users[..i], Survives(test, deleteFails)) + users[i..]
    ensures SweepOne(store, users[i], test, deleteFails) == Filter(users[..i + 1], Survives(test, deleteFails)) + users[i + 1..]
  {
    var keep := Survives(test, deleteFails);
    if IsRemoved(test, deleteFails, users[i]) {
      assert !keep(users[i]);
      SweepDrops(users, i, keep);
    } else {
      assert keep(users[i]);
      SweepKeeps(users, i, Filter(users[..i], keep), keep);
    }
  }

  /** CleanUp: read every user; in live mode (`test == "false"`) delete each
      one whose phone is "+1undefined", counting the deletes that succeed;
      in any other mode delete nothing. A failed read is 404. */
  method CleanUp(users: UserStore, test: string, findFault: Option<Error>, deleteFails: ObjectId -> bool)
    returns (resp: Response<int>, store: UserStore)
    ensures findFault.Some? ==> resp == Failure(StatusNotFound, "user not found") && store == users
    ensures findFault.None? ==> resp.Success? && resp.message == "done deleting users"
    ensures findFault.None? ==> resp.data == |Filter(users, Removed(test, deleteFails))|
    ensures test != "false" ==> store == users && (resp.Success? ==> resp.data == 0)
    ensures findFault.None? && UniqueUserIds(users) ==> store == Filter(users, Survives(test, deleteFails))
  {
    if findFault.Some? {
      return Failure(StatusNotFound, "user not found"), users;
    }
    var count := 0;
    store := users;
    var i := 0;
    while i < |users|
      invariant 0 <= i <= |users|
      invariant count == |Filter(users[..i], Removed(test, deleteFails))|
      invariant test != "false" ==> store == users && count == 0
      invariant UniqueUserIds(users) ==> store == Filter(users[..i], Survives(test, deleteFails)) + users[i..]
    {
      var u := users[i];
      FilterNext(users, i, Removed(test, deleteFails));
      if UniqueUserIds(users) {
        SweepStep(users, i, store, test, deleteFails);
      }
      if u.phoneNumber == UndefinedPhone && test == "false" && !deleteFails(u.id) {
        store := DeleteFirst(store, u.id);
        count := count + 1;
      }
      i := i + 1;
    }
    assert users[..|users|] == users;
    return Success("done deleting users", count), store;
  }

  /** The GetUserByID handler: a malformed id is 400 before any read; no
      record with the id is 404. */
  function GetUserByIdHandler(users: UserStore, idText: string, dbFault: Option<Error>): (r: Response<User>)
    ensures r == Failure(StatusBadRequest, "invalid user id") <==> FromHex(idText).Err?
    ensures FromHex(idText).Ok? && dbFault.None? ==>
      (r == Failure(StatusNotFound, "user not found") <==> forall i :: 0 <= i < |users| ==> users[i].id != FromHex(idText).value)
    ensures r.Success? ==> r.data in users && Hex(r.data.id) == Lower(idText)
  {
    match FromHex(idText)
    case Err(_) => Failure(StatusBadRequest, "invalid user id")
    case Ok(id) =>
      FromHexExactly(idText);
      match FindOne(users, HasUserId(id), dbFault)
      case Err(_) => Failure(StatusNotFound, "user not found")
      case Ok(u) => Success("user", u)
  }
}
