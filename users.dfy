/**
 * The user collection (models/UserModel.js): registration with its chain
 * of required-field checks, the `$set` profile update, the generic
 * find-one-and-update, and the rule that decides whether the daily
 * questions are asked again.
 */
module Users {
  import opened Wrappers
  import opened Documents

  /** The createUser mutation passes only GraphQL `String` arguments, each possibly null. */
  predicate StringArgs(user: Doc)
  {
    forall k :: k in user ==> user[k].Str? || user[k].Null?
  }

  /** `isEmail(user.email)`, on a field that is known to be a string. */
  predicate EmailFormatOk(user: Doc, isEmail: string -> bool)
  {
    "email" in user && user["email"].Str? && isEmail(user["email"].s)
  }

  /** `user.password.length < 5`, the length counted in UTF-16 code units. */
  predicate ShortPassword(user: Doc)
  {
    "password" in user && Length(user["password"]).Some? && Length(user["password"]).value < 5
  }

  /** The guards of `register`, in source order. */
  function RegisterChecks(user: Doc, users: Store, isEmail: string -> bool): seq<Check>
  {
    [ Check(Present(user, "name"), "Name is required"),
      Check(Present(user, "username"), "Username is required"),
      Check(Present(user, "email"), "Email is required"),
      Check(EmailFormatOk(user, isEmail), "Email format is invalid"),
      Check(Present(user, "password"), "Password is required"),
      Check(!ShortPassword(user), "Password length should be at least 5 characters"),
      Check(Present(user, "job"), "Job is required"),
      Check(!Taken(users, "username", Field(user, "username")), "Username already exists"),
      Check(!Taken(users, "email", Field(user, "email")), "Email already exists") ]
  }

  /** The message `register` throws before inserting anything, if it throws. */
  function RegisterError(user: Doc, users: Store, isEmail: string -> bool): (r: Option<string>)
    requires StringArgs(user)
    ensures r.None? <==> Registrable(user, users, isEmail)
  {
    if !Present(user, "name") then Some("Name is required")
    else if !Present(user, "username") then Some("Username is required")
    else if !Present(user, "email") then Some("Email is required")
    else if !isEmail(user["email"].s) then Some("Email format is invalid")
    else if !Present(user, "password") then Some("Password is required")
    else if Utf16Length(user["password"].s) < 5 then Some("Password length should be at least 5 characters")
    else if !Present(user, "job") then Some("Job is required")
    else if Taken(users, "username", user["username"]) then Some("Username already exists")
    else if Taken(users, "email", user["email"]) then Some("Email already exists")
    else None
  }

  /** Every guard of `register` passes: the fields are there, well formed, and not yet taken. */
  predicate Registrable(user: Doc, users: Store, isEmail: string -> bool)
  {
    && Present(user, "name") && Present(user, "username") && Present(user, "email")
    && EmailFormatOk(user, isEmail) && Present(user, "password") && !ShortPassword(user)
    && Present(user, "job")
    && !Taken(users, "username", Field(user, "username")) && !Taken(users, "email", Field(user, "email"))
  }

  /** The new collection, and the caller's object after `register` changed it. */
  datatype Registered = Registered(users: Store, user: Doc)

  /**
   * `UserModel.register`: the guards in order, then the password replaced
   * by its hash and the object inserted under a fresh id (which the driver
   * also writes back into the object as `_id`).
   */
  function Register(user: Doc, users: Store, isEmail: string -> bool,
                    hashPass: string -> string, newId: ObjectId): (r: Result<Registered, Fault>)
    requires StringArgs(user) && "_id" !in user && newId !in users
    ensures r.Ok? <==> Registrable(user, users, isEmail)
    ensures r.Err? ==> r.error == Thrown(RegisterError(user, users, isEmail).value)
    ensures r.Ok? ==> "password" in user && user["password"].Str?
                      && r.value.user == user["password" := Str(hashPass(user["password"].s))]["_id" := Ref(newId)]
    ensures r.Ok? ==> r.value.users.Keys == users.Keys + {newId}
                      && r.value.users[newId] == r.value.user
                      && forall id :: id in users ==> r.value.users[id] == users[id]
  {
    match RegisterError(user, users, isEmail)
    case Some(message) => Err(Thrown(message))
    case None =>
      var stored := user["password" := Str(hashPass(user["password"].s))]["_id" := Ref(newId)];
      Ok(Registered(users[newId := stored], stored))
  }

  /**
   * The guards of `register` run in source order: the message thrown is
   * that of the first guard that fails, and nothing is thrown when all pass.
   */
  lemma RegisterFollowsCheckOrder(user: Doc, users: Store, isEmail: string -> bool)
    requires StringArgs(user)
    ensures RegisterError(user, users, isEmail) == FirstFailure(RegisterChecks(user, users, isEmail))
  {
    var cs := RegisterChecks(user, users, isEmail);
    FirstFailureOfSix(cs[0], cs[1], cs[2], cs[3], cs[4], cs[5]);
    FirstFailureOfNine(cs[0], cs[1], cs[2], cs[3], cs[4], cs[5], cs[6], cs[7], cs[8]);
    assert cs == [cs[0], cs[1], cs[2], cs[3], cs[4], cs[5], cs[6], cs[7], cs[8]];
  }

  /** A password shorter than five UTF-16 code units is always refused, whatever else the input holds. */
  lemma ShortPasswordRejected(user: Doc, users: Store, isEmail: string -> bool,
                              hashPass: string -> string, newId: ObjectId)
    requires StringArgs(user) && "_id" !in user && newId !in users
    requires "password" in user && user["password"].Str? && Utf16Length(user["password"].s) < 5
    ensures Register(user, users, isEmail, hashPass, newId).Err?
    ensures Present(user, "name") && Present(user, "username") && Present(user, "email")
            && EmailFormatOk(user, isEmail) && user["password"].s != ""
            ==> Register(user, users, isEmail, hashPass, newId)
                == Err(Thrown("Password length should be at least 5 characters"))
  {
  }

  /**
   * Characters outside the Basic Multilingual Plane count twice: three
   * emoji make a password of length six, which the length guard accepts.
   */
  lemma AstralPasswordLongEnough(user: Doc)
    requires "password" in user && user["password"] == Str("\U{1F600}\U{1F600}\U{1F600}")
    ensures Length(user["password"]) == Some(6)
    ensures !ShortPassword(user)
  {
    var pw := "\U{1F600}\U{1F600}\U{1F600}";
    assert pw[1..] == "\U{1F600}\U{1F600}" && pw[1..][1..] == "\U{1F600}";
    assert Utf16Length(pw[1..][1..]) == 2;
  }

  /** When both the username and the email are taken, the username is reported. */
  lemma DuplicateUsernameReportedFirst(user: Doc, users: Store, isEmail: string -> bool,
                                       hashPass: string -> string, newId: ObjectId)
    requires StringArgs(user) && "_id" !in user && newId !in users
    requires forall i :: 0 <= i < 7 ==> RegisterChecks(user, users, isEmail)[i].ok
    requires Taken(users, "username", Field(user, "username"))
    ensures Register(user, users, isEmail, hashPass, newId) == Err(Thrown("Username already exists"))
  {
    var cs := RegisterChecks(user, users, isEmail);
    assert cs[0].ok && cs[1].ok && cs[2].ok && cs[3].ok && cs[4].ok && cs[5].ok && cs[6].ok;
  }

  /** The collection after an update, and the updated document (`null` when no document matched). */
  datatype Updated = Updated(users: Store, after: Option<Doc>)

  /**
   * `UserModel.updateUser`: the `_id` selects the document, and every other
   * supplied field is `$set` on it.
   */
  function UpdateUser(userData: Doc, users: Store): (r: Result<Updated, Fault>)
    ensures r.Err? <==> IdField(userData).None?
    ensures r.Err? ==> r.error == BadObjectId
    ensures r.Ok? && IdField(userData).value !in users ==> r.value == Updated(users, None)
    ensures r.Ok? && IdField(userData).value in users ==>
              var id := IdField(userData).value;
              && r.value.users.Keys == users.Keys
              && (forall other :: other in users && other != id ==> r.value.users[other] == users[other])
              && r.value.after == Some(r.value.users[id])
              && UpdatedExactly(users[id], userData, r.value.users[id])
  {
    match IdField(userData)
    case None => Err(BadObjectId)
    case Some(id) =>
      if id in users then
        var after := SetFields(users[id], WithoutId(userData));
        Ok(Updated(users[id := after], Some(after)))
      else Ok(Updated(users, None))
  }

  /**
   * `after` is `before` with exactly the supplied fields other than `_id`
   * changed: those take the supplied values, the `_id` and every field not
   * mentioned keep their old values, and no other field appears.
   */
  ghost predicate UpdatedExactly(before: Doc, supplied: Doc, after: Doc)
  {
    && after.Keys == before.Keys + (supplied.Keys - {"_id"})
    && (forall k :: k in supplied && k != "_id" ==> after[k] == supplied[k])
    && (forall k :: k in before && (k !in supplied || k == "_id") ==> after[k] == before[k])
  }

  /**
   * `UserModel.findOneAndUpdate`: only the filter's `_id` selects the
   * document; the update operators (`$push`, `$pull`) are given as the
   * function they apply to it.
   */
  function FindOneAndUpdate(filter: Doc, update: Doc -> Doc, users: Store): (r: Result<Updated, Fault>)
    ensures r.Err? <==> IdField(filter).None?
    ensures r.Ok? ==> var id := IdField(filter).value;
              if id in users then
                r.value.users.Keys == users.Keys
                && r.value.after == Some(update(users[id])) && r.value.users[id] == update(users[id])
                && forall other :: other in users && other != id ==> r.value.users[other] == users[other]
              else r.value == Updated(users, None)
  {
    match IdField(filter)
    case None => Err(BadObjectId)
    case Some(id) =>
      if id in users then Ok(Updated(users[id := update(users[id])], Some(update(users[id]))))
      else Ok(Updated(users, None))
  }

  /** Two filters with the same `_id` select and update the same document, whatever else they hold. */
  lemma FilterUsesOnlyId(f1: Doc, f2: Doc, update: Doc -> Doc, users: Store)
    requires IdField(f1) == IdField(f2)
    ensures FindOneAndUpdate(f1, update, users) == FindOneAndUpdate(f2, update, users)
  {
  }

  /**
   * `UserModel.shouldAskQuestions`: ask when the job, the daily activities
   * or the date of the last answers is missing, and otherwise when that
   * date falls on another day than today. `dayOf` is the calendar day
   * JavaScript's `toDateString` gives a stored date; a missing user makes
   * the field read throw.
   */
  function ShouldAskQuestions(userId: ObjectId, users: Store, dayOf: Value -> int, today: int): (r: Result<bool, Fault>)
    ensures r.Err? <==> userId !in users
    ensures r.Err? ==> r.error == NullAccess
    ensures userId in users && !Answered(users[userId]) ==> r == Ok(true)
    ensures userId in users && Answered(users[userId]) ==>
              r == Ok(dayOf(users[userId]["lastQuestionDate"]) != today)
  {
    if userId !in users then Err(NullAccess)
    else
      var user := users[userId];
      if !Present(user, "job") || !Present(user, "dailyActivities") || !Present(user, "lastQuestionDate") then Ok(true)
      else Ok(dayOf(user["lastQuestionDate"]) != today)
  }

  /** The user has a job, a list of daily activities (possibly empty) and a date of last answers. */
  predicate Answered(user: Doc)
  {
    Present(user, "job") && Present(user, "dailyActivities") && Present(user, "lastQuestionDate")
  }

  /** `UserModel.updateLastQuestionDate`: `$set` the date of the last answers to the clock's ISO string. */
  function UpdateLastQuestionDate(userId: ObjectId, users: Store, nowIso: string): (r: Store)
    ensures r.Keys == users.Keys
    ensures userId in users ==> r[userId] == SetFields(users[userId], map["lastQuestionDate" := Str(nowIso)])
    ensures forall other :: other in users && other != userId ==> r[other] == users[other]
  {
    if userId in users then users[userId := SetFields(users[userId], map["lastQuestionDate" := Str(nowIso)])]
    else users
  }

  /**
   * A user with a job and daily activities who has just answered is not
   * asked again on the same day, even with an empty list of activities.
   */
  lemma NotAskedTwiceOnOneDay(userId: ObjectId, users: Store, nowIso: string, dayOf: Value -> int)
    requires userId in users && Present(users[userId], "job") && Present(users[userId], "dailyActivities")
    requires nowIso != ""
    ensures ShouldAskQuestions(userId, UpdateLastQuestionDate(userId, users, nowIso), dayOf, dayOf(Str(nowIso))) == Ok(false)
  {
    var after := UpdateLastQuestionDate(userId, users, nowIso);
    assert after[userId]["lastQuestionDate"] == Str(nowIso);
    assert Answered(after[userId]);
  }
}
