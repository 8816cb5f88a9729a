/** The account-settings routes: bulk deletion of a user's plans, account
    deletion, profile updates and the password change. The two blueprints
    that serve them (settings and edit-profile) share the cascade and differ
    in messages and in the profile fields they write. Password hashing and
    checking are parameters. */
module Accounts {
  import opened Values
  import opened Db
  import opened Web

  // ----- delete_all_plans -----

  const NoPlans := "No plans to delete."
  const SettingsPlansDeleted := "All plans and data have been deleted."
  const ProfilePlansDeleted := "All plans and associated data have been deleted."

  /** The plans `pids`, the modules whose `planId` is one of them, and the
      lessons whose `moduleId` is one of those modules, removed. */
  function DropPlans(s: Store, pids: set<Id>): Store {
    var mids := ModulesOf(s, pids);
    s.(plans := s.plans - pids,
       modules := s.modules - mids,
       lessons := s.lessons - LessonsOf(s, mids))
  }

  /** `v` is the string id of one of `ids`. */
  predicate NamesOneOf(v: Value, ids: set<Id>) {
    v.Str? && v.s in ids
  }

  /** `delete_all_plans` of either blueprint; `done` is its success message.
      Without plans nothing is deleted; otherwise the user's plans, their
      modules and those modules' lessons go, and nothing else changes. */
  function DeleteAllPlans(session: Session, s: Store, done: string): (st: Step<string>)
    ensures st.session == session
    ensures session.userId.None? ==> st.reply == Failure(401, Unauthorized) && st.store == s
    ensures session.userId.Some? && PlansOf(s, session.userId.value) == {} ==>
      st.reply == Success(200, NoPlans) && st.store == s
    ensures session.userId.Some? && PlansOf(s, session.userId.value) != {} ==> st.reply == Success(200, done)
    ensures session.userId.Some? ==>
      var uid := session.userId.value;
      var pids := PlansOf(s, uid);
      var t := st.store;
      // none of the user's plans, nor anything under them, is left
      && (forall k :: k in t.plans ==> Get(t.plans[k], "userId") != Str(uid))
      && (forall m :: m in t.modules ==> !NamesOneOf(Get(t.modules[m], "planId"), pids))
      && (forall l :: l in t.lessons ==> !NamesOneOf(Get(t.lessons[l], "moduleId"), ModulesOf(s, pids)))
      // notes, attempts and users are untouched; other documents survive as they were
      && t.users == s.users && t.notes == s.notes && t.attempts == s.attempts
      && (forall k :: k in s.plans ==> (k in t.plans <==> k !in pids))
      && (forall k :: k in s.modules ==> (k in t.modules <==> !NamesOneOf(Get(s.modules[k], "planId"), pids)))
      && (forall k :: k in s.lessons ==>
            (k in t.lessons <==> !NamesOneOf(Get(s.lessons[k], "moduleId"), ModulesOf(s, pids))))
      && t.plans.Keys <= s.plans.Keys && t.modules.Keys <= s.modules.Keys && t.lessons.Keys <= s.lessons.Keys
      && (forall k :: k in t.plans ==> t.plans[k] == s.plans[k])
      && (forall k :: k in t.modules ==> t.modules[k] == s.modules[k])
      && (forall k :: k in t.lessons ==> t.lessons[k] == s.lessons[k])
  {
    if session.userId.None? then Denied(s, session)
    else
      var pids := PlansOf(s, session.userId.value);
      if pids == {} then
        assert forall k :: k in s.plans ==> Get(s.plans[k], "userId") != Str(session.userId.value) by {
          forall k | k in s.plans ensures Get(s.plans[k], "userId") != Str(session.userId.value) {
            OutsideWhere(s.plans, "userId", Str(session.userId.value), k);
          }
        }
        Step(Success(200, NoPlans), s, session)
      else Step(Success(200, done), DropPlans(s, pids), session)
  }

  /** The bulk delete leaves the plan → module → lesson hierarchy free of
      orphans. */
  lemma DeleteAllPlansKeepsLinked(session: Session, s: Store, done: string)
    requires Linked(s)
    ensures Linked(DeleteAllPlans(session, s, done).store)
  {
    var t := DeleteAllPlans(session, s, done).store;
    if session.userId.Some? && t != s {
      var pids := PlansOf(s, session.userId.value);
      var mids := ModulesOf(s, pids);
      forall m | m in t.modules ensures RefersInto(t.modules[m], "planId", t.plans) {
        assert m !in mids;
      }
      forall l | l in t.lessons && "moduleId" in t.lessons[l]
        ensures RefersInto(t.lessons[l], "moduleId", t.modules)
      {
        assert l !in LessonsOf(s, mids);
      }
    }
  }

  /** Unlike deleting a single plan, the bulk delete keeps the notes of the
      plans it removes, which then name plans that no longer exist. */
  lemma DeleteAllPlansKeepsOrphanNotes()
    ensures var s := Store(map[], map["p" := map["userId" := Str("u")]], map[], map[],
                           map["n" := map["planId" := Str("p")]], map[]);
      var t := DeleteAllPlans(Session(Some("u"), None, None), s, SettingsPlansDeleted).store;
      NotesLinked(s) && "n" in t.notes && !NotesLinked(t)
  {
    var s := Store(map[], map["p" := map["userId" := Str("u")]], map[], map[],
                   map["n" := map["planId" := Str("p")]], map[]);
    assert "p" in PlansOf(s, "u");
  }

  // ----- delete_account -----

  const AccountDeleted := "Account deleted successfully."

  /** `delete_account` of either blueprint: the plan cascade (whose own
      reply is discarded), then the user document removed — a missing one is
      no error — and the session cleared. A user id the store cannot address
      raises after the cascade: 500, with the cascade's deletions kept. */
  function DeleteAccount(session: Session, s: Store): (st: Step<string>)
    ensures session.userId.None? ==> st.reply == Failure(401, Unauthorized) && st.store == s && st.session == session
    ensures session.userId.Some? && !ValidDocId(session.userId.value) ==>
      && st.reply == Failure(500, ExceptionText)
      && st.session == session
      && st.store == DeleteAllPlans(session, s, SettingsPlansDeleted).store
    ensures session.userId.Some? && ValidDocId(session.userId.value) ==>
      var uid := session.userId.value;
      && st.reply == Success(200, AccountDeleted)
      && st.session == Cleared
      && st.store == DeleteAllPlans(session, s, SettingsPlansDeleted).store.(users := s.users - {uid})
  {
    if session.userId.None? then Denied(s, session)
    else
      var uid := session.userId.value;
      var afterPlans := DeleteAllPlans(session, s, SettingsPlansDeleted).store;
      if !ValidDocId(uid) then Fail(500, ExceptionText, afterPlans, session)
      else Step(Success(200, AccountDeleted), afterPlans.(users := afterPlans.users - {uid}), Cleared)
  }

  /** After the account is deleted, neither the user nor any of their plans
      remains, the hierarchy has no orphans, and other users are kept. */
  lemma DeleteAccountRemovesUser(session: Session, s: Store)
    requires session.userId.Some? && ValidDocId(session.userId.value) && Linked(s)
    ensures var uid := session.userId.value;
      var t := DeleteAccount(session, s).store;
      && uid !in t.users
      && PlansOf(t, uid) == {}
      && Linked(t)
      && (forall k :: k in s.users && k != uid ==> k in t.users && t.users[k] == s.users[k])
  {
    DeleteAllPlansKeepsLinked(session, s, SettingsPlansDeleted);
  }

  // ----- update_profile (settings) -----

  const ProfileUpdated := "Profile updated successfully!"

  /** The fields the settings form writes, read from the JSON body. */
  function SettingsFields(body: Doc): (d: Doc)
    ensures d.Keys == {"first_name", "last_name", "username", "phone_number"}
    ensures forall f :: f in d ==> d[f] == Get(body, f)
  {
    map["first_name" := Get(body, "first_name"), "last_name" := Get(body, "last_name"),
        "username" := Get(body, "username"), "phone_number" := Get(body, "phone_number")]
  }

  /** The session name built from the two name fields: `f"{first} {last}"`. */
  function DisplayName(first: Value, last: Value): string {
    PyStr(first) + " " + PyStr(last)
  }

  /** The user document can be addressed and exists: `update()` succeeds. */
  predicate UserExists(s: Store, uid: Id) {
    ValidDocId(uid) && uid in s.users
  }

  /** The settings `update_profile`: writes exactly the four form fields
      into the existing user document and sets the session name; a body
      that is not JSON or a missing user document raises, answered with 500
      and no change. */
  function UpdateProfile(session: Session, s: Store, body: Option<Doc>): (st: Step<string>)
    ensures session.userId.None? ==> st.reply == Failure(401, Unauthorized)
    ensures !st.reply.Success? ==> st.store == s && st.session == session
    ensures session.userId.Some? && !st.reply.Success? ==> st.reply == Failure(500, ExceptionText)
    ensures st.reply.Success? <==> session.userId.Some? && body.Some? && UserExists(s, session.userId.value)
    ensures st.reply.Success? ==>
      var uid := session.userId.value;
      var t := st.store;
      && st.reply.payload == ProfileUpdated
      && t == s.(users := t.users)
      && UpdatedOnly(t.users, s.users, uid, SettingsFields(body.value))
      && st.session == session.(name := Some(DisplayName(Get(body.value, "first_name"), Get(body.value, "last_name"))))
  {
    if session.userId.None? then Denied(s, session)
    else if body.None? || !UserExists(s, session.userId.value) then Fail(500, ExceptionText, s, session)
    else
      var uid := session.userId.value;
      var b := body.value;
      MergeUpdatesOnly(s.users, uid, SettingsFields(b));
      Step(Success(200, ProfileUpdated),
           s.(users := Merge(s.users, uid, SettingsFields(b))),
           session.(name := Some(DisplayName(Get(b, "first_name"), Get(b, "last_name")))))
  }

  /** After a profile update the session name is the one the stored
      document spells, and sending the same form again changes nothing. */
  lemma UpdateProfileAgreesAndSettles(session: Session, s: Store, body: Option<Doc>)
    ensures var st := UpdateProfile(session, s, body);
      st.reply.Success? ==>
        var uid := session.userId.value;
        && st.session.name == Some(DisplayName(st.store.users[uid]["first_name"], st.store.users[uid]["last_name"]))
        && UpdateProfile(st.session, st.store, body).store == st.store
        && UpdateProfile(st.session, st.store, body).session == st.session
  {
    var st := UpdateProfile(session, s, body);
    if st.reply.Success? {
      var uid := session.userId.value;
      assert "first_name" in {"first_name", "last_name", "username", "phone_number"};
      assert "last_name" in {"first_name", "last_name", "username", "phone_number"};
      var t := st.store;
      var t2 := UpdateProfile(st.session, t, body).store;
      assert t2.users[uid] == t.users[uid];
    }
  }

  // ----- update_profile (edit-profile) -----

  /** `request.form.get(f)`: a submitted text field, or `None`. */
  function FormGet(form: map<string, string>, f: string): Value {
    if f in form then Str(form[f]) else Null
  }

  function FormFields(form: map<string, string>): (d: Doc)
    ensures d.Keys == {"first_name", "last_name", "phone_number"}
    ensures forall f :: f in d ==> d[f] == FormGet(form, f)
  {
    map["first_name" := FormGet(form, "first_name"), "last_name" := FormGet(form, "last_name"),
        "phone_number" := FormGet(form, "phone_number")]
  }

  /** The edit-profile `update_profile`: always back to the profile page
      (the login page without a session); when the user document exists its
      three name and phone fields are overwritten, and nothing else. */
  function UpdateProfileForm(session: Session, s: Store, form: map<string, string>): (st: Step<string>)
    ensures st.session == session
    ensures session.userId.None? ==> st.reply == Redirect(LoginPage) && st.store == s
    ensures session.userId.Some? ==> st.reply == Redirect(EditProfilePage)
    ensures session.userId.Some? && !UserExists(s, session.userId.value) ==> st.store == s
    ensures session.userId.Some? && UserExists(s, session.userId.value) ==>
      var uid := session.userId.value;
      var t := st.store;
      && t == s.(users := t.users)
      && UpdatedOnly(t.users, s.users, uid, FormFields(form))
  {
    if session.userId.None? then Step(Redirect(LoginPage), s, session)
    else if !UserExists(s, session.userId.value) then Step(Redirect(EditProfilePage), s, session)
    else
      var uid := session.userId.value;
      MergeUpdatesOnly(s.users, uid, FormFields(form));
      Step(Redirect(EditProfilePage), s.(users := Merge(s.users, uid, FormFields(form))), session)
  }

  /** The edit-profile form never changes the username, e-mail or password
      hash of any user. */
  lemma UpdateProfileFormKeepsCredentials(session: Session, s: Store, form: map<string, string>, uid: Id, f: string)
    requires f == "username" || f == "email" || f == "password_hash"
    requires uid in s.users && f in s.users[uid]
    ensures var t := UpdateProfileForm(session, s, form).store;
      uid in t.users && f in t.users[uid] && t.users[uid][f] == s.users[uid][f]
  {
    var t := UpdateProfileForm(session, s, form).store;
    assert f !in {"first_name", "last_name", "phone_number"};
    if session.userId.Some? && UserExists(s, session.userId.value) && uid == session.userId.value {
      assert t.users[uid][f] == s.users[uid][f];
    }
  }

  // ----- change_password -----

  const UserNotFound := "User not found"
  const WrongPassword := "Current password does not match."
  const PasswordChanged := "Password changed successfully!"

  /** `change_password`. `check(hash, password)` is `check_password_hash`
      (`None` where it raises, as for a missing hash); `hash(p)` is
      `generate_password_hash`, which raises for anything but a string. A
      wrong current password is refused with 403 before any write; on
      success only `password_hash` changes. */
  function ChangePassword(session: Session, s: Store, body: Option<Doc>,
                          check: (Value, Value) -> Option<bool>, hash: string -> string): (st: Step<string>)
    ensures st.session == session
    ensures session.userId.None? ==> st.reply == Failure(401, Unauthorized)
    ensures !st.reply.Success? ==> st.store == s
    ensures session.userId.Some? && body.Some? && ValidDocId(session.userId.value) && session.userId.value !in s.users ==>
      st.reply == Failure(404, UserNotFound)
    ensures session.userId.Some? && body.Some? && UserExists(s, session.userId.value) ==>
      var current := check(Get(s.users[session.userId.value], "password_hash"), Get(body.value, "current_password"));
      current == Some(false) ==> st.reply == Failure(403, WrongPassword)
    ensures session.userId.Some? && (body.None? || !ValidDocId(session.userId.value)) ==>
      st.reply == Failure(500, ExceptionText)
    ensures session.userId.Some? && body.Some? && UserExists(s, session.userId.value) ==>
      var current := check(Get(s.users[session.userId.value], "password_hash"), Get(body.value, "current_password"));
      && (current.None? ==> st.reply == Failure(500, ExceptionText))
      && (current == Some(true) ==>
            (st.reply.Success? <==> Get(body.value, "new_password").Str?)
            && (!st.reply.Success? ==> st.reply == Failure(500, ExceptionText)))
    ensures st.reply.Success? ==> session.userId.Some? && body.Some?
    ensures st.reply.Success? ==>
      var uid := session.userId.value;
      var np := Get(body.value, "new_password");
      && UserExists(s, uid)
      && check(Get(s.users[uid], "password_hash"), Get(body.value, "current_password")) == Some(true)
      && np.Str?
      && st.reply.payload == PasswordChanged
      && st.store == s.(users := s.users[uid := s.users[uid]["password_hash" := Str(hash(np.s))]])
  {
    if session.userId.None? then Denied(s, session)
    else if body.None? || !ValidDocId(session.userId.value) then Fail(500, ExceptionText, s, session)
    else
      var uid := session.userId.value;
      var b := body.value;
      if uid !in s.users then Fail(404, UserNotFound, s, session)
      else
        match check(Get(s.users[uid], "password_hash"), Get(b, "current_password"))
        case None => Fail(500, ExceptionText, s, session)
        case Some(false) => Fail(403, WrongPassword, s, session)
        case Some(true) =>
          var np := Get(b, "new_password");
          if !np.Str? then Fail(500, ExceptionText, s, session)
          else
            var user := s.users[uid]["password_hash" := Str(hash(np.s))];
            Step(Success(200, PasswordChanged), s.(users := s.users[uid := user]), session)
  }

  /** With a checker that accepts what the hasher produces, the new password
      checks against the stored hash after a change. */
  lemma NewPasswordChecks(session: Session, s: Store, body: Option<Doc>,
                          check: (Value, Value) -> Option<bool>, hash: string -> string)
    requires forall p :: check(Str(hash(p)), Str(p)) == Some(true)
    ensures var st := ChangePassword(session, s, body, check, hash);
      st.reply.Success? ==>
        var uid := session.userId.value;
        check(st.store.users[uid]["password_hash"], Get(body.value, "new_password")) == Some(true)
  {
  }
}
