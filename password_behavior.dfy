/**
 * The password and token lifecycle of users: resetting a user's token (optionally
 * re-opening the account and mailing a link) and changing a password.
 *
 * Each operation is given twice: as a function from the behaviour's observable state
 * (the Users table, the log of saves, the outbox) to its result and new state, and as a
 * method of the class `PasswordBehavior` that performs the same steps in place and is
 * proved to agree with the function. The properties of the operations are lemmas about
 * the functions.
 */
module Password {
  import opened Entities

  const DefaultResetTemplate := "Users.reset_password"
  const ResetSubject := "Your reset password link"

  /** The option array of resetToken; a missing `expiration` or `emailTemplate` is None. */
  datatype ResetOptions = ResetOptions(
    expiration: Option<int>,
    checkActive: bool,
    sendEmail: bool,
    emailTemplate: Option<string>)

  /** What the entity's updateToken writes: a fresh token and its expiry time. */
  datatype TokenStamp = TokenStamp(token: string, expires: Timestamp)

  /** The entity handed to changePassword: the user id, the new password as the entity holds it, and the current password typed by the user. */
  datatype PasswordChange = PasswordChange(id: int, newPassword: string, currentPassword: string)

  /** The observable state: the Users table in query order, every entity passed to save, every mail sent. */
  datatype State = State(users: seq<User>, saves: seq<User>, outbox: seq<Mail>)

  /** An operation's result together with the state it leaves. */
  datatype Step<+R> = Step(out: R, state: State)

  /** PHP's `empty()` on the expiration option: missing or 0. */
  predicate ExpirationEmpty(e: Option<int>) {
    e.None? || e.value == 0
  }

  predicate MatchesReference(u: User, reference: string) {
    u.username == reference || u.email == reference
  }

  /** `_getUser`: the first user whose username or email equals the reference. */
  function FindByReference(users: seq<User>, reference: string): (r: Option<nat>)
    ensures r.Some? ==> r.value < |users| && MatchesReference(users[r.value], reference)
    ensures r.Some? ==> forall j :: 0 <= j < r.value ==> !MatchesReference(users[j], reference)
    ensures r.None? <==> forall j :: 0 <= j < |users| ==> !MatchesReference(users[j], reference)
  {
    First(users, (u: User) => MatchesReference(u, reference))
  }

  /** The template of the reset mail: the `emailTemplate` option unless it is empty. */
  function ResetTemplate(options: ResetOptions): (t: string)
    ensures !IsEmpty(t)
    ensures options.emailTemplate.Some? && !IsEmpty(options.emailTemplate.value) ==> t == options.emailTemplate.value
    ensures t != DefaultResetTemplate ==> options.emailTemplate == Some(t)
  {
    if options.emailTemplate.Some? && !IsEmpty(options.emailTemplate.value) then options.emailTemplate.value
    else DefaultResetTemplate
  }

  /** `sendResetPasswordEmail`: the mail goes to the user's email with the given template. */
  function ResetPasswordEmail(user: User, template: string): (m: Mail)
    ensures m.to == user.email && m.template == template
    ensures m.subject == ResetSubject <==> user.firstName.None?
    ensures user.firstName.Some? ==> m.subject == user.firstName.value + ", " + ResetSubject
  {
    Mail(user.email, Greeting(user.firstName) + ResetSubject, template)
  }

  /**
   * The entity's updateToken, in the one reading this model fixes for it: the token and
   * its expiry become the stamp's, and every other field is kept.
   */
  function UpdateToken(u: User, stamp: TokenStamp): (r: User)
    ensures r.token == Some(stamp.token) && r.tokenExpires == Some(stamp.expires)
    ensures r.(token := u.token, tokenExpires := u.tokenExpires) == u
  {
    u.(token := Some(stamp.token), tokenExpires := Some(stamp.expires))
  }

  /**
   * resetToken. The guards run in the source's order: empty reference, empty expiration,
   * unknown reference, already active user (only with checkActive). Then the token is
   * refreshed, the entity saved once, and the mail sent when sendEmail is set. A failed
   * save with sendEmail set hands `false` to the mail helper, which demands an entity.
   */
  function ResetTokenSpec(st: State, reference: string, options: ResetOptions, stamp: TokenStamp, saveOk: bool)
    : (r: Step<Result<Option<User>>>)
    ensures UniqueKeys(st.users, UserId) ==> UniqueKeys(r.state.users, UserId)
    ensures |r.state.users| == |st.users|
    ensures forall i :: 0 <= i < |st.users| ==>
              r.state.users[i].id == st.users[i].id && MatchesReference(r.state.users[i], reference) == MatchesReference(st.users[i], reference)
    ensures r.out.Err? && r.out.error != EntityRequired ==> r.state == st
    ensures st.saves <= r.state.saves && |r.state.saves| <= |st.saves| + 1
    ensures st.outbox <= r.state.outbox && |r.state.outbox| <= |st.outbox| + 1
  {
    if IsEmpty(reference) then Step(Err(InvalidArgument), st)
    else if ExpirationEmpty(options.expiration) then Step(Err(InvalidArgument), st)
    else match FindByReference(st.users, reference)
      case None => Step(Err(UserNotFound), st)
      case Some(i) =>
        var user := st.users[i];
        if options.checkActive && user.active then Step(Err(UserAlreadyActive), st)
        else
          var reopened := if options.checkActive then user.(active := false, activationDate := None) else user;
          var entity := UpdateToken(reopened, stamp);
          var saved := State(if saveOk then st.users[i := entity] else st.users, st.saves + [entity], st.outbox);
          var saveResult := if saveOk then Some(entity) else None;
          if !options.sendEmail then Step(Ok(saveResult), saved)
          else if !saveOk then Step(Err(EntityRequired), saved)
          else Step(Ok(saveResult), saved.(outbox := st.outbox + [ResetPasswordEmail(entity, ResetTemplate(options))]))
  }

  /**
   * changePassword. The persisted record is loaded by id first; a non-empty current
   * password must pass the password check against that record's stored hash. After a
   * successful save the validation token is removed.
   */
  function ChangePasswordSpec(st: State, checkPassword: (string, string) -> bool, change: PasswordChange, saveOk: bool)
    : (r: Step<Result<Option<User>>>)
    ensures UniqueKeys(st.users, UserId) ==> UniqueKeys(r.state.users, UserId)
    ensures |r.state.users| == |st.users| && r.state.outbox == st.outbox
    ensures forall i :: 0 <= i < |st.users| && st.users[i].id != change.id ==> r.state.users[i] == st.users[i]
    ensures r.out.Err? ==> r.state == st
  {
    match FindUserById(st.users, change.id)
    case None => Step(Err(RecordNotFound), st)
    case Some(i) =>
      var current := st.users[i];
      if !IsEmpty(change.currentPassword) && !checkPassword(change.currentPassword, current.password) then
        Step(Err(WrongPassword), st)
      else
        var entity := current.(password := change.newPassword);
        if !saveOk then Step(Ok(None), st.(saves := st.saves + [entity]))
        else
          var cleared := entity.(token := None, tokenExpires := None);
          Step(Ok(Some(cleared)), State(st.users[i := cleared], st.saves + [entity, cleared], st.outbox))
  }

  // ---------------------------------------------------------------------------
  // The type hint as written

  /*
   * PasswordBehavior.php imports `Datasource\EntityInterface`, not the framework's
   * `Cake\Datasource\EntityInterface`. No such interface exists, so under PHP 7 every
   * argument given to a parameter hinted with it fails the type check: each call of
   * sendResetPasswordEmail and of changePassword raises a TypeError (EntityRequired).
   * The two functions below model the file as written; ResetTokenSpec and
   * ChangePasswordSpec, which the rest of the model uses, read the hint as the
   * framework's interface.
   */

  /** resetToken as written: once the save is reached with sendEmail set, the mail helper raises and nothing is sent. */
  function ResetTokenAsWritten(st: State, reference: string, options: ResetOptions, stamp: TokenStamp, saveOk: bool)
    : (r: Step<Result<Option<User>>>)
    ensures options.sendEmail ==> r.state.outbox == st.outbox
    ensures r.state.saves == ResetTokenSpec(st, reference, options, stamp, saveOk).state.saves
    ensures options.sendEmail && |r.state.saves| > |st.saves| ==> r.out == Err(EntityRequired)
    ensures !options.sendEmail ==> r == ResetTokenSpec(st, reference, options, stamp, saveOk)
  {
    var step := ResetTokenSpec(st, reference, options, stamp, saveOk);
    if options.sendEmail && |step.state.saves| > |st.saves| then Step(Err(EntityRequired), step.state.(outbox := st.outbox))
    else step
  }

  /** changePassword as written: the argument fails the type check before the record is loaded. */
  function ChangePasswordAsWritten(st: State, checkPassword: (string, string) -> bool, change: PasswordChange, saveOk: bool)
    : (r: Step<Result<Option<User>>>)
    ensures r == Step(Err(EntityRequired), st)
  {
    Step(Err(EntityRequired), st)
  }

  /**
   * An input that shows the difference: one inactive user, found by its username, with
   * sendEmail set and a successful save. The intended resetToken mails the user; as
   * written it saves, sends nothing and raises.
   */
  lemma ResetTokenHintCounterexample()
    ensures var u := User(1, "alice", "alice@example.com", None, "hash", false, None, None, None);
      var st := State([u], [], []);
      var options := ResetOptions(Some(3600), false, true, None);
      var stamp := TokenStamp("t", 7);
      && |ResetTokenSpec(st, "alice", options, stamp, true).state.outbox| == 1
      && ResetTokenSpec(st, "alice", options, stamp, true).out.Ok?
      && ResetTokenAsWritten(st, "alice", options, stamp, true).out == Err(EntityRequired)
      && ResetTokenAsWritten(st, "alice", options, stamp, true).state.outbox == []
      && |ResetTokenAsWritten(st, "alice", options, stamp, true).state.saves| == 1
  {
  }

  /** For every stored user and empty current password, the intended changePassword succeeds where the code as written raises. */
  lemma ChangePasswordHintCounterexample(st: State, checkPassword: (string, string) -> bool, change: PasswordChange, saveOk: bool)
    requires FindUserById(st.users, change.id).Some? && IsEmpty(change.currentPassword)
    ensures ChangePasswordSpec(st, checkPassword, change, saveOk).out.Ok?
    ensures ChangePasswordAsWritten(st, checkPassword, change, saveOk).out == Err(EntityRequired)
  {
  }

  // ---------------------------------------------------------------------------
  // Properties of resetToken

  /** An empty reference is rejected before any lookup, save or mail. */
  lemma ResetRejectsEmptyReference(st: State, reference: string, options: ResetOptions, stamp: TokenStamp, saveOk: bool)
    requires IsEmpty(reference)
    ensures ResetTokenSpec(st, reference, options, stamp, saveOk) == Step(Err(InvalidArgument), st)
  {
  }

  /** A missing or zero expiration is rejected next, before the lookup; nothing changes. */
  lemma ResetRejectsEmptyExpiration(st: State, reference: string, options: ResetOptions, stamp: TokenStamp, saveOk: bool)
    requires !IsEmpty(reference) && ExpirationEmpty(options.expiration)
    ensures ResetTokenSpec(st, reference, options, stamp, saveOk) == Step(Err(InvalidArgument), st)
  {
  }

  /** UserNotFound is raised exactly when no user has the reference as username or email, and then nothing changes. */
  lemma ResetUnknownReference(st: State, reference: string, options: ResetOptions, stamp: TokenStamp, saveOk: bool)
    requires !IsEmpty(reference) && !ExpirationEmpty(options.expiration)
    ensures ResetTokenSpec(st, reference, options, stamp, saveOk).out == Err(UserNotFound)
        <==> forall j :: 0 <= j < |st.users| ==> !MatchesReference(st.users[j], reference)
    ensures ResetTokenSpec(st, reference, options, stamp, saveOk).out == Err(UserNotFound)
        ==> ResetTokenSpec(st, reference, options, stamp, saveOk).state == st
  {
  }

  /** When several users match, the first one in table order is the one reset. */
  lemma ResetPicksFirstMatch(st: State, reference: string, options: ResetOptions, stamp: TokenStamp, saveOk: bool, i: nat)
    requires !IsEmpty(reference) && !ExpirationEmpty(options.expiration)
    requires i < |st.users| && MatchesReference(st.users[i], reference)
    requires !(options.checkActive && st.users[i].active)
    requires forall j :: 0 <= j < i ==> !MatchesReference(st.users[j], reference)
    ensures var r := ResetTokenSpec(st, reference, options, stamp, saveOk);
      |r.state.saves| == |st.saves| + 1 && r.state.saves[|st.saves|].id == st.users[i].id
  {
  }

  /** With checkActive, an active user raises UserAlreadyActive and there is no save and no mail. */
  lemma ResetRejectsActiveUser(st: State, reference: string, options: ResetOptions, stamp: TokenStamp, saveOk: bool, i: nat)
    requires !IsEmpty(reference) && !ExpirationEmpty(options.expiration)
    requires FindByReference(st.users, reference) == Some(i)
    requires options.checkActive && st.users[i].active
    ensures ResetTokenSpec(st, reference, options, stamp, saveOk) == Step(Err(UserAlreadyActive), st)
  {
  }

  /**
   * The entity saved: with checkActive it is inactive with no activation date, without
   * checkActive those fields are the stored ones; the token fields come from updateToken
   * and every other field is the stored one. It is saved exactly once.
   */
  lemma ResetSavedEntity(st: State, reference: string, options: ResetOptions, stamp: TokenStamp, saveOk: bool, i: nat)
    requires !IsEmpty(reference) && !ExpirationEmpty(options.expiration)
    requires FindByReference(st.users, reference) == Some(i)
    requires !(options.checkActive && st.users[i].active)
    ensures var r := ResetTokenSpec(st, reference, options, stamp, saveOk);
      var user := st.users[i];
      var e := r.state.saves[|st.saves|];
      && r.state.saves == st.saves + [e]
      && (options.checkActive ==> !e.active && e.activationDate.None?)
      && (!options.checkActive ==> e.active == user.active && e.activationDate == user.activationDate)
      && e.token == Some(stamp.token) && e.tokenExpires == Some(stamp.expires)
      && e.(active := user.active, activationDate := user.activationDate, token := user.token, tokenExpires := user.tokenExpires) == user
      && r.state.users == (if saveOk then st.users[i := e] else st.users)
  {
  }

  /**
   * The return value is the save's result, and a mail goes out exactly when sendEmail is
   * set and the save succeeded; it goes to the saved entity's email with the chosen template.
   */
  lemma ResetResultAndMail(st: State, reference: string, options: ResetOptions, stamp: TokenStamp, saveOk: bool, i: nat)
    requires !IsEmpty(reference) && !ExpirationEmpty(options.expiration)
    requires FindByReference(st.users, reference) == Some(i)
    requires !(options.checkActive && st.users[i].active)
    ensures var r := ResetTokenSpec(st, reference, options, stamp, saveOk);
      var e := r.state.saves[|st.saves|];
      && (!options.sendEmail ==> r.out == Ok(if saveOk then Some(e) else None) && r.state.outbox == st.outbox)
      && (options.sendEmail && saveOk ==> r.out == Ok(Some(e)) && r.state.outbox == st.outbox + [ResetPasswordEmail(e, ResetTemplate(options))])
      && (options.sendEmail && !saveOk ==> r.out == Err(EntityRequired) && r.state.outbox == st.outbox)
  {
  }

  // ---------------------------------------------------------------------------
  // Properties of changePassword

  /** A non-empty current password that fails the check against the stored hash raises WrongPassword; nothing is saved. */
  lemma ChangePasswordRejectsWrongCurrent(st: State, checkPassword: (string, string) -> bool, change: PasswordChange, saveOk: bool, i: nat)
    requires FindUserById(st.users, change.id) == Some(i)
    requires !IsEmpty(change.currentPassword) && !checkPassword(change.currentPassword, st.users[i].password)
    ensures ChangePasswordSpec(st, checkPassword, change, saveOk) == Step(Err(WrongPassword), st)
  {
  }

  /** An empty current password skips the check: the outcome does not depend on the password checker. */
  lemma ChangePasswordSkipsEmptyCurrent(st: State, check1: (string, string) -> bool, check2: (string, string) -> bool, change: PasswordChange, saveOk: bool)
    requires IsEmpty(change.currentPassword)
    ensures ChangePasswordSpec(st, check1, change, saveOk) == ChangePasswordSpec(st, check2, change, saveOk)
    ensures FindUserById(st.users, change.id).Some? ==> ChangePasswordSpec(st, check1, change, saveOk).out.Ok?
  {
  }

  /** After a successful save the stored record has the new password and no validation token. */
  lemma ChangePasswordClearsToken(st: State, checkPassword: (string, string) -> bool, change: PasswordChange, i: nat)
    requires FindUserById(st.users, change.id) == Some(i)
    requires IsEmpty(change.currentPassword) || checkPassword(change.currentPassword, st.users[i].password)
    ensures var r := ChangePasswordSpec(st, checkPassword, change, true);
      && r.out.Ok? && r.out.value.Some?
      && r.state.users[i] == r.out.value.value
      && r.state.users[i] == st.users[i].(password := change.newPassword, token := None, tokenExpires := None)
  {
  }

  /** A failed save returns an empty result, changes no record and leaves the token in place. */
  lemma ChangePasswordFailedSave(st: State, checkPassword: (string, string) -> bool, change: PasswordChange, i: nat)
    requires FindUserById(st.users, change.id) == Some(i)
    requires IsEmpty(change.currentPassword) || checkPassword(change.currentPassword, st.users[i].password)
    ensures var r := ChangePasswordSpec(st, checkPassword, change, false);
      r.out == Ok(None) && r.state.users == st.users
  {
  }

  /** An id with no stored record raises RecordNotFound from the load, before any password check. */
  lemma ChangePasswordUnknownId(st: State, checkPassword: (string, string) -> bool, change: PasswordChange, saveOk: bool)
    requires forall j :: 0 <= j < |st.users| ==> st.users[j].id != change.id
    ensures ChangePasswordSpec(st, checkPassword, change, saveOk) == Step(Err(RecordNotFound), st)
  {
  }

  // ---------------------------------------------------------------------------

  /** The Password behaviour attached to the Users table. */
  class PasswordBehavior {
    var users: seq<User>
    var saves: seq<User>
    var outbox: seq<Mail>
    /** The entity's checkPassword(plain, hash); the hasher is outside the model. */
    const checkPassword: (string, string) -> bool

    /** The Users table's primary key. */
    ghost predicate Valid()
      reads this
    {
      UniqueKeys(users, UserId)
    }

    function Snapshot(): State
      reads this
    {
      State(users, saves, outbox)
    }

    constructor (users: seq<User>, checkPassword: (string, string) -> bool)
      requires UniqueKeys(users, UserId)
      ensures Valid() && Snapshot() == State(users, [], []) && this.checkPassword == checkPassword
    {
      this.users := users;
      this.saves := [];
      this.outbox := [];
      this.checkPassword := checkPassword;
    }

    /** The table's save of an existing row: logged, and written only when the store accepts it. */
    method Save(i: nat, entity: User, ok: bool) returns (r: Option<User>)
      requires Valid() && i < |users| && entity.id == users[i].id
      modifies this
      ensures Valid()
      ensures users == (if ok then old(users)[i := entity] else old(users))
      ensures saves == old(saves) + [entity] && outbox == old(outbox)
      ensures r == (if ok then Some(entity) else None)
    {
      saves := saves + [entity];
      if ok {
        ReplaceKeepsKeys(users, UserId, i, entity);
        users := users[i := entity];
        r := Some(entity);
      } else {
        r := None;
      }
    }

    method SendResetPasswordEmail(user: User, template: string) returns (m: Mail)
      modifies this`outbox
      ensures m == ResetPasswordEmail(user, template)
      ensures outbox == old(outbox) + [m]
    {
      m := ResetPasswordEmail(user, template);
      outbox := outbox + [m];
    }

    method ResetToken(reference: string, options: ResetOptions, stamp: TokenStamp, saveOk: bool)
      returns (r: Result<Option<User>>)
      requires Valid()
      modifies this
      ensures Valid()
      ensures Step(r, Snapshot()) == ResetTokenSpec(old(Snapshot()), reference, options, stamp, saveOk)
    {
      if IsEmpty(reference) {
        return Err(InvalidArgument);
      }
      var expiration := options.expiration;
      if ExpirationEmpty(expiration) {
        return Err(InvalidArgument);
      }
      var found := FindByReference(users, reference);
      if found.None? {
        return Err(UserNotFound);
      }
      var user := users[found.value];
      if options.checkActive {
        if user.active {
          return Err(UserAlreadyActive);
        }
        user := user.(active := false, activationDate := None);
      }
      user := UpdateToken(user, stamp);
      var saveResult := Save(found.value, user, saveOk);
      var template := ResetTemplate(options);
      if options.sendEmail {
        if saveResult.None? {
          return Err(EntityRequired);
        }
        var _ := SendResetPasswordEmail(saveResult.value, template);
      }
      return Ok(saveResult);
    }

    /** `_removeValidationToken`: clears the token fields of the saved user and persists them. */
    method RemoveValidationToken(i: nat, user: User) returns (r: User)
      requires Valid() && i < |users| && user.id == users[i].id
      modifies this
      ensures Valid()
      ensures r == user.(token := None, tokenExpires := None)
      ensures users == old(users)[i := r] && saves == old(saves) + [r] && outbox == old(outbox)
    {
      r := user.(token := None, tokenExpires := None);
      var _ := Save(i, r, true);
    }

    method ChangePassword(change: PasswordChange, saveOk: bool) returns (r: Result<Option<User>>)
      requires Valid()
      modifies this
      ensures Valid()
      ensures Step(r, Snapshot()) == ChangePasswordSpec(old(Snapshot()), checkPassword, change, saveOk)
    {
      var found := FindUserById(users, change.id);
      if found.None? {
        return Err(RecordNotFound);
      }
      var currentUser := users[found.value];
      if !IsEmpty(change.currentPassword) {
        if !checkPassword(change.currentPassword, currentUser.password) {
          return Err(WrongPassword);
        }
      }
      var saved := Save(found.value, currentUser.(password := change.newPassword), saveOk);
      if saved.Some? {
        var cleared := RemoveValidationToken(found.value, saved.value);
        saved := Some(cleared);
      }
      return Ok(saved);
    }
  }
}
