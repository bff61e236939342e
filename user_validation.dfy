/**
 * The controller actions that drive validation: `validate` (an email-activation or
 * password-reset token, dispatched on a type string) and `resendTokenValidation`
 * (re-issue an activation token and mail it). A response is the flash message set and
 * the redirect issued, or the exception that escapes the action.
 */
module UserValidation {
  import opened Entities
  import Password

  const DefaultResetPasswordUserIdKey := "Users.resetPasswordUserId"
  const DefaultTokenExpiration := 3600
  const ValidationTemplate := "Users.validation"

  /** The configuration the actions read: the session key for the reset user id and the token lifetime. */
  datatype Config = Config(resetPasswordUserIdKey: string, tokenExpiration: Option<int>)

  /** The plugin's default configuration. */
  const DefaultConfig := Config(DefaultResetPasswordUserIdKey, Some(DefaultTokenExpiration))

  /** The callback argument of the Users table's validate. */
  datatype Callback = NoCallback | ActivateUser

  /** One call of the Users table's validate. */
  datatype TableCall = TableCall(token: string, callback: Callback)

  /** What the Users table's validate did: returned a user, returned a falsy value, or raised. */
  datatype Answer = Validated(user: User) | NotValidated | Raised(error: Error)

  datatype Message =
    | AccountValidated | AccountNotValidated | UserIsAlreadyActive
    | ResetTokenValidated | ResetTokenNotValidated | InvalidValidationType
    | InvalidTokenOrEmail | TokenAlreadyExpired
    | TokenWasReset | TokenNotReset | ReferenceNotFound(reference: string) | ReferenceAlreadyActive(reference: string)

  datatype Flash = FlashSuccess(message: Message) | FlashError(message: Message)

  datatype Action = Login | ChangePasswordAction

  /** The flash set and the redirect issued (None: the action renders its view), or an exception escaping the action. */
  datatype Response = Response(flash: Option<Flash>, redirect: Option<Action>) | Uncaught(error: Error)

  /** The exceptions the outer handler of validate catches, and the message each one gets. */
  function OuterCatch(e: Error): (r: Response)
    ensures r.Uncaught? <==> e != UserNotFound && e != TokenExpired
    ensures r.Uncaught? ==> r.error == e
    ensures r.Response? ==> r.redirect == Some(Login) && r.flash.Some? && r.flash.value.FlashError?
    ensures r.Response? ==> (r.flash.value.message == InvalidTokenOrEmail <==> e == UserNotFound)
  {
    if e == UserNotFound then Response(Some(FlashError(InvalidTokenOrEmail)), Some(Login))
    else if e == TokenExpired then Response(Some(FlashError(TokenAlreadyExpired)), Some(Login))
    else Uncaught(e)
  }

  /** The exceptions validate catches for each type: the email branch also catches UserAlreadyActive. */
  predicate Caught(kind: string, e: Error)
    ensures Caught(kind, e) && e != UserAlreadyActive ==> OuterCatch(e).Response?
    ensures !Caught(kind, e) ==> OuterCatch(e).Uncaught?
  {
    e == UserNotFound || e == TokenExpired || (kind == "email" && e == UserAlreadyActive)
  }

  /** The call validate makes on the Users table; none for an unknown type. */
  function ValidateCall(kind: string, token: string): (c: Option<TableCall>)
    ensures c.Some? <==> kind == "email" || kind == "password"
    ensures c.Some? ==> c.value.token == token
    ensures c.Some? ==> (c.value.callback == ActivateUser <==> kind == "email")
  {
    if kind == "email" then Some(TableCall(token, ActivateUser))
    else if kind == "password" then Some(TableCall(token, NoCallback))
    else None
  }

  /** The response of validate, given what the Users table answered. */
  function ValidateResponse(kind: string, answer: Answer): (r: Response)
    ensures kind != "email" && kind != "password" ==> r == Response(Some(FlashError(InvalidValidationType)), Some(Login))
    ensures (r.Response? && r.redirect == Some(ChangePasswordAction)) <==> kind == "password" && answer.Validated?
    ensures r.Response? ==> r.flash.Some? && r.redirect.Some?
    ensures r.Response? && r.flash.value.FlashSuccess? <==> (kind == "email" || kind == "password") && answer.Validated?
    ensures r.Uncaught? <==> (kind == "email" || kind == "password") && answer.Raised? && !Caught(kind, answer.error)
  {
    if kind == "email" then
      match answer
      case Validated(_) => Response(Some(FlashSuccess(AccountValidated)), Some(Login))
      case NotValidated => Response(Some(FlashError(AccountNotValidated)), Some(Login))
      case Raised(e) =>
        if e == UserAlreadyActive then Response(Some(FlashError(UserIsAlreadyActive)), Some(Login))
        else OuterCatch(e)
    else if kind == "password" then
      match answer
      case Validated(_) => Response(Some(FlashSuccess(ResetTokenValidated)), Some(ChangePasswordAction))
      case NotValidated => Response(Some(FlashError(ResetTokenNotValidated)), Some(Login))
      case Raised(e) => OuterCatch(e)
    else Response(Some(FlashError(InvalidValidationType)), Some(Login))
  }

  /** The option set resendTokenValidation hands to resetToken. */
  function ResendOptions(config: Config): (o: Password.ResetOptions)
    ensures o.expiration == config.tokenExpiration
    ensures o.checkActive && o.sendEmail
    ensures Password.ResetTemplate(o) == ValidationTemplate
  {
    Password.ResetOptions(config.tokenExpiration, true, true, Some(ValidationTemplate))
  }

  /** The response of resendTokenValidation on POST, given what resetToken returned or raised. */
  function ResendResponse(reference: string, result: Result<Option<User>>): (r: Response)
    ensures (r.Response? && r.redirect.Some?) <==> result.Ok?
    ensures r.Response? && r.redirect.Some? ==> r.redirect == Some(Login)
    ensures r.Response? ==> r.flash.Some?
    ensures r.Uncaught? <==> result == Err(EntityRequired)
    ensures result == Err(UserNotFound) ==> r.flash == Some(FlashError(ReferenceNotFound(reference)))
    ensures result == Err(UserAlreadyActive) ==> r.flash == Some(FlashError(ReferenceAlreadyActive(reference)))
    ensures result.Err? && result.error !in {UserNotFound, UserAlreadyActive, EntityRequired} ==>
              r == Response(Some(FlashError(TokenNotReset)), None)
  {
    match result
    case Ok(saved) =>
      if saved.Some? then Response(Some(FlashSuccess(TokenWasReset)), Some(Login))
      else Response(Some(FlashError(TokenNotReset)), Some(Login))
    case Err(e) =>
      if e == UserNotFound then Response(Some(FlashError(ReferenceNotFound(reference))), None)
      else if e == UserAlreadyActive then Response(Some(FlashError(ReferenceAlreadyActive(reference))), None)
      else if e == EntityRequired then Uncaught(e)
      else Response(Some(FlashError(TokenNotReset)), None)
  }

  // ---------------------------------------------------------------------------
  // Properties

  /** UserNotFound and TokenExpired get two different messages, from either branch, and both redirect to login. */
  lemma ValidateTokenErrors(kind: string)
    requires kind == "email" || kind == "password"
    ensures ValidateResponse(kind, Raised(UserNotFound)) == Response(Some(FlashError(InvalidTokenOrEmail)), Some(Login))
    ensures ValidateResponse(kind, Raised(TokenExpired)) == Response(Some(FlashError(TokenAlreadyExpired)), Some(Login))
    ensures ValidateResponse(kind, Raised(UserNotFound)) != ValidateResponse(kind, Raised(TokenExpired))
  {
  }

  /** UserAlreadyActive is caught in the email branch only; from the password branch it escapes the action. */
  lemma ValidateAlreadyActive()
    ensures ValidateResponse("email", Raised(UserAlreadyActive)) == Response(Some(FlashError(UserIsAlreadyActive)), Some(Login))
    ensures ValidateResponse("password", Raised(UserAlreadyActive)) == Uncaught(UserAlreadyActive)
  {
  }

  /**
   * With the fixed option set, a failed save cannot reach the "could not be reset" flash:
   * the mail helper receives the failed save result and the error escapes the action.
   */
  lemma ResendFailedSaveEscapes(st: Password.State, config: Config, reference: string, stamp: Password.TokenStamp, i: nat)
    requires !IsEmpty(reference) && !Password.ExpirationEmpty(config.tokenExpiration)
    requires Password.FindByReference(st.users, reference) == Some(i) && !st.users[i].active
    ensures var step := Password.ResetTokenSpec(st, reference, ResendOptions(config), stamp, false);
      ResendResponse(reference, step.out) == Uncaught(EntityRequired)
  {
  }

  /**
   * A successful resend re-opens the account (inactive, no activation date), saves it once,
   * mails the user with the validation template and redirects to login.
   */
  lemma ResendSuccess(st: Password.State, config: Config, reference: string, stamp: Password.TokenStamp, i: nat)
    requires !IsEmpty(reference) && !Password.ExpirationEmpty(config.tokenExpiration)
    requires Password.FindByReference(st.users, reference) == Some(i) && !st.users[i].active
    ensures var step := Password.ResetTokenSpec(st, reference, ResendOptions(config), stamp, true);
      var e := step.state.saves[|st.saves|];
      && step.state.saves == st.saves + [e]
      && !e.active && e.activationDate.None? && e.token == Some(stamp.token)
      && step.state.outbox == st.outbox + [Password.ResetPasswordEmail(e, ValidationTemplate)]
      && step.state.outbox[|st.outbox|].to == st.users[i].email
      && ResendResponse(reference, step.out) == Response(Some(FlashSuccess(TokenWasReset)), Some(Login))
  {
  }

  /** Resending for an already active user changes nothing and reports it without redirecting. */
  lemma ResendActiveUser(st: Password.State, config: Config, reference: string, stamp: Password.TokenStamp, saveOk: bool, i: nat)
    requires !IsEmpty(reference) && !Password.ExpirationEmpty(config.tokenExpiration)
    requires Password.FindByReference(st.users, reference) == Some(i) && st.users[i].active
    ensures var step := Password.ResetTokenSpec(st, reference, ResendOptions(config), stamp, saveOk);
      step.state == st && ResendResponse(reference, step.out) == Response(Some(FlashError(ReferenceAlreadyActive(reference))), None)
  {
  }

  /** An empty reference (or a missing token lifetime in the configuration) is caught by the catch-all. */
  lemma ResendInvalidArgument(st: Password.State, config: Config, reference: string, stamp: Password.TokenStamp, saveOk: bool)
    requires IsEmpty(reference) || Password.ExpirationEmpty(config.tokenExpiration)
    ensures var step := Password.ResetTokenSpec(st, reference, ResendOptions(config), stamp, saveOk);
      step.state == st && ResendResponse(reference, step.out) == Response(Some(FlashError(TokenNotReset)), None)
  {
  }

  /** Under the default configuration the token lifetime is set, so InvalidArgument comes only from an empty reference. */
  lemma ResendDefaultConfig(st: Password.State, reference: string, stamp: Password.TokenStamp, saveOk: bool)
    ensures var step := Password.ResetTokenSpec(st, reference, ResendOptions(DefaultConfig), stamp, saveOk);
      step.out == Err(InvalidArgument) <==> IsEmpty(reference)
  {
  }

  /**
   * With the entity type hint as written in PasswordBehavior.php, resendTokenValidation can
   * never report a reset token: every reset that reaches the save ends in the escaping error.
   */
  lemma ResendAsWrittenNeverResets(st: Password.State, config: Config, reference: string, stamp: Password.TokenStamp, saveOk: bool)
    ensures var step := Password.ResetTokenAsWritten(st, reference, ResendOptions(config), stamp, saveOk);
      ResendResponse(reference, step.out) != Response(Some(FlashSuccess(TokenWasReset)), Some(Login))
  {
  }

  // ---------------------------------------------------------------------------

  /** The controller using the trait: its session, the calls it made on the Users table, and that table's Password behaviour. */
  class UserValidationController {
    var session: map<string, int>
    var tableCalls: seq<TableCall>
    const config: Config
    const table: Password.PasswordBehavior

    constructor (config: Config, table: Password.PasswordBehavior)
      ensures session == map[] && tableCalls == [] && this.config == config && this.table == table
    {
      this.session := map[];
      this.tableCalls := [];
      this.config := config;
      this.table := table;
    }

    /**
     * validate. `usersValidate` is the Users table's validate(token, callback), and
     * `tableAfter` is the Users table as that call leaves it (its callback may activate
     * the user); only a validated reset-password token writes the session, under the
     * configured key.
     */
    method Validate(kind: string, token: string, usersValidate: (string, Callback) -> Answer, tableAfter: Password.State)
      returns (r: Response)
      requires table.Valid() && UniqueKeys(tableAfter.users, UserId)
      modifies this`session, this`tableCalls, table
      ensures table.Valid()
      ensures var call := ValidateCall(kind, token);
        && (call.None? ==>
              tableCalls == old(tableCalls) && session == old(session) && table.Snapshot() == old(table.Snapshot()) &&
              r == Response(Some(FlashError(InvalidValidationType)), Some(Login)))
        && (call.Some? ==>
              var answer := usersValidate(token, call.value.callback);
              && tableCalls == old(tableCalls) + [call.value]
              && table.Snapshot() == tableAfter
              && r == ValidateResponse(kind, answer)
              && session == if kind == "password" && answer.Validated?
                            then old(session)[config.resetPasswordUserIdKey := answer.user.id]
                            else old(session))
    {
      if kind == "email" {
        tableCalls := tableCalls + [TableCall(token, ActivateUser)];
        var answer := usersValidate(token, ActivateUser);
        table.users, table.saves, table.outbox := tableAfter.users, tableAfter.saves, tableAfter.outbox;
        match answer
        case Validated(_) =>
          r := Response(Some(FlashSuccess(AccountValidated)), Some(Login));
        case NotValidated =>
          r := Response(Some(FlashError(AccountNotValidated)), Some(Login));
        case Raised(e) =>
          if e == UserAlreadyActive {
            r := Response(Some(FlashError(UserIsAlreadyActive)), Some(Login));
          } else {
            r := OuterCatch(e);
          }
      } else if kind == "password" {
        tableCalls := tableCalls + [TableCall(token, NoCallback)];
        var answer := usersValidate(token, NoCallback);
        table.users, table.saves, table.outbox := tableAfter.users, tableAfter.saves, tableAfter.outbox;
        match answer
        case Validated(user) =>
          session := session[config.resetPasswordUserIdKey := user.id];
          r := Response(Some(FlashSuccess(ResetTokenValidated)), Some(ChangePasswordAction));
        case NotValidated =>
          r := Response(Some(FlashError(ResetTokenNotValidated)), Some(Login));
        case Raised(e) =>
          r := OuterCatch(e);
      } else {
        r := Response(Some(FlashError(InvalidValidationType)), Some(Login));
      }
    }

    /**
     * resendTokenValidation: nothing happens on a request other than POST; on POST
     * resetToken runs with the fixed option set and its outcome picks the response.
     */
    method ResendTokenValidation(isPost: bool, reference: string, stamp: Password.TokenStamp, saveOk: bool) returns (r: Response)
      requires table.Valid()
      modifies table
      ensures table.Valid()
      ensures !isPost ==> r == Response(None, None) && table.Snapshot() == old(table.Snapshot())
      ensures isPost ==>
                var step := Password.ResetTokenSpec(old(table.Snapshot()), reference, ResendOptions(config), stamp, saveOk);
                table.Snapshot() == step.state && r == ResendResponse(reference, step.out)
    {
      if !isPost {
        return Response(None, None);
      }
      var result := table.ResetToken(reference, ResendOptions(config), stamp, saveOk);
      match result
      case Ok(saved) =>
        if saved.Some? {
          r := Response(Some(FlashSuccess(TokenWasReset)), Some(Login));
        } else {
          r := Response(Some(FlashError(TokenNotReset)), Some(Login));
        }
      case Err(e) =>
        if e == UserNotFound {
          r := Response(Some(FlashError(ReferenceNotFound(reference))), None);
        } else if e == UserAlreadyActive {
          r := Response(Some(FlashError(ReferenceAlreadyActive(reference))), None);
        } else if e == EntityRequired {
          r := Uncaught(e);
        } else {
          r := Response(Some(FlashError(TokenNotReset)), None);
        }
    }
  }
}
