# Account validation in the Users plugin, modelled in Dafny

This project models the account-validation state machine of a CakePHP users plugin:

- **Password behaviour.** Resetting a user's token (`resetToken`, with its guard chain, the optional
  re-opening of the account and the optional mail) and changing a password (`changePassword`).
- **SocialAccount behaviour.** Validating a social account with its token (`validateAccount`),
  resending its validation mail (`resendValidation`), and the `afterSave` hook that mails the owner
  of an inactive social account when that owner is active.
- **User validation controller trait.** `validate` dispatches on the type string (`email`,
  `password`, anything else), maps exceptions to flash messages and redirects, and writes the reset
  user id into the session. `resendTokenValidation` calls `resetToken` with a fixed option set.

Layout, one module per source file plus one for the shared records:

- `entities.dfy` (`Entities`): the User and SocialAccount rows, the sent mail, the exception
  kinds, PHP's `empty()` on strings, the first-name greeting of subjects, and `First`. `First` is
  the ORM's `->first()` on a filtered query.
- `password_behavior.dfy` (`Password`), `social_account_behavior.dfy` (`SocialAccounts`). Each
  operation is a function from the observable state to its result and new state. The observable
  state is the tables, the log of every entity passed to `save`, and the outbox of sent mails. A
  class with those fields performs the same steps in place, and its methods are proved equal to
  the functions. The properties are lemmas about the functions. These functions and methods read
  the entity type hint of `PasswordBehavior.php` as the framework's
  `Cake\Datasource\EntityInterface`. As the file is written, a reset with `sendEmail` never mails
  and `changePassword` always raises (see "## Findings").
- `user_validation.dfy` (`UserValidation`): a controller class with a session map and a log of
  the calls it made on the Users table. Its `ResendTokenValidation` calls
  `PasswordBehavior.ResetToken` and is specified through `ResetTokenSpec`.

Collaborators the source calls but does not show become parameters:

- `updateToken` writes the token and its expiry. The model takes those two values as a
  `TokenStamp` argument; the token generator and the clock are outside the model.
- `checkPassword(plain, hash)` is a function fixed when the behaviour is built.
- The Users table's `validate(token, callback)` is a function argument of `Validate`. The
  Users table as that call leaves it is a further argument, so activation by the callback is
  possible but not described.
- Whether the database accepts a `save` is a boolean argument.
- Mail transport is an append to the outbox of (recipient, subject, template).

Two of those collaborators are not fully parameters. The model gives each one a fixed reading,
the smallest one that fits its name and how it is called:

- `updateToken` changes only `token` and `token_expires`. This is `Password.UpdateToken`.
  `Password.ResetSavedEntity`'s "every other field is kept" rests on this reading.
- `_removeValidationToken` sets `token` and `token_expires` to null, saves the record, and
  returns it. This is `Password.PasswordBehavior.RemoveValidationToken`, and its save always
  succeeds. `Password.ChangePasswordSpec` and `Password.ChangePasswordClearsToken` rest on this
  reading.

The model keeps these code behaviours, which a reader might not expect:

- `resetToken` accepts any non-empty expiration, negative ones included.
- A reference of `"0"` counts as empty.
- `afterSave` runs after every successful save of a social account, not only after the first
  insert. `ValidateActivates` shows it sends nothing there, because the saved account is active.
- `_getUser` takes the first match in table order when several users match.
- `resendValidation` finds only accounts whose owner exists: the `Users` association is declared
  as an INNER join.
- `validate` catches UserAlreadyActive only in the email branch. From the password branch it
  escapes the action.

## Model

| member | source | states |
|---|---|---|
| Entities.First | src/Model/Behavior/PasswordBehavior.php:77-80 | the first row of a filtered query: it satisfies the filter, every earlier row fails it, and None exactly when no row satisfies it |
| Entities.Greeting | src/Model/Behavior/PasswordBehavior.php:94 | the subject prefix is empty exactly when `first_name` is not set |
| Entities.ReplaceKeepsKeys | src/Model/Behavior/PasswordBehavior.php:63 | saving a row over the row with the same id keeps the primary key unique |
| Password.FindByReference | src/Model/Behavior/PasswordBehavior.php:77-80 | `_getUser`: a user whose username or email is the reference, with no earlier such user; None exactly when no user matches |
| Entities.FindUserById | src/Model/Behavior/PasswordBehavior.php:112-114 | the `get` by primary key, also the owner row `contain('Users')` loads at SocialAccountBehavior.php:135: a row with that id, and None exactly when there is none |
| Password.UpdateToken | src/Model/Behavior/PasswordBehavior.php:62 | the token and its expiry are the stamp's; every other field is kept |
| Password.ResetTokenAsWritten | src/Model/Behavior/PasswordBehavior.php:18 | with the type hint as imported, a reset with sendEmail that reaches the save raises EntityRequired and sends nothing; the saves are the intended ones |
| Password.ChangePasswordAsWritten | src/Model/Behavior/PasswordBehavior.php:110 | with the type hint as imported, changePassword raises before loading and changes nothing |
| Password.ResetTokenHintCounterexample | src/Model/Behavior/PasswordBehavior.php:66 | one reset where the intended code mails the user and the code as written saves, sends nothing and raises |
| Password.ChangePasswordHintCounterexample | src/Model/Behavior/PasswordBehavior.php:110-112 | for every stored user and empty current password, the intended changePassword succeeds and the code as written raises |
| Password.ResetTemplate | src/Model/Behavior/PasswordBehavior.php:64 | the reset mail's template is never empty; it is `emailTemplate` when that is non-empty, and otherwise `Users.reset_password` |
| Password.ResetPasswordEmail | src/Model/Behavior/PasswordBehavior.php:92-102 | the reset mail goes to the user's email with the given template; the subject has the `first_name, ` prefix exactly when `first_name` is set |
| Password.ResetTokenSpec | src/Model/Behavior/PasswordBehavior.php:39-69 | resetToken keeps ids unique, keeps each row's id, and keeps whether each row matches the reference; every error leaves the state unchanged, except the failed-save-then-mail error; at most one save and one mail are appended |
| Password.ChangePasswordSpec | src/Model/Behavior/PasswordBehavior.php:110-126 | changePassword changes only the record with the given id, keeps ids unique, sends no mail, and changes nothing on an error |
| Password.ResetRejectsEmptyReference | src/Model/Behavior/PasswordBehavior.php:41-43 | an empty reference raises InvalidArgument with no lookup, save or mail |
| Password.ResetRejectsEmptyExpiration | src/Model/Behavior/PasswordBehavior.php:45-48 | a missing or zero expiration raises InvalidArgument after the reference check, with nothing changed |
| Password.ResetUnknownReference | src/Model/Behavior/PasswordBehavior.php:50-54 | UserNotFound exactly when no user has the reference as username or email, and then nothing changes |
| Password.ResetPicksFirstMatch | src/Model/Behavior/PasswordBehavior.php:77-80 | with several matching users, the first in table order is the one saved |
| Password.ResetRejectsActiveUser | src/Model/Behavior/PasswordBehavior.php:55-58 | with checkActive, an active user raises UserAlreadyActive, with no save and no mail |
| Password.ResetSavedEntity | src/Model/Behavior/PasswordBehavior.php:55-63 | exactly one save; with checkActive the saved user is inactive with no activation date, and without it those fields are kept; the token fields are updateToken's; all other fields are kept |
| Password.ResetResultAndMail | src/Model/Behavior/PasswordBehavior.php:62-68 | the return value is the save's result; a mail goes out only when sendEmail is set and the save succeeded; a failed save with sendEmail raises EntityRequired |
| Password.ChangePasswordRejectsWrongCurrent | src/Model/Behavior/PasswordBehavior.php:112-120 | a non-empty current password that fails the check against the freshly loaded stored hash raises WrongPassword, with no save |
| Password.ChangePasswordSkipsEmptyCurrent | src/Model/Behavior/PasswordBehavior.php:116 | an empty current password skips the check: the outcome does not depend on the checker |
| Password.ChangePasswordClearsToken | src/Model/Behavior/PasswordBehavior.php:121-125 | after a successful save the stored record has the new password and no token or expiry, and it is returned |
| Password.ChangePasswordFailedSave | src/Model/Behavior/PasswordBehavior.php:121-125 | a failed save returns an empty result and the token is not removed |
| Password.ChangePasswordUnknownId | src/Model/Behavior/PasswordBehavior.php:112-114 | an id with no record raises RecordNotFound from the load, before the password check |
| Password.PasswordBehavior.Save | src/Model/Behavior/PasswordBehavior.php:63 | a save is logged, overwrites the row only when accepted, and returns the entity or nothing |
| Password.PasswordBehavior.SendResetPasswordEmail | src/Model/Behavior/PasswordBehavior.php:92-102 | appends exactly the reset mail to the outbox and returns it |
| Password.PasswordBehavior.ResetToken | src/Model/Behavior/PasswordBehavior.php:39-69 | the in-place guard chain leaves exactly the result and state of ResetTokenSpec and keeps ids unique |
| Password.PasswordBehavior.RemoveValidationToken | src/Model/Behavior/PasswordBehavior.php:122-124 | clears the token fields of the saved user and persists them |
| Password.PasswordBehavior.ChangePassword | src/Model/Behavior/PasswordBehavior.php:110-126 | load, check, save and clear in sequence, leaving exactly the result and state of ChangePasswordSpec |
| SocialAccounts.FindAccount | src/Model/Behavior/SocialAccountBehavior.php:106-109 | an account with this provider and reference, with no earlier one; None exactly when none has them |
| SocialAccounts.FindActiveUser | src/Model/Behavior/SocialAccountBehavior.php:63 | an active user with this id; None exactly when there is none |
| SocialAccounts.FindWithOwner | src/Model/Behavior/SocialAccountBehavior.php:133-136 | the INNER-join lookup: an account with this provider and reference whose owner exists, with no earlier such account; None exactly when every such account has no owner row |
| SocialAccounts.SaveSpec | src/Model/Behavior/SocialAccountBehavior.php:158 | a save is logged and returns the entity exactly when accepted; the row is written only then; the hook adds at most one mail, and none for a failed save or an active entity |
| SocialAccounts.SocialValidationEmail | src/Model/Behavior/SocialAccountBehavior.php:78-92 | goes to the user's email; the template is `Users.social_account_validation` when no Email instance is passed; the subject has the `first_name, ` prefix exactly when `first_name` is set |
| SocialAccounts.AfterSaveSpec | src/Model/Behavior/SocialAccountBehavior.php:58-68 | nothing is sent exactly when the account is active or no active user has its user_id; otherwise the one mail sent is the social validation mail (default template, first-name subject) to the first active owner; only the outbox changes |
| SocialAccounts.ValidateAccountSpec | src/Model/Behavior/SocialAccountBehavior.php:104-120 | RecordNotFound exactly when no account matches (provider, reference) or the stored token is not strictly equal to the given one; an active account never becomes inactive; no mail; errors change nothing |
| SocialAccounts.ResendValidationSpec | src/Model/Behavior/SocialAccountBehavior.php:131-147 | RecordNotFound exactly when no account with an existing owner matches; on success one mail to the owning user's email is appended and returned; errors change nothing |
| SocialAccounts.ValidateMismatchLooksLikeMissing | src/Model/Behavior/SocialAccountBehavior.php:111-117 | a missing account and a wrong token give the same error and the same unchanged state |
| SocialAccounts.ValidateRejectsActive | src/Model/Behavior/SocialAccountBehavior.php:111-114 | a matching token on an active account raises AccountAlreadyActive with no save |
| SocialAccounts.ValidateActivates | src/Model/Behavior/SocialAccountBehavior.php:119 | success saves once the stored account with only `active` set, token kept, returns the save result and sends no mail |
| SocialAccounts.ResendRejectsActive | src/Model/Behavior/SocialAccountBehavior.php:138-141 | an active account raises AccountAlreadyActive and nothing is sent |
| SocialAccounts.ResendMailsOwner | src/Model/Behavior/SocialAccountBehavior.php:146 | the mail goes to the owning user's email with the social validation template and is the return value |
| SocialAccounts.AfterSaveSendsOnce | src/Model/Behavior/SocialAccountBehavior.php:60-67 | exactly one mail for an inactive account with an active owner, none otherwise |
| SocialAccounts.SocialAccountBehavior.SendSocialValidationEmail | src/Model/Behavior/SocialAccountBehavior.php:78-92 | appends exactly the validation mail and returns it |
| SocialAccounts.SocialAccountBehavior.AfterSave | src/Model/Behavior/SocialAccountBehavior.php:58-68 | the hook's guard chain leaves exactly the result and state of AfterSaveSpec |
| SocialAccounts.SocialAccountBehavior.Save | src/Model/Behavior/SocialAccountBehavior.php:158 | a save is logged, overwrites the row when accepted and then runs the afterSave hook |
| SocialAccounts.SocialAccountBehavior.ActivateAccount | src/Model/Behavior/SocialAccountBehavior.php:155-160 | sets `active` on the fetched account and saves it, returning the save result |
| SocialAccounts.SocialAccountBehavior.ValidateAccount | src/Model/Behavior/SocialAccountBehavior.php:104-120 | leaves exactly the result and state of ValidateAccountSpec |
| SocialAccounts.SocialAccountBehavior.ResendValidation | src/Model/Behavior/SocialAccountBehavior.php:131-147 | leaves exactly the result and state of ResendValidationSpec |
| UserValidation.OuterCatch | src/Controller/Traits/UserValidationTrait.php:64-70 | the outer catch blocks: UserNotFound and TokenExpired get two different error flashes and a login redirect; any other exception escapes unchanged |
| UserValidation.Caught | src/Controller/Traits/UserValidationTrait.php:47-49 | an exception validate catches gets a response, one it does not catch escapes; only the email branch also catches UserAlreadyActive |
| UserValidation.ResendOptions | src/Controller/Traits/UserValidationTrait.php:87-92 | the expiration is the configured token lifetime, checkActive and sendEmail are set, and the mail template resetToken picks is `Users.validation` |
| UserValidation.ResendDefaultConfig | src/Controller/Traits/UserValidationTrait.php:87-88 | under the default configuration InvalidArgument comes from an empty reference and from nothing else |
| UserValidation.ResendAsWrittenNeverResets | src/Controller/Traits/UserValidationTrait.php:87-93 | with the type hint as imported, resendTokenValidation never reports a reset token |
| UserValidation.ValidateCall | src/Controller/Traits/UserValidationTrait.php:38-62 | the Users table is called only for `email` (with the activateUser callback) and `password` (without one), always with the given token |
| UserValidation.ValidateResponse | src/Controller/Traits/UserValidationTrait.php:35-71 | an unknown type gets "Invalid validation type" and login; the only redirect to changePassword is a validated password token; a success flash exactly for a validated token; an exception escapes exactly when the branch does not catch it |
| UserValidation.ResendResponse | src/Controller/Traits/UserValidationTrait.php:93-104 | only a returned result redirects (to login); UserNotFound, UserAlreadyActive and other exceptions get three different error flashes with no redirect |
| UserValidation.ValidateTokenErrors | src/Controller/Traits/UserValidationTrait.php:64-70 | UserNotFound and TokenExpired get two different messages from either branch and both redirect to login |
| UserValidation.ValidateAlreadyActive | src/Controller/Traits/UserValidationTrait.php:47-49 | UserAlreadyActive is caught in the email branch; in the password branch it escapes |
| UserValidation.ResendFailedSaveEscapes | src/Controller/Traits/UserValidationTrait.php:87-97 | with the fixed options a failed save never reaches the "could not be reset" flash: the error escapes |
| UserValidation.ResendSuccess | src/Controller/Traits/UserValidationTrait.php:87-97 | a successful resend re-opens the account, saves once, mails with `Users.validation` to the user's email and redirects to login |
| UserValidation.ResendActiveUser | src/Controller/Traits/UserValidationTrait.php:100-101 | resending for an active user changes nothing and reports it without redirecting |
| UserValidation.ResendInvalidArgument | src/Controller/Traits/UserValidationTrait.php:102-103 | an empty reference or an empty configured token lifetime falls to the catch-all "could not be reset" flash, with nothing changed |
| UserValidation.UserValidationController.Validate | src/Controller/Traits/UserValidationTrait.php:35-71 | given a Users table with unique ids, and a table after the call with unique ids, the table keeps unique ids; no table call and an unchanged Users table for an unknown type; otherwise exactly one call, after which the Users table is whatever that call left (its activateUser callback may activate the user); only a validated password token writes its user id under the configured session key; the response is ValidateResponse |
| UserValidation.UserValidationController.ResendTokenValidation | src/Controller/Traits/UserValidationTrait.php:78-105 | a non-POST request changes nothing and renders; on POST resetToken runs with expiration from the configuration, checkActive, sendEmail and template `Users.validation`, and the response is ResendResponse |

## Left out

- Reference lookups use exact string equality. SQL collations may compare case-insensitively,
  and that is not modelled.
- Mail view variables (`viewVars`), translation of messages (`__d` is the identity) and the
  transport's own failures are not modelled. A send always succeeds and returns the mail.
- Token expiry, token generation and activation all live in the Users table's `validate` and in
  the entity's `updateToken`, which are not part of this model. The model receives their results
  as arguments.
- Password.ChangePasswordClearsToken: `_removeValidationToken` is not part of this model. Its
  effect is the fixed reading above: it clears both token fields and its own save always
  succeeds. A failed clearing save and any other effect of the helper are not modelled.
- Password.ResetSavedEntity: the fields `updateToken` leaves alone are the fixed reading above,
  because the entity's `updateToken` is not part of this model.
- Password.ChangePasswordSpec: the entity given to `changePassword` is reduced to its id, its new
  password (already hashed by the entity) and the current password. Other patched fields are not
  modelled.
- EntityRequired: calling the mail helper with a failed save result is modelled as a TypeError.
  PHP 7 raises one, and it is not an `Exception`, so it escapes the catch-all of
  `resendTokenValidation`. PHP 5 raises a recoverable error instead, handled by the framework's
  error handler.
- The `Users` table of the SocialAccount behaviour is its own read-only copy. The model does not
  capture it being the same table the Password behaviour writes.
- `resendTokenValidation`'s view variables (`set('user', …)`, `_serialize`) and the flash
  messages' wording are presentation. Messages are a datatype.
- Concurrency between requests, the framework configuration store and event dispatch are not
  modelled. Configuration is a `Config` value given to the controller. The default session key
  `Users.resetPasswordUserId` and token lifetime 3600 come from
  src/Controller/Component/UsersAuthComponent.php:46 and :77.

## Findings

| source | as written | input that shows it | evidently intended | confidence | as-written member | corrected member |
|---|---|---|---|---|---|---|
| src/Model/Behavior/PasswordBehavior.php:18 | `use Datasource\EntityInterface;` names an interface that does not exist. Under PHP 7 the hints at :92 and :110 then reject every entity with a TypeError | `resetToken("alice", [expiration 3600, sendEmail])` for an inactive user `alice` with a successful save: as written the user is saved, no mail is sent and a TypeError escapes. `changePassword` with a stored user's id raises before the `get` | `use Cake\Datasource\EntityInterface;`, as SocialAccountBehavior.php:21 imports it | not executed | Password.ResetTokenAsWritten, Password.ChangePasswordAsWritten, Password.ResetTokenHintCounterexample, Password.ChangePasswordHintCounterexample | Password.ResetTokenSpec, Password.ChangePasswordSpec |
