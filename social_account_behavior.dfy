/**
 * Validation of social accounts: activating one with its token, resending its
 * validation mail, and the afterSave hook that mails the owner of a new inactive
 * account. Same layout as module Password: functions over the observable state,
 * a class whose methods are proved to agree with them, and lemmas.
 */
module SocialAccounts {
  import opened Entities

  const SocialValidationTemplate := "Users.social_account_validation"
  const SocialValidationSubject := "Your social account validation link"

  /** The SocialAccounts table, the Users table it belongs to, every entity passed to save, every mail sent. */
  datatype State = State(accounts: seq<SocialAccount>, users: seq<User>, saves: seq<SocialAccount>, outbox: seq<Mail>)

  datatype Step<+R> = Step(out: R, state: State)

  /** What afterSave returns: `true` without sending, or the result of the send. */
  datatype HookResult = NothingSent | Sent(mail: Mail)

  predicate Identifies(a: SocialAccount, provider: string, reference: string) {
    a.provider == provider && a.reference == reference
  }

  /** The first social account with this provider and reference. */
  function FindAccount(accounts: seq<SocialAccount>, provider: string, reference: string): (r: Option<nat>)
    ensures r.Some? ==> r.value < |accounts| && Identifies(accounts[r.value], provider, reference)
    ensures r.Some? ==> forall j :: 0 <= j < r.value ==> !Identifies(accounts[j], provider, reference)
    ensures r.None? <==> forall j :: 0 <= j < |accounts| ==> !Identifies(accounts[j], provider, reference)
  {
    First(accounts, (a: SocialAccount) => Identifies(a, provider, reference))
  }

  /** The first active user with this id, as afterSave queries it. */
  function FindActiveUser(users: seq<User>, id: int): (r: Option<nat>)
    ensures r.Some? ==> r.value < |users| && users[r.value].id == id && users[r.value].active
    ensures r.None? <==> forall j :: 0 <= j < |users| ==> !(users[j].id == id && users[j].active)
  {
    First(users, (u: User) => u.id == id && u.active)
  }

  /**
   * The first social account with this provider and reference whose owner exists:
   * the `Users` association is an INNER join, so an account without its user is not found.
   */
  function FindWithOwner(accounts: seq<SocialAccount>, users: seq<User>, provider: string, reference: string): (r: Option<nat>)
    ensures r.Some? ==> r.value < |accounts| && Identifies(accounts[r.value], provider, reference)
    ensures r.Some? ==> exists j :: 0 <= j < |users| && users[j].id == accounts[r.value].userId
    ensures r.Some? ==>
              forall k :: 0 <= k < r.value && Identifies(accounts[k], provider, reference) ==>
                forall j :: 0 <= j < |users| ==> users[j].id != accounts[k].userId
    ensures r.None? <==>
              forall i :: 0 <= i < |accounts| && Identifies(accounts[i], provider, reference) ==>
                forall j :: 0 <= j < |users| ==> users[j].id != accounts[i].userId
  {
    First(accounts, (a: SocialAccount) => Identifies(a, provider, reference) && FindUserById(users, a.userId).Some?)
  }

  /**
   * `sendSocialValidationEmail`: to the user's email; the template is that of the Email
   * instance passed, or the social validation template when none is passed.
   */
  function SocialValidationEmail(user: User, instanceTemplate: Option<string>): (m: Mail)
    ensures m.to == user.email
    ensures instanceTemplate.None? ==> m.template == SocialValidationTemplate
    ensures instanceTemplate.Some? ==> m.template == instanceTemplate.value
    ensures m.subject == SocialValidationSubject <==> user.firstName.None?
    ensures user.firstName.Some? ==> m.subject == user.firstName.value + ", " + SocialValidationSubject
  {
    var template := if instanceTemplate.None? then SocialValidationTemplate else instanceTemplate.value;
    Mail(user.email, Greeting(user.firstName) + SocialValidationSubject, template)
  }

  /**
   * afterSave: nothing for an active account; otherwise the validation mail, to the
   * active owner, when there is one.
   */
  function AfterSaveSpec(st: State, entity: SocialAccount): (r: Step<HookResult>)
    ensures r.state == st.(outbox := r.state.outbox)
    ensures r.out.NothingSent? <==> entity.active || FindActiveUser(st.users, entity.userId).None?
    ensures r.out.NothingSent? ==> r.state.outbox == st.outbox
    ensures r.out.Sent? ==> r.state.outbox == st.outbox + [r.out.mail]
    ensures r.out.Sent? ==>
              exists j :: 0 <= j < |st.users| && st.users[j].id == entity.userId && st.users[j].active && r.out.mail.to == st.users[j].email
    ensures r.out.Sent? ==> r.out.mail == SocialValidationEmail(st.users[FindActiveUser(st.users, entity.userId).value], None)
    ensures r.out.Sent? ==> r.out.mail.template == SocialValidationTemplate
  {
    if entity.active then Step(NothingSent, st)
    else match FindActiveUser(st.users, entity.userId)
      case None => Step(NothingSent, st)
      case Some(j) =>
        var mail := SocialValidationEmail(st.users[j], None);
        Step(Sent(mail), st.(outbox := st.outbox + [mail]))
  }

  /** The table's save of an existing row; a successful save runs the afterSave hook. */
  function SaveSpec(st: State, i: nat, entity: SocialAccount, ok: bool): (r: Step<Option<SocialAccount>>)
    requires i < |st.accounts|
    ensures r.out.Some? <==> ok
    ensures r.out.Some? ==> r.out.value == entity
    ensures r.state.saves == st.saves + [entity] && r.state.users == st.users
    ensures r.state.accounts == if ok then st.accounts[i := entity] else st.accounts
    ensures !ok || entity.active ==> r.state.outbox == st.outbox
    ensures st.outbox <= r.state.outbox && |r.state.outbox| <= |st.outbox| + 1
  {
    var logged := st.(saves := st.saves + [entity]);
    if !ok then Step(None, logged)
    else Step(Some(entity), AfterSaveSpec(logged.(accounts := st.accounts[i := entity]), entity).state)
  }

  /** No operation of this core turns an active social account inactive, or moves or renames a row. */
  ghost predicate ActiveKept(before: seq<SocialAccount>, after: seq<SocialAccount>) {
    |before| == |after| &&
    forall i :: 0 <= i < |before| ==>
      (before[i].active ==> after[i].active) && after[i].id == before[i].id && after[i].userId == before[i].userId &&
      after[i].provider == before[i].provider && after[i].reference == before[i].reference
  }

  /**
   * validateAccount: a missing (provider, reference) and a token that is not strictly
   * equal to the stored one raise the same RecordNotFound; an active account raises
   * AccountAlreadyActive; otherwise the account is activated and saved.
   */
  function ValidateAccountSpec(st: State, provider: string, reference: string, token: string, saveOk: bool)
    : (r: Step<Result<Option<SocialAccount>>>)
    ensures var f := FindAccount(st.accounts, provider, reference);
      r.out == Err(RecordNotFound) <==> f.None? || st.accounts[f.value].token != Some(token)
    ensures UniqueKeys(st.accounts, AccountId) ==> UniqueKeys(r.state.accounts, AccountId)
    ensures ActiveKept(st.accounts, r.state.accounts)
    ensures r.state.users == st.users && r.state.outbox == st.outbox
    ensures r.out.Err? ==> r.state == st
  {
    match FindAccount(st.accounts, provider, reference)
    case None => Step(Err(RecordNotFound), st)
    case Some(i) =>
      var account := st.accounts[i];
      if account.token != Some(token) then Step(Err(RecordNotFound), st)
      else if account.active then Step(Err(AccountAlreadyActive), st)
      else
        var saved := SaveSpec(st, i, account.(active := true), saveOk);
        ReplaceKeepsKeys(st.accounts, AccountId, i, account.(active := true));
        Step(Ok(saved.out), saved.state)
  }

  /**
   * resendValidation: RecordNotFound when no account (with an existing owner) matches,
   * AccountAlreadyActive for an active one; otherwise the validation mail to the owner.
   */
  function ResendValidationSpec(st: State, provider: string, reference: string): (r: Step<Result<Mail>>)
    ensures r.out == Err(RecordNotFound) <==> FindWithOwner(st.accounts, st.users, provider, reference).None?
    ensures r.out.Err? ==> r.state == st
    ensures r.out.Ok? ==> r.state == st.(outbox := st.outbox + [r.out.value])
    ensures r.out.Ok? ==>
              exists i, j :: 0 <= i < |st.accounts| && 0 <= j < |st.users| &&
                Identifies(st.accounts[i], provider, reference) && !st.accounts[i].active &&
                st.users[j].id == st.accounts[i].userId && r.out.value.to == st.users[j].email
  {
    match FindWithOwner(st.accounts, st.users, provider, reference)
    case None => Step(Err(RecordNotFound), st)
    case Some(i) =>
      var account := st.accounts[i];
      if account.active then Step(Err(AccountAlreadyActive), st)
      else
        var owner := st.users[FindUserById(st.users, account.userId).value];
        var mail := SocialValidationEmail(owner, None);
        Step(Ok(mail), st.(outbox := st.outbox + [mail]))
  }

  // ---------------------------------------------------------------------------
  // Properties

  /**
   * A wrong token cannot be told apart from a missing account: for the same tables, a
   * pair that is absent and a pair whose token differs give the same error and both leave
   * the state as it was.
   */
  lemma ValidateMismatchLooksLikeMissing(st: State, provider: string, reference: string, token: string, saveOk: bool,
                                         other: string, otherToken: string)
    requires FindAccount(st.accounts, provider, reference).None?
    requires var f := FindAccount(st.accounts, other, reference);
      f.Some? && st.accounts[f.value].token != Some(otherToken)
    ensures ValidateAccountSpec(st, provider, reference, token, saveOk) == Step(Err(RecordNotFound), st)
    ensures ValidateAccountSpec(st, other, reference, otherToken, saveOk) == Step(Err(RecordNotFound), st)
  {
  }

  /** A matching token on an active account raises AccountAlreadyActive and nothing is saved. */
  lemma ValidateRejectsActive(st: State, provider: string, reference: string, token: string, saveOk: bool, i: nat)
    requires FindAccount(st.accounts, provider, reference) == Some(i)
    requires st.accounts[i].token == Some(token) && st.accounts[i].active
    ensures ValidateAccountSpec(st, provider, reference, token, saveOk) == Step(Err(AccountAlreadyActive), st)
  {
  }

  /**
   * A successful validation saves once the stored account with only `active` set (its
   * token kept), returns the save's result, and sends nothing: the save's afterSave
   * hook sees an active account.
   */
  lemma ValidateActivates(st: State, provider: string, reference: string, token: string, saveOk: bool, i: nat)
    requires FindAccount(st.accounts, provider, reference) == Some(i)
    requires st.accounts[i].token == Some(token) && !st.accounts[i].active
    ensures var r := ValidateAccountSpec(st, provider, reference, token, saveOk);
      var e := st.accounts[i].(active := true);
      && r.state.saves == st.saves + [e]
      && r.out == Ok(if saveOk then Some(e) else None)
      && r.state.accounts == (if saveOk then st.accounts[i := e] else st.accounts)
      && r.state.outbox == st.outbox
  {
  }

  /** resendValidation on an active account raises AccountAlreadyActive and sends nothing. */
  lemma ResendRejectsActive(st: State, provider: string, reference: string, i: nat)
    requires FindWithOwner(st.accounts, st.users, provider, reference) == Some(i)
    requires st.accounts[i].active
    ensures ResendValidationSpec(st, provider, reference) == Step(Err(AccountAlreadyActive), st)
  {
  }

  /** resendValidation mails the owning user's address with the social validation template and returns that send. */
  lemma ResendMailsOwner(st: State, provider: string, reference: string, i: nat, j: nat)
    requires FindWithOwner(st.accounts, st.users, provider, reference) == Some(i)
    requires !st.accounts[i].active
    requires FindUserById(st.users, st.accounts[i].userId) == Some(j)
    ensures var r := ResendValidationSpec(st, provider, reference);
      r.out == Ok(SocialValidationEmail(st.users[j], None)) &&
      r.out.value.to == st.users[j].email && r.out.value.template == SocialValidationTemplate
  {
  }

  /** afterSave sends exactly one mail for an inactive account whose owner is active, and none otherwise. */
  lemma AfterSaveSendsOnce(st: State, entity: SocialAccount)
    ensures var r := AfterSaveSpec(st, entity);
      |r.state.outbox| == |st.outbox| + (if !entity.active && FindActiveUser(st.users, entity.userId).Some? then 1 else 0)
  {
  }

  // ---------------------------------------------------------------------------

  /** The SocialAccount behaviour attached to the SocialAccounts table. */
  class SocialAccountBehavior {
    var accounts: seq<SocialAccount>
    var users: seq<User>
    var saves: seq<SocialAccount>
    var outbox: seq<Mail>

    ghost predicate Valid()
      reads this
    {
      UniqueKeys(accounts, AccountId)
    }

    function Snapshot(): State
      reads this
    {
      State(accounts, users, saves, outbox)
    }

    constructor (accounts: seq<SocialAccount>, users: seq<User>)
      requires UniqueKeys(accounts, AccountId)
      ensures Valid() && Snapshot() == State(accounts, users, [], [])
    {
      this.accounts := accounts;
      this.users := users;
      this.saves := [];
      this.outbox := [];
    }

    method SendSocialValidationEmail(user: User, instanceTemplate: Option<string>) returns (m: Mail)
      modifies this`outbox
      ensures m == SocialValidationEmail(user, instanceTemplate)
      ensures outbox == old(outbox) + [m]
    {
      m := SocialValidationEmail(user, instanceTemplate);
      outbox := outbox + [m];
    }

    method AfterSave(entity: SocialAccount) returns (h: HookResult)
      modifies this`outbox
      ensures Step(h, Snapshot()) == AfterSaveSpec(old(Snapshot()), entity)
    {
      if entity.active {
        return NothingSent;
      }
      var owner := FindActiveUser(users, entity.userId);
      if owner.None? {
        return NothingSent;
      }
      var mail := SendSocialValidationEmail(users[owner.value], None);
      return Sent(mail);
    }

    method Save(i: nat, entity: SocialAccount, ok: bool) returns (r: Option<SocialAccount>)
      requires Valid() && i < |accounts| && entity.id == accounts[i].id
      modifies this
      ensures Valid()
      ensures Step(r, Snapshot()) == SaveSpec(old(Snapshot()), i, entity, ok)
    {
      saves := saves + [entity];
      if !ok {
        return None;
      }
      ReplaceKeepsKeys(accounts, AccountId, i, entity);
      accounts := accounts[i := entity];
      var _ := AfterSave(entity);
      return Some(entity);
    }

    /** `_activateAccount`: set `active` on the fetched account and save it. */
    method ActivateAccount(i: nat, ok: bool) returns (r: Option<SocialAccount>)
      requires Valid() && i < |accounts|
      modifies this
      ensures Valid()
      ensures Step(r, Snapshot()) == SaveSpec(old(Snapshot()), i, old(accounts[i]).(active := true), ok)
    {
      var account := accounts[i];
      account := account.(active := true);
      r := Save(i, account, ok);
    }

    method ValidateAccount(provider: string, reference: string, token: string, saveOk: bool)
      returns (r: Result<Option<SocialAccount>>)
      requires Valid()
      modifies this
      ensures Valid()
      ensures Step(r, Snapshot()) == ValidateAccountSpec(old(Snapshot()), provider, reference, token, saveOk)
    {
      var found := FindAccount(accounts, provider, reference);
      if found.Some? && accounts[found.value].token == Some(token) {
        if accounts[found.value].active {
          return Err(AccountAlreadyActive);
        }
      } else {
        return Err(RecordNotFound);
      }
      var saved := ActivateAccount(found.value, saveOk);
      return Ok(saved);
    }

    method ResendValidation(provider: string, reference: string) returns (r: Result<Mail>)
      modifies this`outbox
      ensures Step(r, Snapshot()) == ResendValidationSpec(old(Snapshot()), provider, reference)
    {
      var found := FindWithOwner(accounts, users, provider, reference);
      if found.Some? {
        if accounts[found.value].active {
          return Err(AccountAlreadyActive);
        }
      } else {
        return Err(RecordNotFound);
      }
      var owner := users[FindUserById(users, accounts[found.value].userId).value];
      var mail := SendSocialValidationEmail(owner, None);
      return Ok(mail);
    }
  }
}
