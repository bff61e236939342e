/**
 * The records the account-validation core works on, the exception kinds it raises
 * and catches, and the two pieces of query logic the ORM calls share: "the first row
 * of a filtered query" and "a primary key is unique".
 */
module Entities {

  datatype Option<+T> = None | Some(value: T)

  /** A value, or the exception that was raised instead of returning it. */
  datatype Result<+R> = Ok(value: R) | Err(error: Error)

  /** The exception kinds of the core, one constructor per exception class. */
  datatype Error =
    | InvalidArgument          // InvalidArgumentException
    | UserNotFound             // UserNotFoundException
    | UserAlreadyActive        // UserAlreadyActiveException
    | WrongPassword            // WrongPasswordException
    | TokenExpired             // TokenExpiredException
    | RecordNotFound           // the ORM's RecordNotFoundException
    | AccountAlreadyActive     // AccountAlreadyActiveException
    | EntityRequired           // a non-entity passed to a parameter typed EntityInterface: a TypeError, not an Exception
    | OtherException           // any other Exception raised by a collaborator

  type Timestamp = int

  /** A row of the Users table. `password` is the stored hash. */
  datatype User = User(
    id: int,
    username: string,
    email: string,
    firstName: Option<string>,
    password: string,
    active: bool,
    activationDate: Option<Timestamp>,
    token: Option<string>,
    tokenExpires: Option<Timestamp>)

  /** A row of the SocialAccounts table; `userId` is the owning user. */
  datatype SocialAccount = SocialAccount(
    id: int,
    userId: int,
    provider: string,
    reference: string,
    token: Option<string>,
    active: bool)

  /** One sent email, as far as the core decides it. */
  datatype Mail = Mail(to: string, subject: string, template: string)

  function UserId(u: User): int { u.id }
  function AccountId(a: SocialAccount): int { a.id }

  /** PHP's `empty()` on a string: both "" and "0" are empty. */
  predicate IsEmpty(s: string) {
    s == "" || s == "0"
  }

  /**
   * The prefix both validation mails put in front of their subject:
   * the first name followed by ", " when the first name is set, nothing otherwise.
   */
  function Greeting(firstName: Option<string>): (g: string)
    ensures g == "" <==> firstName.None?
  {
    match firstName
    case None => ""
    case Some(name) => name + ", "
  }

  /**
   * The index of the first row satisfying `p`, as `->first()` returns it on a query
   * filtered by `p`: every earlier row fails `p`, and None means no row satisfies it.
   */
  function First<T>(rows: seq<T>, p: T -> bool): (r: Option<nat>)
    ensures r.Some? ==> r.value < |rows| && p(rows[r.value])
    ensures r.Some? ==> forall j :: 0 <= j < r.value ==> !p(rows[j])
    ensures r.None? <==> forall j :: 0 <= j < |rows| ==> !p(rows[j])
  {
    if |rows| == 0 then None
    else if p(rows[0]) then Some(0)
    else match First(rows[1..], p)
      case None => None
      case Some(k) => Some(k + 1)
  }

  /**
   * The user with this id: the ORM's `get` by primary key, and the owner row a social
   * account's `contain('Users')` loads.
   */
  function FindUserById(users: seq<User>, id: int): (r: Option<nat>)
    ensures r.Some? ==> r.value < |users| && users[r.value].id == id
    ensures r.None? <==> forall j :: 0 <= j < |users| ==> users[j].id != id
  {
    First(users, (u: User) => u.id == id)
  }

  /** No two rows share a key: the table's primary key. */
  ghost predicate UniqueKeys<T>(rows: seq<T>, key: T -> int) {
    forall i, j :: 0 <= i < j < |rows| ==> key(rows[i]) != key(rows[j])
  }

  /** Overwriting one row with a row of the same key keeps the keys unique. */
  lemma ReplaceKeepsKeys<T>(rows: seq<T>, key: T -> int, i: nat, row: T)
    requires i < |rows| && key(row) == key(rows[i])
    ensures UniqueKeys(rows, key) ==> UniqueKeys(rows[i := row], key)
  {
  }
}
