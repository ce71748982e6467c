/**
 * User registration: an email or username already on file is refused, email first;
 * otherwise the user is stored with the hash of the password and answered with its
 * username and email only.
 */
module Users {
  import opened Outcomes
  import opened Stores

  datatype UserCreate = UserCreate(username: string, email: string, password: string)

  datatype UserCreateResponse = UserCreateResponse(username: string, email: string)

  function EmailTaken(email: string): string {
    "An user with email " + email + " already exists!"
  }

  function UsernameTaken(username: string): string {
    "An user with username " + username + " already exists!"
  }

  predicate HasEmail(users: seq<User>, email: string) {
    exists i :: 0 <= i < |users| && users[i].email == email
  }

  predicate HasUsername(users: seq<User>, username: string) {
    exists i :: 0 <= i < |users| && users[i].username == username
  }

  /** The row a registration stores. */
  function NewUser(u: UserCreate, hash: string -> string): User {
    User(u.username, u.email, hash(u.password))
  }

  /** The outcome of `create_user` against the table `users`, given the password hash and any database failure. */
  function Registration(users: seq<User>, u: UserCreate, hash: string -> string, fault: Option<Exception>)
    : (r: Result<UserCreateResponse>)
    ensures r.Ok? <==> !HasEmail(users, u.email) && !HasUsername(users, u.username) && fault.None?
    ensures r.Ok? ==> r.value.username == u.username && r.value.email == u.email
    ensures r.Err? && (HasEmail(users, u.email) || HasUsername(users, u.username)) ==> r.error.UserAlreadyExists?
  {
    if HasEmail(users, u.email) then Err(UserAlreadyExists(EmailTaken(u.email)))
    else if HasUsername(users, u.username) then Err(UserAlreadyExists(UsernameTaken(u.username)))
    else if fault.Some? then Err(fault.value)
    else Ok(UserCreateResponse(u.username, u.email))
  }

  /** The table after a registration: the new row is appended exactly when it succeeded. */
  function Registered(users: seq<User>, u: UserCreate, hash: string -> string, fault: Option<Exception>)
    : (after: seq<User>)
    ensures |users| <= |after| <= |users| + 1 && after[..|users|] == users
    ensures |after| == |users| + 1 <==> Registration(users, u, hash, fault).Ok?
    ensures |after| == |users| + 1 ==> after[|users|] == NewUser(u, hash)
  {
    if Registration(users, u, hash, fault).Ok? then users + [NewUser(u, hash)] else users
  }

  /** No two users share an email or a username. */
  predicate Unique(users: seq<User>) {
    forall i, j :: 0 <= i < j < |users| ==> users[i].email != users[j].email && users[i].username != users[j].username
  }

  /** `UserService`: registration through the users table. */
  class UserService {
    const store: UserStore

    constructor(store: UserStore)
      ensures this.store == store
    {
      this.store := store;
    }

    /** `create_user`: the two uniqueness checks, then hashing and storing. */
    method CreateUser(u: UserCreate, hash: string -> string, fault: Option<Exception>)
      returns (r: Result<UserCreateResponse>)
      modifies store
      ensures r == Registration(old(store.users), u, hash, fault)
      ensures store.users == Registered(old(store.users), u, hash, fault)
    {
      if store.GetByEmail(u.email).Some? {
        return Err(UserAlreadyExists(EmailTaken(u.email)));
      }
      if store.GetByUsername(u.username).Some? {
        return Err(UserAlreadyExists(UsernameTaken(u.username)));
      }
      var hashed := hash(u.password);
      var created := store.Create(User(u.username, u.email, hashed), fault);
      if created.Err? {
        return Err(created.error);
      }
      r := Ok(UserCreateResponse(created.value.username, created.value.email));
    }
  }

  /** A taken email is reported, ahead of a taken username, and nothing is stored. */
  lemma EmailCheckedFirst(users: seq<User>, u: UserCreate, hash: string -> string, fault: Option<Exception>)
    requires HasEmail(users, u.email)
    ensures Registration(users, u, hash, fault) == Err(UserAlreadyExists(EmailTaken(u.email)))
    ensures Registered(users, u, hash, fault) == users
  {
  }

  /** With a new email, a taken username is reported and nothing is stored. */
  lemma UsernameCheckedSecond(users: seq<User>, u: UserCreate, hash: string -> string, fault: Option<Exception>)
    requires !HasEmail(users, u.email) && HasUsername(users, u.username)
    ensures Registration(users, u, hash, fault) == Err(UserAlreadyExists(UsernameTaken(u.username)))
    ensures Registered(users, u, hash, fault) == users
  {
  }

  /**
   * A registration succeeds exactly when email and username are both new and the
   * database accepts the row; the answer then repeats them and never the password, and
   * the stored row holds the hash.
   */
  lemma RegistrationSucceeds(users: seq<User>, u: UserCreate, hash: string -> string, fault: Option<Exception>)
    ensures Registration(users, u, hash, fault).Ok? <==>
      !HasEmail(users, u.email) && !HasUsername(users, u.username) && fault.None?
    ensures Registration(users, u, hash, fault).Ok? ==>
      Registration(users, u, hash, fault).value == UserCreateResponse(u.username, u.email)
      && Registered(users, u, hash, fault)[|users|] == User(u.username, u.email, hash(u.password))
      && |Registered(users, u, hash, fault)| == |users| + 1
  {
  }

  /** Registration keeps emails and usernames unique. */
  lemma RegistrationKeepsUnique(users: seq<User>, u: UserCreate, hash: string -> string, fault: Option<Exception>)
    requires Unique(users)
    ensures Unique(Registered(users, u, hash, fault))
  {
    var after := Registered(users, u, hash, fault);
    if Registration(users, u, hash, fault).Ok? {
      forall i, j | 0 <= i < j < |after|
        ensures after[i].email != after[j].email && after[i].username != after[j].username
      {
        if j == |users| {
          assert after[j] == NewUser(u, hash);
          assert after[i] == users[i];
        }
      }
    }
  }

  /** Registering the same request twice: the second attempt is refused on the email. */
  lemma SecondRegistrationRefused(users: seq<User>, u: UserCreate, hash: string -> string)
    requires Registration(users, u, hash, None).Ok?
    ensures Registration(Registered(users, u, hash, None), u, hash, None) == Err(UserAlreadyExists(EmailTaken(u.email)))
  {
    var after := Registered(users, u, hash, None);
    assert after[|users|].email == u.email;
  }
}
