/** The user store: registered accounts (with passwords, in registration
    order) and the signed-in user. E-mail addresses are compared after
    lower-casing. */
module AuthService {
  import opened Common
  import opened Text
  import opened Types

  const EmailTakenMessage: string := "Email is already registered."
  const BadLoginMessage: string := "Invalid email or password."

  /** The storage keys tq_users and tq_current_user. */
  class AuthStore {
    var users: Slot<seq<UserRecord>>
    var current: Slot<AuthUser>

    constructor (users: Slot<seq<UserRecord>>, current: Slot<AuthUser>)
      ensures this.users == users && this.current == current
    {
      this.users := users;
      this.current := current;
    }

    /** readUsers, which is what getAll returns. */
    function All(): seq<UserRecord>
      reads this
    {
      ReadList(users)
    }

    /** readCurrent, which is what getCurrent returns. */
    function Current(): Option<AuthUser>
      reads this
    {
      ReadValue(current)
    }

    /** AuthService.isEmailTaken on the stored users. */
    function IsEmailTaken(email: string): (r: bool)
      reads this
    {
      EmailTaken(All(), email)
    }
  }

  predicate SameEmail(a: string, b: string)
  {
    Lower(a) == Lower(b)
  }

  /** users.some(u => u.email.toLowerCase() === email.toLowerCase()). */
  function EmailTaken(users: seq<UserRecord>, email: string): (r: bool)
    ensures r <==> exists k :: 0 <= k < |users| && SameEmail(users[k].email, email)
  {
    if users == [] then false
    else SameEmail(users[0].email, email) || EmailTaken(users[1..], email)
  }

  /** No two stored accounts share an e-mail address up to case. */
  ghost predicate EmailsDistinct(users: seq<UserRecord>)
  {
    forall i, j :: 0 <= i < j < |users| ==> !SameEmail(users[i].email, users[j].email)
  }

  /** Appending an account whose address is not taken keeps the addresses
      distinct. */
  lemma AppendKeepsEmailsDistinct(users: seq<UserRecord>, u: UserRecord)
    requires EmailsDistinct(users) && !EmailTaken(users, u.email)
    ensures EmailsDistinct(users + [u])
  {
    var all := users + [u];
    forall i, j | 0 <= i < j < |all|
      ensures !SameEmail(all[i].email, all[j].email)
    {
      if j == |users| {
        assert all[i] == users[i];
      }
    }
  }

  /** The account without its password. */
  function Public(u: UserRecord): AuthUser
  {
    AuthUser(u.id, u.name, u.email)
  }

  predicate LoginMatch(u: UserRecord, email: string, password: string)
  {
    SameEmail(u.email, email) && u.password == password
  }

  /** users.find(u => same e-mail up to case and same password). */
  function FindLogin(users: seq<UserRecord>, email: string, password: string): (r: Option<UserRecord>)
    ensures r.None? <==> forall k :: 0 <= k < |users| ==> !LoginMatch(users[k], email, password)
    ensures r.Some? ==> exists k :: 0 <= k < |users| && users[k] == r.value && LoginMatch(users[k], email, password)
                                 && forall m :: 0 <= m < k ==> !LoginMatch(users[m], email, password)
  {
    if users == [] then None
    else if LoginMatch(users[0], email, password) then Some(users[0])
    else FindLogin(users[1..], email, password)
  }

  /** With distinct addresses at most one account can match a login, so
      the first match is the account registered under that address. */
  lemma LoginMatchUnique(users: seq<UserRecord>, email: string, password: string, k: nat)
    requires EmailsDistinct(users)
    requires k < |users| && LoginMatch(users[k], email, password)
    ensures FindLogin(users, email, password) == Some(users[k])
  {
    var r := FindLogin(users, email, password);
    var m :| 0 <= m < |users| && users[m] == r.value && LoginMatch(users[m], email, password)
             && forall n :: 0 <= n < m ==> !LoginMatch(users[n], email, password);
    assert m == k;
  }

  /** AuthService.register with the id genId produced. A taken address
      (up to case) fails and writes nothing; otherwise the account is
      appended and its public part becomes the signed-in user. */
  method Register(store: AuthStore, name: string, email: string, password: string, id: string)
    returns (r: Result<AuthUser, string>)
    modifies store
    ensures EmailTaken(old(store.All()), email) ==>
              r == Failure(EmailTakenMessage) && store.users == old(store.users) && store.current == old(store.current)
    ensures !EmailTaken(old(store.All()), email) ==>
              && r == Success(AuthUser(id, name, email))
              && store.All() == old(store.All()) + [UserRecord(id, name, email, password)]
              && store.current == Holds(r.value) && store.Current() == Some(r.value)
    ensures EmailsDistinct(old(store.All())) ==> EmailsDistinct(store.All())
  {
    var users := store.All();
    if EmailTaken(users, email) {
      return Failure(EmailTakenMessage);
    }
    var newUser := UserRecord(id, name, email, password);
    if EmailsDistinct(users) {
      AppendKeepsEmailsDistinct(users, newUser);
    }
    users := users + [newUser];
    store.users := Holds(users);
    var authUser := Public(newUser);
    store.current := Holds(authUser);
    r := Success(authUser);
  }

  /** AuthService.login: the first account matching the address (up to
      case) and the password becomes the signed-in user; with none, the
      signed-in user is left as it was. The account list is never written. */
  method Login(store: AuthStore, email: string, password: string) returns (r: Result<AuthUser, string>)
    modifies store`current
    ensures FindLogin(store.All(), email, password).None? ==>
              r == Failure(BadLoginMessage) && store.current == old(store.current)
    ensures FindLogin(store.All(), email, password).Some? ==>
              && r == Success(Public(FindLogin(store.All(), email, password).value))
              && store.Current() == Some(r.value)
    ensures r.Success? <==> exists k :: 0 <= k < |store.All()| && LoginMatch(store.All()[k], email, password)
  {
    var found := FindLogin(store.All(), email, password);
    if found.None? {
      return Failure(BadLoginMessage);
    }
    var authUser := Public(found.value);
    store.current := Holds(authUser);
    r := Success(authUser);
  }

  /** AuthService.logout: removes the signed-in user. */
  method Logout(store: AuthStore)
    modifies store`current
    ensures store.current == Absent && store.Current() == None
  {
    store.current := Absent;
  }
}
