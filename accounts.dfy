/**
 * The account store and session controller of `App.js`: `handleLogin` with its
 * signup and login flows, `handleLogout`, switching between the two forms, and
 * the seeding of a test account into an empty store.
 */
module Accounts {
  import opened Common
  import opened AcademicYear

  /** A stored account. `loginCount` and `email` may be missing (undefined). */
  datatype Account = Account(
    username: string,
    password: string,
    name: string,
    major: string,
    credits: int,
    loginCount: Option<int>,
    email: Option<string>)

  /** The signed-in account as the session holds it, with its year added. */
  datatype CurrentUser = CurrentUser(account: Account, year: Year)

  datatype View = LoginView | SignupView | DashboardView

  datatype Kind = LoginRequest | SignupRequest

  /**
   * What a form passes to `handleLogin`. The username, name and major are only
   * tested with `||`, where a missing field and "" are both falsy, so "" stands
   * for both. The password is compared with `!==` on login, where a missing
   * password would differ from "", but both forms always send the typed
   * password as a string, so it is a plain string too. `email` is compared
   * with `===` and the signup form leaves it out, so it is an Option.
   */
  datatype Payload = Payload(
    kind: Option<Kind>,
    username: string,
    email: Option<string>,
    password: string,
    name: string,
    major: string,
    credits: Option<int>)

  /** `{success, message}` as `handleLogin` returns it. */
  datatype Response = Response(success: bool, message: Option<string>)

  const EmailTakenMessage := "An account with this email already exists."
  const UsernameTakenMessage := "This username is already taken. Please choose another."
  const UnknownUserMessage := "Invalid username."
  const WrongPasswordMessage := "Invalid password."

  /** `message || fallback`, as the forms show a failed response. */
  function MessageOr(message: Option<string>, fallback: string): string {
    if message.Some? && message.value != "" then message.value else fallback
  }

  /** `payload.type || 'login'` selects the signup flow. */
  predicate IsSignup(p: Payload) {
    p.kind == Some(SignupRequest)
  }

  /** `payload.username || payload.email || 'anon'`: the key the flow stores or looks up. */
  function ResolveUsername(p: Payload): (u: string)
    ensures u != ""
  {
    if p.username != "" then p.username
    else if p.email.Some? && p.email.value != "" then p.email.value
    else "anon"
  }

  /** `Number(n) || 0` for a number that may be missing. */
  function OrZero(n: Option<int>): int {
    n.GetOr(0)
  }

  /** The record a successful signup stores. */
  function NewAccount(p: Payload): Account {
    var u := ResolveUsername(p);
    Account(u, p.password, if p.name != "" then p.name else u, p.major, OrZero(p.credits), Some(1), p.email)
  }

  /** The session's copy of an account: the record with its year. */
  function WithYear(a: Account): CurrentUser {
    CurrentUser(a, ComputeYear(a.credits))
  }

  /** The test of the duplicate search: same email or same username. */
  predicate Matches(a: Account, email: Option<string>, username: string) {
    a.email == email || a.username == username
  }

  /**
   * The store's invariant: `order` lists the keys of `users` once each, in the
   * order they were inserted (the order `Object.entries` visits them); every
   * record is stored under its own username; no two records share an email.
   */
  ghost predicate StoreOk(users: map<string, Account>, order: seq<string>) {
    && (forall k :: k in users <==> k in order)
    && (forall i, j :: 0 <= i < j < |order| ==> order[i] != order[j])
    && (forall k :: k in users ==> users[k].username == k)
    && (forall k1, k2 :: k1 in users && k2 in users && k1 != k2 ==> users[k1].email != users[k2].email)
  }

  /**
   * The position in `order` of the first entry that `Object.entries(users).find`
   * returns for the duplicate test, or None.
   */
  function FirstMatch(users: map<string, Account>, order: seq<string>, email: Option<string>, username: string): (r: Option<nat>)
    requires forall k :: k in order ==> k in users
    ensures r.Some? ==> r.value < |order| && Matches(users[order[r.value]], email, username)
    ensures r.Some? ==> forall j :: 0 <= j < r.value ==> !Matches(users[order[j]], email, username)
    ensures r.None? ==> forall j :: 0 <= j < |order| ==> !Matches(users[order[j]], email, username)
    decreases |order|
  {
    if order == [] then None
    else if Matches(users[order[0]], email, username) then Some(0)
    else match FirstMatch(users, order[1..], email, username)
      case None => None
      case Some(i) => Some(i + 1)
  }

  /** The message a signup is refused with, or None when it goes through. */
  function SignupRefusal(users: map<string, Account>, order: seq<string>, p: Payload): Option<string>
    requires forall k :: k in order ==> k in users
  {
    match FirstMatch(users, order, p.email, ResolveUsername(p))
    case None => None
    case Some(i) => Some(if users[order[i]].email == p.email then EmailTakenMessage else UsernameTakenMessage)
  }

  /** The linear search of the signup flow: the first entry that matches. */
  method FindExisting(users: map<string, Account>, order: seq<string>, email: Option<string>, username: string)
    returns (found: Option<nat>)
    requires forall k :: k in order ==> k in users
    ensures found == FirstMatch(users, order, email, username)
  {
    var i := 0;
    while i < |order|
      invariant 0 <= i <= |order|
      invariant forall j :: 0 <= j < i ==> !Matches(users[order[j]], email, username)
    {
      if Matches(users[order[i]], email, username) {
        return Some(i);
      }
      i := i + 1;
    }
    return None;
  }

  /** A signup goes through exactly when its username and its email are both new. */
  lemma SignupRefusedIff(users: map<string, Account>, order: seq<string>, p: Payload)
    requires StoreOk(users, order)
    ensures SignupRefusal(users, order, p).None? <==>
      ResolveUsername(p) !in users && forall k :: k in users ==> users[k].email != p.email
  {
    var u := ResolveUsername(p);
    if SignupRefusal(users, order, p).None? {
      forall k | k in users ensures k != u && users[k].email != p.email {
        var i :| 0 <= i < |order| && order[i] == k;
        assert !Matches(users[order[i]], p.email, u);
      }
    } else {
      var i := FirstMatch(users, order, p.email, u).value;
      assert order[i] in users;
    }
  }

  /**
   * Which message a refused signup gets depends on the order of entries: it is
   * the email message exactly when some account holding the email was stored
   * no later than the account named like the new username (if there is one).
   */
  lemma SignupMessageByOrder(users: map<string, Account>, order: seq<string>, p: Payload)
    requires StoreOk(users, order)
    requires SignupRefusal(users, order, p).Some?
    ensures SignupRefusal(users, order, p) == Some(EmailTakenMessage) <==>
      exists i :: 0 <= i < |order| && users[order[i]].email == p.email &&
        forall j :: 0 <= j < i ==> order[j] != ResolveUsername(p)
  {
    var u := ResolveUsername(p);
    var m := FirstMatch(users, order, p.email, u).value;
    if users[order[m]].email == p.email {
      forall j | 0 <= j < m ensures order[j] != u {
        assert !Matches(users[order[j]], p.email, u);
      }
    } else {
      assert users[order[m]].username == u;
      forall i | 0 <= i < |order| && users[order[i]].email == p.email
        ensures exists j :: 0 <= j < i && order[j] == u
      {
        if i < m {
          assert Matches(users[order[i]], p.email, u);
        }
        assert m != i;
      }
    }
  }

  /** A new username with an email some account already has is refused for the email. */
  lemma DuplicateEmailReported(users: map<string, Account>, order: seq<string>, p: Payload, holder: string)
    requires StoreOk(users, order)
    requires holder in users && users[holder].email == p.email
    requires ResolveUsername(p) !in users
    ensures SignupRefusal(users, order, p) == Some(EmailTakenMessage)
  {
    SignupRefusedIff(users, order, p);
    SignupMessageByOrder(users, order, p);
    var i :| 0 <= i < |order| && order[i] == holder;
    assert users[order[i]].email == p.email;
  }

  /** A taken username with an email no account has is refused for the username. */
  lemma DuplicateUsernameReported(users: map<string, Account>, order: seq<string>, p: Payload)
    requires StoreOk(users, order)
    requires ResolveUsername(p) in users
    requires forall k :: k in users ==> users[k].email != p.email
    ensures SignupRefusal(users, order, p) == Some(UsernameTakenMessage)
  {
    SignupRefusedIff(users, order, p);
    var m := FirstMatch(users, order, p.email, ResolveUsername(p)).value;
    assert order[m] in users;
  }

  /** Storing the new account of an accepted signup keeps the store's invariant. */
  lemma SignupKeepsStoreOk(users: map<string, Account>, order: seq<string>, p: Payload)
    requires StoreOk(users, order)
    requires SignupRefusal(users, order, p).None?
    ensures ResolveUsername(p) !in users
    ensures StoreOk(users[ResolveUsername(p) := NewAccount(p)], order + [ResolveUsername(p)])
  {
    SignupRefusedIff(users, order, p);
    var u := ResolveUsername(p);
    var order' := order + [u];
    forall i, j | 0 <= i < j < |order'| ensures order'[i] != order'[j] {
      if j == |order| {
        assert order'[i] == order[i] && order[i] in users;
      }
    }
  }

  /** Replacing the login count of a stored account keeps the store's invariant. */
  lemma LoginKeepsStoreOk(users: map<string, Account>, order: seq<string>, u: string, count: Option<int>)
    requires StoreOk(users, order)
    requires u in users
    ensures StoreOk(users[u := users[u].(loginCount := count)], order)
  {
  }

  /** The account seeded into an empty store. */
  const TestUsername := "test"
  const TestAccount := Account(
    "test", "Test123!", "Test User", "Computer Science", 60, Some(0), Some("test@njit.edu"))

  /** The state of the `App` component: the store, the signed-in user and the view. */
  class App {
    var users: map<string, Account>
    var order: seq<string>
    var user: Option<CurrentUser>
    var view: View

    /**
     * The store's invariant; a user is signed in exactly when the dashboard is
     * shown, and the session holds that user's stored record with its year.
     */
    ghost predicate Valid()
      reads this
    {
      && StoreOk(users, order)
      && (user.Some? <==> view == DashboardView)
      && (user.Some? ==>
            var a := user.value.account;
            a.username in users && users[a.username] == a && user.value.year == ComputeYear(a.credits))
    }

    /** Start-up with nothing saved: an empty store and the login view. */
    constructor()
      ensures Valid()
      ensures users == map[] && order == [] && user == None && view == LoginView
    {
      users, order, user, view := map[], [], None, LoginView;
    }

    /** The effect that puts the test account into an empty store. */
    method SeedTestAccount()
      requires Valid()
      modifies this
      ensures Valid()
      ensures old(users) == map[] ==> users == map[TestUsername := TestAccount] && order == [TestUsername]
      ensures old(users) != map[] ==> users == old(users) && order == old(order)
      ensures user == old(user) && view == old(view)
    {
      if |users| == 0 {
        users := map[TestUsername := TestAccount];
        order := [TestUsername];
      }
    }

    /** `handleLogin(payload)`: the signup flow or the login flow. */
    method HandleLogin(p: Payload) returns (res: Response)
      requires Valid()
      modifies this
      ensures Valid()
      // signup refused: nothing changes
      ensures IsSignup(p) && old(SignupRefusal(users, order, p)).Some? ==>
        && res == Response(false, old(SignupRefusal(users, order, p)))
        && unchanged(this)
      // signup accepted: exactly one new entry, and the new account is signed in
      ensures IsSignup(p) && old(SignupRefusal(users, order, p)).None? ==>
        && res == Response(true, None)
        && ResolveUsername(p) !in old(users)
        && users == old(users)[ResolveUsername(p) := NewAccount(p)]
        && order == old(order) + [ResolveUsername(p)]
        && users[ResolveUsername(p)].loginCount == Some(1)
        && user == Some(WithYear(NewAccount(p)))
        && view == DashboardView
      // login with an unknown username
      ensures !IsSignup(p) && ResolveUsername(p) !in old(users) ==>
        res == Response(false, Some(UnknownUserMessage)) && unchanged(this)
      // login with a password that differs from the stored one
      ensures !IsSignup(p) && ResolveUsername(p) in old(users) &&
              old(users)[ResolveUsername(p)].password != p.password ==>
        res == Response(false, Some(WrongPasswordMessage)) && unchanged(this)
      // login accepted: the count goes up by one, the account is signed in
      ensures !IsSignup(p) && ResolveUsername(p) in old(users) &&
              old(users)[ResolveUsername(p)].password == p.password ==>
        var u := ResolveUsername(p);
        var was := old(users)[u];
        && res == Response(true, None)
        && users == old(users)[u := was.(loginCount := Some(OrZero(was.loginCount) + 1))]
        && order == old(order)
        && user == Some(WithYear(users[u]))
        && view == DashboardView
    {
      var kind := p.kind.GetOr(LoginRequest);
      var username := ResolveUsername(p);

      if kind == SignupRequest {
        var existing := FindExisting(users, order, p.email, username);
        if existing.Some? {
          var isDuplicateEmail := users[order[existing.value]].email == p.email;
          return Response(false, Some(if isDuplicateEmail then EmailTakenMessage else UsernameTakenMessage));
        }
        SignupKeepsStoreOk(users, order, p);
        var newUser := NewAccount(p);
        users := users[username := newUser];
        order := order + [username];
        user := Some(WithYear(newUser));
        view := DashboardView;
        return Response(true, None);
      }

      if username !in users {
        return Response(false, Some(UnknownUserMessage));
      }
      var existing := users[username];
      if existing.password != p.password {
        return Response(false, Some(WrongPasswordMessage));
      }
      var nextCount := OrZero(existing.loginCount) + 1;
      var updated := existing.(loginCount := Some(nextCount));
      LoginKeepsStoreOk(users, order, username, Some(nextCount));
      users := users[username := updated];
      user := Some(WithYear(updated));
      view := DashboardView;
      return Response(true, None);
    }

    /** `handleLogout`: sign out and show the login form. */
    method HandleLogout()
      requires Valid()
      modifies this
      ensures Valid()
      ensures user == None && view == LoginView
      ensures users == old(users) && order == old(order)
    {
      user := None;
      view := LoginView;
    }

    /** `onSwitch(target)`: the forms' links between login and signup. */
    method SwitchView(target: View)
      requires Valid()
      requires view != DashboardView && target != DashboardView
      modifies this
      ensures Valid()
      ensures view == target
      ensures users == old(users) && order == old(order) && user == old(user)
    {
      view := target;
    }
  }
}
