/**
 * How `App` connects the forms to the controller: it hands `handleLogin` to
 * `Login` and `Signup` as `onLogin`, and each form shows the answer it gets.
 */
module Wiring {
  import opened Common
  import opened Text
  import opened AcademicYear
  import opened Accounts
  import Login
  import Signup

  /** Submitting the login form. */
  method SignIn(form: Login.LoginForm, app: App) returns (res: Option<Response>)
    requires app.Valid()
    modifies form, app
    ensures app.Valid()
    ensures old(form.form.username) == "" || old(form.form.password) == "" ==>
      res == None && unchanged(app) && form.form == old(form.form) && form.error == Login.EmptyMessage
    ensures old(form.form.username) != "" && old(form.form.password) != "" ==>
      var u := ResolveUsername(Login.LoginPayload(old(form.form)));
      && res.Some?
      && (res.value.success <==> u in old(app.users) && old(app.users)[u].password == old(form.form.password))
    ensures res.Some? && res.value.success ==>
      var u := ResolveUsername(Login.LoginPayload(old(form.form)));
      && u in old(app.users) && u in app.users
      && app.users[u] == old(app.users)[u].(loginCount := Some(OrZero(old(app.users)[u].loginCount) + 1))
      && app.user == Some(WithYear(app.users[u]))
    ensures res.Some? && res.value.success ==>
      app.view == DashboardView && form.form == Login.Blank && form.error == ""
    ensures res.Some? && !res.value.success ==>
      && unchanged(app)
      && form.form == old(form.form)
      && res.value.message.Some?
      && form.error == res.value.message.value
  {
    var payload := form.Submit();
    if payload.None? {
      return None;
    }
    var p := payload.value;
    ghost var u := ResolveUsername(p);
    ghost var before := app.users;
    assert u == ResolveUsername(Login.LoginPayload(old(form.form)));
    assert !IsSignup(p);
    var r := app.HandleLogin(p);
    res := Some(r);
    if r.success {
      assert u in before && before[u].password == p.password;
      assert app.users[u] == before[u].(loginCount := Some(OrZero(before[u].loginCount) + 1));
    } else {
      assert r.message.Some?;
    }
    ghost var users, user := app.users, app.user;
    form.HandleResponse(res);
    assert app.users == users && app.user == user;
  }

  /**
   * Submitting the signup form. The form sends the payload as written, without
   * the email, so the stored account has no email.
   */
  method SignUp(form: Signup.SignupForm, app: App) returns (res: Option<Response>)
    requires app.Valid()
    modifies form, app
    ensures app.Valid()
    ensures form.form == old(form.form)
    ensures !Signup.Acceptable(form.form) ==> res == None && unchanged(app)
    ensures Signup.Acceptable(form.form) ==>
      var p := Signup.SignupPayloadAsWritten(form.form);
      && res.Some?
      && (res.value.success <==> old(SignupRefusal(app.users, app.order, p)).None?)
    ensures res.Some? && res.value.success ==>
      var p := Signup.SignupPayloadAsWritten(form.form);
      var u := ResolveUsername(p);
      && u !in old(app.users)
      && app.users == old(app.users)[u := NewAccount(p)]
      && app.order == old(app.order) + [u]
      && app.view == DashboardView
      && app.user == Some(WithYear(NewAccount(p)))
      && app.user.value.account.email == None
      && app.user.value.account.loginCount == Some(1)
      && app.user.value.year == form.EstimatedYear()
    ensures res.Some? && !res.value.success ==>
      && unchanged(app)
      && res.value.message == old(SignupRefusal(app.users, app.order, Signup.SignupPayloadAsWritten(form.form)))
      && form.error == res.value.message.value
  {
    var payload := form.Submit();
    if payload.None? {
      return None;
    }
    var r := app.HandleLogin(payload.value);
    res := Some(r);
    ghost var users, order, user := app.users, app.order, app.user;
    form.HandleResponse(res);
    assert app.users == users && app.order == order && app.user == user;
  }

  /**
   * Two signups through the form with different usernames: once the first one
   * goes through, the second is refused as a duplicate email, whatever the two
   * email addresses are, because neither payload carries one.
   */
  method TwoFormSignups(first: Signup.SignupForm, second: Signup.SignupForm, app: App)
    returns (r1: Option<Response>, r2: Option<Response>)
    requires first != second && app.Valid()
    requires Signup.Acceptable(first.form) && Signup.Acceptable(second.form)
    requires second.form.username != first.form.username && second.form.username !in app.users
    modifies first, second, app
    ensures r1.Some?
    ensures r1.value.success ==> r2 == Some(Response(false, Some(EmailTakenMessage)))
  {
    ghost var users, order := app.users, app.order;
    r1 := SignUp(first, app);
    if r1.value.success {
      Signup.AsWrittenSecondSignupRefused(users, order, first.form, second.form);
    }
    r2 := SignUp(second, app);
  }

  /** Start-up with nothing saved, followed by the seeding effect. */
  method StartedApp() returns (app: App)
    ensures fresh(app) && app.Valid()
    ensures app.users == map[TestUsername := TestAccount] && app.user == None && app.view == LoginView
  {
    app := new App();
    app.SeedTestAccount();
  }

  /** The login form with the test account's username and password typed in. */
  method TestLoginForm() returns (form: Login.LoginForm)
    ensures fresh(form)
    ensures form.form.username != "" && form.form.password == TestAccount.password
    ensures ResolveUsername(Login.LoginPayload(form.form)) == TestUsername
  {
    form := new Login.LoginForm();
    form.HandleChange(Login.Username, TestUsername);
    form.HandleChange(Login.Password, TestAccount.password);
    Login.PlainUsernameKept(form.form);
  }

  /**
   * Filled-in credentials that name a stored account and carry its password
   * always sign in, and the session holds that account one login later.
   */
  method SignInStored(form: Login.LoginForm, app: App, u: string) returns (res: Option<Response>)
    requires app.Valid()
    requires form.form.username != "" && form.form.password != ""
    requires ResolveUsername(Login.LoginPayload(form.form)) == u
    requires u in app.users && app.users[u].password == form.form.password
    modifies form, app
    ensures res.Some? && res.value.success
    ensures app.user == Some(WithYear(old(app.users)[u].(loginCount := Some(OrZero(old(app.users)[u].loginCount) + 1))))
  {
    res := SignIn(form, app);
  }

  /** Starting with nothing saved, the seeded test account signs in with its password. */
  method TestAccountSession() returns (app: App)
    ensures app.user == Some(WithYear(TestAccount.(loginCount := Some(1))))
  {
    app := StartedApp();
    var form := TestLoginForm();
    var res := SignInStored(form, app, TestUsername);
  }

  /** The dashboard then shows Junior (60 credits) and a first login. */
  method TestAccountSignIn() returns (year: Year, logins: Option<int>)
    ensures year == Junior && logins == Some(1)
  {
    var app := TestAccountSession();
    year := app.user.value.year;
    logins := app.user.value.account.loginCount;
  }
}
