/** Properties that span several routes: an account registered can log in, and the token it gets
    opens exactly the routes its role allows. */
module Scenarios {
  import opened Base
  import opened Crypto
  import opened Http
  import opened Accounts
  import opened Middleware

  /** Registering a fresh name and then logging in with the same password succeeds, and the token
      signs the new row's id (the old table length plus one), the name and the role as given. */
  lemma RegisterThenLogin(users: seq<User>, name: string, password: string, role: Option<string>)
    requires WellFormed(users)
    requires name != "" && password != "" && !HasUser(users, name)
    ensures var reg := Registration(users, RegisterBody(Some(name), Some(password), role));
      && reg.reply.status == 201
      && Login(reg.users, LoginBody(Some(name), Some(password))) ==
         Send(200, LoginJson(Sign(SecretKey, Claims(|users| + 1, name, role.GetOr(DefaultRole))),
                             Profile(name, role.GetOr(DefaultRole))))
  {
    var reg := Registration(users, RegisterBody(Some(name), Some(password), role));
    var i := |users|;
    assert reg.users[i].username == name;
    assert Lookup(reg.users, name) == Some(reg.users[i]);
    CheckHash(password);
  }

  /** A token returned by a successful login, sent as `Bearer <token>`, opens the admin dashboard
      exactly when the account's role is "admin", and gets 403 otherwise. */
  lemma LoginThenDashboard(users: seq<User>, body: LoginBody)
    requires Login(users, body).Send? && Login(users, body).status == 200
    ensures var u := Lookup(users, body.username.value).value;
      AdminDashboard(Some("Bearer " + Login(users, body).body.token)) ==
        if u.role == AdminRole then Dashboard else InsufficientRole
  {
    var u := Lookup(users, body.username.value).value;
    var token := Sign(SecretKey, ClaimsOf(u));
    assert Login(users, body).body.token == token;
    var header := Some("Bearer " + token);
    assert "Bearer" + " " + token == "Bearer " + token;
    TokenOfSchemeAndToken("Bearer", token);
    AuthenticateSigned(SecretKey, header, ClaimsOf(u));
  }

  /** The seed accounts: the admin's token opens the dashboard, alice's gets 403. */
  lemma SeedAccounts()
    ensures var admin := Login(Seed(), LoginBody(Some("admin"), Some("admin123")));
      admin.Send? && admin.status == 200 &&
      AdminDashboard(Some("Bearer " + admin.body.token)) == Dashboard
    ensures var alice := Login(Seed(), LoginBody(Some("alice"), Some("user123")));
      alice.Send? && alice.status == 200 &&
      AdminDashboard(Some("Bearer " + alice.body.token)) == InsufficientRole
  {
    var users := Seed();
    assert Lookup(users, "admin") == Some(users[0]);
    assert Lookup(users, "alice") == Some(users[1]);
    CheckHash("admin123");
    CheckHash("user123");
    LoginThenDashboard(users, LoginBody(Some("admin"), Some("admin123")));
    LoginThenDashboard(users, LoginBody(Some("alice"), Some("user123")));
  }

  /** Two registrations of the same name: the second is refused with 409 and the table keeps one
      row for that name. */
  lemma DuplicateRegistration(users: seq<User>, name: string, first: string, second: string, role: Option<string>)
    requires WellFormed(users)
    requires name != "" && first != "" && second != "" && !HasUser(users, name)
    ensures var once := Registration(users, RegisterBody(Some(name), Some(first), role));
      var twice := Registration(once.users, RegisterBody(Some(name), Some(second), role));
      && twice.reply == Send(409, ErrorJson(DuplicateError))
      && twice.users == once.users
      && |once.users| == |users| + 1
      && UniqueUsernames(twice.users)
  {
    var once := Registration(users, RegisterBody(Some(name), Some(first), role));
    assert once.users[|users|].username == name;
  }
}
