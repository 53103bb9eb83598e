/** The account table and the two account routes: `POST /api/register` and `POST /api/login`. */
module Accounts {
  import opened Base
  import opened Crypto
  import opened Http

  /** The secret every session token is signed with. */
  const SecretKey := "Hades"

  /** One row of the in-memory table; `password` holds the bcrypt hash. */
  datatype User = User(id: nat, username: string, password: string, role: string)

  predicate HasUser(users: seq<User>, name: string)
  {
    exists i :: 0 <= i < |users| && users[i].username == name
  }

  /** No two rows share a username (compared exactly, case-sensitively). */
  predicate UniqueUsernames(users: seq<User>)
  {
    forall i, j :: 0 <= i < j < |users| ==> users[i].username != users[j].username
  }

  /** Row `i` has id `i + 1`: ids are handed out as the table length plus one and nothing is deleted. */
  predicate IdsArePositions(users: seq<User>)
  {
    forall i :: 0 <= i < |users| ==> users[i].id == i + 1
  }

  predicate WellFormed(users: seq<User>)
  {
    UniqueUsernames(users) && IdsArePositions(users)
  }

  /** The two accounts the service starts with. */
  function Seed(): (users: seq<User>)
    ensures WellFormed(users)
    ensures HasUser(users, "admin") && HasUser(users, "alice")
  {
    SeedRows(Hash("admin123"), Hash("user123"))
  }

  /** The seed rows around their two password hashes. */
  function SeedRows(adminHash: string, aliceHash: string): (users: seq<User>)
    ensures WellFormed(users)
    ensures HasUser(users, "admin") && HasUser(users, "alice")
  {
    var users := [User(1, "admin", adminHash, "admin"), User(2, "alice", aliceHash, "user")];
    assert "admin" != "alice" by { assert "admin"[1] != "alice"[1]; }
    assert users[0].username == "admin" && users[1].username == "alice";
    users
  }

  /** The position of the first row named `name`, as `users.find(u => u.username === name)` scans. */
  function FirstMatch(users: seq<User>, name: string): (k: Option<nat>)
    ensures k.None? <==> !HasUser(users, name)
    ensures k.Some? ==> k.value < |users| && users[k.value].username == name
    ensures k.Some? ==> forall j :: 0 <= j < k.value ==> users[j].username != name
  {
    if |users| == 0 then None
    else if users[0].username == name then Some(0)
    else
      match FirstMatch(users[1..], name)
      case None => None
      case Some(k) => Some(k + 1)
  }

  /** The row named `name`, if any; with unique usernames it is the only such row. */
  function Lookup(users: seq<User>, name: string): (found: Option<User>)
    ensures found.None? <==> !HasUser(users, name)
    ensures found.Some? ==> found.value in users && found.value.username == name
    ensures UniqueUsernames(users) ==>
      forall i :: 0 <= i < |users| && users[i].username == name ==> found == Some(users[i])
  {
    match FirstMatch(users, name)
    case Some(k) => Some(users[k])
    case None => None
  }

  /* ---------- POST /api/register ---------- */

  /** The request body `{ username, password, role }`; `None` stands for an absent field. */
  datatype RegisterBody = RegisterBody(username: Option<string>, password: Option<string>, role: Option<string>)

  /** JavaScript truthiness of a string field: present and not empty. */
  predicate Truthy(field: Option<string>)
  {
    field.Some? && field.value != ""
  }

  const DefaultRole := "user"
  const MissingFieldsError := "Username and password required"
  const DuplicateError := "User already exists"
  const RegisteredMessage := "User registered"

  /** The table after a registration, and the reply sent. */
  datatype Registered = Registered(users: seq<User>, reply: Reply)

  /** What `POST /api/register` does to the table and what it answers. */
  function Registration(users: seq<User>, body: RegisterBody): (r: Registered)
    ensures r.reply.Send? && r.reply.status in {400, 409, 201}
    ensures r.reply.status == 400 <==> !Truthy(body.username) || !Truthy(body.password)
    ensures r.reply.status == 409 <==>
      Truthy(body.username) && Truthy(body.password) && HasUser(users, body.username.value)
    ensures r.reply.status != 201 ==> r.users == users && r.reply.body.ErrorJson?
    ensures r.reply.status == 201 ==>
      && Truthy(body.username) && Truthy(body.password)
      && |r.users| == |users| + 1
      && r.users[..|users|] == users
      && r.users[|users|] ==
         User(|users| + 1, body.username.value, Hash(body.password.value), body.role.GetOr(DefaultRole))
      && r.reply.body == RegisteredJson(RegisteredMessage, body.username.value, body.role.GetOr(DefaultRole))
    ensures WellFormed(users) ==> WellFormed(r.users)
  {
    var role := body.role.GetOr(DefaultRole);
    if !Truthy(body.username) || !Truthy(body.password) then
      Registered(users, Send(400, ErrorJson(MissingFieldsError)))
    else if Lookup(users, body.username.value).Some? then
      Registered(users, Send(409, ErrorJson(DuplicateError)))
    else
      var user := User(|users| + 1, body.username.value, Hash(body.password.value), role);
      assert (users + [user])[..|users|] == users;
      Registered(users + [user], Send(201, RegisteredJson(RegisteredMessage, body.username.value, role)))
  }

  /** The module-level `users` array, updated in place by registration. */
  class UserStore {
    var users: seq<User>

    ghost predicate Valid()
      reads this
    {
      WellFormed(users)
    }

    /** The table holds the two seed accounts. */
    constructor ()
      ensures users == Seed() && Valid()
    {
      users := Seed();
    }

    /** A linear scan for the first row named `name`. */
    method Find(name: string) returns (found: Option<User>)
      ensures found == Lookup(users, name)
    {
      var i := 0;
      while i < |users|
        invariant 0 <= i <= |users|
        invariant forall j :: 0 <= j < i ==> users[j].username != name
      {
        if users[i].username == name {
          return Some(users[i]);
        }
        i := i + 1;
      }
      return None;
    }

    /** The register handler: validate, reject a taken name, hash, append. */
    method Register(body: RegisterBody) returns (reply: Reply)
      requires Valid()
      modifies this
      ensures Valid()
      ensures users == Registration(old(users), body).users
      ensures reply == Registration(old(users), body).reply
    {
      var role := body.role.GetOr(DefaultRole);
      if !Truthy(body.username) || !Truthy(body.password) {
        return Send(400, ErrorJson(MissingFieldsError));
      }
      var name := body.username.value;
      var existing := Find(name);
      if existing.Some? {
        return Send(409, ErrorJson(DuplicateError));
      }
      var hashed := Hash(body.password.value);
      users := users + [User(|users| + 1, name, hashed, role)];
      reply := Send(201, RegisteredJson(RegisteredMessage, name, role));
    }
  }

  /* ---------- POST /api/login ---------- */

  /** The request body `{ username, password }`. */
  datatype LoginBody = LoginBody(username: Option<string>, password: Option<string>)

  const InvalidCredentials := Send(401, ErrorJson("Invalid credentials"))

  /** What bcrypt's compare throws when handed an absent password. */
  const IllegalArguments := "Illegal arguments: undefined, string"

  /** The claims a session token for `u` carries: its id, username and role, and not its
      password hash. */
  function ClaimsOf(u: User): Claims
  {
    Claims(u.id, u.username, u.role)
  }

  /** What `POST /api/login` answers; it reads the table and never changes it. */
  function Login(users: seq<User>, body: LoginBody): (r: Reply)
    // an unknown username and a wrong password give the very same reply
    ensures (body.username.None? || !HasUser(users, body.username.value)) ==> r == InvalidCredentials
    ensures body.username.Some? && body.password.Some? && HasUser(users, body.username.value)
            && !Check(body.password.value, Lookup(users, body.username.value).value.password)
            ==> r == InvalidCredentials
    // a known username with no password makes bcrypt throw
    ensures r.Unhandled? <==>
      body.username.Some? && HasUser(users, body.username.value) && body.password.None?
    ensures r.Send? ==> r.status in {200, 401}
    // a known username with a password that checks always gets a token
    ensures body.username.Some? && body.password.Some? && HasUser(users, body.username.value)
            && Check(body.password.value, Lookup(users, body.username.value).value.password)
            ==> r.Send? && r.status == 200
    // success: the token signs exactly the found row's id, username and role, and the reply
    // shows only the username and role
    ensures r.Send? && r.status == 200 ==>
      && body.username.Some? && body.password.Some?
      && var u := Lookup(users, body.username.value);
      && u.Some? && Check(body.password.value, u.value.password)
      && r.body == LoginJson(Sign(SecretKey, ClaimsOf(u.value)), Profile(u.value.username, u.value.role))
  {
    match body.username
    case None => InvalidCredentials
    case Some(name) =>
      match Lookup(users, name)
      case None => InvalidCredentials
      case Some(u) =>
        match body.password
        case None => Unhandled(IllegalArguments)
        case Some(password) =>
          if !Check(password, u.password) then InvalidCredentials
          else Send(200, LoginJson(Sign(SecretKey, ClaimsOf(u)), Profile(u.username, u.role)))
  }
}
