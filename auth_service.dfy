/**
 * The mock authentication service: an in-memory user table with login
 * lookup, duplicate-checked registration, logout and `me`. Network delays are
 * not modelled; the clock reading used in tokens is a parameter.
 */
module AuthService {
  import opened Wrappers
  import opened Text

  /** A row of the user table, password included. */
  datatype StoredUser = StoredUser(id: string, fullName: string, email: string, password: string)

  /** The user record the service hands out: the row without its password. */
  datatype PublicUser = PublicUser(id: string, fullName: string, email: string)

  /** The `data` of a successful login or registration. */
  datatype AuthData = AuthData(user: PublicUser, accessToken: string)

  const InvalidCredentials: string := "Invalid email or password"
  const UserAlreadyExists: string := "User already exists with this email"
  const LoggedOutMessage: string := "Logged out successfully"
  const TokenPrefix: string := "mock_token_"

  /** The two rows the table starts with. */
  function SeedUsers(): (users: seq<StoredUser>)
    ensures IdsSequential(users)
  {
    [ StoredUser("1", "John Doe", "john@example.com", "123456"),
      StoredUser("2", "Jane Smith", "jane@example.com", "123456") ]
  }

  function ToPublic(u: StoredUser): PublicUser {
    PublicUser(u.id, u.fullName, u.email)
  }

  /** Row i has id "i+1": the shape registration keeps. */
  ghost predicate IdsSequential(users: seq<StoredUser>) {
    forall i :: 0 <= i < |users| ==> users[i].id == NatToString(i + 1)
  }

  /** With ids "1".."n" no two rows share an id. */
  lemma IdsUnique(users: seq<StoredUser>, i: nat, j: nat)
    requires IdsSequential(users)
    requires i < |users| && j < |users| && i != j
    ensures users[i].id != users[j].id
  {
    NatToStringInjective(i + 1, j + 1);
  }

  /** `generateToken(userId)` with `Date.now()` passed in as `now`. */
  function GenerateToken(userId: string, now: nat): (token: string)
    ensures StartsWith(token, TokenPrefix)
    ensures token[|TokenPrefix|..] == userId + "_" + NatToString(now)
  {
    TokenPrefix + userId + "_" + NatToString(now)
  }

  /** Splitting a token on '_' recovers the user id and the time stamp. */
  lemma TokenFields(userId: string, now: nat)
    requires '_' !in userId
    ensures Split(GenerateToken(userId, now), '_') == ["mock", "token", userId, NatToString(now)]
  {
    var ts := NatToString(now);
    assert '_' !in ts by {
      forall k | 0 <= k < |ts| ensures ts[k] != '_' { assert IsDigit(ts[k]); }
    }
    var r3 := userId + "_" + ts;
    SplitAfterPlain(userId, '_', ts);
    SplitPlain(ts, '_');
    assert Split(r3, '_') == [userId, ts];
    var r2 := "token" + "_" + r3;
    SplitAfterPlain("token", '_', r3);
    assert Split(r2, '_') == ["token", userId, ts];
    assert GenerateToken(userId, now) == "mock" + "_" + r2;
    SplitAfterPlain("mock", '_', r2);
  }

  /** The position of the first row with this email and password (`mockUsers.find`). */
  function FindByCredentials(users: seq<StoredUser>, email: string, password: string): (k: Option<nat>)
    ensures k.Some? ==> k.value < |users| && users[k.value].email == email && users[k.value].password == password
    ensures k.Some? ==> forall j :: 0 <= j < k.value ==> !(users[j].email == email && users[j].password == password)
    ensures k.None? ==> forall j :: 0 <= j < |users| ==> !(users[j].email == email && users[j].password == password)
  {
    if |users| == 0 then None
    else if users[0].email == email && users[0].password == password then Some(0)
    else
      match FindByCredentials(users[1..], email, password)
      case None => None
      case Some(k) => Some(k + 1)
  }

  /** Whether some row already has this email. */
  predicate EmailTaken(users: seq<StoredUser>, email: string) {
    exists j :: 0 <= j < |users| && users[j].email == email
  }

  class MockAuthService {
    /** The module-level `mockUsers` array. */
    var users: seq<StoredUser>

    ghost predicate Valid()
      reads this
    {
      |users| >= 1 && IdsSequential(users)
    }

    constructor ()
      ensures Valid() && users == SeedUsers()
    {
      users := SeedUsers();
    }

    /**
     * `authService.login`: succeeds exactly when some row has both the email and
     * the password, and then hands out the first such row without its password.
     */
    function Login(email: string, password: string, now: nat): (r: Result<AuthData, string>)
      reads this
      ensures r.Ok? <==> exists j :: 0 <= j < |users| && users[j].email == email && users[j].password == password
      ensures r.Err? ==> r.error == InvalidCredentials
      ensures r.Ok? ==>
        exists j :: (0 <= j < |users| && users[j].email == email && users[j].password == password
          && (forall i :: 0 <= i < j ==> !(users[i].email == email && users[i].password == password))
          && r.value == AuthData(ToPublic(users[j]), GenerateToken(users[j].id, now)))
    {
      match FindByCredentials(users, email, password)
      case None => Err(InvalidCredentials)
      case Some(k) => Ok(AuthData(ToPublic(users[k]), GenerateToken(users[k].id, now)))
    }

    /**
     * `authService.register`: refuses a taken email and leaves the table alone;
     * otherwise appends one row whose id is the decimal of the old length + 1.
     */
    method Register(fullName: string, email: string, password: string, now: nat) returns (r: Result<AuthData, string>)
      requires Valid()
      modifies this
      ensures Valid()
      ensures EmailTaken(old(users), email) ==> r == Err(UserAlreadyExists) && users == old(users)
      ensures !EmailTaken(old(users), email) ==>
        var id := NatToString(|old(users)| + 1);
        && users == old(users) + [StoredUser(id, fullName, email, password)]
        && r == Ok(AuthData(PublicUser(id, fullName, email), GenerateToken(id, now)))
    {
      var j := 0;
      while j < |users|
        invariant 0 <= j <= |users|
        invariant forall i :: 0 <= i < j ==> users[i].email != email
      {
        if users[j].email == email {
          return Err(UserAlreadyExists);
        }
        j := j + 1;
      }
      var id := NatToString(|users| + 1);
      users := users + [StoredUser(id, fullName, email, password)];
      r := Ok(AuthData(PublicUser(id, fullName, email), GenerateToken(id, now)));
    }

    /** `authService.logout`: always answers with the same message; reads no state. */
    function Logout(): (message: string)
      ensures message == LoggedOutMessage
    {
      LoggedOutMessage
    }

    /** `authService.me`: the first row of the table, whoever asks. */
    function Me(): (u: PublicUser)
      requires Valid()
      reads this
      ensures u == ToPublic(users[0]) && u.id == "1"
    {
      ToPublic(users[0])
    }
  }
}
