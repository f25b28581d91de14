/** The account registry (lib/auth.ts): a table of accounts keyed by the
    lower-cased email, kept in one storage slot, and a second slot holding
    the logged-in user. */
module Auth {
  import opened Types
  import opened Text

  datatype Account = Account(email: string, password: string)

  /** The `skyverse_users` slot: absent (or the empty string), text that
      `JSON.parse` rejects, or a parsed table. */
  datatype UsersSlot = NoTable | CorruptTable | Table(accounts: map<string, Account>)

  /** The `skyverse_current_user` slot. */
  datatype UserSlot = NoUser | CorruptUser | Holds(user: User)

  /** A register outcome; `Thrown` is the uncaught `JSON.parse` exception. */
  datatype Outcome = Succeeded | Failed(error: string) | Thrown

  datatype LoginOutcome = LoggedIn(user: User) | LoginFailed(error: string) | LoginThrown

  const RequiredMessage := "Email and password are required"
  const FormatMessage := "Invalid email format"
  const ShortPasswordMessage := "Password must be at least 6 characters"
  const TakenMessage := "This email is already registered"
  const BadCredentialsMessage := "Invalid email or password"
  const MinPasswordLength := 6

  // ---------------------------------------------------------------------
  // The email check

  /** The characters the regular-expression class `\s` matches. */
  predicate IsSpace(c: char) {
    var n := c as int;
    n == 9 || n == 10 || n == 11 || n == 12 || n == 13 || n == 32 || n == 0xA0 || n == 0x1680 ||
    (0x2000 <= n <= 0x200A) || n == 0x2028 || n == 0x2029 || n == 0x202F || n == 0x205F ||
    n == 0x3000 || n == 0xFEFF
  }

  /** A character of the class `[^\s@]`. */
  predicate Plain(c: char) {
    !IsSpace(c) && c != '@'
  }

  predicate AllPlain(s: string) {
    forall k :: 0 <= k < |s| ==> Plain(s[k])
  }

  /** The language of `^[^\s@]+@[^\s@]+\.[^\s@]+$`, read off the pattern:
      a non-empty plain local part, '@', and a plain domain with a '.'
      that has a character on each side. */
  ghost predicate MatchesEmailPattern(s: string) {
    exists at, dot :: (0 < at && at + 1 < dot && dot + 1 < |s| &&
      s[at] == '@' && s[dot] == '.' &&
      AllPlain(s[..at]) && AllPlain(s[at + 1..dot]) && AllPlain(s[dot + 1..]))
  }

  /** The position of the first `c` in `s`. */
  function IndexOf(s: string, c: char): (r: Option<nat>)
    ensures r.Some? ==> r.value < |s| && s[r.value] == c && forall k :: 0 <= k < r.value ==> s[k] != c
    ensures r.None? ==> forall k :: 0 <= k < |s| ==> s[k] != c
  {
    if |s| == 0 then None
    else if s[0] == c then Some(0)
    else
      match IndexOf(s[1..], c)
      case None => None
      case Some(i) => Some(i + 1)
  }

  /** Whether `d` has a '.' strictly inside it, scanning from the left. */
  function HasInnerDot(d: string): bool {
    |d| >= 3 && (d[1] == '.' || HasInnerDot(d[1..]))
  }

  /** The check as a left-to-right scan: split at the first '@', then test the two sides. */
  function ValidEmail(s: string): (r: bool)
    ensures r ==> |s| >= 5 && Plain(s[0]) && Plain(s[|s| - 1])
  {
    match IndexOf(s, '@')
    case None => false
    case Some(at) =>
      at > 0 && AllPlain(s[..at]) && AllPlain(s[at + 1..]) && HasInnerDot(s[at + 1..])
  }

  lemma {:induction false} HasInnerDotIff(d: string)
    ensures HasInnerDot(d) <==> exists k :: 0 < k < |d| - 1 && d[k] == '.'
  {
    if |d| >= 3 {
      HasInnerDotIff(d[1..]);
      if HasInnerDot(d[1..]) {
        var k :| 0 < k < |d[1..]| - 1 && d[1..][k] == '.';
        assert d[k + 1] == '.';
      }
      if d[1] != '.' && exists k :: 0 < k < |d| - 1 && d[k] == '.' {
        var k :| 0 < k < |d| - 1 && d[k] == '.';
        assert d[1..][k - 1] == '.';
      }
    }
  }

  lemma AllPlainSplit(s: string, dot: nat)
    requires dot < |s| && s[dot] == '.'
    ensures AllPlain(s) <==> AllPlain(s[..dot]) && AllPlain(s[dot + 1..])
  {
    if AllPlain(s[..dot]) && AllPlain(s[dot + 1..]) {
      forall k | 0 <= k < |s| ensures Plain(s[k]) {
        if k < dot {
          assert s[k] == s[..dot][k];
        } else if k > dot {
          assert s[k] == s[dot + 1..][k - dot - 1];
        }
      }
    }
  }

  /** The scan accepts exactly the language of the pattern. */
  lemma ValidEmailMatchesPattern(s: string)
    ensures ValidEmail(s) <==> MatchesEmailPattern(s)
  {
    if ValidEmail(s) {
      ScanAcceptedMatches(s);
    }
    if MatchesEmailPattern(s) {
      var at, dot :| 0 < at && at + 1 < dot && dot + 1 < |s| &&
        s[at] == '@' && s[dot] == '.' &&
        AllPlain(s[..at]) && AllPlain(s[at + 1..dot]) && AllPlain(s[dot + 1..]);
      MatchAccepted(s, at, dot);
    }
  }

  lemma ScanAcceptedMatches(s: string)
    requires ValidEmail(s)
    ensures MatchesEmailPattern(s)
  {
    var at := IndexOf(s, '@').value;
    var d := s[at + 1..];
    HasInnerDotIff(d);
    var k :| 0 < k < |d| - 1 && d[k] == '.';
    var dot := at + 1 + k;
    AllPlainSplit(d, k);
    assert d[..k] == s[at + 1..dot];
    assert d[k + 1..] == s[dot + 1..];
    assert s[dot] == '.';
  }

  lemma MatchAccepted(s: string, at: nat, dot: nat)
    requires 0 < at && at + 1 < dot && dot + 1 < |s| && s[at] == '@' && s[dot] == '.'
    requires AllPlain(s[..at]) && AllPlain(s[at + 1..dot]) && AllPlain(s[dot + 1..])
    ensures ValidEmail(s)
  {
    forall k | 0 <= k < at ensures s[k] != '@' {
      assert s[k] == s[..at][k];
    }
    FirstIndex(s, '@', at);
    var d := s[at + 1..];
    var k := dot - at - 1;
    assert d[k] == '.';
    assert d[..k] == s[at + 1..dot];
    assert d[k + 1..] == s[dot + 1..];
    AllPlainSplit(d, k);
    HasInnerDotIff(d);
  }

  lemma {:induction false} FirstIndex(s: string, c: char, i: nat)
    requires i < |s| && s[i] == c && forall k :: 0 <= k < i ==> s[k] != c
    ensures IndexOf(s, c) == Some(i)
  {
    if i > 0 {
      FirstIndex(s[1..], c, i - 1);
    }
  }

  /** An accepted email has no whitespace and exactly one '@', with a
      non-empty part before it. */
  lemma ValidEmailShape(s: string)
    requires ValidEmail(s)
    ensures forall k :: 0 <= k < |s| ==> !IsSpace(s[k])
    ensures exists at :: (0 < at < |s| && s[at] == '@' &&
      forall k :: 0 <= k < |s| && s[k] == '@' ==> k == at)
  {
    var at := IndexOf(s, '@').value;
    forall k | 0 <= k < |s| ensures !IsSpace(s[k]) && (s[k] == '@' ==> k == at) {
      if k < at {
        assert s[k] == s[..at][k];
      } else if k > at {
        assert s[k] == s[at + 1..][k - at - 1];
      }
    }
  }

  // ---------------------------------------------------------------------
  // Register, login and the sample table

  /** `JSON.parse(getItem(...) || "{}")`: None when the parse throws. */
  function TableOf(slot: UsersSlot): (t: Option<map<string, Account>>)
    ensures slot.NoTable? ==> t == Some(map[])
    ensures slot.CorruptTable? ==> t.None?
    ensures slot.Table? ==> t == Some(slot.accounts)
  {
    match slot
    case NoTable => Some(map[])
    case CorruptTable => None
    case Table(accounts) => Some(accounts)
  }

  datatype RegisterStep = RegisterStep(outcome: Outcome, users: UsersSlot)

  /** `register`: the checks in source order, then the write-back. */
  function RegisterResult(users: UsersSlot, email: string, password: string): (r: RegisterStep)
    ensures !r.outcome.Succeeded? ==> r.users == users
    ensures r.outcome.Succeeded? ==>
      ValidEmail(email) && |password| >= MinPasswordLength && users != CorruptTable &&
      (users.Table? ==> Lower(email) !in users.accounts) &&
      r.users.Table? && Lower(email) in r.users.accounts && r.users.accounts[Lower(email)] == Account(email, password)
    ensures r.outcome.Thrown? <==>
      users.CorruptTable? && email != "" && ValidEmail(email) && |password| >= MinPasswordLength
  {
    if email == "" || password == "" then RegisterStep(Failed(RequiredMessage), users)
    else if !ValidEmail(email) then RegisterStep(Failed(FormatMessage), users)
    else if |password| < MinPasswordLength then RegisterStep(Failed(ShortPasswordMessage), users)
    else
      match TableOf(users)
      case None => RegisterStep(Thrown, users)
      case Some(table) =>
        var key := Lower(email);
        if key in table then RegisterStep(Failed(TakenMessage), users)
        else RegisterStep(Succeeded, Table(table[key := Account(email, password)]))
  }

  /** `login`; the fresh user id and the login time are parameters. */
  function LoginResult(users: UsersSlot, email: string, password: string, id: string, now: string): (r: LoginOutcome)
    ensures r.LoggedIn? ==>
      users.Table? && Lower(email) in users.accounts && users.accounts[Lower(email)].password == password &&
      r.user == User(id, users.accounts[Lower(email)].email, now)
    ensures r.LoginThrown? <==> users.CorruptTable? && email != "" && password != ""
  {
    if email == "" || password == "" then LoginFailed(RequiredMessage)
    else
      match TableOf(users)
      case None => LoginThrown
      case Some(table) =>
        var key := Lower(email);
        if key !in table || table[key].password != password then LoginFailed(BadCredentialsMessage)
        else LoggedIn(User(id, table[key].email, now))
  }

  const DemoAccount := Account("demo@skyverse.com", "Demo123!")

  /** `initializeSampleUsers`: seeds the table only when none is stored. */
  function Seeded(users: UsersSlot): (r: UsersSlot)
    ensures users.NoTable? ==> r == Table(map["demo" := DemoAccount])
    ensures !users.NoTable? ==> r == users
  {
    if users.NoTable? then Table(map["demo" := DemoAccount]) else users
  }

  /** `getCurrentUser`: an absent or unparsable slot gives null. */
  function CurrentUserOf(slot: UserSlot): (r: Option<User>)
    ensures r.Some? <==> slot.Holds?
    ensures slot.Holds? ==> r.value == slot.user
  {
    if slot.Holds? then Some(slot.user) else None
  }

  class AuthStore {
    var users: UsersSlot
    var current: UserSlot

    constructor ()
      ensures users == NoTable && current == NoUser
    {
      users := NoTable;
      current := NoUser;
    }

    method InitializeSampleUsers()
      modifies this
      ensures users == Seeded(old(users)) && current == old(current)
    {
      if users.NoTable? {
        users := Table(map["demo" := DemoAccount]);
      }
    }

    method Register(email: string, password: string) returns (outcome: Outcome)
      modifies this
      ensures var step := RegisterResult(old(users), email, password);
        outcome == step.outcome && users == step.users
      ensures current == old(current)
    {
      var step := RegisterResult(users, email, password);
      outcome := step.outcome;
      users := step.users;
    }

    method Login(email: string, password: string, id: string, now: string) returns (outcome: LoginOutcome)
      modifies this
      ensures outcome == LoginResult(old(users), email, password, id, now)
      ensures outcome.LoggedIn? ==> current == Holds(outcome.user)
      ensures !outcome.LoggedIn? ==> current == old(current)
      ensures users == old(users)
    {
      outcome := LoginResult(users, email, password, id, now);
      if outcome.LoggedIn? {
        current := Holds(outcome.user);
      }
    }

    method Logout()
      modifies this
      ensures current == NoUser && users == old(users)
      ensures CurrentUserOf(current).None?
    {
      current := NoUser;
    }

    function CurrentUser(): (r: Option<User>)
      reads this
      ensures r.Some? <==> current.Holds?
    {
      CurrentUserOf(current)
    }

    predicate IsAuthenticated()
      reads this
      ensures IsAuthenticated() <==> current.Holds?
    {
      CurrentUser().Some?
    }
  }

  // ---------------------------------------------------------------------
  // Properties

  /** The checks run in source order: missing input first, then the
      format, then the password length, then the table. Every failure
      leaves the table as it was. */
  lemma RegisterErrorOrder(users: UsersSlot, email: string, password: string)
    ensures var step := RegisterResult(users, email, password);
      (email == "" || password == "" ==> step.outcome == Failed(RequiredMessage)) &&
      (email != "" && password != "" && !MatchesEmailPattern(email) ==> step.outcome == Failed(FormatMessage)) &&
      (email != "" && password != "" && MatchesEmailPattern(email) && |password| < 6 ==>
        step.outcome == Failed(ShortPasswordMessage)) &&
      (!step.outcome.Succeeded? ==> step.users == users)
  {
    ValidEmailMatchesPattern(email);
  }

  /** A taken key is refused; a free key is added with the email as typed,
      and every other key keeps its account. */
  lemma RegisterTable(table: map<string, Account>, email: string, password: string)
    requires email != "" && ValidEmail(email) && |password| >= MinPasswordLength
    ensures RegisterResult(NoTable, email, password) == RegisterResult(Table(map[]), email, password)
    ensures var step := RegisterResult(Table(table), email, password);
      (Lower(email) in table ==> step == RegisterStep(Failed(TakenMessage), Table(table))) &&
      (Lower(email) !in table ==>
        step.outcome == Succeeded && step.users.Table? &&
        step.users.accounts.Keys == table.Keys + {Lower(email)} &&
        step.users.accounts[Lower(email)] == Account(email, password) &&
        forall k :: k in table ==> step.users.accounts[k] == table[k])
  {
    assert |password| > 0;
  }

  /** Login succeeds exactly when both inputs are non-empty and the
      lower-cased email keys an account with that password. */
  lemma LoginSucceedsIff(table: map<string, Account>, email: string, password: string, id: string, now: string)
    ensures LoginResult(NoTable, email, password, id, now) == LoginResult(Table(map[]), email, password, id, now)
    ensures LoginResult(Table(table), email, password, id, now).LoggedIn? <==>
      email != "" && password != "" && Lower(email) in table && table[Lower(email)].password == password
    ensures LoginResult(Table(table), email, password, id, now).LoggedIn? ==>
      LoginResult(Table(table), email, password, id, now).user == User(id, table[Lower(email)].email, now)
  {
  }

  /** Registering and then logging in with any case variant of the email
      succeeds, and the logged-in user carries the email as registered. */
  lemma RegisterThenLogin(users: UsersSlot, email: string, variant: string, password: string, id: string, now: string)
    requires RegisterResult(users, email, password).outcome.Succeeded?
    requires Lower(variant) == Lower(email)
    ensures LoginResult(RegisterResult(users, email, password).users, variant, password, id, now) ==
      LoggedIn(User(id, email, now))
  {
    assert |variant| == |Lower(variant)| == |email|;
  }

  /** Seeding is idempotent and writes nothing over an existing (even unreadable) table. */
  lemma SeedIdempotent(users: UsersSlot)
    ensures Seeded(Seeded(users)) == Seeded(users)
    ensures users.Table? || users.CorruptTable? ==> Seeded(users) == users
  {
  }

  /** The sample account is keyed "demo", not by its email: logging in with
      its email is refused, logging in with "demo" itself succeeds. */
  lemma DemoKeyedByName(id: string, now: string)
    ensures LoginResult(Seeded(NoTable), "demo@skyverse.com", "Demo123!", id, now) == LoginFailed(BadCredentialsMessage)
    ensures LoginResult(Seeded(NoTable), "demo", "Demo123!", id, now) == LoggedIn(User(id, "demo@skyverse.com", now))
  {
    assert |Lower("demo@skyverse.com")| == 17;
    assert Lower("demo") == "demo";
  }

  /** The seed as the login page advertises it: the demo account keyed by
      its lower-cased email, like every registered account. */
  function SeededByEmail(users: UsersSlot): (r: UsersSlot)
    ensures users.NoTable? ==> r == Table(map[Lower(DemoAccount.email) := DemoAccount])
    ensures !users.NoTable? ==> r == users
  {
    if users.NoTable? then Table(map[Lower(DemoAccount.email) := DemoAccount]) else users
  }

  /** With the seed keyed by email, the advertised demo credentials log in,
      in any letter case. */
  lemma AdvertisedDemoLogin(variant: string, id: string, now: string)
    requires Lower(variant) == Lower(DemoAccount.email)
    ensures LoginResult(SeededByEmail(NoTable), variant, DemoAccount.password, id, now) ==
      LoggedIn(User(id, DemoAccount.email, now))
  {
    assert |variant| == |Lower(variant)| == |DemoAccount.email|;
  }
}
