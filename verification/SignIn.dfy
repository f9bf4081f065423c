/**
 Sign-in identifiers: one field that takes a username or an email address, over two unique columns. Case
 folding and white space are the caller's functions (`Folding`), as Unicode decides them; the patterns
 are the source's regular expressions.
 */
module SignIn {
  import opened Wrappers
  import opened Sets

  type UserId = nat

  const MIN_USERNAME_LENGTH := 3
  const MAX_USERNAME_LENGTH := 50
  const MAX_EMAIL_LENGTH := 255
  const MIN_PASSWORD_LENGTH := 8
  const MAX_PASSWORD_BYTES := 72
  const MAX_NAME_LENGTH := 100

  datatype Folding = Folding(lower: char -> char, space: char -> bool)

  /** Lower-casing twice changes nothing more, and neither makes nor unmakes white space. */
  ghost predicate SoundFolding(f: Folding) {
    forall c :: f.lower(f.lower(c)) == f.lower(c) && (f.space(f.lower(c)) <==> f.space(c))
  }

  function TrimLeft(f: Folding, s: string): string {
    if s != "" && f.space(s[0]) then TrimLeft(f, s[1..]) else s
  }

  function TrimRight(f: Folding, s: string): string {
    if s != "" && f.space(s[|s| - 1]) then TrimRight(f, s[..|s| - 1]) else s
  }

  function Lower(f: Folding, s: string): (t: string)
    ensures |t| == |s| && forall i :: 0 <= i < |s| ==> t[i] == f.lower(s[i])
  {
    seq(|s|, i requires 0 <= i < |s| => f.lower(s[i]))
  }

  function Trim(f: Folding, s: string): string {
    TrimRight(f, TrimLeft(f, s))
  }

  /** NormalizeEmail and NormalizeUsername: trim, then lower-case. */
  function Normalize(f: Folding, s: string): string {
    Lower(f, Trim(f, s))
  }

  ghost predicate Trimmed(f: Folding, s: string) {
    s != "" ==> !f.space(s[0]) && !f.space(s[|s| - 1])
  }

  lemma {:induction false} TrimRightTrims(f: Folding, s: string)
    ensures TrimRight(f, s) <= s
    ensures TrimRight(f, s) != "" ==> !f.space(TrimRight(f, s)[|TrimRight(f, s)| - 1])
  {
    if s != "" && f.space(s[|s| - 1]) {
      TrimRightTrims(f, s[..|s| - 1]);
    }
  }

  lemma {:induction false} TrimLeftTrims(f: Folding, s: string)
    ensures TrimLeft(f, s) != "" ==> !f.space(TrimLeft(f, s)[0])
  {
    if s != "" && f.space(s[0]) {
      TrimLeftTrims(f, s[1..]);
    }
  }

  /** A normal form is its own normal form, so what is stored can itself be typed in. */
  lemma NormalizeTwice(f: Folding, s: string)
    requires SoundFolding(f)
    ensures Normalize(f, Normalize(f, s)) == Normalize(f, s)
  {
    TrimLeftTrims(f, s);
    TrimRightTrims(f, TrimLeft(f, s));
    var t := TrimRight(f, TrimLeft(f, s));
    var n := Normalize(f, s);
    assert Trimmed(f, t);
    assert Trimmed(f, n);
    assert TrimLeft(f, n) == n && TrimRight(f, n) == n;
    assert Lower(f, n) == n;
  }

  // ----- The rules -------------------------------------------------------------------------------

  predicate PatternSpace(c: char) {
    c == ' ' || c == '\t' || c == '\n' || c == '\r' || c == 12 as char
  }

  predicate UsernameChar(c: char) {
    'a' <= c <= 'z' || '0' <= c <= '9' || c == '.' || c == '_' || c == '-'
  }

  /** The only '@' at i with something before it, and a '.' at j after it with at least `tail` characters beyond. */
  predicate ShapedAt(s: string, tail: nat, i: int, j: int) {
    && 0 < i < |s| && i + 1 < j < |s| - tail && s[i] == '@' && s[j] == '.'
    && forall k :: 0 <= k < |s| && k != i ==> s[k] != '@' && !PatternSpace(s[k])
  }

  predicate AddressShaped(s: string, tail: nat) {
    exists i, j :: 0 < i < |s| && i < j < |s| && ShapedAt(s, tail, i, j)
  }

  datatype NameField = FirstName | LastName

  datatype RuleError =
    | BadLength | LooksLikeEmail | BadCharacters
    | BadEmail | EmailTooLong
    | PasswordTooShort | PasswordTooLong | PasswordBlank
    | NameMissing(field: NameField) | NameTooLong(field: NameField)

  function ValidateUsername(s: string): Result<(), RuleError> {
    if |s| < MIN_USERNAME_LENGTH || |s| > MAX_USERNAME_LENGTH then Err(BadLength)
    else if AddressShaped(s, 1) then Err(LooksLikeEmail)
    else if !(forall i :: 0 <= i < |s| ==> UsernameChar(s[i])) then Err(BadCharacters)
    else Ok(())
  }

  function ValidateEmail(s: string): Result<(), RuleError> {
    if !AddressShaped(s, 2) then Err(BadEmail)
    else if |s| > MAX_EMAIL_LENGTH then Err(EmailTooLong)
    else Ok(())
  }

  function Utf8Length(s: string): (n: nat)
    ensures |s| <= n <= 4 * |s|
  {
    if s == "" then 0
    else
      var c := s[0] as int;
      (if c < 0x80 then 1 else if c < 0x800 then 2 else if c < 0x1_0000 then 3 else 4) + Utf8Length(s[1..])
  }

  /** At least eight characters, at most the 72 bytes that bcrypt looks at, and not all white space. */
  function ValidatePassword(f: Folding, s: string): Result<(), RuleError> {
    if |s| < MIN_PASSWORD_LENGTH then Err(PasswordTooShort)
    else if Utf8Length(s) > MAX_PASSWORD_BYTES then Err(PasswordTooLong)
    else if Trim(f, s) == "" then Err(PasswordBlank)
    else Ok(())
  }

  function ValidateName(f: Folding, field: NameField, s: string): Result<(), RuleError> {
    if Trim(f, s) == "" then Err(NameMissing(field))
    else if |Trim(f, s)| > MAX_NAME_LENGTH then Err(NameTooLong(field))
    else Ok(())
  }

  /** The look-alike rule refuses nothing the allow-list would let through: it only names the reason. */
  lemma LookAlikeRuleIsImplied(s: string)
    ensures ValidateUsername(s).Ok? <==>
              MIN_USERNAME_LENGTH <= |s| <= MAX_USERNAME_LENGTH && forall i :: 0 <= i < |s| ==> UsernameChar(s[i])
  {
    if AddressShaped(s, 1) {
      var i, j :| 0 < i < |s| && i < j < |s| && ShapedAt(s, 1, i, j);
      assert !UsernameChar(s[i]);
    }
  }

  lemma {:induction false} UsernameIsNoEmail(username: string, email: string)
    requires ValidateUsername(username).Ok? && ValidateEmail(email).Ok?
    ensures username != email
  {
    var i, j :| 0 < i < |email| && i < j < |email| && ShapedAt(email, 2, i, j);
    LookAlikeRuleIsImplied(username);
  }

  // ----- The table -------------------------------------------------------------------------------

  datatype User = User(username: string, email: string, passwordHash: string, firstName: string, lastName: string,
      details: string)

  type Table = map<UserId, User>

  /** The two unique indexes. */
  ghost predicate UniqueColumns(t: Table) {
    && (forall i, j :: i in t && j in t && t[i].username == t[j].username ==> i == j)
    && (forall i, j :: i in t && j in t && t[i].email == t[j].email ==> i == j)
  }

  predicate Collides(t: Table, id: UserId, u: User) {
    exists other :: other in t && other != id && (t[other].username == u.username || t[other].email == u.email)
  }

  function Created(t: Table, id: UserId, u: User): Option<Table> {
    if id in t || Collides(t, id, u) then None else Some(t[id := u])
  }

  /** Writes every column of the row, or nothing when an index refuses it. */
  function Saved(t: Table, id: UserId, u: User): Option<Table> {
    if Collides(t, id, u) then None else Some(t[id := u])
  }

  function WithEmail(t: Table, email: string): set<UserId> {
    set id | id in t && t[id].email == email
  }

  function WithUsername(t: Table, username: string): set<UserId> {
    set id | id in t && t[id].username == username
  }

  /** The query over both columns. */
  function Matches(t: Table, wanted: string): set<UserId> {
    set id | id in t && (t[id].email == wanted || t[id].username == wanted)
  }

  datatype Statement = ReadRow | FindEmail | FindUsername | InsertRow | SaveColumns

  datatype Column = Username | Email

  /** Taken is the look-up's answer and names the column; Conflict is an index's. */
  datatype AccountError = Rule(error: RuleError) | Taken(column: Column) | Conflict | NotFound | Unavailable

  /** One write and its answer: refused by the database, refused by an index, or done. */
  function Written(t: Table, written: Option<Table>, fault: Fault<Statement>, statement: Statement)
    : (Table, Result<(), AccountError>)
  {
    if fault == Refuses(statement) then (t, Err(Unavailable))
    else match written
         case None => (t, Err(Conflict))
         case Some(t') => (t', if fault.LosesAnswer? then Err(Unavailable) else Ok(()))
  }

  class UserRepository {
    const folding: Folding
    var users: Table

    constructor (folding: Folding)
      ensures this.folding == folding && users == map[]
    {
      this.folding, users := folding, map[];
    }

    method Create(id: UserId, u: User, fault: Fault<Statement>) returns (r: Result<(), AccountError>)
      modifies this
      ensures (users, r) == Written(old(users), Created(old(users), id, u), fault, InsertRow)
      ensures old(UniqueColumns(users)) ==> UniqueColumns(users)
    {
      if fault == Refuses(InsertRow) {
        return Err(Unavailable);
      }
      if id in users || Collides(users, id, u) {
        return Err(Conflict);
      }
      users := users[id := u];
      return if fault.LosesAnswer? then Err(Unavailable) else Ok(());
    }

    method Update(id: UserId, u: User, fault: Fault<Statement>) returns (r: Result<(), AccountError>)
      modifies this
      ensures (users, r) == Written(old(users), Saved(old(users), id, u), fault, SaveColumns)
      ensures old(UniqueColumns(users)) ==> UniqueColumns(users)
    {
      if fault == Refuses(SaveColumns) {
        return Err(Unavailable);
      }
      if Collides(users, id, u) {
        return Err(Conflict);
      }
      users := users[id := u];
      return if fault.LosesAnswer? then Err(Unavailable) else Ok(());
    }

    /** The first matching row by id, or none. */
    method FindByIdentifier(identifier: string) returns (found: Option<UserId>)
      ensures found.None? <==> Matches(users, Normalize(folding, identifier)) == {}
      ensures found.Some? ==> found.value in Matches(users, Normalize(folding, identifier))
      ensures found.Some? ==> forall id :: id in Matches(users, Normalize(folding, identifier)) ==> found.value <= id
    {
      found := First(Matches(users, Normalize(folding, identifier)));
    }

    method FindByUsername(username: string) returns (found: Option<UserId>)
      ensures found.None? <==> WithUsername(users, Normalize(folding, username)) == {}
      ensures found.Some? ==> found.value in WithUsername(users, Normalize(folding, username))
    {
      found := First(WithUsername(users, Normalize(folding, username)));
    }

    method FindByEmail(email: string) returns (found: Option<UserId>)
      ensures found.None? <==> WithEmail(users, Normalize(folding, email)) == {}
      ensures found.Some? ==> found.value in WithEmail(users, Normalize(folding, email))
    {
      found := First(WithEmail(users, Normalize(folding, email)));
    }
  }

  method First(rows: set<UserId>) returns (first: Option<UserId>)
    ensures first.None? <==> rows == {}
    ensures first.Some? ==> first.value in rows && forall id :: id in rows ==> first.value <= id
  {
    if rows == {} {
      return None;
    }
    var least := Pick(rows);
    var rest := rows - {least};
    while rest != {}
      invariant rest <= rows && least in rows
      invariant forall id :: id in rows ==> id in rest || least <= id
      decreases rest
    {
      var id := Pick(rest);
      if id < least {
        least := id;
      }
      rest := rest - {id};
    }
    return Some(least);
  }

  // ----- Registering and renaming ------------------------------------------------------------------

  datatype Request = Request(username: string, email: string, password: string, firstName: string, lastName: string)

  /** The first rule a registration breaks, in the order they are checked. */
  function BrokenRule(f: Folding, q: Request): Option<RuleError> {
    match ValidateUsername(Normalize(f, q.username))
    case Err(e) => Some(e)
    case Ok(_) =>
      match ValidateEmail(Normalize(f, q.email))
      case Err(e) => Some(e)
      case Ok(_) =>
        match ValidatePassword(f, q.password)
        case Err(e) => Some(e)
        case Ok(_) =>
          match ValidateName(f, FirstName, q.firstName)
          case Err(e) => Some(e)
          case Ok(_) =>
            match ValidateName(f, LastName, q.lastName)
            case Err(e) => Some(e)
            case Ok(_) => None
  }

  function NewUser(f: Folding, q: Request, hash: string): User {
    User(Normalize(f, q.username), Normalize(f, q.email), hash, q.firstName, q.lastName, "")
  }

  /** Register: the rules, a look-up for each column, the hash, the insert. */
  function RegisterAttempt(f: Folding, t: Table, id: UserId, q: Request, hash: Option<string>,
                           fault: Fault<Statement>)
    : (Table, Result<(), AccountError>)
  {
    if BrokenRule(f, q).Some? then (t, Err(Rule(BrokenRule(f, q).value)))
    else if fault == Refuses(FindEmail) then (t, Err(Unavailable))
    else if WithEmail(t, Normalize(f, q.email)) != {} then (t, Err(Taken(Email)))
    else if fault == Refuses(FindUsername) then (t, Err(Unavailable))
    else if WithUsername(t, Normalize(f, q.username)) != {} then (t, Err(Taken(Username)))
    else if hash.None? then (t, Err(Unavailable))
    else Written(t, Created(t, id, NewUser(f, q, hash.value)), fault, InsertRow)
  }

  /**
   The look-ups only choose which conflict to name: with the database sound, a registration succeeds exactly
   when the rules hold and the unique indexes take the row, and then the row is all that is new.
   */
  lemma LookUpsOnlyNameTheConflict(f: Folding, t: Table, id: UserId, q: Request, hash: string)
    requires id !in t
    ensures var (t', r) := RegisterAttempt(f, t, id, q, Some(hash), NoFault);
            && (r.Ok? <==> BrokenRule(f, q).None? && Created(t, id, NewUser(f, q, hash)).Some?)
            && (r.Ok? ==> t' == t[id := NewUser(f, q, hash)])
            && (r.Err? ==> t' == t && (BrokenRule(f, q).Some? <==> r.error.Rule?) && (r.error.Rule? || r.error.Taken?))
            && (r == Err(Taken(Email)) <==>
                  BrokenRule(f, q).None? && exists other :: other in t && t[other].email == Normalize(f, q.email))
            && (r == Err(Taken(Username)) ==>
                  exists other :: other in t && t[other].username == Normalize(f, q.username))
  {
    hide Normalize, BrokenRule;
    var u := NewUser(f, q, hash);
    if Collides(t, id, u) {
      var other :| other in t && other != id && (t[other].username == u.username || t[other].email == u.email);
      assert other in WithEmail(t, u.email) || other in WithUsername(t, u.username);
    }
    assert forall other :: other in WithEmail(t, u.email) + WithUsername(t, u.username) ==> other in t && other != id;
    assert WithEmail(t, u.email) != {} <==> exists other :: other in t && t[other].email == u.email by {
      assert forall other :: other in t && t[other].email == u.email ==> other in WithEmail(t, u.email);
    }
    assert WithUsername(t, u.username) != {} ==> exists other :: other in WithUsername(t, u.username);
  }

  /** None leaves a column as it was read. */
  datatype Change = Change(username: Option<string>, firstName: Option<string>, lastName: Option<string>)

  function BrokenNameRule(f: Folding, ch: Change): Option<RuleError> {
    if ch.firstName.Some? && ValidateName(f, FirstName, ch.firstName.value).Err? then
        Some(ValidateName(f, FirstName, ch.firstName.value).error)
    else if ch.lastName.Some? && ValidateName(f, LastName, ch.lastName.value).Err? then
        Some(ValidateName(f, LastName, ch.lastName.value).error)
    else None
  }

  function Renamed(f: Folding, row: User, ch: Change): User {
    row.(username := if ch.username.Some? then Normalize(f, ch.username.value) else row.username,
         firstName := if ch.firstName.Some? then ch.firstName.value else row.firstName,
         lastName := if ch.lastName.Some? then ch.lastName.value else row.lastName)
  }

  /** What the username part of a change makes of the request before anything is saved. */
  function UsernameRefusal(f: Folding, t: Table, row: User, ch: Change, fault: Fault<Statement>): Option<AccountError> {
    if ch.username.None? then None
    else
      var name := Normalize(f, ch.username.value);
      match ValidateUsername(name)
      case Err(e) => Some(Rule(e))
      case Ok(_) =>
        if name == row.username then None
        else if fault == Refuses(FindUsername) then Some(Unavailable)
        else if WithUsername(t, name) != {} then Some(Taken(Username))
        else None
  }

  function ProfileAttempt(f: Folding, t: Table, id: UserId, ch: Change, fault: Fault<Statement>)
    : (Table, Result<(), AccountError>)
  {
    if fault == Refuses(ReadRow) then (t, Err(Unavailable))
    else if id !in t then (t, Err(NotFound))
    else if UsernameRefusal(f, t, t[id], ch, fault).Some? then (t, Err(UsernameRefusal(f, t, t[id], ch, fault).value))
    else if BrokenNameRule(f, ch).Some? then (t, Err(Rule(BrokenNameRule(f, ch).value)))
    else Written(t, Saved(t, id, Renamed(f, t[id], ch)), fault, SaveColumns)
  }

  class AccountService {
    const users: UserRepository

    constructor (users: UserRepository)
      ensures this.users == users
    {
      this.users := users;
    }

    /** `hash` is what the password hasher makes of the password, None when it fails. */
    method Register(id: UserId, q: Request, hash: Option<string>, fault: Fault<Statement>)
        returns (r: Result<(), AccountError>)
      requires SoundFolding(users.folding)
      modifies users
      ensures (users.users, r) == RegisterAttempt(users.folding, old(users.users), id, q, hash, fault)
      ensures old(UniqueColumns(users.users)) ==> UniqueColumns(users.users)
    {
      var name, address := Normalize(users.folding, q.username), Normalize(users.folding, q.email);
      NormalizeTwice(users.folding, q.username);
      NormalizeTwice(users.folding, q.email);
      var broken := CheckRules(users.folding, q, name, address);
      if broken.Some? {
        return Err(Rule(broken.value));
      }
      if fault == Refuses(FindEmail) {
        return Err(Unavailable);
      }
      var existing := users.FindByEmail(address);
      if existing.Some? {
        return Err(Taken(Email));
      }
      if fault == Refuses(FindUsername) {
        return Err(Unavailable);
      }
      existing := users.FindByUsername(name);
      if existing.Some? {
        return Err(Taken(Username));
      }
      if hash.None? {
        return Err(Unavailable);
      }
      r := users.Create(id, User(name, address, hash.value, q.firstName, q.lastName, ""), fault);
    }

    method UpdateProfile(id: UserId, ch: Change, fault: Fault<Statement>) returns (r: Result<(), AccountError>)
      requires SoundFolding(users.folding)
      modifies users
      ensures (users.users, r) == ProfileAttempt(users.folding, old(users.users), id, ch, fault)
      ensures old(UniqueColumns(users.users)) ==> UniqueColumns(users.users)
    {
      if fault == Refuses(ReadRow) {
        return Err(Unavailable);
      }
      if id !in users.users {
        return Err(NotFound);
      }
      var user := users.users[id];
      if ch.username.Some? {
        var name := Normalize(users.folding, ch.username.value);
        NormalizeTwice(users.folding, ch.username.value);
        var valid := ValidateUsername(name);
        if valid.Err? {
          return Err(Rule(valid.error));
        }
        if name != user.username {
          if fault == Refuses(FindUsername) {
            return Err(Unavailable);
          }
          var existing := users.FindByUsername(name);
          if existing.Some? {
            return Err(Taken(Username));
          }
          user := user.(username := name);
        }
      }
      if ch.firstName.Some? {
        var valid := ValidateName(users.folding, FirstName, ch.firstName.value);
        if valid.Err? {
          return Err(Rule(valid.error));
        }
        user := user.(firstName := ch.firstName.value);
      }
      if ch.lastName.Some? {
        var valid := ValidateName(users.folding, LastName, ch.lastName.value);
        if valid.Err? {
          return Err(Rule(valid.error));
        }
        user := user.(lastName := ch.lastName.value);
      }
      r := users.Update(id, user, fault);
    }
  }

  method CheckRules(f: Folding, q: Request, name: string, address: string) returns (broken: Option<RuleError>)
    requires name == Normalize(f, q.username) && address == Normalize(f, q.email)
    ensures broken == BrokenRule(f, q)
  {
    var valid := ValidateUsername(name);
    if valid.Err? {
      return Some(valid.error);
    }
    valid := ValidateEmail(address);
    if valid.Err? {
      return Some(valid.error);
    }
    valid := ValidatePassword(f, q.password);
    if valid.Err? {
      return Some(valid.error);
    }
    valid := ValidateName(f, FirstName, q.firstName);
    if valid.Err? {
      return Some(valid.error);
    }
    valid := ValidateName(f, LastName, q.lastName);
    return if valid.Err? then Some(valid.error) else None;
  }
}
