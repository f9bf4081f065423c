/**
 Every reachable users table: registrations, seeded accounts, and whole-row saves of rows that may have
 been read long before, in any order. A save that an index refuses leaves the table as it was.
 */
module SignInRuns {
  import opened Wrappers
  import opened SignIn
  import opened SignInRules

  datatype State = State(users: Table, seen: set<(UserId, User)>)

  datatype Event =
    | Insert(id: UserId, q: Request, hash: string)   // a registration or the administrator's seeder, past its look-ups
    | Read(id: UserId)
    // a row read earlier, however stale
    | Save(id: UserId, row: User, ch: Change, passwordHash: string, details: string)

  const EMPTY := State(map[], {})

  function Next(f: Folding, s: State, e: Event): State {
    match e
    case Insert(id, q, hash) =>
      if BrokenRule(f, q).Some? then s
      else (match Created(s.users, id, NewUser(f, q, hash))
            case None => s
            case Some(users) => s.(users := users))
    case Read(id) => if id in s.users then s.(seen := s.seen + {(id, s.users[id])}) else s
    case Save(id, row, ch, passwordHash, details) =>
      if (id, row) !in s.seen || (ch.username.Some? && ValidateUsername(Normalize(f, ch.username.value)).Err?) then s
      else (match Saved(s.users, id, Renamed(f, row, ch).(passwordHash := passwordHash, details := details))
            case None => s
            case Some(users) => s.(users := users))
  }

  function Run(f: Folding, es: seq<Event>): State {
    if es == [] then EMPTY else Next(f, Run(f, es[..|es| - 1]), es[|es| - 1])
  }

  /** What the service calls do to the table, faults included, is nothing or what these events do. */
  lemma CallsAreEvents(f: Folding, s: State, id: UserId, q: Request, hash: Option<string>, ch: Change,
      fault: Fault<Statement>)
    ensures var t := RegisterAttempt(f, s.users, id, q, hash, fault).0;
            t == s.users || (hash.Some? && t == Next(f, s, Insert(id, q, hash.value)).users)
    ensures var t := ProfileAttempt(f, s.users, id, ch, fault).0;
            t == s.users
            || (id in s.users
                && t == Next(f, Next(f, s, Read(id)),
                    Save(id, s.users[id], ch, s.users[id].passwordHash, s.users[id].details)).users)
  {
    hide Normalize, ValidateUsername, BrokenRule, BrokenNameRule;
  }

  ghost predicate SoundRow(f: Folding, u: User) {
    && ValidateUsername(u.username).Ok? && ValidateEmail(u.email).Ok?
    && Normalize(f, u.username) == u.username && Normalize(f, u.email) == u.email
  }

  ghost predicate Inv(f: Folding, s: State) {
    && UniqueColumns(s.users)
    && (forall id :: id in s.users ==> SoundRow(f, s.users[id]))
    && (forall r :: r in s.seen ==> SoundRow(f, r.1) && r.0 in s.users && s.users[r.0].email == r.1.email)
  }

  lemma NewUserIsSound(f: Folding, q: Request, hash: string)
    requires SoundFolding(f) && BrokenRule(f, q).None?
    ensures SoundRow(f, NewUser(f, q, hash))
  {
    hide Normalize, ValidateUsername, ValidateEmail, ValidatePassword, ValidateName;
    NormalizeTwice(f, q.username);
    NormalizeTwice(f, q.email);
  }

  lemma RenamedIsSound(f: Folding, row: User, ch: Change)
    requires SoundFolding(f) && SoundRow(f, row)
    requires ch.username.Some? ==> ValidateUsername(Normalize(f, ch.username.value)).Ok?
    ensures SoundRow(f, Renamed(f, row, ch)) && Renamed(f, row, ch).email == row.email
  {
    hide Normalize, ValidateUsername, ValidateEmail;
    if ch.username.Some? {
      NormalizeTwice(f, ch.username.value);
    }
  }

  /** A row that the indexes take, and that leaves a row's email alone. */
  lemma WriteKeepsInv(f: Folding, s: State, id: UserId, u: User)
    requires Inv(f, s) && SoundRow(f, u) && !Collides(s.users, id, u)
    requires id in s.users ==> s.users[id].email == u.email
    ensures Inv(f, s.(users := s.users[id := u]))
  {
    hide SoundRow;
  }

  lemma SoundWhatever(f: Folding, u: User, passwordHash: string, details: string)
    requires SoundRow(f, u)
    ensures SoundRow(f, u.(passwordHash := passwordHash, details := details))
  {
    hide Normalize, ValidateUsername, ValidateEmail;
  }

  lemma StepKeepsInv(f: Folding, s: State, e: Event)
    requires SoundFolding(f) && Inv(f, s)
    ensures Inv(f, Next(f, s, e))
  {
    hide SoundRow, BrokenRule, Renamed, NewUser, Normalize, ValidateUsername, Collides;
    match e
    case Insert(id, q, hash) =>
      if BrokenRule(f, q).None? && Created(s.users, id, NewUser(f, q, hash)).Some? {
        NewUserIsSound(f, q, hash);
        WriteKeepsInv(f, s, id, NewUser(f, q, hash));
      }
    case Read(_) =>
    case Save(id, row, ch, passwordHash, details) =>
      if Next(f, s, e) != s {
        RenamedIsSound(f, row, ch);
        var u := Renamed(f, row, ch).(passwordHash := passwordHash, details := details);
        SoundWhatever(f, Renamed(f, row, ch), passwordHash, details);
        WriteKeepsInv(f, s, id, u);
      }
  }

  lemma {:induction false} RunKeepsInv(f: Folding, es: seq<Event>)
    requires SoundFolding(f)
    ensures Inv(f, Run(f, es))
  {
    if es != [] {
      RunKeepsInv(f, es[..|es| - 1]);
      StepKeepsInv(f, Run(f, es[..|es| - 1]), es[|es| - 1]);
    }
  }

  /** In every reachable table no username is anybody's email, so an identifier names at most one account. */
  lemma IdentifiersAreUnambiguous(f: Folding, es: seq<Event>, identifier: string, i: UserId, j: UserId)
    requires SoundFolding(f)
    ensures var t := Run(f, es).users;
            && (i in t && j in t ==> t[i].username != t[j].email)
            && (i in Matches(t, Normalize(f, identifier)) && j in Matches(t, Normalize(f, identifier)) ==> i == j)
  {
    RunKeepsInv(f, es);
    var t := Run(f, es).users;
    if i in t && j in t {
      UsernameIsNoEmail(t[i].username, t[j].email);
      UsernameIsNoEmail(t[j].username, t[i].email);
    }
  }

  /** Every stored identifier is trimmed and in lower case. */
  lemma StoredIsFixed(f: Folding, es: seq<Event>, id: UserId)
    requires SoundFolding(f) && id in Run(f, es).users
    ensures Fixed(f, Run(f, es).users[id].username) && Fixed(f, Run(f, es).users[id].email)
  {
    hide Run, Fixed, Spells, Normalize, ValidateUsername, ValidateEmail;
    RunKeepsInv(f, es);
    var u := Run(f, es).users[id];
    assert SoundRow(f, u);
    AcceptedIsNotEmpty(u.username);
    AcceptedIsNotEmpty(u.email);
    NormalFormIsFixed(f, u.username);
    NormalFormIsFixed(f, u.email);
  }

  /**
   An account is found, and no other with it, by exactly the spellings of its username and of its email:
   white space, the stored characters up to their case, white space; the stored form itself among them.
   */
  lemma {:induction false} SpellingsFindTheirAccount(f: Folding, es: seq<Event>, id: UserId, spelling: string)
    requires SoundFolding(f) && id in Run(f, es).users
    ensures var u := Run(f, es).users[id];
            && (Matches(Run(f, es).users, Normalize(f, spelling)) == {id}
                <==> Spells(f, spelling, u.username) || Spells(f, spelling, u.email))
            && (id in Matches(Run(f, es).users, Normalize(f, spelling))
                ==> Matches(Run(f, es).users, Normalize(f, spelling)) == {id})
  {
    hide Run, Spells, Fixed, Normalize;
    var t, wanted := Run(f, es).users, Normalize(f, spelling);
    StoredIsFixed(f, es, id);
    NormalFormIff(f, spelling, t[id].username);
    NormalFormIff(f, spelling, t[id].email);
    forall other | other in Matches(t, wanted)
      ensures id in Matches(t, wanted) ==> other == id
    {
      IdentifiersAreUnambiguous(f, es, spelling, id, other);
    }
    assert id in Matches(t, wanted) ==> Matches(t, wanted) == {id};
    assert Matches(t, wanted) == {id} ==> id in Matches(t, wanted);
  }

  /** A stored identifier is a spelling of itself. */
  lemma StoredSpellsItself(f: Folding, stored: string)
    requires Fixed(f, stored)
    ensures Spells(f, stored, stored)
  {
    assert stored == "" + stored + "";
    assert AllSpace(f, "");
  }

  /**
   Nobody registers another spelling of an email or a username that is taken: whatever the database does the
   table stays as it is, and the insert alone would be refused too. With the database sound and the rules
   kept, a taken email is named as such.
   */
  lemma {:induction false} RespelledIsRefused(f: Folding, es: seq<Event>, id: UserId, newId: UserId, q: Request,
                                              hash: Option<string>, fault: Fault<Statement>)
    requires SoundFolding(f) && id in Run(f, es).users && newId !in Run(f, es).users
    requires Spells(f, q.email, Run(f, es).users[id].email) || Spells(f, q.username, Run(f, es).users[id].username)
    ensures var t := Run(f, es).users;
            && RegisterAttempt(f, t, newId, q, hash, fault).0 == t
            && RegisterAttempt(f, t, newId, q, hash, fault).1.Err?
            && (hash.Some? ==> Next(f, Run(f, es), Insert(newId, q, hash.value)) == Run(f, es))
            && (Spells(f, q.email, t[id].email) && BrokenRule(f, q).None? ==>
                  RegisterAttempt(f, t, newId, q, hash, NoFault).1 == Err(Taken(Email)))
  {
    hide Run, Spells, Fixed, Normalize, BrokenRule;
    var t := Run(f, es).users;
    StoredIsFixed(f, es, id);
    NormalFormIff(f, q.email, t[id].email);
    NormalFormIff(f, q.username, t[id].username);
    assert id in WithEmail(t, Normalize(f, q.email)) || id in WithUsername(t, Normalize(f, q.username));
    assert Spells(f, q.email, t[id].email) ==> id in WithEmail(t, Normalize(f, q.email));
    if hash.Some? {
      assert Collides(t, newId, NewUser(f, q, hash.value));
    }
  }

  lemma StepKeepsEmail(f: Folding, s: State, e: Event, id: UserId)
    requires Inv(f, s) && id in s.users
    ensures id in Next(f, s, e).users && Next(f, s, e).users[id].email == s.users[id].email
  {
    hide Normalize, ValidateUsername, ValidateEmail;
    if e.Save? && (e.id, e.row) in s.seen {
      assert s.users[e.id].email == e.row.email;
    }
  }

  /** The email column of an account never changes, however stale the rows that are saved over it. */
  lemma {:induction false} EmailIsFixed(f: Folding, es: seq<Event>, more: seq<Event>, id: UserId)
    requires SoundFolding(f) && id in Run(f, es).users
    ensures id in Run(f, es + more).users && Run(f, es + more).users[id].email == Run(f, es).users[id].email
  {
    hide Next, Inv;
    var all := es + more;
    if more == [] {
      assert all == es;
    } else {
      assert all[..|all| - 1] == es + more[..|more| - 1];
      EmailIsFixed(f, es, more[..|more| - 1], id);
      RunKeepsInv(f, all[..|all| - 1]);
      StepKeepsEmail(f, Run(f, all[..|all| - 1]), all[|all| - 1], id);
    }
  }
}
