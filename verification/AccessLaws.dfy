/**
 What the words and the answers mean to an account: a suspension holds until it is lifted, an account signs in
 once it is activated and not before, and every call says which of its reasons it failed for.
 */
module AccessLaws {
  import opened Wrappers
  import opened Sets
  import opened Registry
  import opened Roles
  import opened Access
  import opened AccessRuns

  // ----- The answers -------------------------------------------------------------------------------------

  /**
   No claims are Unauthorized; with claims the gate opens for a bypassing level, or a high enough one that
   holds the slug.
   */
  lemma GateVerdict(claims: Option<Claims>, slug: Slug, required: int)
    ensures Authorize(claims, slug, required) == Unauthorized <==> claims.None?
    ensures claims.Some? ==>
              (Authorize(claims, slug, required) == Answer.Next
               <==> claims.value.level <= 1 || (claims.value.level <= required && slug in claims.value.permissions))
  {
  }

  /** An update is possible exactly for a known role below the bypassing level and slugs that all exist. */
  lemma UpdateVerdict(db: Tables, v: View, id: RoleId, requested: seq<Slug>)
    requires UniqueSlugs(db)
    ensures var u := Updated(db, v, id, requested);
            && (u == Err(NotFound) <==> id !in db.roles)
            && (u.Ok? <==> id in db.roles && db.roles[id].level > 1
                           && forall slug :: slug in requested && slug != "" ==> slug in db.permissions.Values)
            && (u.Err? ==> u.error == NotFound || u.error == Validation)
  {
    ReplaceGrantsAllOrNothing(db, id, requested);
    hide Replaced, Deduped;
    assert ToSet(requested) - {""} <= db.permissions.Values
           <==> forall slug :: slug in requested && slug != "" ==> slug in db.permissions.Values;
  }

  /**
   A statement the database refuses rolls the whole replacement back; only those with nothing to do are
   never sent.
   */
  lemma RefusalsRollBack(db: Tables, id: RoleId, slugs: seq<Slug>, statement: Statement)
    requires statement != ReadRow && Replaced(db, id, slugs).Ok?
    requires slugs == [] ==> statement != ResolveSlugs && statement != InsertRows
    ensures ReplaceAttempt(db, id, slugs, Refuses(statement)) == (db, Err(Unavailable))
  {
    if slugs != [] {
      assert |IdsOf(db, slugs)| == |slugs|;
    }
  }

  /**
   What an administrator's word does to an account: three words are known, each sets its own status, and no
   other row moves.
   */
  lemma StatusVerdict(db: Tables, v: View, user: UserId, word: string, fault: Fault<Statement>)
    ensures var (db', v', r) := StatusAttempt(db, v, user, word, fault);
            && (r == Err(Validation) <==> word != "suspended" && word != "active" && word != "inactive")
            && (r == Err(NotFound) ==> user !in db.users)
            && (r.Err? && !fault.LosesAnswer? ==> db' == db && v' == v)
            && (r.Err? ==> v' == v)
            && (r == Err(Validation) || r == Err(NotFound) ==> db' == db)
            && (r.Ok? <==>
                  (word == "suspended" || word == "active" || word == "inactive") && user in db.users && fault.NoFault?)
    ensures var (db', v', r) := StatusAttempt(db, v, user, word, fault);
            db' == db
            || (user in db.users && db' == db.(users := db'.users) && db'.users == db.users[user := db'.users[user]]
                && db'.users[user] == db.users[user].(status := db'.users[user].status)
                && (word == "suspended" ==> db'.users[user].status == Suspended)
                && (word == "active" ==> db'.users[user].status == Active)
                && (word == "inactive" ==> db'.users[user].status == Inactive))
    ensures var (db', v', r) := StatusAttempt(db, v, user, word, fault);
            r.Ok? ==>
              && (word == "suspended" ==>
                    db'.users[user].status == Suspended && v' == v.(suspended := v.suspended + {user}))
              && (word == "active" ==> db'.users[user].status == Active && v' == v.(suspended := v.suspended - {user}))
              && (word == "inactive" ==>
                    db'.users[user].status == Inactive && v' == v.(suspended := v.suspended - {user}))
  {
  }

  /** A boot inserts what is missing, as defined, and leaves what is there. */
  lemma SeedingInserts(db: Tables, s: Seeding)
    ensures var db' := Seeded(db, s);
            && db'.roles.Keys == db.roles.Keys + s.roles.Keys && db'.users.Keys == db.users.Keys + s.admins.Keys
            && (forall id :: id in db.roles ==> db'.roles[id] == db.roles[id])
            && (forall id :: id in s.roles && id !in db.roles ==> db'.roles[id] == RoleRow(s.roles[id].level, 1))
            && (forall p :: p in db.permissions ==> p in db'.permissions && db'.permissions[p] == db.permissions[p])
            && (forall p :: p in s.permissions && p !in db.permissions ==>
                p in db'.permissions && db'.permissions[p] == s.permissions[p])
            && (forall user :: user in db.users ==> db'.users[user] == db.users[user])
            && (forall user :: user in s.admins && user !in db.users ==> db'.users[user] == s.admins[user])
  {
  }

  // ----- A suspension holds until it is lifted ---------------------------------------------------------------

  ghost predicate RowSuspended(db: Tables, user: UserId) {
    user in db.users && db.users[user].status == Suspended
  }

  /** Asks for the account to be reinstated. */
  predicate Reinstates(op: Op, user: UserId) {
    op.UpdateStatus? && op.user == user && (op.status == "active" || op.status == "inactive")
  }

  /** A status change that succeeds, or a boot over a row that is not suspended any more. */
  ghost predicate Lifts(s: Sys, op: Op, user: UserId) {
    || (Reinstates(op, user) && user in s.db.users && op.fate == Lives(NoFault))
    || (Boots(s, op) && !RowSuspended(Step(s, op).db, user))
  }

  lemma BootedView(s: Sys, op: Op)
    requires Boots(s, op)
    ensures Step(s, op).view == ViewOf(Step(s, op).db)
  {
    hide Updated, StatusSet, ViewOf, Seeded;
  }

  /** The registry lets a suspended user go exactly when the suspension is lifted. */
  lemma SuspensionEndsIff(s: Sys, op: Op, user: UserId)
    requires user in s.view.suspended
    ensures user in Step(s, op).view.suspended <==> !Lifts(s, op, user)
  {
    if Boots(s, op) {
      BootedView(s, op);
      hide Step, Boots;
    } else {
      match op
      case UpdateStatus(u, word, fate) =>
        if fate.Lives? {
          StatusVerdict(s.db, s.view, u, word, fate.fault);
        }
        hide StatusAttempt;
      case UpdatePermissions(role, requested, fate) =>
        if fate.Lives? {
          UpdateOutcomes(s.db, s.view, role, requested, fate.fault);
          if Updated(s.db, s.view, role, requested).Ok? {
            UsersUntouched(s.db, s.view, role, requested);
          }
        }
        hide UpdateAttempt, Updated;
      case _ =>
    }
  }

  ghost predicate NeverLifted(s: Sys, ops: seq<Op>, user: UserId) {
    forall i :: 0 <= i < |ops| ==> !Lifts(Run(s, ops[..i]), ops[i], user)
  }

  lemma {:induction false} SuspensionHolds(s: Sys, ops: seq<Op>, user: UserId)
    requires user in s.view.suspended && NeverLifted(s, ops, user)
    ensures user in Run(s, ops).view.suspended
  {
    hide Step, Lifts;
    if ops != [] {
      var front := ops[..|ops| - 1];
      assert forall i :: 0 <= i < |front| ==> front[..i] == ops[..i] && front[i] == ops[i];
      SuspensionHolds(s, front, user);
      SuspensionEndsIff(Run(s, front), ops[|ops| - 1], user);
    }
  }

  /**
   The word "suspended", heard: the row is suspended, the guard refuses every token of the user, and nobody
   else notices.
   */
  lemma SuspensionTakesHold(s: Sys, user: UserId)
    requires user in s.db.users
    ensures var s' := Step(s, UpdateStatus(user, "suspended", Lives(NoFault)));
            && RowSuspended(s'.db, user) && user in s'.view.suspended
            && (forall c: Claims :: c.userId == user ==> Check(s'.view, c) == UserSuspended)
            && (forall c: Claims :: c.userId != user ==> Check(s'.view, c) == Check(s.view, c))
            && (forall other :: other in s.db.users && other != user ==> s'.db.users[other] == s.db.users[other])
  {
    StatusVerdict(s.db, s.view, user, "suspended", NoFault);
  }

  /**
   Revocation: from a suspension on, in every continuation, the guard refuses every token of the user, old or
   new, until the suspension is lifted.
   */
  lemma {:induction false} SuspendedIsRefused(s: Sys, user: UserId, ops: seq<Op>, c: Claims)
    requires user in s.db.users && c.userId == user
    requires NeverLifted(Step(s, UpdateStatus(user, "suspended", Lives(NoFault))), ops, user)
    ensures Check(Run(Step(s, UpdateStatus(user, "suspended", Lives(NoFault))), ops).view, c) == UserSuspended
  {
    hide Step, Run, Lifts, RowSuspended, NeverLifted;
    SuspensionTakesHold(s, user);
    SuspensionHolds(Step(s, UpdateStatus(user, "suspended", Lives(NoFault))), ops, user);
  }

  /** Neither a link, nor a password, nor a boot brings a suspended row back: only a word that reinstates does. */
  lemma RowStaysSuspended(s: Sys, op: Op, user: UserId)
    requires RowSuspended(s.db, user) && !Reinstates(op, user)
    ensures RowSuspended(Step(s, op).db, user)
  {
    match op
    case UpdateStatus(u, word, fate) =>
      match fate {
        case Lives(fault) =>
          StatusVerdict(s.db, s.view, u, word, fault);
          hide StatusAttempt;
        case CommitsThenDies =>
          StatusVerdict(s.db, s.view, u, word, NoFault);
      }
    case UpdatePermissions(role, requested, fate) =>
      if Updated(s.db, s.view, role, requested).Ok? {
        UsersUntouched(s.db, s.view, role, requested);
      }
      if fate.Lives? {
        UpdateOutcomes(s.db, s.view, role, requested, fate.fault);
      }
      hide UpdateAttempt, Updated;
    case _ =>
  }

  /**
   So without such a word there is no way back in, whatever links are followed and however often the
   process boots.
   */
  lemma {:induction false} OnlyAWordReinstates(s: Sys, ops: seq<Op>, user: UserId, c: Claims)
    requires RowSuspended(s.db, user) && user in s.view.suspended && c.userId == user
    requires forall i :: 0 <= i < |ops| ==> !Reinstates(ops[i], user)
    ensures RowSuspended(Run(s, ops).db, user) && user in Run(s, ops).view.suspended
    ensures Check(Run(s, ops).view, c) == UserSuspended
  {
    hide Step, RowSuspended;
    if ops != [] {
      var front, op := ops[..|ops| - 1], ops[|ops| - 1];
      OnlyAWordReinstates(s, front, user, c);
      RowStaysSuspended(Run(s, front), op, user);
      SuspensionEndsIff(Run(s, front), op, user);
      assert !Reinstates(op, user);
    }
  }

  // ----- Signing in ------------------------------------------------------------------------------------------

  /**
   A sign-in mints one token, for an active account whose role the registry knows, of what the registry
   shows of that role.
   */
  lemma SignInMints(s: Sys, user: UserId)
    ensures var s' := Step(s, SignIn(user));
            && s'.db == s.db && s'.view == s.view
            && s'.issued == s.issued +
                 if user in s.db.users && s.db.users[user].status == Active
                     && s.db.users[user].roleId in s.view.levels then
                   var role := s.db.users[user].roleId;
                   {Claims(user, role, s.view.levels[role], PermissionsIn(s.view, role), VersionIn(s.view, role))}
                 else {}
  {
  }

  /** The word "active", heard: the account's next sign-in mints a token, and the guard accepts it. */
  lemma ReinstatedSignsIn(s: Sys, user: UserId) returns (c: Claims)
    requires user in s.db.users && s.db.users[user].roleId in s.view.levels
    ensures var s' := Step(s, UpdateStatus(user, "active", Lives(NoFault)));
            && s'.db.users[user] == s.db.users[user].(status := Active)
            && c.userId == user && c.roleId == s.db.users[user].roleId
            && c in Step(s', SignIn(user)).issued && Check(Step(s', SignIn(user)).view, c) == Accepted
  {
    StatusVerdict(s.db, s.view, user, "active", NoFault);
    var s' := Step(s, UpdateStatus(user, "active", Lives(NoFault)));
    var role := s.db.users[user].roleId;
    c := Claims(user, role, s.view.levels[role], PermissionsIn(s.view, role), VersionIn(s.view, role));
    SignInMints(s', user);
    hide StatusAttempt;
  }

  /** What a followed link does to a row: it verifies the address and activates the account, but reinstates nobody. */
  lemma LinksActivate(s: Sys, user: UserId, details: string)
    requires user in s.db.users
    ensures var row, row' := s.db.users[user], Step(s, VerifyEmail(user)).db.users[user];
            && (row.verified ==> row' == row)
            && (!row.verified ==>
                  row' == row.(verified := true, status := if row.status == Inactive then Active else row.status))
    ensures var row, row' := s.db.users[user], Step(s, ResetPassword(user, details)).db.users[user];
            && (row.status == Suspended ==> row' == row)
            && (row.status != Suspended ==> row' == row.(verified := true, status := Active, details := details))
  {
  }

  /** Activates the account, or seeds it active. */
  predicate Activates(op: Op, user: UserId) {
    || (op.VerifyEmail? && op.user == user)
    || (op.ResetPassword? && op.user == user)
    || (op.UpdateStatus? && op.user == user && op.status == "active")
    || (op.Restart? && user in op.seeding.admins)
  }

  ghost predicate NotActive(s: Sys, user: UserId) {
    && (user in s.db.users ==> s.db.users[user].status != Active)
    && forall c :: c in s.issued ==> c.userId != user
  }

  lemma StepKeepsNotActive(s: Sys, op: Op, user: UserId)
    requires NotActive(s, user) && !Activates(op, user)
    ensures NotActive(Step(s, op), user)
  {
    match op
    case UpdateStatus(u, word, fate) =>
      match fate {
        case Lives(fault) =>
          StatusVerdict(s.db, s.view, u, word, fault);
          hide StatusAttempt;
        case CommitsThenDies =>
          StatusVerdict(s.db, s.view, u, word, NoFault);
      }
    case UpdatePermissions(role, requested, fate) =>
      if Updated(s.db, s.view, role, requested).Ok? {
        UsersUntouched(s.db, s.view, role, requested);
      }
      if fate.Lives? {
        UpdateOutcomes(s.db, s.view, role, requested, fate.fault);
      }
      hide UpdateAttempt, Updated;
    case SignIn(u) => SignInMints(s, u);
    case _ =>
  }

  /** Nobody has a token before the account was activated: registering, however often, is not enough. */
  lemma {:induction false} NoTokenBeforeActivation(s: Sys, ops: seq<Op>, user: UserId)
    requires NotActive(s, user) && forall i :: 0 <= i < |ops| ==> !Activates(ops[i], user)
    ensures NotActive(Run(s, ops), user)
  {
    hide Step, NotActive;
    if ops != [] {
      var front, op := ops[..|ops| - 1], ops[|ops| - 1];
      NoTokenBeforeActivation(s, front, user);
      assert !Activates(op, user);
      StepKeepsNotActive(Run(s, front), op, user);
    }
  }

  /** And registering, following the link and signing in is, once the default role, role 4, is known. */
  lemma VerifiedSignsIn(s: Sys, user: UserId, details: string)
    requires user !in s.db.users && 4 in s.view.levels
    ensures var s' := Step(Step(Step(s, Register(user, details)), VerifyEmail(user)), SignIn(user));
            exists c :: c in s'.issued && c.userId == user && c.roleId == 4
  {
    var s2 := Step(Step(s, Register(user, details)), VerifyEmail(user));
    var c := Claims(user, 4, s.view.levels[4], PermissionsIn(s.view, 4), VersionIn(s.view, 4));
    SignInMints(s2, user);
    assert c in Step(s2, SignIn(user)).issued;
  }
}
