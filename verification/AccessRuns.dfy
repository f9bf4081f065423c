/**
 Runs of atomic service calls, with refused statements, lost answers, crashes and restarts: when the
 registry is the tables' view, and when the answer a token carries is the one the tables would give.
 */
module AccessRuns {
  import opened Wrappers
  import opened Sets
  import opened Registry
  import opened Roles
  import opened Access

  const DEFAULT_ROLE := 4

  /** What befalls a call: the process lives and the database does what it does, or dies right after the commit. */
  datatype Fate = Lives(fault: Fault<Statement>) | CommitsThenDies

  /** A boot's seeders: role definitions with their default grants, and permissions not in the table yet. */
  datatype RoleDefinition = RoleDefinition(level: int, grants: set<Slug>)

  datatype Seeding = Seeding(roles: map<RoleId, RoleDefinition>, permissions: map<PermissionId, Slug>,
      admins: map<UserId, UserRow>)

  datatype Op =
    | UpdatePermissions(role: RoleId, requested: seq<Slug>, fate: Fate)
    | UpdateStatus(user: UserId, status: string, fate: Fate)
    | Register(user: UserId, details: string)
    | VerifyEmail(user: UserId)
    | ResetPassword(user: UserId, details: string)
    | SaveAccount(user: UserId, details: string)   // profile, password, login bookkeeping
    | SignIn(user: UserId)
    | Restart(seeding: Seeding)

  datatype Sys = Sys(db: Tables, view: View, issued: set<Claims>)

  function Activated(row: UserRow): UserRow {
    row.(verified := true, status := if row.status == Inactive then Active else row.status)
  }

  /** Every insert is ON CONFLICT DO NOTHING: existing rows win, missing ones appear, grants included. */
  function Seeded(db: Tables, s: Seeding): Tables {
    var permissions := s.permissions + db.permissions;
    Tables(
      (map id | id in s.roles :: RoleRow(s.roles[id].level, 1)) + db.roles,
      permissions,
      db.grants + set id, p | id in s.roles && p in permissions && permissions[p] in s.roles[id].grants :: (id, p),
      s.admins + db.users)
  }

  function SaveRow(s: Sys, user: UserId, row: UserRow): Sys {
    s.(db := s.db.(users := s.db.users[user := row]))
  }

  /** A boot over the current tables; issued tokens survive it. */
  function Booted(s: Sys, db: Tables): Sys {
    s.(db := db, view := ViewOf(db))
  }

  /** A process that dies after its commit boots again over what it committed. */
  function Died(s: Sys, r: Result<(Tables, View), Error>): Sys {
    if r.Ok? then Booted(s, r.value.0) else s
  }

  function Step(s: Sys, op: Op): Sys {
    match op
    case UpdatePermissions(role, requested, fate) =>
      (match fate
       case CommitsThenDies => Died(s, Updated(s.db, s.view, role, requested))
       case Lives(fault) =>
         var (db, view, _) := UpdateAttempt(s.db, s.view, role, requested, fault);
         s.(db := db, view := view))
    case UpdateStatus(user, status, fate) =>
      (match fate
       case CommitsThenDies => Died(s, StatusSet(s.db, s.view, user, status))
       case Lives(fault) =>
         var (db, view, _) := StatusAttempt(s.db, s.view, user, status, fault);
         s.(db := db, view := view))
    case Register(user, details) =>
      if user in s.db.users then s else SaveRow(s, user, UserRow(DEFAULT_ROLE, Inactive, false, details))
    case VerifyEmail(user) =>
      if user !in s.db.users || s.db.users[user].verified then s else SaveRow(s, user, Activated(s.db.users[user]))
    case ResetPassword(user, details) =>
      if user !in s.db.users || s.db.users[user].status == Suspended then s
      else SaveRow(s, user, Activated(s.db.users[user]).(details := details))
    case SaveAccount(user, details) =>
      if user !in s.db.users then s else SaveRow(s, user, s.db.users[user].(details := details))
    case SignIn(user) =>
      if user !in s.db.users || s.db.users[user].status != Active then s
      else (match Resolve(s.view, user, s.db.users[user].roleId)
            case None => s
            case Some(c) => s.(issued := s.issued + {c}))
    case Restart(seeding) => Booted(s, Seeded(s.db, seeding))
  }

  function Run(s: Sys, ops: seq<Op>): Sys {
    if ops == [] then s else Step(Run(s, ops[..|ops| - 1]), ops[|ops| - 1])
  }

  /** A first boot over any tables: the registry warmed up, no token issued. */
  function Start(db: Tables): Sys {
    Sys(db, ViewOf(db), {})
  }

  ghost predicate SoundTables(db: Tables) {
    && UniqueSlugs(db)
    && forall id :: id in db.roles ==> db.roles[id].version >= 1
  }

  /** Seeding respects the unique index and does not seed suspended accounts. */
  ghost predicate SoundSeeding(db: Tables, s: Seeding) {
    && UniqueSlugs(Seeded(db, s))
    && forall u :: u in s.admins ==> s.admins[u].status == Active
  }

  ghost predicate SoundRun(s: Sys, ops: seq<Op>) {
    forall i :: 0 <= i < |ops| && ops[i].Restart? ==> SoundSeeding(Run(s, ops[..i]).db, ops[i].seeding)
  }

  // ----- When the registry is the tables' view ---------------------------------------------------------

  /** What the registry says of a role is what the tables say. */
  ghost predicate Shows(db: Tables, v: View, id: RoleId) {
    && PermissionsIn(v, id) == PermissionsIn(ViewOf(db), id)
    && VersionIn(v, id) == VersionIn(ViewOf(db), id)
    && LevelIn(v, id) == LevelIn(ViewOf(db), id)
  }

  ghost predicate ShowsUser(db: Tables, v: View, user: UserId) {
    user in v.suspended <==> user in SuspendedUsers(db)
  }

  /** The registry knows the tables' roles and levels, is never ahead, and is exact at the current version. */
  ghost predicate RegistryInv(db: Tables, v: View) {
    && SoundTables(db)
    && v.permissions.Keys == v.versions.Keys == v.levels.Keys == db.roles.Keys
    && forall id :: id in db.roles ==>
         && v.levels[id] == db.roles[id].level
         && v.versions[id] <= db.roles[id].version
         && (v.versions[id] == db.roles[id].version ==> v.permissions[id] == SlugsOf(db, id))
  }

  lemma ShownAtItsVersion(db: Tables, v: View, id: RoleId)
    requires RegistryInv(db, v)
    ensures Shows(db, v, id) <==> (id in db.roles ==> v.versions[id] == db.roles[id].version)
  {
    hide SlugsOf;
  }

  lemma ViewShowsEverything(db: Tables)
    requires SoundTables(db)
    ensures RegistryInv(db, ViewOf(db))
    ensures forall id :: Shows(db, ViewOf(db), id)
    ensures forall user :: ShowsUser(db, ViewOf(db), user)
  {
    hide SlugsOf;
  }

  /** A registry that shows every role and every user is the tables' view, and only such a one. */
  lemma ShowsEverythingIffView(db: Tables, v: View)
    requires RegistryInv(db, v)
    ensures v == ViewOf(db) <==> (forall id :: Shows(db, v, id)) && forall user :: ShowsUser(db, v, user)
  {
    hide SlugsOf;
    var w := ViewOf(db);
    if (forall id :: Shows(db, v, id)) && forall user :: ShowsUser(db, v, user) {
      forall id | id in db.roles
        ensures v.permissions[id] == w.permissions[id] && v.versions[id] == w.versions[id]
            && v.levels[id] == w.levels[id]
      {
        assert Shows(db, v, id);
      }
      assert forall user :: ShowsUser(db, v, user) ==> (user in v.suspended <==> user in w.suspended);
      assert v.permissions == w.permissions;
      assert v.versions == w.versions;
      assert v.levels == w.levels;
      assert v.suspended == w.suspended;
    }
  }

  // What a call does to one role, or one user, in the registry.

  datatype Touch = Published | Unheard | Untouched

  /** The call, or a boot after it, loads the whole registry. */
  predicate Boots(s: Sys, op: Op) {
    || op.Restart?
    || (op.UpdatePermissions? && op.fate.CommitsThenDies? && Updated(s.db, s.view, op.role, op.requested).Ok?)
    || (op.UpdateStatus? && op.fate.CommitsThenDies? && StatusSet(s.db, s.view, op.user, op.status).Ok?)
  }

  /** Unheard is a commit whose answer was lost on a process that lives on. */
  function TouchesRole(s: Sys, op: Op, role: RoleId): Touch {
    if Boots(s, op) then Published
    else if op.UpdatePermissions? && op.role == role && op.fate.Lives? then
      if UpdateAttempt(s.db, s.view, role, op.requested, op.fate.fault).2.Ok? then Published
      else if op.fate.fault.LosesAnswer? && Updated(s.db, s.view, role, op.requested).Ok? then Unheard
      else Untouched
    else Untouched
  }

  /** A lost status change matters only if the registry says otherwise. */
  function TouchesUser(s: Sys, op: Op, user: UserId): Touch {
    if Boots(s, op) then Published
    else if op.UpdateStatus? && op.user == user && op.fate.Lives? then
      if StatusAttempt(s.db, s.view, user, op.status, op.fate.fault).2.Ok? then Published
      else if op.fate.fault.LosesAnswer? && StatusSet(s.db, s.view, user, op.status).Ok? then
        if (ParseStatus(op.status) == Some(Suspended)) == (user in s.view.suspended) then Published else Unheard
      else Untouched
    else Untouched
  }

  /** The last commit on the role since the last boot went unheard. */
  predicate RoleBehind(start: Sys, ops: seq<Op>, role: RoleId) {
    ops != [] &&
    var front, op := ops[..|ops| - 1], ops[|ops| - 1];
    match TouchesRole(Run(start, front), op, role)
    case Published => false
    case Unheard => true
    case Untouched => RoleBehind(start, front, role)
  }

  predicate UserBehind(start: Sys, ops: seq<Op>, user: UserId) {
    ops != [] &&
    var front, op := ops[..|ops| - 1], ops[|ops| - 1];
    match TouchesUser(Run(start, front), op, user)
    case Published => false
    case Unheard => true
    case Untouched => UserBehind(start, front, user)
  }

  lemma UpdateEffect(db: Tables, v: View, role: RoleId, requested: seq<Slug>)
    requires SoundTables(db) && Updated(db, v, role, requested).Ok?
    ensures var (db', v') := Updated(db, v, role, requested).value;
            && SoundTables(db') && db'.users == db.users && db'.permissions == db.permissions
            && role in db.roles && db.roles[role].level > LEVEL_SUPER_ADMIN
            && (forall id :: id != role ==> SlugsOf(db', id) == SlugsOf(db, id))
            && db'.roles == db.roles[role := RoleRow(db.roles[role].level, db.roles[role].version + 1)]
            && SlugsOf(db', role) == ToSet(requested) - {""}
            && v' == WithRole(v, role, db.roles[role].level, db.roles[role].version + 1, SlugsOf(db', role))
  {
    ReplaceGrantsAllOrNothing(db, role, requested);
    DedupedIsDistinct(requested);
  }

  /** Committed and published. */
  lemma PublishedUpdate(db: Tables, v: View, role: RoleId, requested: seq<Slug>, id: RoleId)
    requires RegistryInv(db, v) && Updated(db, v, role, requested).Ok?
    ensures var (db', v') := Updated(db, v, role, requested).value;
            && RegistryInv(db', v') && Shows(db', v', role)
            && (id != role ==> (Shows(db', v', id) <==> Shows(db, v, id)))
  {
    UpdateEffect(db, v, role, requested);
    hide Updated, SlugsOf;
  }

  /** Committed, and the registry not told. */
  lemma UnheardUpdate(db: Tables, v: View, role: RoleId, requested: seq<Slug>, id: RoleId)
    requires RegistryInv(db, v) && Updated(db, v, role, requested).Ok?
    ensures var db' := Updated(db, v, role, requested).value.0;
            && RegistryInv(db', v) && !Shows(db', v, role)
            && (id != role ==> (Shows(db', v, id) <==> Shows(db, v, id)))
  {
    UpdateEffect(db, v, role, requested);
    hide Updated, SlugsOf;
  }

  ghost predicate Touched(s: Sys, op: Op, role: RoleId, user: UserId) {
    var s' := Step(s, op);
    && RegistryInv(s'.db, s'.view)
    && (match TouchesRole(s, op, role)
        case Published => Shows(s'.db, s'.view, role)
        case Unheard => !Shows(s'.db, s'.view, role)
        case Untouched => Shows(s'.db, s'.view, role) <==> Shows(s.db, s.view, role))
    && (match TouchesUser(s, op, user)
        case Published => ShowsUser(s'.db, s'.view, user)
        case Unheard => !ShowsUser(s'.db, s'.view, user)
        case Untouched => ShowsUser(s'.db, s'.view, user) <==> ShowsUser(s.db, s.view, user))
  }

  lemma BootTouches(s: Sys, op: Op, role: RoleId, user: UserId)
    requires Boots(s, op) && SoundTables(Step(s, op).db)
    ensures Touched(s, op, role, user)
  {
    ViewShowsEverything(Step(s, op).db);
    assert Step(s, op).view == ViewOf(Step(s, op).db);
    hide SoundTables, RegistryInv, Shows, ShowsUser, Step;
  }

  lemma NothingTouches(s: Sys, op: Op, role: RoleId, user: UserId)
    requires RegistryInv(s.db, s.view) && Step(s, op).db == s.db && Step(s, op).view == s.view
    requires TouchesRole(s, op, role).Untouched? && TouchesUser(s, op, user).Untouched?
    ensures Touched(s, op, role, user)
  {
    hide RegistryInv, Shows, ShowsUser, Step, TouchesRole, TouchesUser;
  }

  lemma RefusedUpdate(s: Sys, op: Op, role: RoleId, user: UserId)
    requires op.UpdatePermissions? && RegistryInv(s.db, s.view)
    requires Updated(s.db, s.view, op.role, op.requested).Err?
    ensures Touched(s, op, role, user)
  {
    hide Touched, Deduped, Replaced;
    if op.fate.Lives? {
      UpdateOutcomes(s.db, s.view, op.role, op.requested, op.fate.fault);
    }
    NothingTouches(s, op, role, user);
  }

  lemma UsersUntouched(db: Tables, v: View, role: RoleId, requested: seq<Slug>)
    requires Updated(db, v, role, requested).Ok?
    ensures var (db', v') := Updated(db, v, role, requested).value; db'.users == db.users && v'.suspended == v.suspended
  {
    hide Deduped;
  }

  lemma CommittedUpdate(s: Sys, op: Op, role: RoleId, user: UserId)
    requires op.UpdatePermissions? && op.fate.Lives? && RegistryInv(s.db, s.view)
    requires Updated(s.db, s.view, op.role, op.requested).Ok?
    ensures Touched(s, op, role, user)
  {
    hide Replaced, Deduped, RegistryInv, Shows;
    UpdateOutcomes(s.db, s.view, op.role, op.requested, op.fate.fault);
    PublishedUpdate(s.db, s.view, op.role, op.requested, role);
    UnheardUpdate(s.db, s.view, op.role, op.requested, role);
    UsersUntouched(s.db, s.view, op.role, op.requested);
    var s', touch := Step(s, op), TouchesRole(s, op, role);
    assert RegistryInv(s'.db, s'.view) && TouchesUser(s, op, user).Untouched?;
    assert touch.Published? ==> Shows(s'.db, s'.view, role);
    assert touch.Unheard? ==> !Shows(s'.db, s'.view, role);
    assert ShowsUser(s'.db, s'.view, user) <==> ShowsUser(s.db, s.view, user);
    assert op.role != role ==> (Shows(s'.db, s'.view, role) <==> Shows(s.db, s.view, role));
  }

  lemma UpdateTouches(s: Sys, op: Op, role: RoleId, user: UserId)
    requires op.UpdatePermissions? && RegistryInv(s.db, s.view)
    ensures Touched(s, op, role, user)
  {
    if Updated(s.db, s.view, op.role, op.requested).Err? {
      RefusedUpdate(s, op, role, user);
    } else if op.fate.Lives? {
      CommittedUpdate(s, op, role, user);
    } else {
      UpdateEffect(s.db, s.view, op.role, op.requested);
      BootTouches(s, op, role, user);
    }
  }

  lemma StatusEffect(db: Tables, v: View, user: UserId, status: string)
    requires RegistryInv(db, v) && StatusSet(db, v, user, status).Ok?
    ensures var (db', v') := StatusSet(db, v, user, status).value;
            && db' == db.(users := db'.users) && v' == v.(suspended := v'.suspended)
            && RegistryInv(db', v') && RegistryInv(db', v) && SoundTables(db')
            && (forall id :: SlugsOf(db', id) == SlugsOf(db, id))
            && (forall id :: Shows(db', v', id) == Shows(db', v, id) == Shows(db, v, id))
            && (forall other :: other != user ==>
                ShowsUser(db', v', other) == ShowsUser(db', v, other) == ShowsUser(db, v, other))
            && ShowsUser(db', v', user)
            && (ShowsUser(db', v, user) <==> ((ParseStatus(status) == Some(Suspended)) == (user in v.suspended)))
  {
    var db' := StatusSet(db, v, user, status).value.0;
    assert forall id :: SlugsOf(db', id) == SlugsOf(db, id);
    hide SlugsOf;
  }

  lemma StatusTouches(s: Sys, op: Op, role: RoleId, user: UserId)
    requires op.UpdateStatus? && RegistryInv(s.db, s.view)
    ensures Touched(s, op, role, user)
  {
    if StatusSet(s.db, s.view, op.user, op.status).Ok? {
      StatusEffect(s.db, s.view, op.user, op.status);
    }
    if Boots(s, op) {
      BootTouches(s, op, role, user);
    } else {
      hide RegistryInv, Shows, ShowsUser, SoundTables, SlugsOf;
    }
  }

  /** Other saves never move an account into or out of suspension. */
  lemma SaveTouches(s: Sys, user: UserId, row: UserRow)
    requires RegistryInv(s.db, s.view)
    requires row.status == Suspended <==> user in s.db.users && s.db.users[user].status == Suspended
    ensures var s' := SaveRow(s, user, row);
            && RegistryInv(s'.db, s'.view) && s'.view == s.view && SuspendedUsers(s'.db) == SuspendedUsers(s.db)
            && (forall id :: SlugsOf(s'.db, id) == SlugsOf(s.db, id))
            && forall id :: Shows(s'.db, s'.view, id) == Shows(s.db, s.view, id)
  {
    var db' := SaveRow(s, user, row).db;
    assert forall id :: SlugsOf(db', id) == SlugsOf(s.db, id);
    assert SuspendedUsers(db') == SuspendedUsers(s.db);
    hide SlugsOf, SuspendedUsers;
  }

  lemma AccountTouches(s: Sys, op: Op, role: RoleId, user: UserId)
    requires op.Register? || op.VerifyEmail? || op.ResetPassword? || op.SaveAccount?
    requires RegistryInv(s.db, s.view)
    ensures Touched(s, op, role, user)
    ensures forall id :: SlugsOf(Step(s, op).db, id) == SlugsOf(s.db, id)
  {
    match op
    case Register(u, details) =>
      SaveTouches(s, u, if u in s.db.users then s.db.users[u] else UserRow(DEFAULT_ROLE, Inactive, false, details));
      hide SlugsOf, SuspendedUsers, Shows, RegistryInv;
    case VerifyEmail(u) =>
      if u in s.db.users {
        SaveTouches(s, u, Activated(s.db.users[u]));
      }
      hide SlugsOf, SuspendedUsers, Shows, RegistryInv;
    case ResetPassword(u, details) =>
      if u in s.db.users {
        SaveTouches(s, u, Activated(s.db.users[u]).(details := details));
      }
      hide SlugsOf, SuspendedUsers, Shows, RegistryInv;
    case SaveAccount(u, details) =>
      if u in s.db.users {
        SaveTouches(s, u, s.db.users[u].(details := details));
      }
      hide SlugsOf, SuspendedUsers, Shows, RegistryInv;
  }

  lemma StepTouches(s: Sys, op: Op, role: RoleId, user: UserId)
    requires RegistryInv(s.db, s.view)
    requires op.Restart? ==> SoundSeeding(s.db, op.seeding)
    ensures Touched(s, op, role, user)
  {
    match op
    case UpdatePermissions(_, _, _) => UpdateTouches(s, op, role, user);
    case UpdateStatus(_, _, _) => StatusTouches(s, op, role, user);
    case Restart(_) => BootTouches(s, op, role, user);
    case SignIn(_) =>
      assert Step(s, op).db == s.db && Step(s, op).view == s.view;
      hide RegistryInv, Shows, ShowsUser;
    case _ => AccountTouches(s, op, role, user);
  }

  lemma SoundFront(start: Sys, ops: seq<Op>)
    requires ops != [] && SoundRun(start, ops)
    ensures SoundRun(start, ops[..|ops| - 1])
    ensures var op := ops[|ops| - 1]; op.Restart? ==> SoundSeeding(Run(start, ops[..|ops| - 1]).db, op.seeding)
  {
    hide SoundSeeding, Step;
    var front := ops[..|ops| - 1];
    assert forall i :: 0 <= i < |front| ==> ops[..i] == front[..i];
  }

  /** For one role and one user: shown exactly unless their last commit since the last boot went unheard. */
  lemma {:induction false} ShownUnlessUnheard(db: Tables, ops: seq<Op>, role: RoleId, user: UserId)
    requires SoundTables(db) && SoundRun(Start(db), ops)
    ensures var s := Run(Start(db), ops);
            && RegistryInv(s.db, s.view) && SoundTables(s.db)
            && (Shows(s.db, s.view, role) <==> !RoleBehind(Start(db), ops, role))
            && (ShowsUser(s.db, s.view, user) <==> !UserBehind(Start(db), ops, user))
  {
    if ops == [] {
      ViewShowsEverything(db);
    } else {
      var front := ops[..|ops| - 1];
      SoundFront(Start(db), ops);
      ShownUnlessUnheard(db, front, role, user);
      StepTouches(Run(Start(db), front), ops[|ops| - 1], role, user);
      hide RegistryInv, Shows, ShowsUser, SoundRun, SoundTables, Step, TouchesRole, TouchesUser;
    }
  }

  /** No role and no user is left with a commit that went unheard. */
  ghost predicate AllHeard(start: Sys, ops: seq<Op>) {
    (forall role :: !RoleBehind(start, ops, role)) && forall user :: !UserBehind(start, ops, user)
  }

  /**
   After the warm-up, any sequence of service calls, failing, rolled back, unheard or cut short by a crash,
   and any restarts, leaves the registry equal to what a fresh warm-up would load (permissions, versions,
   levels and suspensions) exactly when no role and no user is left with a commit that went unheard.
   */
  lemma {:induction false} RegistryIsTheTablesView(db: Tables, ops: seq<Op>)
    requires SoundTables(db) && SoundRun(Start(db), ops)
    ensures var s := Run(Start(db), ops);
            && SoundTables(s.db)
            && (s.view == ViewOf(s.db) <==> AllHeard(Start(db), ops))
  {
    hide RoleBehind, UserBehind, Shows, ShowsUser, SoundRun, Run, RegistryInv, SoundTables, ViewOf, Start;
    var s := Run(Start(db), ops);
    ShownUnlessUnheard(db, ops, 0, 0);
    ShowsEverythingIffView(s.db, s.view);
    forall role, user
      ensures Shows(s.db, s.view, role) <==> !RoleBehind(Start(db), ops, role)
      ensures ShowsUser(s.db, s.view, user) <==> !UserBehind(Start(db), ops, user)
    {
      ShownUnlessUnheard(db, ops, role, user);
    }
  }

  // ----- Tokens ------------------------------------------------------------------------------------------

  /** A token names a role that exists, at its level, and never runs ahead of it. */
  ghost predicate TokenKnown(db: Tables, c: Claims) {
    && c.roleId in db.roles
    && c.level == db.roles[c.roleId].level
    && c.version <= db.roles[c.roleId].version
  }

  /** At the role's own version a token carries nothing the role does not have. */
  ghost predicate TokenSafe(db: Tables, c: Claims) {
    TokenKnown(db, c) && (c.version == db.roles[c.roleId].version ==> c.permissions <= SlugsOf(db, c.roleId))
  }

  /** At the role's own version a token is exact. */
  ghost predicate TokenHolds(db: Tables, c: Claims) {
    TokenKnown(db, c) && (c.version == db.roles[c.roleId].version ==> c.permissions == SlugsOf(db, c.roleId))
  }

  ghost predicate TokensSafe(s: Sys) {
    forall c :: c in s.issued ==> TokenSafe(s.db, c)
  }

  ghost predicate TokensHold(s: Sys) {
    forall c :: c in s.issued ==> TokenHolds(s.db, c)
  }

  /** The boot's default grants are all in place already, for every role the tables know. */
  ghost predicate AddsNoGrant(db: Tables, s: Seeding) {
    forall id :: id in db.roles ==> SlugsOf(Seeded(db, s), id) == SlugsOf(db, id)
  }

  ghost predicate QuietRun(s: Sys, ops: seq<Op>) {
    forall i :: 0 <= i < |ops| && ops[i].Restart? ==> AddsNoGrant(Run(s, ops[..i]).db, ops[i].seeding)
  }

  /** The foreign key from grants to permissions. */
  ghost predicate GrantsResolve(db: Tables) {
    forall g :: g in db.grants ==> g.1 in db.permissions
  }

  function DefaultsAdded(db: Tables, s: Seeding, id: RoleId): set<Slug> {
    if id in s.roles then s.roles[id].grants * (s.permissions + db.permissions).Values else {}
  }

  /** A boot adds to each known role exactly its default grants whose slug exists, and moves no version. */
  lemma SeedingEffect(db: Tables, s: Seeding, id: RoleId)
    requires GrantsResolve(db) && id in db.roles
    ensures Seeded(db, s).roles[id] == db.roles[id]
    ensures SlugsOf(Seeded(db, s), id) == SlugsOf(db, id) + DefaultsAdded(db, s, id)
  {
    var db' := Seeded(db, s);
    forall slug
      ensures slug in SlugsOf(db', id) <==> slug in SlugsOf(db, id) + DefaultsAdded(db, s, id)
    {
      if slug in SlugsOf(db', id) {
        var p :| p in db'.permissions && (id, p) in db'.grants && db'.permissions[p] == slug;
        assert db'.permissions[p] in db'.permissions.Values;
      }
      if slug in DefaultsAdded(db, s, id) {
        var p := KeyFor(db'.permissions, slug);
        assert (id, p) in db'.grants;
      }
    }
  }

  lemma SeedingOnlyAddsGrants(db: Tables, s: Seeding, id: RoleId)
    ensures SlugsOf(db, id) <= SlugsOf(Seeded(db, s), id)
  {
  }

  /** Roles stay, keep their level, and between versions keep their grants, or with a seeding boot only gain some. */
  ghost predicate Moves(db: Tables, db': Tables, exact: bool) {
    forall id :: id in db.roles ==>
      && id in db'.roles
      && db'.roles[id].level == db.roles[id].level
      && db.roles[id].version <= db'.roles[id].version
      && (db'.roles[id].version == db.roles[id].version ==>
            && SlugsOf(db, id) <= SlugsOf(db', id)
            && (exact ==> SlugsOf(db', id) == SlugsOf(db, id)))
  }

  lemma StepMoves(s: Sys, op: Op)
    requires RegistryInv(s.db, s.view)
    ensures Moves(s.db, Step(s, op).db, op.Restart? ==> AddsNoGrant(s.db, op.seeding))
  {
    match op
    case UpdatePermissions(role, requested, fate) =>
      if Updated(s.db, s.view, role, requested).Ok? {
        UpdateEffect(s.db, s.view, role, requested);
      }
      if fate.Lives? {
        UpdateOutcomes(s.db, s.view, role, requested, fate.fault);
      }
      hide Updated, UpdateAttempt, SlugsOf, RegistryInv, SoundTables;
    case UpdateStatus(user, status, _) =>
      if StatusSet(s.db, s.view, user, status).Ok? {
        StatusEffect(s.db, s.view, user, status);
      }
      hide SlugsOf, RegistryInv, SoundTables, Shows, ShowsUser;
    case Restart(seeding) =>
      forall id | id in s.db.roles
        ensures SlugsOf(s.db, id) <= SlugsOf(Step(s, op).db, id)
      {
        SeedingOnlyAddsGrants(s.db, seeding, id);
      }
    case SignIn(_) =>
    case _ =>
      AccountTouches(s, op, 0, 0);
      hide SlugsOf, RegistryInv, SoundTables;
  }

  lemma StepKeepsTokens(s: Sys, op: Op)
    requires RegistryInv(s.db, s.view)
    requires op.Restart? ==> SoundSeeding(s.db, op.seeding)
    ensures TokensSafe(s) ==> TokensSafe(Step(s, op))
    ensures TokensHold(s) && (op.Restart? ==> AddsNoGrant(s.db, op.seeding)) ==> TokensHold(Step(s, op))
  {
    StepMoves(s, op);
    hide SlugsOf, UpdateAttempt, StatusAttempt, Updated, StatusSet, Seeded, SoundTables, AddsNoGrant;
  }

  lemma NothingIssued(db: Tables)
    ensures TokensSafe(Start(db)) && TokensHold(Start(db))
  {
  }

  lemma {:induction false} RunKeepsTokens(db: Tables, ops: seq<Op>)
    requires SoundTables(db) && SoundRun(Start(db), ops)
    ensures TokensSafe(Run(Start(db), ops))
    ensures QuietRun(Start(db), ops) ==> TokensHold(Run(Start(db), ops))
  {
    hide RegistryInv, TokensSafe, TokensHold, Shows, ShowsUser, Step, AddsNoGrant, SoundSeeding;
    if ops != [] {
      var front := ops[..|ops| - 1];
      assert forall i :: 0 <= i < |front| ==> ops[..i] == front[..i];
      SoundFront(Start(db), ops);
      ShownUnlessUnheard(db, front, 0, 0);
      RunKeepsTokens(db, front);
      StepKeepsTokens(Run(Start(db), front), ops[|ops| - 1]);
    } else {
      assert TokensSafe(Start(db)) && TokensHold(Start(db)) by {
        NothingIssued(db);
      }
    }
  }

  /** A token the guard accepts is at its role's current version exactly if the role's last commit was heard. */
  lemma {:induction false} AcceptedIsCurrentIff(db: Tables, ops: seq<Op>, c: Claims)
    requires SoundTables(db) && SoundRun(Start(db), ops) && c in Run(Start(db), ops).issued
    ensures var s := Run(Start(db), ops);
            && TokenKnown(s.db, c)
            && (Check(s.view, c) == Accepted ==>
                  (c.version == s.db.roles[c.roleId].version <==> !RoleBehind(Start(db), ops, c.roleId)))
  {
    RunKeepsTokens(db, ops);
    ShownUnlessUnheard(db, ops, c.roleId, c.userId);
    hide Run, RoleBehind, UserBehind, SlugsOf, SoundRun;
    var s := Run(Start(db), ops);
    ShownAtItsVersion(s.db, s.view, c.roleId);
    assert TokenSafe(s.db, c);
  }

  /**
   The token-carried check refines the query-the-database check: over any run whose restarts seed no
   grant, a token the guard accepts gets from the gate exactly the answer the tables give for its role,
   as long as the role's last commit and its user's were heard. The guard then accepts exactly the tokens
   of unsuspended accounts minted at their role's current version.
   */
  lemma {:induction false} TokenRefinesDatabase(db: Tables, ops: seq<Op>, c: Claims, slug: Slug, required: int)
    requires SoundTables(db) && SoundRun(Start(db), ops) && QuietRun(Start(db), ops)
    requires c in Run(Start(db), ops).issued
    requires !RoleBehind(Start(db), ops, c.roleId) && !UserBehind(Start(db), ops, c.userId)
    ensures var s := Run(Start(db), ops);
            && c.roleId in s.db.roles
            && (Check(s.view, c) == UserSuspended <==> c.userId in SuspendedUsers(s.db))
            && (Check(s.view, c) == Accepted
                <==> c.userId !in SuspendedUsers(s.db) && c.version == s.db.roles[c.roleId].version)
            && (Check(s.view, c) == Accepted ==>
                (Authorize(Some(c), slug, required) == Next <==> DatabaseAllows(s.db, c.roleId, slug, required)))
  {
    RunKeepsTokens(db, ops);
    ShownUnlessUnheard(db, ops, c.roleId, c.userId);
    hide Run, RoleBehind, UserBehind, SlugsOf, SuspendedUsers, SoundRun, QuietRun;
    var s := Run(Start(db), ops);
    ShownAtItsVersion(s.db, s.view, c.roleId);
    assert TokenHolds(s.db, c);
  }

  /** Seeding restarts included, the gate fails safe: what it lets an accepted token through to, the tables allow. */
  lemma {:induction false} GateFailsSafe(db: Tables, ops: seq<Op>, c: Claims, slug: Slug, required: int)
    requires SoundTables(db) && SoundRun(Start(db), ops)
    requires c in Run(Start(db), ops).issued && !RoleBehind(Start(db), ops, c.roleId)
    ensures var s := Run(Start(db), ops);
            Check(s.view, c) == Accepted && Authorize(Some(c), slug, required) == Next ==>
                DatabaseAllows(s.db, c.roleId, slug, required)
  {
    RunKeepsTokens(db, ops);
    AcceptedIsCurrentIff(db, ops, c);
    hide Run, RoleBehind, SlugsOf, SoundRun, Check;
    assert TokenSafe(Run(Start(db), ops).db, c);
  }

  /**
   A commit must have been heard: when the answer to a removal of all grants is lost, a token minted before
   it is accepted and let through to what the tables no longer allow.
   */
  lemma UnheardRemovalStaysOpen(s: Sys, role: RoleId, user: UserId, slug: Slug) returns (c: Claims)
    requires s.view == ViewOf(s.db) && SoundTables(s.db)
    requires role in s.db.roles && s.db.roles[role].level > LEVEL_SUPER_ADMIN && slug in SlugsOf(s.db, role)
    requires user in s.db.users && s.db.users[user].status == Active && s.db.users[user].roleId == role
    ensures var s' := Step(Step(s, SignIn(user)), UpdatePermissions(role, [], Lives(LosesAnswer)));
            && c in s'.issued && Check(s'.view, c) == Accepted
            && Authorize(Some(c), slug, c.level) == Next
            && !DatabaseAllows(s'.db, c.roleId, slug, c.level)
  {
    var row := s.db.roles[role];
    c := Claims(user, role, row.level, SlugsOf(s.db, role), row.version);
    var s1 := Step(s, SignIn(user));
    assert s1.db == s.db && s1.view == s.view && c in s1.issued;
    ReplaceGrantsAllOrNothing(s.db, role, []);
    UpdateEffect(s.db, s.view, role, []);
    UpdateOutcomes(s.db, s.view, role, [], LosesAnswer);
    assert ToSet<Slug>([]) == {};
    hide Updated, UpdateAttempt, Replaced, Deduped, SlugsOf;
  }

  // ----- Restarts that seed ----------------------------------------------------------------------------------

  /** The gate's answers agree with the tables for every live token. */
  ghost predicate LiveTokensAgree(s: Sys) {
    forall c, slug, required :: c in s.issued && Check(s.view, c) == Accepted ==>
      (Authorize(Some(c), slug, required) == Next <==> DatabaseAllows(s.db, c.roleId, slug, required))
  }

  /** A live token that does not bypass the gate. */
  ghost predicate Gated(s: Sys, c: Claims) {
    c in s.issued && Check(s.view, c) == Accepted && c.level > LEVEL_SUPER_ADMIN
  }

  /** They agree on a token that does not bypass the gate exactly when it carries its role's grants. */
  lemma AgreeIffExact(s: Sys)
    requires forall c :: c in s.issued ==> TokenKnown(s.db, c)
    ensures LiveTokensAgree(s) <==>
              forall c :: Gated(s, c) ==> c.permissions == SlugsOf(s.db, c.roleId)
  {
    hide SlugsOf, Check;
    if LiveTokensAgree(s) {
      forall c | Gated(s, c)
        ensures c.permissions == SlugsOf(s.db, c.roleId)
      {
        forall slug
          ensures slug in c.permissions <==> slug in SlugsOf(s.db, c.roleId)
        {
          assert Authorize(Some(c), slug, c.level) == Next <==> DatabaseAllows(s.db, c.roleId, slug, c.level);
        }
      }
    }
  }

  lemma GuardAcrossBoot(s: Sys, seeding: Seeding, c: Claims)
    requires s.view == ViewOf(s.db) && SoundSeeding(s.db, seeding) && TokenKnown(s.db, c)
    ensures Check(Step(s, Restart(seeding)).view, c) == Check(s.view, c)
    ensures TokenKnown(Step(s, Restart(seeding)).db, c)
  {
    hide SlugsOf;
  }

  /**
   Re-inserting default grants leaves a role's version alone. So live tokens agree with the tables after a
   boot exactly when they did before it and every default grant, with a slug that exists, of a role behind
   a live token that does not bypass the gate is in place already: what an operator can look up beforehand.
   */
  lemma {:induction false} ReseedingIsHarmlessIff(s: Sys, seeding: Seeding)
    requires s.view == ViewOf(s.db) && TokensSafe(s) && GrantsResolve(s.db) && SoundSeeding(s.db, seeding)
    ensures LiveTokensAgree(Step(s, Restart(seeding))) <==>
              && LiveTokensAgree(s)
              && forall c :: Gated(s, c) && c.roleId in seeding.roles ==>
                   seeding.roles[c.roleId].grants * (seeding.permissions + s.db.permissions).Values
                   <= SlugsOf(s.db, c.roleId)
  {
    var s' := Step(s, Restart(seeding));
    forall c | c in s.issued
      ensures Check(s'.view, c) == Check(s.view, c) && TokenKnown(s.db, c) && TokenKnown(s'.db, c)
      ensures SlugsOf(s'.db, c.roleId) == SlugsOf(s.db, c.roleId) + DefaultsAdded(s.db, seeding, c.roleId)
      ensures Check(s.view, c) == Accepted ==> c.permissions <= SlugsOf(s.db, c.roleId)
    {
      assert TokenSafe(s.db, c);
      GuardAcrossBoot(s, seeding, c);
      SeedingEffect(s.db, seeding, c.roleId);
    }
    assert s'.issued == s.issued;
    hide SlugsOf, Check, Step, GrantsResolve, SoundSeeding, TokensSafe;
    AgreeIffExact(s);
    AgreeIffExact(s');
    hide LiveTokensAgree, TokenKnown;
  }

  lemma StepKeepsForeignKey(s: Sys, op: Op)
    requires GrantsResolve(s.db)
    ensures GrantsResolve(Step(s, op).db)
  {
    if op.UpdatePermissions? && op.fate.Lives? {
      UpdateOutcomes(s.db, s.view, op.role, op.requested, op.fate.fault);
      hide UpdateAttempt, Deduped;
    }
  }

  /**
   Every reachable state meets what ReseedingIsHarmlessIff asks of tokens and grants, harmful boots behind
   it or not.
   */
  lemma {:induction false} RunsCanBeReseeded(db: Tables, ops: seq<Op>)
    requires SoundTables(db) && GrantsResolve(db) && SoundRun(Start(db), ops)
    ensures TokensSafe(Run(Start(db), ops)) && GrantsResolve(Run(Start(db), ops).db)
  {
    hide Step, TokensSafe, GrantsResolve, SoundSeeding;
    RunKeepsTokens(db, ops);
    if ops != [] {
      SoundFront(Start(db), ops);
      RunsCanBeReseeded(db, ops[..|ops| - 1]);
      StepKeepsForeignKey(Run(Start(db), ops[..|ops| - 1]), ops[|ops| - 1]);
    }
  }

  /** Removing every grant of a role and signing in mints a token that carries none. */
  lemma EmptiedRoleSignsIn(s: Sys, role: RoleId, user: UserId)
    requires s.view == ViewOf(s.db) && SoundTables(s.db)
    requires role in s.db.roles && s.db.roles[role].level > LEVEL_SUPER_ADMIN
    requires user in s.db.users && s.db.users[user].status == Active && s.db.users[user].roleId == role
    ensures var s' := Step(Step(s, UpdatePermissions(role, [], Lives(NoFault))), SignIn(user));
            var row := s.db.roles[role];
            && Claims(user, role, row.level, {}, row.version + 1) in s'.issued
            && s'.db.users == s.db.users && s'.db.permissions == s.db.permissions
            && s'.db.roles == s.db.roles[role := RoleRow(row.level, row.version + 1)]
  {
    ReplaceGrantsAllOrNothing(s.db, role, []);
    UpdateEffect(s.db, s.view, role, []);
    UpdateOutcomes(s.db, s.view, role, [], NoFault);
    assert SlugsOf(Updated(s.db, s.view, role, []).value.0, role) == {};
    hide Updated, UpdateAttempt, Replaced, Deduped, SlugsOf, SoundTables;
  }

  /** A live token without grants, a restart, and a default grant of its role. */
  lemma DefaultIsBack(s: Sys, seeding: Seeding, c: Claims, slug: Slug)
    requires c in s.issued && c.permissions == {} && c.level > LEVEL_SUPER_ADMIN
    requires c.roleId in s.db.roles && s.db.roles[c.roleId] == RoleRow(c.level, c.version)
    requires c.userId in s.db.users && s.db.users[c.userId].status == Active
    requires c.roleId in seeding.roles && slug in seeding.roles[c.roleId].grants && slug in s.db.permissions.Values
    ensures var s' := Step(s, Restart(seeding));
            && c in s'.issued && Check(s'.view, c) == Accepted
            && Authorize(Some(c), slug, c.level) == Forbidden
            && DatabaseAllows(s'.db, c.roleId, slug, c.level)
  {
    var s' := Step(s, Restart(seeding));
    var p := KeyFor(s.db.permissions, slug);
    assert s'.db.permissions[p] == slug && (c.roleId, p) in s'.db.grants;
    assert slug in SlugsOf(s'.db, c.roleId);
    assert s'.db.users[c.userId].status == Active;
    hide SlugsOf;
  }

  /**
   For every default grant of every role that does not bypass the gate: remove the role's grants, sign in,
   restart. The token is live and refused, while the tables grant the slug again.
   */
  lemma RemovedDefaultComesBack(s: Sys, role: RoleId, user: UserId, slug: Slug, seeding: Seeding) returns (c: Claims)
    requires s.view == ViewOf(s.db) && SoundTables(s.db)
    requires role in s.db.roles && s.db.roles[role].level > LEVEL_SUPER_ADMIN
    requires user in s.db.users && s.db.users[user].status == Active && s.db.users[user].roleId == role
    requires role in seeding.roles && slug in seeding.roles[role].grants && slug in s.db.permissions.Values
    ensures var s' := Step(Step(Step(s, UpdatePermissions(role, [], Lives(NoFault))), SignIn(user)), Restart(seeding));
            && c in s'.issued && Check(s'.view, c) == Accepted
            && Authorize(Some(c), slug, c.level) == Forbidden
            && DatabaseAllows(s'.db, c.roleId, slug, c.level)
  {
    hide *;
    EmptiedRoleSignsIn(s, role, user);
    var row := s.db.roles[role];
    c := Claims(user, role, row.level, {}, row.version + 1);
    DefaultIsBack(Step(Step(s, UpdatePermissions(role, [], Lives(NoFault))), SignIn(user)), seeding, c, slug);
  }
}
