/**
 The same calls without the atomicity: UpdatePermissions reads the role, commits, then publishes to the
 registry, unless the commit's answer is lost; Resolve takes the registry lock three times. Any number of
 both interleave. `committed` is the history of the roles table: the grants each (role, version) was
 committed with.
 */
module AccessRaces {
  import opened Wrappers
  import opened Sets
  import opened Registry
  import opened Roles
  import opened Access
  import opened AccessRuns

  type Pid = nat

  datatype Update =
    | RoleRead(role: RoleId, level: int, slugs: seq<Slug>)
    | Committed(role: RoleId, level: int, slugs: seq<Slug>, version: int)

  /** `seenAt` is the registry's version when the grants were read. */
  datatype Resolving =
    | LevelRead(user: UserId, role: RoleId, level: int)
    | GrantsRead(user: UserId, role: RoleId, level: int, grants: set<Slug>, seenAt: int)

  datatype Minted = Minted(claims: Claims, seenAt: int)

  datatype State = State(
    db: Tables,
    view: View,
    committed: map<(RoleId, int), set<Slug>>,
    updates: map<Pid, Update>,
    resolves: map<Pid, Resolving>,
    minted: set<Minted>)

  datatype Event =
    | Begin(pid: Pid, role: RoleId, requested: seq<Slug>)
    | Commit(pid: Pid)
    | Abort(pid: Pid)
    | Publish(pid: Pid)
    | Lose(pid: Pid)            // the commit's answer never arrives: the caller sees an error
    | ReadLevel(pid: Pid, user: UserId, role: RoleId)
    | ReadGrants(pid: Pid)
    | ReadVersion(pid: Pid)

  function CurrentVersions(db: Tables): set<(RoleId, int)> {
    set id | id in db.roles :: (id, db.roles[id].version)
  }

  function Init(db: Tables): State {
    State(db, ViewOf(db), map k | k in CurrentVersions(db) :: SlugsOf(db, k.0), map[], map[], {})
  }

  function Next(s: State, e: Event): Option<State> {
    match e
    case Begin(pid, role, requested) =>
      if pid in s.updates || role !in s.db.roles || s.db.roles[role].level <= LEVEL_SUPER_ADMIN then None
      else Some(s.(updates := s.updates[pid := RoleRead(role, s.db.roles[role].level, Deduped(requested))]))
    case Commit(pid) =>
      if pid !in s.updates || !s.updates[pid].RoleRead? then None
      else
        var u := s.updates[pid];
        (match Replaced(s.db, u.role, u.slugs)
         case Err(_) => None
         case Ok((db', version)) =>
           Some(s.(db := db',
                   committed := s.committed[(u.role, version) := SlugsOf(db', u.role)],
                   updates := s.updates[pid := Committed(u.role, u.level, u.slugs, version)])))
    case Abort(pid) =>
      if pid !in s.updates || !s.updates[pid].RoleRead? then None
      else Some(s.(updates := s.updates - {pid}))
    case Publish(pid) =>
      if pid !in s.updates || !s.updates[pid].Committed? then None
      else
        var u := s.updates[pid];
        Some(s.(view := WithRole(s.view, u.role, u.level, u.version, ToSet(u.slugs)), updates := s.updates - {pid}))
    case Lose(pid) =>
      if pid !in s.updates || !s.updates[pid].Committed? then None
      else Some(s.(updates := s.updates - {pid}))
    case ReadLevel(pid, user, role) =>
      if pid in s.resolves || LevelIn(s.view, role).None? then None
      else Some(s.(resolves := s.resolves[pid := LevelRead(user, role, LevelIn(s.view, role).value)]))
    case ReadGrants(pid) =>
      if pid !in s.resolves || !s.resolves[pid].LevelRead? then None
      else
        var r := s.resolves[pid];
        var read := GrantsRead(r.user, r.role, r.level, PermissionsIn(s.view, r.role), VersionIn(s.view, r.role));
        Some(s.(resolves := s.resolves[pid := read]))
    case ReadVersion(pid) =>
      if pid !in s.resolves || !s.resolves[pid].GrantsRead? then None
      else
        var r := s.resolves[pid];
        var c := Claims(r.user, r.role, r.level, r.grants, VersionIn(s.view, r.role));
        Some(s.(resolves := s.resolves - {pid}, minted := s.minted + {Minted(c, r.seenAt)}))
  }

  function Run(s: State, es: seq<Event>): Option<State> {
    if es == [] then Some(s)
    else match Run(s, es[..|es| - 1])
         case None => None
         case Some(middle) => Next(middle, es[|es| - 1])
  }

  // ----- What every interleaving keeps -----------------------------------------------------------------

  /** The history holds every role's current row and nothing newer. */
  ghost predicate HistoryInv(s: State) {
    && SoundTables(s.db)
    && (forall id :: id in s.db.roles ==>
          (id, s.db.roles[id].version) in s.committed && s.committed[(id, s.db.roles[id].version)] == SlugsOf(s.db, id))
    && (forall k :: k in s.committed ==> k.0 in s.db.roles && k.1 <= s.db.roles[k.0].version)
  }

  /** An update about to publish holds a pair from the history. */
  ghost predicate UpdatesInv(s: State) {
    forall pid :: pid in s.updates ==>
      var u := s.updates[pid];
      && u.role in s.db.roles && u.level == s.db.roles[u.role].level && NoRepeats(u.slugs)
      && (u.Committed? ==> (u.role, u.version) in s.committed && s.committed[(u.role, u.version)] == ToSet(u.slugs))
  }

  /** Each role's (version, grants) in the registry is a pair the database committed together. */
  ghost predicate PairsInv(s: State) {
    && s.view.versions.Keys == s.view.permissions.Keys == s.view.levels.Keys == s.db.roles.Keys
    && (forall id :: id in s.db.roles ==>
          && s.view.levels[id] == s.db.roles[id].level
          && (id, s.view.versions[id]) in s.committed
          && s.committed[(id, s.view.versions[id])] == s.view.permissions[id])
  }

  /** A grants read, and a minted token, carry what was committed with the version seen at that moment. */
  ghost predicate ReadsInv(s: State) {
    && (forall pid :: pid in s.resolves ==>
          var r := s.resolves[pid];
          && r.role in s.db.roles && r.level == s.db.roles[r.role].level
          && (r.GrantsRead? ==> (r.role, r.seenAt) in s.committed && s.committed[(r.role, r.seenAt)] == r.grants))
    && (forall m :: m in s.minted ==>
          && m.claims.roleId in s.db.roles && m.claims.level == s.db.roles[m.claims.roleId].level
          && (m.claims.roleId, m.seenAt) in s.committed
              && s.committed[(m.claims.roleId, m.seenAt)] == m.claims.permissions
          && (m.claims.roleId, m.claims.version) in s.committed)
  }

  ghost predicate Inv(s: State) {
    HistoryInv(s) && UpdatesInv(s) && PairsInv(s) && ReadsInv(s)
  }

  lemma InitInv(db: Tables)
    requires SoundTables(db)
    ensures Inv(Init(db))
  {
    hide SlugsOf;
  }

  /** The transaction's effect on a list already without repeats. */
  lemma ReplacedEffect(db: Tables, id: RoleId, slugs: seq<Slug>)
    requires UniqueSlugs(db) && id in db.roles && Replaced(db, id, slugs).Ok?
    ensures var (db', version) := Replaced(db, id, slugs).value;
            && SlugsOf(db', id) == ToSet(slugs)
            && (forall other :: other != id ==> SlugsOf(db', other) == SlugsOf(db, other))
            && version == db.roles[id].version + 1
            && db'.roles == db.roles[id := RoleRow(db.roles[id].level, version)]
            && db'.permissions == db.permissions
  {
    var db' := Replaced(db, id, slugs).value.0;
    CountTestIsExact(db, slugs);
    var ids := IdsOf(db, slugs);
    assert forall p :: (id, p) in db'.grants <==> p in ids;
    assert forall other, p :: other != id ==> ((other, p) in db'.grants <==> (other, p) in db.grants);
    forall slug | slug in ToSet(slugs)
      ensures slug in SlugsOf(db', id)
    {
      var p := KeyFor(db.permissions, slug);
      assert p in ids;
    }
  }

  /** A commit writes a version nobody has written before. */
  lemma CommitEffect(s: State, pid: Pid)
    requires HistoryInv(s) && UpdatesInv(s) && Next(s, Commit(pid)).Some?
    ensures var s', u := Next(s, Commit(pid)).value, s.updates[pid];
            var version := s.db.roles[u.role].version + 1;
            && s'.db.roles == s.db.roles[u.role := RoleRow(s.db.roles[u.role].level, version)]
            && (u.role, version) !in s.committed
            && s'.committed == s.committed[(u.role, version) := ToSet(u.slugs)]
            && s'.updates == s.updates[pid := Committed(u.role, u.level, u.slugs, version)]
            && SlugsOf(s'.db, u.role) == ToSet(u.slugs)
            && (forall id :: id != u.role ==> SlugsOf(s'.db, id) == SlugsOf(s.db, id))
            && SoundTables(s'.db)
            && s'.view == s.view && s'.resolves == s.resolves && s'.minted == s.minted
  {
    var u := s.updates[pid];
    var (db', version) := Replaced(s.db, u.role, u.slugs).value;
    ReplacedEffect(s.db, u.role, u.slugs);
  }

  lemma CommitKeepsHistory(s: State, pid: Pid)
    requires HistoryInv(s) && UpdatesInv(s) && Next(s, Commit(pid)).Some?
    ensures HistoryInv(Next(s, Commit(pid)).value) && UpdatesInv(Next(s, Commit(pid)).value)
    ensures Next(s, Commit(pid)).value.db.roles.Keys == s.db.roles.Keys
  {
    CommitEffect(s, pid);
    hide SlugsOf, Replaced, Deduped, Next, SoundTables, NoRepeats, ToSet;
    var s' := Next(s, Commit(pid)).value;
    assert HistoryInv(s') by {
      hide UpdatesInv;
    }
    assert UpdatesInv(s');
  }

  lemma CommitKeepsInv(s: State, pid: Pid)
    requires Inv(s) && Next(s, Commit(pid)).Some?
    ensures Inv(Next(s, Commit(pid)).value)
    ensures Next(s, Commit(pid)).value.db.roles.Keys == s.db.roles.Keys
  {
    CommitEffect(s, pid);
    CommitKeepsHistory(s, pid);
    hide SlugsOf, Replaced, Deduped, Next, SoundTables, NoRepeats, ToSet, UpdatesInv;
    var s', u := Next(s, Commit(pid)).value, s.updates[pid];
    assert forall k :: k in s.committed ==> k in s'.committed && s'.committed[k] == s.committed[k];
    hide HistoryInv;
  }

  lemma StepKeepsHistory(s: State, e: Event)
    requires Inv(s) && Next(s, e).Some? && !e.Commit?
    ensures HistoryInv(Next(s, e).value) && Next(s, e).value.db == s.db && Next(s, e).value.committed == s.committed
  {
    hide SlugsOf, Replaced, Deduped, UpdatesInv, PairsInv, ReadsInv;
  }

  lemma StepKeepsUpdates(s: State, e: Event)
    requires Inv(s) && Next(s, e).Some? && !e.Commit?
    ensures UpdatesInv(Next(s, e).value)
  {
    if e.Begin? {
      DedupedIsDistinct(e.requested);
    }
    hide SlugsOf, Replaced, Deduped, HistoryInv, PairsInv, ReadsInv, NoRepeats, ToSet;
  }

  lemma StepKeepsPairs(s: State, e: Event)
    requires Inv(s) && Next(s, e).Some? && !e.Commit?
    ensures PairsInv(Next(s, e).value)
  {
    hide SlugsOf, Replaced, Deduped, HistoryInv, ReadsInv;
  }

  lemma StepKeepsReads(s: State, e: Event)
    requires Inv(s) && Next(s, e).Some? && !e.Commit?
    ensures ReadsInv(Next(s, e).value)
  {
    hide SlugsOf, Replaced, Deduped, HistoryInv, UpdatesInv;
  }

  lemma StepKeepsInv(s: State, e: Event)
    requires Inv(s) && Next(s, e).Some?
    ensures Inv(Next(s, e).value) && Next(s, e).value.db.roles.Keys == s.db.roles.Keys
  {
    if e.Commit? {
      CommitKeepsInv(s, e.pid);
    } else {
      hide Next, HistoryInv, UpdatesInv, PairsInv, ReadsInv;
      StepKeepsHistory(s, e);
      StepKeepsUpdates(s, e);
      StepKeepsPairs(s, e);
      StepKeepsReads(s, e);
    }
  }

  lemma {:induction false} RunKeepsInv(db: Tables, es: seq<Event>)
    requires SoundTables(db) && Run(Init(db), es).Some?
    ensures Inv(Run(Init(db), es).value) && Run(Init(db), es).value.db.roles.Keys == db.roles.Keys
  {
    hide Next, HistoryInv, UpdatesInv, PairsInv, ReadsInv;
    if es == [] {
      InitInv(db);
    } else {
      RunKeepsInv(db, es[..|es| - 1]);
      StepKeepsInv(Run(Init(db), es[..|es| - 1]).value, es[|es| - 1]);
    }
  }

  /** In every interleaving, what the registry publishes for a role is one committed pair, never a mixture. */
  lemma RegistryPairsWereCommitted(db: Tables, es: seq<Event>, s: State, id: RoleId)
    requires SoundTables(db) && Run(Init(db), es) == Some(s) && id in s.db.roles
    ensures var version := VersionIn(s.view, id);
            && (id, version) in s.committed && s.committed[(id, version)] == PermissionsIn(s.view, id)
            && version <= s.db.roles[id].version
  {
    RunKeepsInv(db, es);
  }

  lemma StepKeepsCommitted(s: State, e: Event)
    requires Inv(s) && Next(s, e).Some?
    ensures forall k :: k in s.committed ==>
              k in Next(s, e).value.committed && Next(s, e).value.committed[k] == s.committed[k]
  {
    if e.Commit? {
      CommitEffect(s, e.pid);
    } else {
      StepKeepsHistory(s, e);
    }
    hide Next, HistoryInv, UpdatesInv, PairsInv, ReadsInv;
  }

  /** What was committed together stays so: no commit writes a version twice. */
  lemma {:induction false} CommittedStays(s: State, es: seq<Event>)
    requires Inv(s) && Run(s, es).Some?
    ensures Inv(Run(s, es).value)
    ensures forall k :: k in s.committed ==>
              k in Run(s, es).value.committed && Run(s, es).value.committed[k] == s.committed[k]
  {
    hide Next, Inv;
    if es != [] {
      var front, e := es[..|es| - 1], es[|es| - 1];
      CommittedStays(s, front);
      StepKeepsInv(Run(s, front).value, e);
      StepKeepsCommitted(Run(s, front).value, e);
    }
  }

  /** The token the third read would mint. */
  function Minting(s: State, pid: Pid): Minted
    requires pid in s.resolves && s.resolves[pid].GrantsRead?
  {
    var r := s.resolves[pid];
    Minted(Claims(r.user, r.role, r.level, r.grants, VersionIn(s.view, r.role)), r.seenAt)
  }

  /**
   The token minted by the third read carries the grants committed with its version if and only if the
   registry still shows, at that read, the grants the second read saw; and what holds of it then holds for
   good, whatever is committed and published after.
   */
  lemma {:induction false} TokenIsExactIff(db: Tables, es: seq<Event>, s: State, pid: Pid, more: seq<Event>)
    requires SoundTables(db) && Run(Init(db), es) == Some(s) && pid in s.resolves && s.resolves[pid].GrantsRead?
    requires Run(Next(s, ReadVersion(pid)).value, more).Some?
    ensures var c, later := Minting(s, pid).claims, Run(Next(s, ReadVersion(pid)).value, more).value;
            && Minting(s, pid) in Next(s, ReadVersion(pid)).value.minted
            && (c.roleId, c.version) in later.committed
            && (later.committed[(c.roleId, c.version)] == c.permissions
                <==> PermissionsIn(s.view, c.roleId) == c.permissions)
  {
    RunKeepsInv(db, es);
    StepKeepsInv(s, ReadVersion(pid));
    StepKeepsHistory(s, ReadVersion(pid));
    hide HistoryInv, UpdatesInv, SlugsOf;
    CommittedStays(Next(s, ReadVersion(pid)).value, more);
  }

  predicate PublishesRole(s: State, e: Event, role: RoleId) {
    e.Publish? && e.pid in s.updates && s.updates[e.pid].role == role
  }

  /** No update of the role is published, and the sign-in does not read on. */
  ghost predicate QuietBetween(s: State, es: seq<Event>, pid: Pid, role: RoleId) {
    forall i :: 0 <= i < |es| && Run(s, es[..i]).Some? ==>
      !PublishesRole(Run(s, es[..i]).value, es[i], role) && es[i] != ReadVersion(pid)
  }

  lemma QuietStep(s: State, e: Event, pid: Pid, role: RoleId)
    requires Next(s, e).Some? && !PublishesRole(s, e, role) && e != ReadVersion(pid)
    requires pid in s.resolves && s.resolves[pid].GrantsRead?
    ensures var s' := Next(s, e).value;
            && pid in s'.resolves && s'.resolves[pid] == s.resolves[pid]
            && PermissionsIn(s'.view, role) == PermissionsIn(s.view, role)
                && VersionIn(s'.view, role) == VersionIn(s.view, role)
  {
    hide Replaced, Deduped, SlugsOf;
  }

  lemma {:induction false} QuietKeepsRead(s: State, es: seq<Event>, pid: Pid, role: RoleId)
    requires Run(s, es).Some? && QuietBetween(s, es, pid, role)
    requires pid in s.resolves && s.resolves[pid].GrantsRead?
    ensures var t := Run(s, es).value;
            && pid in t.resolves && t.resolves[pid] == s.resolves[pid]
            && PermissionsIn(t.view, role) == PermissionsIn(s.view, role)
                && VersionIn(t.view, role) == VersionIn(s.view, role)
  {
    hide Next, PublishesRole, PermissionsIn, VersionIn;
    if es != [] {
      var front := es[..|es| - 1];
      assert forall i :: 0 <= i < |front| ==> front[..i] == es[..i] && front[i] == es[i];
      QuietKeepsRead(s, front, pid, role);
      QuietStep(Run(s, front).value, es[|es| - 1], pid, role);
    }
  }

  /** The token's grants are those committed with its version, and the role's own if that version is current. */
  ghost predicate Exact(s: State, c: Claims) {
    && (c.roleId, c.version) in s.committed && s.committed[(c.roleId, c.version)] == c.permissions
    && c.roleId in s.db.roles
    && (c.version == s.db.roles[c.roleId].version ==> c.permissions == SlugsOf(s.db, c.roleId))
  }

  lemma ExactWhenShown(t: State, pid: Pid)
    requires Inv(t) && pid in t.resolves && t.resolves[pid].GrantsRead?
    requires PermissionsIn(t.view, t.resolves[pid].role) == t.resolves[pid].grants
    ensures Next(t, ReadVersion(pid)).Some? && Minting(t, pid) in Next(t, ReadVersion(pid)).value.minted
    ensures Exact(t, Minting(t, pid).claims)
  {
    hide SlugsOf, UpdatesInv;
  }

  lemma ReadsWhatIsShown(s: State, es: seq<Event>, pid: Pid)
    requires es != [] && es[|es| - 1] == ReadGrants(pid) && Run(s, es).Some?
    ensures var t := Run(s, es).value;
            && pid in t.resolves && t.resolves[pid].GrantsRead?
            && t.resolves[pid].grants == PermissionsIn(t.view, t.resolves[pid].role)
  {
    hide PermissionsIn;
  }

  /**
   When no update of its role is published between a sign-in's second read, which brings the run to s, and
   its third, made in t, the token it mints is exact.
   */
  lemma {:induction false} UndisturbedTokenIsExact(db: Tables, es: seq<Event>, s: State, pid: Pid, role: RoleId,
                                                   between: seq<Event>, t: State)
    requires SoundTables(db) && Run(Init(db), es + [ReadGrants(pid)]) == Some(s)
    requires pid in s.resolves ==> s.resolves[pid].role == role
    requires Run(s, between) == Some(t) && QuietBetween(s, between, pid, role)
    ensures pid in t.resolves && t.resolves[pid].GrantsRead? && Next(t, ReadVersion(pid)).Some?
    ensures Minting(t, pid) in Next(t, ReadVersion(pid)).value.minted && Exact(t, Minting(t, pid).claims)
  {
    hide *;
    ReadsWhatIsShown(Init(db), es + [ReadGrants(pid)], pid);
    RunKeepsInv(db, es + [ReadGrants(pid)]);
    CommittedStays(s, between);
    QuietKeepsRead(s, between, pid, role);
    ExactWhenShown(t, pid);
  }

  // ----- When updates to a role do not overlap ---------------------------------------------------------

  ghost predicate OneAtATime(s: State, role: RoleId) {
    forall p, q :: p in s.updates && q in s.updates && s.updates[p].role == role && s.updates[q].role == role ==> p == q
  }

  ghost predicate SerialRun(s: State, es: seq<Event>, role: RoleId) {
    forall i :: 0 <= i <= |es| && Run(s, es[..i]).Some? ==> OneAtATime(Run(s, es[..i]).value, role)
  }

  /** The one update past its commit holds the table's current version, which the registry does not have yet. */
  ghost predicate SerialInv(s: State, role: RoleId) {
    && role in s.db.roles
    && var current, shown := s.db.roles[role].version, VersionIn(s.view, role);
    && shown <= current
    && (forall p :: p in s.updates && s.updates[p].role == role && s.updates[p].Committed? ==>
          s.updates[p].version == current && shown < current)
    && (forall p :: p in s.resolves && s.resolves[p].role == role && s.resolves[p].GrantsRead? ==>
        s.resolves[p].seenAt <= shown)
    && (forall m :: m in s.minted && m.claims.roleId == role ==> m.seenAt <= m.claims.version)
  }

  lemma CommitKeepsSerialInv(s: State, pid: Pid, role: RoleId)
    requires Inv(s) && SerialInv(s, role) && Next(s, Commit(pid)).Some? && OneAtATime(s, role)
    ensures SerialInv(Next(s, Commit(pid)).value, role)
  {
    CommitEffect(s, pid);
    hide SlugsOf, Replaced, Deduped, Next, HistoryInv, ReadsInv;
  }

  lemma UpdateStepKeepsSerialInv(s: State, e: Event, role: RoleId)
    requires Inv(s) && SerialInv(s, role) && Next(s, e).Some? && (e.Begin? || e.Abort? || e.Publish? || e.Lose?)
    requires OneAtATime(s, role)
    ensures SerialInv(Next(s, e).value, role)
  {
    hide SlugsOf, Replaced, Deduped, HistoryInv, ReadsInv;
  }

  lemma StepKeepsSerialInv(s: State, e: Event, role: RoleId)
    requires Inv(s) && SerialInv(s, role) && Next(s, e).Some? && OneAtATime(s, role)
    ensures SerialInv(Next(s, e).value, role)
  {
    if e.Commit? {
      CommitKeepsSerialInv(s, e.pid, role);
    } else if e.Begin? || e.Abort? || e.Publish? || e.Lose? {
      UpdateStepKeepsSerialInv(s, e, role);
    } else {
      hide SlugsOf, Replaced, Deduped, HistoryInv, UpdatesInv, OneAtATime;
    }
  }

  lemma SerialFront(s: State, es: seq<Event>, role: RoleId)
    requires es != [] && Run(s, es).Some? && SerialRun(s, es, role)
    ensures SerialRun(s, es[..|es| - 1], role)
    ensures OneAtATime(Run(s, es[..|es| - 1]).value, role) && OneAtATime(Run(s, es).value, role)
  {
    hide Next, OneAtATime;
    var front := es[..|es| - 1];
    assert forall i :: 0 <= i <= |front| ==> front[..i] == es[..i];
    assert es[..|es|] == es;
  }

  lemma {:induction false} RunKeepsSerialInv(db: Tables, es: seq<Event>, role: RoleId)
    requires SoundTables(db) && role in db.roles && Run(Init(db), es).Some? && SerialRun(Init(db), es, role)
    ensures SerialInv(Run(Init(db), es).value, role)
  {
    hide Next, Inv, OneAtATime, SerialRun;
    if es != [] {
      hide SerialInv;
      var front := es[..|es| - 1];
      SerialFront(Init(db), es, role);
      RunKeepsSerialInv(db, front, role);
      RunKeepsInv(db, front);
      StepKeepsSerialInv(Run(Init(db), front).value, es[|es| - 1], role);
    }
  }

  /** An update of the role has committed and not yet published. */
  ghost predicate Unpublished(s: State, role: RoleId) {
    exists p :: p in s.updates && s.updates[p].role == role && s.updates[p].Committed?
  }

  predicate LosesRole(s: State, e: Event, role: RoleId) {
    e.Lose? && e.pid in s.updates && s.updates[e.pid].role == role
  }

  ghost predicate HeardRun(s: State, es: seq<Event>, role: RoleId) {
    forall i :: 0 <= i < |es| && Run(s, es[..i]).Some? ==> !LosesRole(Run(s, es[..i]).value, es[i], role)
  }

  ghost predicate BehindInv(s: State, role: RoleId) {
    role in s.db.roles && (VersionIn(s.view, role) < s.db.roles[role].version ==> Unpublished(s, role))
  }

  lemma CommitKeepsBehind(s: State, pid: Pid, role: RoleId)
    requires Inv(s) && BehindInv(s, role) && Next(s, Commit(pid)).Some?
    ensures BehindInv(Next(s, Commit(pid)).value, role)
  {
    var s' := Next(s, Commit(pid)).value;
    CommitEffect(s, pid);
    hide SlugsOf, Replaced, Deduped, Next, HistoryInv, UpdatesInv, PairsInv, ReadsInv;
    if s.updates[pid].role == role {
      assert pid in s'.updates && s'.updates[pid].Committed?;
    } else if VersionIn(s.view, role) < s.db.roles[role].version {
      var p :| p in s.updates && s.updates[p].role == role && s.updates[p].Committed?;
      assert p in s'.updates && s'.updates[p].Committed? && s'.updates[p].role == role;
    }
  }

  lemma StepKeepsBehind(s: State, e: Event, role: RoleId)
    requires Inv(s) && SerialInv(s, role) && BehindInv(s, role) && Next(s, e).Some? && !LosesRole(s, e, role)
    ensures BehindInv(Next(s, e).value, role)
  {
    if e.Commit? {
      CommitKeepsBehind(s, e.pid, role);
    } else {
      hide SlugsOf, Replaced, Deduped, HistoryInv, UpdatesInv, PairsInv, ReadsInv;
      var s' := Next(s, e).value;
      if VersionIn(s.view, role) < s.db.roles[role].version && !PublishesRole(s, e, role) {
        var p :| p in s.updates && s.updates[p].role == role && s.updates[p].Committed?;
        assert p in s'.updates && s'.updates[p].Committed? && s'.updates[p].role == role;
      }
    }
  }

  lemma {:induction false} RunKeepsBehind(db: Tables, es: seq<Event>, role: RoleId)
    requires SoundTables(db) && role in db.roles && Run(Init(db), es).Some?
    requires SerialRun(Init(db), es, role) && HeardRun(Init(db), es, role)
    ensures BehindInv(Run(Init(db), es).value, role)
  {
    hide Next, Inv, OneAtATime, SerialRun, LosesRole;
    if es != [] {
      hide SerialInv, BehindInv;
      var front := es[..|es| - 1];
      SerialFront(Init(db), es, role);
      assert forall i :: 0 <= i < |front| ==> front[..i] == es[..i] && front[i] == es[i];
      RunKeepsBehind(db, front, role);
      RunKeepsSerialInv(db, front, role);
      RunKeepsInv(db, front);
      StepKeepsBehind(Run(Init(db), front).value, es[|es| - 1], role);
    }
  }

  /**
   If updates to a role do not overlap and no commit's answer is lost, the registry is behind the table on
   that role exactly while an update of it has committed and not yet published; otherwise it shows the
   role's version, level and grants as the tables have them.
   */
  lemma {:induction false} RegistryIsBehindIff(db: Tables, es: seq<Event>, s: State, role: RoleId)
    requires SoundTables(db) && role in db.roles && Run(Init(db), es) == Some(s)
    requires SerialRun(Init(db), es, role) && HeardRun(Init(db), es, role)
    ensures role in s.db.roles && LevelIn(s.view, role) == Some(s.db.roles[role].level)
    ensures VersionIn(s.view, role) < s.db.roles[role].version <==> Unpublished(s, role)
    ensures !Unpublished(s, role) ==>
              VersionIn(s.view, role) == s.db.roles[role].version && PermissionsIn(s.view, role) == SlugsOf(s.db, role)
  {
    RunKeepsInv(db, es);
    RunKeepsSerialInv(db, es, role);
    RunKeepsBehind(db, es, role);
    hide SlugsOf, Run, SerialRun, HeardRun, UpdatesInv, ReadsInv;
  }

  /**
   If updates to a role do not overlap each other, the grants in any of its tokens were in force at some
   version no later than the token's own, however the three reads fell.
   */
  lemma TokenIsNeverAhead(db: Tables, es: seq<Event>, s: State, m: Minted)
    requires SoundTables(db) && Run(Init(db), es) == Some(s) && m in s.minted
    requires SerialRun(Init(db), es, m.claims.roleId)
    ensures exists v :: v <= m.claims.version && (m.claims.roleId, v) in s.committed
                        && s.committed[(m.claims.roleId, v)] == m.claims.permissions
  {
    RunKeepsInv(db, es);
    RunKeepsSerialInv(db, es, m.claims.roleId);
    assert m.seenAt <= m.claims.version && (m.claims.roleId, m.seenAt) in s.committed;
  }

  lemma CheckAccepts(v: View, c: Claims, db: Tables)
    requires v.suspended == ViewOf(db).suspended && c.userId !in SuspendedUsers(db)
        && VersionIn(v, c.roleId) == c.version
    ensures Check(v, c) == Accepted
  {
  }

  lemma OneMore(s: State, es: seq<Event>, e: Event)
    requires Run(s, es).Some?
    ensures Run(s, es + [e]) == Next(Run(s, es).value, e)
  {
    assert (es + [e])[..|es + [e]| - 1] == es;
  }

  lemma HalfwayThere(db: Tables, user: UserId, role: RoleId, requested: seq<Slug>)
    requires role in db.roles && db.roles[role].level > LEVEL_SUPER_ADMIN
    ensures var row := db.roles[role];
            var half := Run(Init(db), [ReadLevel(0, user, role), ReadGrants(0), Begin(1, role, requested)]);
            && half.Some?
            && half.value.resolves == map[0 := GrantsRead(user, role, row.level, SlugsOf(db, role), row.version)]
            && half.value.updates == map[1 := RoleRead(role, row.level, Deduped(requested))]
            && half.value.db == db && half.value.view == ViewOf(db)
  {
    hide SlugsOf, Replaced, Deduped;
    var s0 := Init(db);
    OneMore(s0, [], ReadLevel(0, user, role));
    assert [] + [ReadLevel(0, user, role)] == [ReadLevel(0, user, role)];
    OneMore(s0, [ReadLevel(0, user, role)], ReadGrants(0));
    assert [ReadLevel(0, user, role)] + [ReadGrants(0)] == [ReadLevel(0, user, role), ReadGrants(0)];
    OneMore(s0, [ReadLevel(0, user, role), ReadGrants(0)], Begin(1, role, requested));
    assert [ReadLevel(0, user, role), ReadGrants(0)] + [Begin(1, role, requested)]
        == [ReadLevel(0, user, role), ReadGrants(0), Begin(1, role, requested)];
  }

  lemma SoundHasUniqueSlugs(db: Tables)
    requires SoundTables(db)
    ensures UniqueSlugs(db)
  {
  }

  lemma OneCommitted(s: State, pid: Pid, requested: seq<Slug>)
    requires pid in s.updates && s.updates[pid].RoleRead? && s.updates[pid].slugs == Deduped(requested)
    requires UniqueSlugs(s.db) && s.updates[pid].role in s.db.roles
        && ToSet(requested) - {""} <= s.db.permissions.Values
    ensures var u := s.updates[pid];
            var version := s.db.roles[u.role].version + 1;
            var s' := Next(s, Commit(pid));
            && s'.Some?
            && s'.value == s.(db := s'.value.db,
                              committed := s.committed[(u.role, version) := ToSet(requested) - {""}],
                              updates := s.updates[pid := Committed(u.role, u.level, u.slugs, version)])
            && s'.value.db.roles == s.db.roles[u.role := RoleRow(s.db.roles[u.role].level, version)]
            && s'.value.db.permissions == s.db.permissions && UniqueSlugs(s'.value.db)
            && SlugsOf(s'.value.db, u.role) == ToSet(requested) - {""}
  {
    ReplaceGrantsAllOrNothing(s.db, s.updates[pid].role, requested);
    hide Replaced, Deduped, SlugsOf, ToSet;
  }

  /** The earlier update is published over it, and the sign-in reads the version. */
  lemma EarlierIsPublished(s: State, read: Resolving, earlier: Update)
    requires s.updates == map[1 := earlier] && s.resolves == map[0 := read]
    requires earlier.Committed? && read.GrantsRead? && read.role == earlier.role
    ensures var r := Run(s, [Publish(1), ReadVersion(0)]);
            && r.Some? && r.value.updates == map[] && r.value.db == s.db && r.value.committed == s.committed
            && Minted(Claims(read.user, read.role, read.level, read.grants, earlier.version), read.seenAt)
               in r.value.minted
            && VersionIn(r.value.view, read.role) == earlier.version && r.value.view.suspended == s.view.suspended
  {
    hide ToSet;
    OneMore(s, [], Publish(1));
    assert [] + [Publish(1)] == [Publish(1)];
    OneMore(s, [Publish(1)], ReadVersion(0));
    assert [Publish(1)] + [ReadVersion(0)] == [Publish(1), ReadVersion(0)];
  }

  lemma {:induction false} RunConcat(s: State, a: seq<Event>, b: seq<Event>)
    requires Run(s, a).Some?
    ensures Run(s, a + b) == Run(Run(s, a).value, b)
  {
    hide Next;
    var all := a + b;
    if b == [] {
      assert all == a;
    } else {
      assert all[..|all| - 1] == a + b[..|b| - 1];
      RunConcat(s, a, b[..|b| - 1]);
    }
  }

  /**
   The weaker guarantee is the most one can have: an update that lands between the second and the third
   read leaves a token with the old grants under the new version, which the guard accepts.
   */
  lemma ReadsCanStraddleAnUpdate(db: Tables, user: UserId, role: RoleId, requested: seq<Slug>)
      returns (es: seq<Event>, m: Minted)
    requires SoundTables(db) && user !in SuspendedUsers(db)
    requires role in db.roles && db.roles[role].level > LEVEL_SUPER_ADMIN
    requires ToSet(requested) - {""} <= db.permissions.Values
    ensures Run(Init(db), es).Some? && m in Run(Init(db), es).value.minted
    ensures var s := Run(Init(db), es).value;
            && Check(s.view, m.claims) == Accepted
            && m.claims.permissions == SlugsOf(db, role)
            && SlugsOf(s.db, role) == ToSet(requested) - {""}
  {
    hide *;
    SoundHasUniqueSlugs(db);
    var row := db.roles[role];
    var read := GrantsRead(user, role, row.level, SlugsOf(db, role), row.version);
    var update := Committed(role, row.level, Deduped(requested), row.version + 1);
    m := Minted(Claims(user, role, row.level, SlugsOf(db, role), row.version + 1), row.version);
    var half := [ReadLevel(0, user, role), ReadGrants(0), Begin(1, role, requested)];
    HalfwayThere(db, user, role, requested);
    OneMore(Init(db), half, Commit(1));
    OneCommitted(Run(Init(db), half).value, 1, requested);
    EarlierIsPublished(Run(Init(db), half + [Commit(1)]).value, read, update);
    RunConcat(Init(db), half + [Commit(1)], [Publish(1), ReadVersion(0)]);
    es := half + [Commit(1)] + [Publish(1), ReadVersion(0)];
    CheckAccepts(Run(Init(db), es).value.view, m.claims, db);
  }

  lemma InitShape(db: Tables)
    ensures var s := Init(db); s.db == db && s.view == ViewOf(db) && s.resolves == map[] && s.minted == {}
  {
  }

  lemma BothCommit(s: State, role: RoleId, level: int, first: seq<Slug>, second: seq<Slug>)
    requires s.updates == map[1 := RoleRead(role, level, Deduped(first)), 2 := RoleRead(role, level, Deduped(second))]
    requires UniqueSlugs(s.db) && role in s.db.roles && s.db.roles[role].level == level
    requires ToSet(first) - {""} <= s.db.permissions.Values && ToSet(second) - {""} <= s.db.permissions.Values
    ensures Next(s, Commit(1)).Some? && Next(Next(s, Commit(1)).value, Commit(2)).Some?
    ensures var r, v := Next(Next(s, Commit(1)).value, Commit(2)).value, s.db.roles[role].version;
            && r.resolves == s.resolves && r.minted == s.minted && r.view == s.view
            && r.db.roles == s.db.roles[role := RoleRow(level, v + 2)]
            && r.updates == map[1 := Committed(role, level, Deduped(first), v + 1),
                                    2 := Committed(role, level, Deduped(second), v + 2)]
            && r.committed == s.committed[(role, v + 1) := ToSet(first) - {""}][(role, v + 2) := ToSet(second) - {""}]
  {
    hide *;
    OneCommitted(s, 1, first);
    OneCommitted(Next(s, Commit(1)).value, 2, second);
  }

  lemma BothBegun(db: Tables, role: RoleId, first: seq<Slug>, second: seq<Slug>)
    requires role in db.roles && db.roles[role].level > LEVEL_SUPER_ADMIN
    ensures var level := db.roles[role].level;
            Run(Init(db), [Begin(1, role, first), Begin(2, role, second)])
            == Some(Init(db).(updates := map[1 := RoleRead(role, level, Deduped(first)),
                                             2 := RoleRead(role, level, Deduped(second))]))
  {
    hide SlugsOf, Deduped;
    OneMore(Init(db), [], Begin(1, role, first));
    assert [] + [Begin(1, role, first)] == [Begin(1, role, first)];
    OneMore(Init(db), [Begin(1, role, first)], Begin(2, role, second));
    assert [Begin(1, role, first)] + [Begin(2, role, second)] == [Begin(1, role, first), Begin(2, role, second)];
  }

  /** Two updates to the role, read and committed one after the other, neither yet published. */
  lemma BothCommitted(db: Tables, role: RoleId, first: seq<Slug>, second: seq<Slug>)
    requires UniqueSlugs(db) && role in db.roles && db.roles[role].level > LEVEL_SUPER_ADMIN
    requires ToSet(first) - {""} <= db.permissions.Values && ToSet(second) - {""} <= db.permissions.Values
    ensures var es := [Begin(1, role, first), Begin(2, role, second), Commit(1), Commit(2)];
            var r, v, level := Run(Init(db), es), db.roles[role].version, db.roles[role].level;
            && r.Some? && r.value.resolves == map[] && r.value.minted == {} && r.value.view == ViewOf(db)
            && r.value.db.roles == db.roles[role := RoleRow(level, v + 2)]
            && r.value.updates == map[1 := Committed(role, level, Deduped(first), v + 1),
                                    2 := Committed(role, level, Deduped(second), v + 2)]
            && r.value.committed == Init(db).committed[(role, v + 1) := ToSet(first) - {""}]
                                                     [(role, v + 2) := ToSet(second) - {""}]
  {
    hide *;
    var s0, row := Init(db), db.roles[role];
    var begun := [Begin(1, role, first), Begin(2, role, second)];
    InitShape(db);
    BothBegun(db, role, first, second);
    assert begun + [Commit(1)] == [Begin(1, role, first), Begin(2, role, second), Commit(1)];
    var s2 := Run(s0, begun).value;
    BothCommit(s2, role, row.level, first, second);
    OneMore(s0, begun, Commit(1));
    OneMore(s0, begun + [Commit(1)], Commit(2));
    assert begun + [Commit(1)] + [Commit(2)] == [Begin(1, role, first), Begin(2, role, second), Commit(1), Commit(2)];
  }

  /** The later update is published, and a sign-in reads its grants. */
  lemma LaterIsRead(s: State, user: UserId, role: RoleId, earlier: Update, later: Update)
    requires s.resolves == map[] && s.updates == map[1 := earlier, 2 := later] && later.Committed? && later.role == role
    ensures var r := Run(s, [Publish(2), ReadLevel(0, user, role), ReadGrants(0)]);
            && r.Some? && r.value.updates == map[1 := earlier] && r.value.db == s.db && r.value.committed == s.committed
            && r.value.resolves == map[0 := GrantsRead(user, role, later.level, ToSet(later.slugs), later.version)]
  {
    hide ToSet;
    var a := [Publish(2)];
    OneMore(s, [], Publish(2));
    assert [] + a == a;
    var b := [Publish(2), ReadLevel(0, user, role)];
    OneMore(s, a, ReadLevel(0, user, role));
    assert a + [ReadLevel(0, user, role)] == b;
    OneMore(s, b, ReadGrants(0));
    assert b + [ReadGrants(0)] == [Publish(2), ReadLevel(0, user, role), ReadGrants(0)];
  }

  /** Both publish, the later first, around a sign-in's reads. */
  lemma PublishedBackwards(s: State, user: UserId, earlier: Update, later: Update) returns (es: seq<Event>)
    requires s.resolves == map[] && s.updates == map[1 := earlier, 2 := later]
    requires earlier.Committed? && later.Committed? && earlier.role == later.role
    ensures var r := Run(s, es);
            && r.Some? && r.value.updates == map[] && r.value.db == s.db && r.value.committed == s.committed
            && Minted(Claims(user, later.role, later.level, ToSet(later.slugs), earlier.version), later.version)
               in r.value.minted
            && VersionIn(r.value.view, later.role) == earlier.version
  {
    hide ToSet, Run;
    var read := [Publish(2), ReadLevel(0, user, later.role), ReadGrants(0)];
    LaterIsRead(s, user, later.role, earlier, later);
    EarlierIsPublished(Run(s, read).value, GrantsRead(user, later.role, later.level, ToSet(later.slugs), later.version),
        earlier);
    RunConcat(s, read, [Publish(1), ReadVersion(0)]);
    es := read + [Publish(1), ReadVersion(0)];
  }

  lemma CommittedOnce(db: Tables, role: RoleId, first: set<Slug>, second: set<Slug>,
                      committed: map<(RoleId, int), set<Slug>>)
    requires role in db.roles && second != first && second != SlugsOf(db, role)
    requires committed == Init(db).committed[(role, db.roles[role].version + 1) := first]
                                            [(role, db.roles[role].version + 2) := second]
    ensures forall v :: v <= db.roles[role].version + 1 && (role, v) in committed ==> committed[(role, v)] != second
  {
    hide SlugsOf;
  }

  /**
   Without it, not even that: when two updates to one role overlap, the later one can be published first,
   and a token minted in between carries grants no version up to its own was ever committed with.
   */
  lemma OverlapCanRunAhead(db: Tables, user: UserId, role: RoleId, first: seq<Slug>, second: seq<Slug>)
      returns (es: seq<Event>, m: Minted)
    requires SoundTables(db) && role in db.roles && db.roles[role].level > LEVEL_SUPER_ADMIN
    requires ToSet(first) - {""} <= db.permissions.Values && ToSet(second) - {""} <= db.permissions.Values
    requires ToSet(second) - {""} != ToSet(first) - {""} && ToSet(second) - {""} != SlugsOf(db, role)
    ensures Run(Init(db), es).Some? && m in Run(Init(db), es).value.minted && m.claims.roleId == role
    ensures var s := Run(Init(db), es).value;
            && s.updates == map[] && role in s.db.roles && VersionIn(s.view, role) < s.db.roles[role].version
            && forall v :: v <= m.claims.version && (role, v) in s.committed ==>
                s.committed[(role, v)] != m.claims.permissions
  {
    hide *;
    SoundHasUniqueSlugs(db);
    var row := db.roles[role];
    var earlier := Committed(role, row.level, Deduped(first), row.version + 1);
    var later := Committed(role, row.level, Deduped(second), row.version + 2);
    var half := [Begin(1, role, first), Begin(2, role, second), Commit(1), Commit(2)];
    BothCommitted(db, role, first, second);
    var s4 := Run(Init(db), half).value;
    CommittedOnce(db, role, ToSet(first) - {""}, ToSet(second) - {""}, s4.committed);
    DedupedIsDistinct(second);
    var rest := PublishedBackwards(s4, user, earlier, later);
    RunConcat(Init(db), half, rest);
    es, m := half + rest, Minted(Claims(user, role, row.level, ToSet(later.slugs), earlier.version), later.version);
  }
}
