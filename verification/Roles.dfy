/**
 The tables behind the registry, the role repository's transaction and snapshot, and the service calls
 that change rows and registry together. Tables are maps; a statement or transaction is one step.
 */
module Roles {
  import opened Wrappers
  import opened Registry
  import opened Sets

  type PermissionId = int

  const LEVEL_SUPER_ADMIN := 1

  datatype Error = NotFound | Validation | Unavailable

  datatype Status = Inactive | Active | Suspended

  /** The statements of a call, by what they do. */
  datatype Statement = ReadRow | ResolveSlugs | DeleteRows | InsertRows | BumpVersion | ScanVersion | CommitAll

  datatype Query = RolesQuery | GrantsQuery | SuspendedQuery

  datatype RoleRow = RoleRow(level: int, version: int)

  datatype UserRow = UserRow(roleId: RoleId, status: Status, verified: bool, details: string)

  datatype Tables = Tables(
    roles: map<RoleId, RoleRow>,
    permissions: map<PermissionId, Slug>,
    grants: set<(RoleId, PermissionId)>,
    users: map<UserId, UserRow>)

  /** The unique index on permissions.slug. */
  ghost predicate UniqueSlugs(db: Tables) {
    forall i, j :: i in db.permissions && j in db.permissions && db.permissions[i] == db.permissions[j] ==> i == j
  }

  /** The slugs a role holds: role_permissions joined with permissions. */
  function SlugsOf(db: Tables, id: RoleId): set<Slug> {
    set p | p in db.permissions && (id, p) in db.grants :: db.permissions[p]
  }

  function SuspendedUsers(db: Tables): set<UserId> {
    set u | u in db.users && db.users[u].status == Suspended
  }

  /** What authorization should see, read straight off the tables. */
  function ViewOf(db: Tables): View {
    View(map id | id in db.roles :: SlugsOf(db, id),
         map id | id in db.roles :: db.roles[id].version,
         map id | id in db.roles :: db.roles[id].level,
         SuspendedUsers(db))
  }

  // ----- The snapshot ----------------------------------------------------------------------------

  /** The three queries' answers, in whatever order the database returns rows. */
  ghost predicate IsSnapshot(db: Tables, s: Snapshot) {
    && NoRepeats(s.roles)
    && (forall r :: r in s.roles <==> r.id in db.roles && db.roles[r.id] == RoleRow(r.level, r.version))
    && (forall g :: g in s.grants <==> g.slug in SlugsOf(db, g.roleId))
    && ToSet(s.suspended) == SuspendedUsers(db)
  }

  lemma {:induction false} RoleTableFinds(roles: seq<Role>, id: RoleId)
    ensures id in RoleTable(roles) <==> exists r :: r in roles && r.id == id
    ensures id in RoleTable(roles) ==> RoleTable(roles)[id] in roles && RoleTable(roles)[id].id == id
  {
    if roles != [] {
      var front, last := roles[..|roles| - 1], roles[|roles| - 1];
      RoleTableFinds(front, id);
      assert roles == front + [last];
      if last.id == id {
        assert last in roles;
      }
    }
  }

  /** A registry loaded from any snapshot is the tables' own view: row order and orphan grants do not matter. */
  lemma SnapshotLoadsTheTables(db: Tables, s: Snapshot)
    requires IsSnapshot(db, s)
    ensures Loaded(s) == ViewOf(db)
  {
    var table := RoleTable(s.roles);
    forall id
      ensures id in table <==> id in db.roles
      ensures id in table ==> table[id] == Role(id, db.roles[id].level, db.roles[id].version)
      ensures SlugsFor(s.grants, id) == SlugsOf(db, id)
    {
      RoleTableFinds(s.roles, id);
      if id in db.roles {
        assert Role(id, db.roles[id].level, db.roles[id].version) in s.roles;
      }
      forall slug
        ensures slug in SlugsFor(s.grants, id) <==> slug in SlugsOf(db, id)
      {
        assert Grant(id, slug) in s.grants <==> slug in SlugsOf(db, id);
      }
    }
  }

  // ----- Replacing a role's grants ---------------------------------------------------------------

  /** The distinct, non-empty values in the order they first occur. */
  function Deduped(values: seq<Slug>): seq<Slug> {
    if values == [] then []
    else
      var front, last := values[..|values| - 1], values[|values| - 1];
      if last == "" || last in front then Deduped(front) else Deduped(front) + [last]
  }

  lemma {:induction false} DedupedIsDistinct(values: seq<Slug>)
    ensures ToSet(Deduped(values)) == ToSet(values) - {""}
    ensures NoRepeats(Deduped(values))
  {
    if values != [] {
      var front, last := values[..|values| - 1], values[|values| - 1];
      DedupedIsDistinct(front);
      assert ToSet(values) == ToSet(front) + {last};
      if last != "" && last !in front {
        var d := Deduped(front);
        assert ToSet(d + [last]) == ToSet(d) + {last};
        assert last !in ToSet(d);
      }
    }
  }

  method Dedupe(values: seq<Slug>) returns (unique: seq<Slug>)
    ensures unique == Deduped(values)
  {
    var seen: set<Slug> := {};
    unique := [];
    for i := 0 to |values|
      invariant unique == Deduped(values[..i])
      invariant seen == ToSet(values[..i]) - {""}
    {
      var value := values[i];
      assert values[..i + 1][..i] == values[..i];
      assert ToSet(values[..i + 1]) == ToSet(values[..i]) + {value};
      if !(value == "" || value in seen) {
        seen := seen + {value};
        unique := unique + [value];
      }
    }
    assert values[..|values|] == values;
  }

  function IdsOf(db: Tables, slugs: seq<Slug>): set<PermissionId> {
    set p | p in db.permissions && db.permissions[p] in slugs
  }

  function GrantRows(id: RoleId, ids: set<PermissionId>): set<(RoleId, PermissionId)> {
    set p | p in ids :: (id, p)
  }

  function Bumped(roles: map<RoleId, RoleRow>, id: RoleId): map<RoleId, RoleRow> {
    if id in roles then roles[id := roles[id].(version := roles[id].version + 1)] else roles
  }

  /** The transaction: resolve, refuse an unknown slug, delete, insert, bump, read the version back. */
  function Replaced(db: Tables, id: RoleId, slugs: seq<Slug>): Result<(Tables, int), Error> {
    var ids := IdsOf(db, slugs);
    if |slugs| > 0 && |ids| != |slugs| then Err(Validation)
    else
      var kept := set g | g in db.grants && g.0 != id;
      var roles := Bumped(db.roles, id);
      Ok((db.(roles := roles, grants := kept + GrantRows(id, ids)), if id in roles then roles[id].version else 0))
  }

  /** The statements the transaction gets to once its slugs are resolved: nothing to insert, no insert. */
  predicate Reached(db: Tables, slugs: seq<Slug>, statement: Statement) {
    match statement
    case ReadRow => false
    case ResolveSlugs => false
    case InsertRows => |IdsOf(db, slugs)| > 0
    case _ => true
  }

  /** The transaction under a fault: the rows it leaves and what it answers. */
  function ReplaceAttempt(db: Tables, id: RoleId, slugs: seq<Slug>, fault: Fault<Statement>)
    : (Tables, Result<int, Error>)
  {
    if fault == Refuses(ResolveSlugs) && |slugs| > 0 then (db, Err(Unavailable))
    else match Replaced(db, id, slugs)
         case Err(e) => (db, Err(e))
         case Ok((db', version)) =>
           if fault.Refuses? && Reached(db, slugs, fault.statement) then (db, Err(Unavailable))
           else (db', if fault.LosesAnswer? then Err(Unavailable) else Ok(version))
  }

  /** The count of ids the query returns is the count of requested slugs that exist. */
  lemma IdCount(db: Tables, slugs: seq<Slug>)
    requires UniqueSlugs(db)
    ensures |IdsOf(db, slugs)| == |ToSet(slugs) * db.permissions.Values|
  {
    var ids := IdsOf(db, slugs);
    assert ids <= db.permissions.Keys;
    forall i, j | i in ids && j in ids && db.permissions[i] == db.permissions[j]
      ensures i == j
    {
      assert i in db.permissions && j in db.permissions;
    }
    InjectiveImageSize(db.permissions, ids);
    var image := Image(db.permissions, ids);
    forall slug
      ensures slug in image <==> slug in ToSet(slugs) * db.permissions.Values
    {
      if slug in ToSet(slugs) * db.permissions.Values {
        assert slug in db.permissions.Values;
        var p := KeyFor(db.permissions, slug);
        assert p in ids;
      }
    }
    assert image == ToSet(slugs) * db.permissions.Values;
  }

  /** The count test accepts exactly the lists without repeats whose every slug exists. */
  lemma CountTestIsExact(db: Tables, slugs: seq<Slug>)
    requires UniqueSlugs(db)
    ensures Replaced(db, 0, slugs).Ok? <==> NoRepeats(slugs) && ToSet(slugs) <= db.permissions.Values
    ensures forall id :: Replaced(db, id, slugs).Ok? <==> Replaced(db, 0, slugs).Ok?
  {
    var want, known := ToSet(slugs), ToSet(slugs) * db.permissions.Values;
    IdCount(db, slugs);
    DistinctCount(slugs);
    SubsetSize(known, want);
    if want <= db.permissions.Values {
      assert known == want;
    }
    if slugs == [] {
      assert want == {};
    }
  }

  /**
   Deduplication followed by the transaction is all or nothing: it succeeds exactly when every distinct
   non-empty slug asked for exists; the role then holds exactly those, its version has risen by one, and
   no other role, permission or user has changed.
   */
  lemma ReplaceGrantsAllOrNothing(db: Tables, id: RoleId, requested: seq<Slug>)
    requires UniqueSlugs(db)
    ensures var want := ToSet(requested) - {""};
            var r := Replaced(db, id, Deduped(requested));
            && (r.Ok? <==> want <= db.permissions.Values)
            && (r.Ok? ==>
                  var (db', version) := r.value;
                  && SlugsOf(db', id) == want
                  && (forall other :: other != id ==> SlugsOf(db', other) == SlugsOf(db, other))
                  && (id in db.roles ==> version == db.roles[id].version + 1
                                         && db'.roles == db.roles[id := RoleRow(db.roles[id].level, version)])
                  && (id !in db.roles ==> version == 0 && db'.roles == db.roles)
                  && db'.permissions == db.permissions && db'.users == db.users)
  {
    var slugs := Deduped(requested);
    DedupedIsDistinct(requested);
    CountTestIsExact(db, slugs);
    var r := Replaced(db, id, slugs);
    if r.Ok? {
      var db' := r.value.0;
      var ids := IdsOf(db, slugs);
      assert forall p :: (id, p) in db'.grants <==> p in ids;
      assert forall other, p :: other != id ==> ((other, p) in db'.grants <==> (other, p) in db.grants);
      forall slug | slug in ToSet(slugs)
        ensures slug in SlugsOf(db', id)
      {
        var p := KeyFor(db.permissions, slug);
        assert p in ids;
      }
    }
  }

  method InsertGrants(grants: set<(RoleId, PermissionId)>, id: RoleId, ids: set<PermissionId>)
    returns (all: set<(RoleId, PermissionId)>)
    ensures all == grants + GrantRows(id, ids)
  {
    all := grants;
    var rest := ids;
    assert ids - rest == {};
    while rest != {}
      invariant rest <= ids
      invariant all == grants + GrantRows(id, ids - rest)
      decreases rest
    {
      var p := Pick(rest);
      assert ids - (rest - {p}) == (ids - rest) + {p};
      assert GrantRows(id, (ids - rest) + {p}) == GrantRows(id, ids - rest) + {(id, p)};
      all := all + {(id, p)};
      rest := rest - {p};
    }
    assert ids - rest == ids;
  }

  // The snapshot's three queries.

  method SelectRoles(roles: map<RoleId, RoleRow>) returns (rows: seq<Role>)
    ensures NoRepeats(rows)
    ensures forall r :: r in rows <==> r.id in roles && roles[r.id] == RoleRow(r.level, r.version)
  {
    rows := [];
    var rest := roles.Keys;
    while rest != {}
      invariant rest <= roles.Keys
      invariant NoRepeats(rows)
      invariant forall r :: r in rows <==> r.id in roles && r.id !in rest && roles[r.id] == RoleRow(r.level, r.version)
      decreases rest
    {
      var id := Pick(rest);
      var row := Role(id, roles[id].level, roles[id].version);
      assert row !in rows;
      rows := rows + [row];
      rest := rest - {id};
    }
  }

  lemma GrantedSlug(db: Tables, id: RoleId, p: PermissionId)
    requires p in db.permissions && (id, p) in db.grants
    ensures db.permissions[p] in SlugsOf(db, id)
  {
  }

  method SelectGrants(db: Tables) returns (rows: seq<Grant>)
    ensures forall g :: g in rows <==> g.slug in SlugsOf(db, g.roleId)
  {
    rows := [];
    var rest := db.grants;
    while rest != {}
      invariant rest <= db.grants
      invariant forall g :: g in rows ==> g.slug in SlugsOf(db, g.roleId)
      invariant forall id, p :: (id, p) in db.grants && (id, p) !in rest && p in db.permissions ==>
          Grant(id, db.permissions[p]) in rows
      decreases rest
    {
      var pair := Pick(rest);
      if pair.1 in db.permissions {
        GrantedSlug(db, pair.0, pair.1);
        rows := rows + [Grant(pair.0, db.permissions[pair.1])];
      }
      rest := rest - {pair};
    }
  }

  method SelectSuspended(users: map<UserId, UserRow>) returns (ids: seq<UserId>)
    ensures ToSet(ids) == set u | u in users && users[u].status == Suspended
  {
    ids := [];
    var rest := users.Keys;
    while rest != {}
      invariant rest <= users.Keys
      invariant forall u :: u in ids <==> u in users && u !in rest && users[u].status == Suspended
      decreases rest
    {
      var u := Pick(rest);
      if users[u].status == Suspended {
        ids := ids + [u];
      }
      rest := rest - {u};
    }
  }

  class Database {
    var roles: map<RoleId, RoleRow>
    var permissions: map<PermissionId, Slug>
    var grants: set<(RoleId, PermissionId)>
    var users: map<UserId, UserRow>

    function Rows(): Tables
      reads this
    {
      Tables(roles, permissions, grants, users)
    }

    constructor (rows: Tables)
      ensures Rows() == rows
    {
      roles, permissions, grants, users := rows.roles, rows.permissions, rows.grants, rows.users;
    }

    /** The transaction with a database that may fail: every outcome, and which error is reported. */
    method ReplaceGrants(id: RoleId, slugs: seq<Slug>, fault: Fault<Statement>) returns (r: Result<int, Error>)
      modifies this
      ensures (Rows(), r) == ReplaceAttempt(old(Rows()), id, slugs, fault)
    {
      var ids: set<PermissionId> := {};
      if |slugs| > 0 {
        if fault == Refuses(ResolveSlugs) {
          return Err(Unavailable);
        }
        ids := set p | p in permissions && permissions[p] in slugs;
        if |ids| != |slugs| {
          return Err(Validation);
        }
      }
      assert ids == IdsOf(Rows(), slugs);
      if fault == Refuses(DeleteRows) {
        return Err(Unavailable);
      }
      var txGrants := set g | g in grants && g.0 != id;
      ghost var kept := txGrants;
      if |ids| > 0 {
        if fault == Refuses(InsertRows) {
          return Err(Unavailable);
        }
        txGrants := InsertGrants(txGrants, id, ids);
      }
      assert txGrants == kept + GrantRows(id, ids);
      if fault == Refuses(BumpVersion) || fault == Refuses(ScanVersion) {
        return Err(Unavailable);
      }
      var txRoles := if id in roles then roles[id := roles[id].(version := roles[id].version + 1)] else roles;
      var version := if id in txRoles then txRoles[id].version else 0;
      if fault == Refuses(CommitAll) {
        return Err(Unavailable);
      }
      grants, roles := txGrants, txRoles;
      return if fault.LosesAnswer? then Err(Unavailable) else Ok(version);
    }

    /** The three queries, any of which the database may refuse. */
    method Snapshot(refused: Option<Query>) returns (r: Result<Registry.Snapshot, Error>)
      ensures r.Ok? <==> refused.None?
      ensures r.Ok? ==> IsSnapshot(Rows(), r.value)
      ensures r.Err? ==> r.error == Unavailable
    {
      assert refused.None? || refused.value.RolesQuery? || refused.value.GrantsQuery? || refused.value.SuspendedQuery?;
      if refused == Some(RolesQuery) {
        return Err(Unavailable);
      }
      var roleRows := SelectRoles(roles);
      if refused == Some(GrantsQuery) {
        return Err(Unavailable);
      }
      var grantRows := SelectGrants(Rows());
      if refused == Some(SuspendedQuery) {
        return Err(Unavailable);
      }
      var suspended := SelectSuspended(users);
      return Ok(Registry.Snapshot(roleRows, grantRows, suspended));
    }

    /** Writes every column of one account: nothing when refused, everything when only the answer is lost. */
    method SaveUser(id: UserId, row: UserRow, fault: Fault<Statement>) returns (saved: bool)
      modifies this`users
      ensures saved <==> fault.NoFault?
      ensures users == if fault.Refuses? then old(users) else old(users)[id := row]
    {
      if fault.Refuses? {
        return false;
      }
      users := users[id := row];
      return fault.NoFault?;
    }
  }
}
