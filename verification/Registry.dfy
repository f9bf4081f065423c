/**
 The process-local registry of who may do what: each role's grants, version and level, and the set of
 suspended accounts. `View` is its value; the class reads and replaces it a field at a time.
 */
module Registry {
  import opened Wrappers
  import opened Sets

  type RoleId = int
  type UserId = nat
  type Slug = string

  datatype Role = Role(id: RoleId, level: int, version: int)

  datatype Grant = Grant(roleId: RoleId, slug: Slug)

  datatype Snapshot = Snapshot(roles: seq<Role>, grants: seq<Grant>, suspended: seq<UserId>)

  datatype View = View(
    permissions: map<RoleId, set<Slug>>,
    versions: map<RoleId, int>,
    levels: map<RoleId, int>,
    suspended: set<UserId>)

  const EMPTY := View(map[], map[], map[], {})

  /** The rows by id; a repeated id keeps its last row. */
  function RoleTable(roles: seq<Role>): map<RoleId, Role> {
    if roles == [] then map[]
    else RoleTable(roles[..|roles| - 1])[roles[|roles| - 1].id := roles[|roles| - 1]]
  }

  function SlugsFor(grants: seq<Grant>, id: RoleId): set<Slug> {
    set g | g in grants && g.roleId == id :: g.slug
  }

  /** What a snapshot means: only its roles, each with exactly its own grants. */
  function Loaded(s: Snapshot): View {
    var table := RoleTable(s.roles);
    View(map id | id in table :: SlugsFor(s.grants, id),
         map id | id in table :: table[id].version,
         map id | id in table :: table[id].level,
         ToSet(s.suspended))
  }

  function PermissionsIn(v: View, id: RoleId): set<Slug> {
    if id in v.permissions then v.permissions[id] else {}
  }

  function VersionIn(v: View, id: RoleId): int {
    if id in v.versions then v.versions[id] else 0
  }

  function LevelIn(v: View, id: RoleId): Option<int> {
    if id in v.levels then Some(v.levels[id]) else None
  }

  function WithRole(v: View, id: RoleId, level: int, version: int, slugs: set<Slug>): View {
    v.(permissions := v.permissions[id := slugs],
       versions := v.versions[id := version],
       levels := v.levels[id := level])
  }

  // The loops that build the new maps before the lock is taken.

  method BuildRoles(roles: seq<Role>)
    returns (granted: map<RoleId, set<Slug>>, versions: map<RoleId, int>, levels: map<RoleId, int>)
    ensures var t := RoleTable(roles);
            && granted == (map id | id in t :: {})
            && versions == (map id | id in t :: t[id].version)
            && levels == (map id | id in t :: t[id].level)
  {
    granted, versions, levels := map[], map[], map[];
    for i := 0 to |roles|
      invariant var t := RoleTable(roles[..i]);
                && granted == (map id | id in t :: {})
                && versions == (map id | id in t :: t[id].version)
                && levels == (map id | id in t :: t[id].level)
    {
      var role := roles[i];
      assert roles[..i + 1][..i] == roles[..i];
      granted, versions := granted[role.id := {}], versions[role.id := role.version];
      levels := levels[role.id := role.level];
    }
    assert roles[..|roles|] == roles;
  }

  lemma SlugsForSnoc(grants: seq<Grant>, g: Grant)
    ensures forall id :: SlugsFor(grants + [g], id) == SlugsFor(grants, id) + (if g.roleId == id then {g.slug} else {})
  {
    forall id
      ensures SlugsFor(grants + [g], id) == SlugsFor(grants, id) + (if g.roleId == id then {g.slug} else {})
    {
      forall s | s in SlugsFor(grants, id)
        ensures s in SlugsFor(grants + [g], id)
      {
        var h :| h in grants && h.roleId == id && h.slug == s;
        assert h in grants + [g];
      }
      if g.roleId == id {
        assert g in grants + [g];
      }
    }
  }

  method AddGrants(empty: map<RoleId, set<Slug>>, grants: seq<Grant>) returns (granted: map<RoleId, set<Slug>>)
    requires forall id :: id in empty ==> empty[id] == {}
    ensures granted == map id | id in empty :: SlugsFor(grants, id)
  {
    granted := empty;
    assert forall id :: SlugsFor(grants[..0], id) == {};
    hide SlugsFor;
    for i := 0 to |grants|
      invariant granted.Keys == empty.Keys
      invariant forall id :: id in empty ==> granted[id] == SlugsFor(grants[..i], id)
    {
      var grant := grants[i];
      SlugsForSnoc(grants[..i], grant);
      assert grants[..i + 1] == grants[..i] + [grant];
      if grant.roleId in granted {
        granted := granted[grant.roleId := granted[grant.roleId] + {grant.slug}];
      }
    }
    assert grants[..|grants|] == grants;
  }

  method Collect<T(==)>(items: seq<T>) returns (all: set<T>)
    ensures all == ToSet(items)
  {
    all := {};
    for i := 0 to |items|
      invariant all == ToSet(items[..i])
    {
      all := all + {items[i]};
    }
    assert items[..|items|] == items;
  }

  class PermissionRegistry {
    var permissions: map<RoleId, set<Slug>>
    var versions: map<RoleId, int>
    var levels: map<RoleId, int>
    var suspended: set<UserId>

    function State(): View
      reads this
    {
      View(permissions, versions, levels, suspended)
    }

    constructor ()
      ensures State() == EMPTY
    {
      permissions, versions, levels, suspended := map[], map[], map[], {};
    }

    /** Swaps in a whole snapshot; grants of roles the snapshot does not have are skipped. */
    method Replace(snapshot: Snapshot)
      modifies this
      ensures State() == Loaded(snapshot)
    {
      var granted, vs, ls := BuildRoles(snapshot.roles);
      granted := AddGrants(granted, snapshot.grants);
      var blocked := Collect(snapshot.suspended);
      permissions, versions, levels, suspended := granted, vs, ls, blocked;
    }

    method Permissions(roleId: RoleId) returns (granted: set<Slug>)
      ensures granted == PermissionsIn(State(), roleId)
    {
      granted := if roleId in permissions then permissions[roleId] else {};
    }

    method Version(roleId: RoleId) returns (version: int)
      ensures version == VersionIn(State(), roleId)
    {
      version := if roleId in versions then versions[roleId] else 0;
    }

    method Level(roleId: RoleId) returns (level: int, known: bool)
      ensures LevelIn(State(), roleId) == if known then Some(level) else None
    {
      known := roleId in levels;
      level := if known then levels[roleId] else 0;
    }

    method SetRole(roleId: RoleId, level: int, version: int, slugs: seq<Slug>)
      modifies this
      ensures State() == WithRole(old(State()), roleId, level, version, ToSet(slugs))
    {
      var granted := Collect(slugs);
      permissions, versions, levels := permissions[roleId := granted], versions[roleId := version],
          levels[roleId := level];
    }

    method IsSuspended(userId: UserId) returns (found: bool)
      ensures found <==> userId in State().suspended
    {
      found := userId in suspended;
    }

    method Suspend(userId: UserId)
      modifies this
      ensures State() == old(State()).(suspended := old(suspended) + {userId})
    {
      suspended := suspended + {userId};
    }

    method Restore(userId: UserId)
      modifies this
      ensures State() == old(State()).(suspended := old(suspended) - {userId})
    {
      suspended := suspended - {userId};
    }
  }
}
