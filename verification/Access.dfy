/**
 Access tokens: the claims a sign-in copies out of the registry, the revocation check every request
 runs, the gate a route puts in front of itself, and the service calls that change who may do what.
 */
module Access {
  import opened Wrappers
  import opened Sets
  import opened Registry
  import opened Roles

  datatype Claims = Claims(userId: UserId, roleId: RoleId, level: int, permissions: set<Slug>, version: int)

  /** An unknown role is an error, not an empty grant. */
  function Resolve(v: View, userId: UserId, roleId: RoleId): Option<Claims> {
    match LevelIn(v, roleId)
    case None => None
    case Some(level) => Some(Claims(userId, roleId, level, PermissionsIn(v, roleId), VersionIn(v, roleId)))
  }

  datatype Verdict = Accepted | UserSuspended | TokenStale

  /** Suspension first, then the version. */
  function Check(v: View, c: Claims): Verdict {
    if c.userId in v.suspended then UserSuspended
    else if VersionIn(v, c.roleId) != c.version then TokenStale
    else Accepted
  }

  datatype Answer = Next | Unauthorized | Forbidden

  function Authorize(claims: Option<Claims>, slug: Slug, required: int): Answer {
    match claims
    case None => Unauthorized
    case Some(c) =>
      if c.level <= LEVEL_SUPER_ADMIN then Next
      else if c.level > required then Forbidden
      else if slug !in c.permissions then Forbidden
      else Next
  }

  /** The check the token exists to avoid: ask the tables for the role's level and grants. */
  ghost predicate DatabaseAllows(db: Tables, id: RoleId, slug: Slug, required: int) {
    && id in db.roles
    && (|| db.roles[id].level <= LEVEL_SUPER_ADMIN
        || (db.roles[id].level <= required && slug in SlugsOf(db, id)))
  }

  // ----- Service calls, each atomic ------------------------------------------------------------------

  function Updated(db: Tables, v: View, id: RoleId, requested: seq<Slug>): Result<(Tables, View), Error> {
    if id !in db.roles then Err(NotFound)
    else if db.roles[id].level <= LEVEL_SUPER_ADMIN then Err(Validation)
    else
      var slugs := Deduped(requested);
      match Replaced(db, id, slugs)
      case Err(e) => Err(e)
      case Ok((db', version)) => Ok((db', WithRole(v, id, db.roles[id].level, version, ToSet(slugs))))
  }

  /** The whole call under a fault: rows, registry and answer. */
  function UpdateAttempt(db: Tables, v: View, id: RoleId, requested: seq<Slug>, fault: Fault<Statement>)
    : (Tables, View, Result<int, Error>)
  {
    if fault == Refuses(ReadRow) then (db, v, Err(Unavailable))
    else if id !in db.roles then (db, v, Err(NotFound))
    else if db.roles[id].level <= LEVEL_SUPER_ADMIN then (db, v, Err(Validation))
    else
      var (db', r) := ReplaceAttempt(db, id, Deduped(requested), fault);
      (db', if r.Ok? then Updated(db, v, id, requested).value.1 else v, r)
  }

  /**
   The call's three outcomes: it answers, and rows and registry have moved together; it fails and neither
   has moved; or the answer of a transaction that did commit is lost, and only the rows have.
   */
  lemma UpdateOutcomes(db: Tables, v: View, id: RoleId, requested: seq<Slug>, fault: Fault<Statement>)
    ensures var (db', v', r) := UpdateAttempt(db, v, id, requested, fault);
            var u := Updated(db, v, id, requested);
            && (r.Ok? ==> u == Ok((db', v')))
            && (r.Err? && !fault.LosesAnswer? ==> db' == db && v' == v)
            && (fault.LosesAnswer? ==> r.Err? && v' == v && db' == if u.Ok? then u.value.0 else db)
            && (fault.NoFault? ==> (r.Ok? <==> u.Ok?))
            && (u.Err? && fault.NoFault? ==> r == Err(u.error))
            && (r.Err? && u.Ok? ==> r == Err(Unavailable))
  {
  }

  function ParseStatus(status: string): Option<Status> {
    if status == "inactive" then Some(Inactive)
    else if status == "active" then Some(Active)
    else if status == "suspended" then Some(Suspended)
    else None
  }

  function StatusSet(db: Tables, v: View, user: UserId, status: string): Result<(Tables, View), Error> {
    match ParseStatus(status)
    case None => Err(Validation)
    case Some(st) =>
      if user !in db.users then Err(NotFound)
      else
        Ok((db.(users := db.users[user := db.users[user].(status := st)]),
            v.(suspended := if st == Suspended then v.suspended + {user} else v.suspended - {user})))
  }

  /** The look-up, then the row, then the registry. */
  function StatusAttempt(db: Tables, v: View, user: UserId, status: string, fault: Fault<Statement>)
    : (Tables, View, Result<(), Error>)
  {
    if ParseStatus(status).None? then (db, v, Err(Validation))
    else if fault == Refuses(ReadRow) then (db, v, Err(Unavailable))
    else match StatusSet(db, v, user, status)
         case Err(e) => (db, v, Err(e))
         case Ok((db', v')) =>
           match fault
           case NoFault => (db', v', Ok(()))
           case Refuses(_) => (db, v, Err(Unavailable))
           case LosesAnswer => (db', v, Err(Unavailable))
  }

  class RoleService {
    const db: Database
    const registry: PermissionRegistry

    constructor (db: Database, registry: PermissionRegistry)
      ensures this.db == db && this.registry == registry
    {
      this.db, this.registry := db, registry;
    }

    /** Look the role up, refuse a bypassing one, deduplicate, replace, and only then publish. */
    method UpdatePermissions(id: RoleId, requested: seq<Slug>, fault: Fault<Statement>) returns (r: Result<int, Error>)
      modifies db, registry
      ensures (db.Rows(), registry.State(), r)
          == UpdateAttempt(old(db.Rows()), old(registry.State()), id, requested, fault)
    {
      if fault == Refuses(ReadRow) {
        return Err(Unavailable);
      }
      if id !in db.roles {
        return Err(NotFound);
      }
      var level := db.roles[id].level;
      if level <= LEVEL_SUPER_ADMIN {
        return Err(Validation);
      }
      var slugs := Dedupe(requested);
      r := db.ReplaceGrants(id, slugs, fault);
      if r.Ok? {
        registry.SetRole(id, level, r.value, slugs);
      }
    }

    /** After a warm-up the registry is the tables' own view; one that fails leaves it as it was. */
    method WarmUp(refused: Option<Query>) returns (r: Result<(), Error>)
      modifies registry
      ensures r == if refused.None? then Ok(()) else Err(Unavailable)
      ensures registry.State() == if r.Ok? then ViewOf(db.Rows()) else old(registry.State())
    {
      var snapshot := db.Snapshot(refused);
      if snapshot.Err? {
        return Err(snapshot.error);
      }
      SnapshotLoadsTheTables(db.Rows(), snapshot.value);
      registry.Replace(snapshot.value);
      return Ok(());
    }
  }

  class UserService {
    const db: Database
    const registry: PermissionRegistry

    constructor (db: Database, registry: PermissionRegistry)
      ensures this.db == db && this.registry == registry
    {
      this.db, this.registry := db, registry;
    }

    /** The row first, the registry second. */
    method UpdateStatus(user: UserId, status: string, fault: Fault<Statement>) returns (r: Result<(), Error>)
      modifies db, registry
      ensures (db.Rows(), registry.State(), r)
          == StatusAttempt(old(db.Rows()), old(registry.State()), user, status, fault)
    {
      var st := ParseStatus(status);
      if st.None? {
        return Err(Validation);
      }
      if fault == Refuses(ReadRow) {
        return Err(Unavailable);
      }
      if user !in db.users {
        return Err(NotFound);
      }
      var saved := db.SaveUser(user, db.users[user].(status := st.value), fault);
      if !saved {
        return Err(Unavailable);
      }
      if st.value == Suspended {
        registry.Suspend(user);
      } else {
        registry.Restore(user);
      }
      return Ok(());
    }
  }
}
