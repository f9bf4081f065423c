/**
 The migration runner: a catalogue of numbered migrations, a table of the versions already applied, and
 one transaction per pending version. What a migration does to the schema is the catalogue's own
 function, which may fail; the faults of the database and the process are chosen by the caller.
 */
module Migrations {
  import opened Wrappers
  import opened Sets

  /** None is a migration that returns an error. */
  type Migration<!S> = S -> Option<S>

  /** A None entry is a nil function registered under a version. */
  type Catalogue<!S> = map<int, Option<Migration<S>>>

  // ----- The catalogue ---------------------------------------------------------------------------

  datatype CatalogueError =
    | BelowOne(version: int)
    | NilMigration(version: int)
    | Gaps(missing: seq<int>, highest: int)

  /** The versions are exactly 1..|m|, each with a migration. */
  ghost predicate Contiguous<S>(m: Catalogue<S>) {
    (forall v :: v in m <==> 1 <= v <= |m|) && forall v :: v in m ==> m[v].Some?
  }

  ghost predicate Ascending(s: seq<int>) {
    forall i, j :: 0 <= i < j < |s| ==> s[i] < s[j]
  }

  ghost predicate Explains<S>(m: Catalogue<S>, e: CatalogueError) {
    match e
    case BelowOne(v) => v in m && v < 1
    case NilMigration(v) => v in m && m[v].None?
    case Gaps(missing, highest) =>
      && (forall v :: v in m ==> 1 <= v <= highest && m[v].Some?) && highest in m
      && missing != [] && Ascending(missing) && forall v :: v in missing <==> 1 <= v <= highest && v !in m
  }

  function UpTo(n: nat): (s: set<int>)
    ensures forall v :: v in s <==> 1 <= v <= n
  {
    if n == 0 then {} else UpTo(n - 1) + {n}
  }

  lemma {:induction false} UpToSize(n: nat)
    ensures |UpTo(n)| == n
  {
    if n > 0 {
      UpToSize(n - 1);
    }
  }

  lemma HighestIsTheCount<S>(m: Catalogue<S>, highest: nat)
    requires forall v :: v in m ==> 1 <= v <= highest
    requires highest == 0 || highest in m
    ensures (forall v :: 1 <= v <= highest ==> v in m) <==> forall v :: v in m <==> 1 <= v <= |m|
  {
    assert |m| == |m.Keys|;
    if forall v :: 1 <= v <= highest ==> v in m {
      assert m.Keys == UpTo(highest);
      UpToSize(highest);
    }
  }

  method ValidateContiguous<S>(m: Catalogue<S>) returns (r: Option<CatalogueError>)
    ensures r.None? <==> Contiguous(m)
    ensures r.Some? ==> Explains(m, r.value)
  {
    if |m| == 0 {
      return None;
    }
    var highest := 0;
    var rest := m.Keys;
    while rest != {}
      invariant rest <= m.Keys && highest >= 0 && (highest == 0 || highest in m)
      invariant forall v :: v in m && v !in rest ==> 1 <= v <= highest && m[v].Some?
      decreases rest
    {
      var version := Pick(rest);
      if version < 1 {
        return Some(BelowOne(version));
      }
      if m[version].None? {
        return Some(NilMigration(version));
      }
      if version > highest {
        highest := version;
      }
      rest := rest - {version};
    }
    HighestIsTheCount(m, highest);
    var missing: seq<int> := [];
    var version := 1;
    while version <= highest
      invariant 1 <= version <= highest + 1 && Ascending(missing)
      invariant forall v :: v in missing <==> 1 <= v < version && v !in m
      invariant forall i :: 0 <= i < |missing| ==> missing[i] < version
    {
      if version !in m || m[version].None? {
        missing := missing + [version];
      }
      version := version + 1;
    }
    if missing != [] {
      assert missing[0] in missing;
      return Some(Gaps(missing, highest));
    }
    return None;
  }

  // ----- One boot --------------------------------------------------------------------------------

  /** `commits` is the history of committed versions, oldest first. */
  datatype Db<S> = Db(schema: S, recorded: set<int>, commits: seq<int>)

  /** What befalls a transaction: nothing, a loss that rolls it back, or a loss once it has committed. */
  datatype Fate = Undisturbed | LostBefore | LostAfter

  datatype Faults = Faults(table: bool, read: bool, fates: int -> Fate)

  datatype Outcome = Done | BadCatalogue(error: CatalogueError) | NoTable | NoHistory | Stopped(version: int)

  /** Run the migration and record it: both or neither, and never under a version already recorded. */
  function Transact<S>(db: Db<S>, version: int, migrate: Migration<S>, fate: Fate): (Db<S>, bool) {
    var schema := migrate(db.schema);
    if schema.None? || version in db.recorded || fate.LostBefore? then (db, false)
    else (Db(schema.value, db.recorded + {version}, db.commits + [version]), fate.Undisturbed?)
  }

  /** The versions of 1..n that are not recorded, ascending. */
  function Pending(recorded: set<int>, n: nat): (p: seq<int>)
    ensures forall v :: v in p <==> 1 <= v <= n && v !in recorded
    ensures forall i, j :: 0 <= i < j < |p| ==> p[i] < p[j]
  {
    if n == 0 then []
    else var p := Pending(recorded, n - 1);
         assert forall i :: 0 <= i < |p| ==> p[i] in p;
         if n in recorded then p else p + [n]
  }

  function ApplyEach<S>(db: Db<S>, m: int -> Migration<S>, versions: seq<int>, fates: int -> Fate): (Db<S>, Outcome)
    decreases |versions|
  {
    if versions == [] then (db, Done)
    else var (db', ok) := Transact(db, versions[0], m(versions[0]), fates(versions[0]));
         if ok then ApplyEach(db', m, versions[1..], fates) else (db', Stopped(versions[0]))
  }

  /** One boot with the migrations 1..n of `m`. */
  function Applied<S>(db: Db<S>, m: int -> Migration<S>, n: nat, faults: Faults): (Db<S>, Outcome) {
    if faults.table then (db, NoTable)
    else if faults.read then (db, NoHistory)
    else ApplyEach(db, m, Pending(db.recorded, n), faults.fates)
  }

  /** The catalogue as a function; what lies outside it is never looked up. */
  function Lookup<S>(m: Catalogue<S>): int -> Migration<S> {
    v => if v in m && m[v].Some? then m[v].value else s => None
  }

  // ----- What one boot leaves behind, migration by migration --------------------------------------

  ghost predicate StepsBy<S>(m: Catalogue<S>, version: int, from: S, to: S) {
    version in m && m[version].Some? && m[version].value(from) == Some(to)
  }

  /** Each version in turn takes one schema to the next by the catalogue's own migration for it. */
  ghost predicate Stepwise<S>(m: Catalogue<S>, versions: seq<int>, schemas: seq<S>) {
    && |schemas| == |versions| + 1
    && forall i :: 0 <= i < |versions| ==> StepsBy(m, versions[i], schemas[i], schemas[i + 1])
  }

  /**
   What a boot did: `done` are the first of the unrecorded versions of the catalogue, ascending; each was
   committed and recorded, and took the schema where the catalogue's migration for it takes it.
   */
  ghost predicate BootedBy<S>(m: Catalogue<S>, before: Db<S>, after: Db<S>, o: Outcome, done: seq<int>,
      schemas: seq<S>) {
    var pending := Pending(before.recorded, |m|);
    && done <= pending && (o.Done? ==> done == pending)
    && Stepwise(m, done, schemas) && schemas[0] == before.schema && schemas[|done|] == after.schema
    && after.commits == before.commits + done
    && after.recorded == before.recorded + ToSet(done)
  }

  lemma NothingApplied<S>(db: Db<S>, m: Catalogue<S>, o: Outcome)
    requires !o.Done?
    ensures BootedBy(m, db, db, o, [], [db.schema])
  {
    assert ToSet<int>([]) == {};
  }

  ghost predicate Unrecorded(recorded: set<int>, versions: seq<int>) {
    Ascending(versions) && forall i :: 0 <= i < |versions| ==> versions[i] !in recorded
  }

  /** The migrations of `versions` in order, and nothing else. */
  function Replay<S>(m: int -> Migration<S>, schema: S, versions: seq<int>): Option<S> {
    if versions == [] then Some(schema)
    else match m(versions[0])(schema)
         case None => None
         case Some(next) => Replay(m, next, versions[1..])
  }

  lemma {:induction false} ReplayConcat<S>(m: int -> Migration<S>, schema: S, a: seq<int>, b: seq<int>)
    ensures Replay(m, schema, a + b) == match Replay(m, schema, a) case None => None case Some(s) => Replay(m, s, b)
  {
    if a == [] {
      assert a + b == b;
    } else {
      assert (a + b)[1..] == a[1..] + b;
      if m(a[0])(schema).Some? {
        ReplayConcat(m, m(a[0])(schema).value, a[1..], b);
      }
    }
  }

  /** How many of the versions a boot commits. */
  function Reached<S>(schema: S, m: int -> Migration<S>, versions: seq<int>, fates: int -> Fate): (k: nat)
    ensures k <= |versions|
  {
    if versions == [] || fates(versions[0]).LostBefore? || m(versions[0])(schema).None? then 0
    else if fates(versions[0]).LostAfter? then 1
    else 1 + Reached(m(versions[0])(schema).value, m, versions[1..], fates)
  }

  lemma RestUnrecorded(recorded: set<int>, versions: seq<int>)
    requires Unrecorded(recorded, versions) && versions != []
    ensures Unrecorded(recorded + {versions[0]}, versions[1..]) && versions[0] !in recorded
  {
    var rest := versions[1..];
    assert forall i :: 0 <= i < |rest| ==> rest[i] == versions[i + 1] > versions[0];
  }

  lemma ConsPrefix(versions: seq<int>, k: nat)
    requires k < |versions|
    ensures versions[..k + 1] == [versions[0]] + versions[1..][..k]
    ensures ToSet(versions[..k + 1]) == {versions[0]} + ToSet(versions[1..][..k])
  {
  }

  lemma NothingYet(versions: seq<int>)
    ensures versions[..0] == [] && ToSet(versions[..0]) == {}
  {
  }

  /** A prefix of the versions commits, in order, and those are recorded and applied to the schema, each once. */
  lemma {:induction false} EachInTurn<S>(db: Db<S>, m: int -> Migration<S>, versions: seq<int>, fates: int -> Fate)
    requires Unrecorded(db.recorded, versions)
    ensures var done, after := versions[..Reached(db.schema, m, versions, fates)], ApplyEach(db, m, versions, fates).0;
            && after.commits == db.commits + done
            && after.recorded == db.recorded + ToSet(done)
            && Replay(m, db.schema, done) == Some(after.schema)
    decreases |versions|
  {
    hide Unrecorded, ToSet;
    assert ToSet(versions[..0]) == {} by { NothingYet(versions); }
    if versions != [] {
      var (db', ok) := Transact(db, versions[0], m(versions[0]), fates(versions[0]));
      RestUnrecorded(db.recorded, versions);
      if ok {
        EachInTurn(db', m, versions[1..], fates);
        ConsPrefix(versions, Reached(db'.schema, m, versions[1..], fates));
      } else if db' != db {
        NothingYet(versions[1..]);
        ConsPrefix(versions, 0);
      }
    }
  }

  ghost predicate StoppedAt<S>(m: int -> Migration<S>, schema: S, versions: seq<int>, fates: int -> Fate, k: nat,
      version: int)
    requires k <= |versions|
  {
    || (k < |versions| && versions[k] == version
        && (fates(version).LostBefore? || Replay(m, schema, versions[..k + 1]).None?))
    || (k > 0 && versions[k - 1] == version && fates(version).LostAfter?)
  }

  /**
   The boot succeeds exactly when every migration in turn does and nothing disturbs it; otherwise it names
   the version that failed or was lost, or the one that had just committed when the process was.
   */
  lemma {:induction false} EndsWhere<S>(db: Db<S>, m: int -> Migration<S>, versions: seq<int>, fates: int -> Fate)
    requires Unrecorded(db.recorded, versions)
    ensures var outcome := ApplyEach(db, m, versions, fates).1;
            && (outcome.Done? || outcome.Stopped?)
            && (outcome.Done? <==> Replay(m, db.schema, versions).Some? && forall v :: v in versions ==>
                fates(v).Undisturbed?)
            && (outcome.Done? ==> Reached(db.schema, m, versions, fates) == |versions|)
            && (outcome.Stopped? ==>
                StoppedAt(m, db.schema, versions, fates, Reached(db.schema, m, versions, fates), outcome.version))
    decreases |versions|
  {
    hide Unrecorded, ToSet;
    if versions != [] {
      var v, rest := versions[0], versions[1..];
      var (db', ok) := Transact(db, v, m(v), fates(v));
      RestUnrecorded(db.recorded, versions);
      assert versions == [v] + rest;
      if ok {
        EndsWhere(db', m, rest, fates);
        var j := Reached(db'.schema, m, rest, fates);
        if j < |rest| {
          ConsPrefix(versions, j + 1);
        }
      } else {
        ConsPrefix(versions, 0);
      }
    }
  }

  /** Where an undisturbed replay of some versions gets to, schema by schema, is where the catalogue takes it. */
  lemma {:induction false} ReplayIsStepwise<S>(m: Catalogue<S>, schema: S, versions: seq<int>) returns (schemas: seq<S>)
    requires forall i :: 0 <= i < |versions| ==> versions[i] in m && m[versions[i]].Some?
    requires Replay(Lookup(m), schema, versions).Some?
    ensures Stepwise(m, versions, schemas) && schemas[0] == schema
    ensures Replay(Lookup(m), schema, versions) == Some(schemas[|versions|])
    decreases |versions|
  {
    if versions == [] {
      schemas := [schema];
    } else {
      var v, rest := versions[0], versions[1..];
      var next := m[v].value(schema);
      assert Lookup(m)(v)(schema) == next;
      var tail := ReplayIsStepwise(m, next.value, rest);
      schemas := [schema] + tail;
      forall i | 0 <= i < |versions|
        ensures StepsBy(m, versions[i], schemas[i], schemas[i + 1])
      {
        if i > 0 {
          assert StepsBy(m, rest[i - 1], tail[i - 1], tail[i]);
        }
      }
    }
  }

  lemma PendingIsUnrecorded(recorded: set<int>, n: nat)
    ensures Unrecorded(recorded, Pending(recorded, n))
    ensures forall i :: 0 <= i < |Pending(recorded, n)| ==> 1 <= Pending(recorded, n)[i] <= n
  {
    var p := Pending(recorded, n);
    assert forall i :: 0 <= i < |p| ==> p[i] in p;
  }

  lemma PendingIsApplied<S>(db: Db<S>, m: Catalogue<S>, pending: seq<int>, fates: int -> Fate)
    returns (done: seq<int>, schemas: seq<S>)
    requires Contiguous(m) && pending == Pending(db.recorded, |m|)
    ensures BootedBy(m, db, ApplyEach(db, Lookup(m), pending, fates).0, ApplyEach(db, Lookup(m), pending, fates).1,
        done, schemas)
  {
    hide Pending, Stepwise, Reached, ApplyEach, Replay, Unrecorded, ToSet;
    PendingIsUnrecorded(db.recorded, |m|);
    done := pending[..Reached(db.schema, Lookup(m), pending, fates)];
    assert forall i :: 0 <= i < |done| ==> done[i] == pending[i] && done[i] in m && m[done[i]].Some?;
    hide Contiguous;
    EachInTurn(db, Lookup(m), pending, fates);
    EndsWhere(db, Lookup(m), pending, fates);
    schemas := ReplayIsStepwise(m, db.schema, done);
    assert pending[..|pending|] == pending;
  }

  /**
   Every version a boot commits runs the catalogue's own migration for it, in ascending order, and on
   success all do.
   */
  lemma BootAppliesTheCatalogue<S>(db: Db<S>, m: Catalogue<S>, faults: Faults)
    requires Contiguous(m)
    ensures var (after, o) := Applied(db, Lookup(m), |m|, faults);
            exists done, schemas :: BootedBy(m, db, after, o, done, schemas)
  {
    hide BootedBy, Pending, ApplyEach, Contiguous;
    var (after, o) := Applied(db, Lookup(m), |m|, faults);
    if faults.table || faults.read {
      NothingApplied(db, m, Applied(db, Lookup(m), |m|, faults).1);
    } else {
      var done, schemas := PendingIsApplied(db, m, Pending(db.recorded, |m|), faults.fates);
      assert BootedBy(m, db, after, o, done, schemas);
    }
  }

  // ----- The runner ------------------------------------------------------------------------------

  class Database<S> {
    var schema: S
    var recorded: set<int>
    ghost var commits: seq<int>

    constructor (schema: S)
      ensures Now() == Db(schema, {}, [])
    {
      this.schema, recorded, commits := schema, {}, [];
    }

    ghost function Now(): Db<S>
      reads this
    {
      Db(schema, recorded, commits)
    }

    method ApplyOne(version: int, migrate: Migration<S>, fate: Fate) returns (ok: bool)
      modifies this
      ensures (Now(), ok) == Transact(old(Now()), version, migrate, fate)
    {
      var migrated := migrate(schema);
      if migrated.None? || version in recorded || fate.LostBefore? {
        return false;
      }
      schema, recorded, commits := migrated.value, recorded + {version}, commits + [version];
      return fate.Undisturbed?;
    }

    /** A catalogue that is not contiguous changes nothing; any other boots as `Applied` says. */
    method Apply(m: Catalogue<S>, faults: Faults) returns (o: Outcome)
      modifies this
      ensures o.BadCatalogue? <==> !Contiguous(m)
      ensures o.BadCatalogue? ==> Explains(m, o.error) && Now() == old(Now())
      ensures Contiguous(m) ==> (Now(), o) == Applied(old(Now()), Lookup(m), |m|, faults)
      ensures Contiguous(m) ==> exists done, schemas :: BootedBy(m, old(Now()), Now(), o, done, schemas)
      ensures Contiguous(m) && faults.table ==> o == NoTable && Now() == old(Now())
      ensures Contiguous(m) && !faults.table && faults.read ==> o == NoHistory && Now() == old(Now())
    {
      ghost var before := Now();
      if Contiguous(m) {
        BootAppliesTheCatalogue(before, m, faults);
      }
      var error := ValidateContiguous(m);
      if error.Some? {
        return BadCatalogue(error.value);
      }
      if faults.table {
        return NoTable;
      }
      if faults.read {
        return NoHistory;
      }
      var pending: seq<int> := [];
      for version := 1 to |m| + 1
        invariant pending == Pending(recorded, version - 1) && Now() == old(Now())
      {
        if version !in recorded {
          pending := pending + [version];
        }
      }
      ghost var start := Now();
      for i := 0 to |pending|
        invariant ApplyEach(Now(), Lookup(m), pending[i..], faults.fates)
            == ApplyEach(start, Lookup(m), pending, faults.fates)
      {
        assert pending[i] in pending;
        assert pending[i..][0] == pending[i] && pending[i..][1..] == pending[i + 1..];
        var ok := ApplyOne(pending[i], m[pending[i]].value, faults.fates(pending[i]));
        if !ok {
          return Stopped(pending[i]);
        }
      }
      return Done;
    }
  }
}
