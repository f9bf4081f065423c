/**
 Any number of processes booting against one database: each validates its catalogue and reads what is
 recorded, then runs its pending transactions one at a time, with the others' in between. A process may
 fail or crash at any point and be started again, with the same catalogue or one that has only grown at
 the end: `m` is the catalogue in the limit, and a boot has its versions 1..n.
 */
module MigrationRuns {
  import opened Wrappers
  import opened Sets
  import opened Migrations

  type BootId = nat

  /** A boot past its reading of the history; one with nothing pending has succeeded. */
  datatype Boot = Boot(n: nat, pending: seq<int>)

  datatype State<S> = State(db: Db<S>, boots: map<BootId, Boot>)

  datatype Event = Start(id: BootId, n: nat) | Step(id: BootId, fate: Fate) | Crash(id: BootId)

  function Next<S>(m: int -> Migration<S>, s: State<S>, e: Event): State<S> {
    match e
    case Start(id, n) => if id in s.boots then s else s.(boots := s.boots[id := Boot(n, Pending(s.db.recorded, n))])
    case Step(id, fate) =>
      if id !in s.boots || s.boots[id].pending == [] then s
      else var boot := s.boots[id];
           var (db, ok) := Transact(s.db, boot.pending[0], m(boot.pending[0]), fate);
           State(db, if ok then s.boots[id := Boot(boot.n, boot.pending[1..])] else s.boots - {id})
    case Crash(id) => s.(boots := s.boots - {id})
  }

  function Run<S>(m: int -> Migration<S>, s: State<S>, es: seq<Event>): State<S> {
    if es == [] then s else Next(m, Run(m, s, es[..|es| - 1]), es[|es| - 1])
  }

  function Begin<S>(db: Db<S>): State<S> {
    State(db, map[])
  }

  ghost predicate Succeeded<S>(s: State<S>, id: BootId) {
    id in s.boots && s.boots[id].pending == []
  }

  lemma {:induction false} RunConcat<S>(m: int -> Migration<S>, s: State<S>, a: seq<Event>, b: seq<Event>)
    ensures Run(m, s, a + b) == Run(m, Run(m, s, a), b)
  {
    hide Next;
    var all := a + b;
    if b == [] {
      assert all == a;
    } else {
      assert all[..|all| - 1] == a + b[..|b| - 1];
      RunConcat(m, s, a, b[..|b| - 1]);
    }
  }

  // ----- A whole boot is one of these runs -------------------------------------------------------

  function Steps(id: BootId, versions: seq<int>, fates: int -> Fate): seq<Event> {
    seq(|versions|, i requires 0 <= i < |versions| => Step(id, fates(versions[i])))
  }

  lemma {:induction false} GoneIsSilent<S>(m: int -> Migration<S>, s: State<S>, id: BootId, versions: seq<int>,
      fates: int -> Fate)
    requires id !in s.boots
    ensures Run(m, s, Steps(id, versions, fates)) == s
  {
    if versions != [] {
      var front := versions[..|versions| - 1];
      assert Steps(id, versions, fates)[..|front|] == Steps(id, front, fates);
      GoneIsSilent(m, s, id, front, fates);
    }
  }

  lemma {:induction false} EachIsARun<S>(m: int -> Migration<S>, s: State<S>, id: BootId, fates: int -> Fate)
    requires id in s.boots
    ensures var versions := s.boots[id].pending;
            var s' := Run(m, s, Steps(id, versions, fates));
            && s'.db == ApplyEach(s.db, m, versions, fates).0
            && (Succeeded(s', id) <==> ApplyEach(s.db, m, versions, fates).1.Done?)
    decreases |s.boots[id].pending|
  {
    var versions := s.boots[id].pending;
    if versions != [] {
      var first, rest := Steps(id, versions[..1], fates), Steps(id, versions[1..], fates);
      assert Steps(id, versions, fates) == first + rest;
      assert first == [Step(id, fates(versions[0]))] && first[..0] == [];
      RunConcat(m, s, first, rest);
      var s' := Next(m, s, first[0]);
      assert Run(m, s, first) == s';
      if id in s'.boots {
        EachIsARun(m, s', id, fates);
      } else {
        GoneIsSilent(m, s', id, versions[1..], fates);
      }
    }
  }

  /** What the runner does in one undivided boot is what the interleaved steps of a fresh process do. */
  lemma ApplyIsARun<S>(m: int -> Migration<S>, s: State<S>, id: BootId, n: nat, faults: Faults)
    requires id !in s.boots && !faults.table && !faults.read
    ensures var s' := Run(m, s, [Start(id, n)] + Steps(id, Pending(s.db.recorded, n), faults.fates));
            s'.db == Applied(s.db, m, n, faults).0 && (Succeeded(s', id) <==> Applied(s.db, m, n, faults).1.Done?)
  {
    var start := [Start(id, n)];
    assert start[..0] == [];
    RunConcat(m, s, start, Steps(id, Pending(s.db.recorded, n), faults.fates));
    EachIsARun(m, Run(m, s, start), id, faults.fates);
  }

  /** `m` is the catalogue in the limit: a boot's own catalogue holds its first versions. */
  ghost predicate Begins<S>(cat: Catalogue<S>, m: int -> Migration<S>) {
    Contiguous(cat) && forall v :: v in cat ==> cat[v] == Some(m(v))
  }

  lemma {:induction false} EachAlike<S>(cat: Catalogue<S>, m: int -> Migration<S>, db: Db<S>, versions: seq<int>,
      fates: int -> Fate)
    requires Begins(cat, m) && forall i :: 0 <= i < |versions| ==> versions[i] in cat
    ensures ApplyEach(db, Lookup(cat), versions, fates) == ApplyEach(db, m, versions, fates)
    decreases |versions|
  {
    if versions != [] {
      var v := versions[0];
      assert Lookup(cat)(v) == m(v);
      EachAlike(cat, m, Transact(db, v, m(v), fates(v)).0, versions[1..], fates);
    }
  }

  /** So what the runner does with a boot's own catalogue is what these runs say of its length. */
  lemma CatalogueBootsAsItsVersions<S>(cat: Catalogue<S>, m: int -> Migration<S>, db: Db<S>, faults: Faults)
    requires Begins(cat, m)
    ensures Applied(db, Lookup(cat), |cat|, faults) == Applied(db, m, |cat|, faults)
  {
    var pending := Pending(db.recorded, |cat|);
    assert forall i :: 0 <= i < |pending| ==> pending[i] in pending;
    EachAlike(cat, m, db, pending, faults.fates);
  }

  // ----- What every run keeps --------------------------------------------------------------------

  /** Every version a boot answers for is recorded or still pending. */
  ghost predicate BootInv(recorded: set<int>, b: Boot) {
    && Ascending(b.pending)
    && (forall i :: 0 <= i < |b.pending| ==> 1 <= b.pending[i] <= b.n)
    && (forall v :: 1 <= v <= b.n && v !in recorded ==> v in b.pending)
  }

  ghost predicate HistoryInv<S>(m: int -> Migration<S>, start: Db<S>, db: Db<S>) {
    && NoRepeats(db.commits)
    && ToSet(db.commits) !! start.recorded
    && db.recorded == start.recorded + ToSet(db.commits)
    && Replay(m, start.schema, db.commits) == Some(db.schema)
  }

  ghost predicate BootsInv<S>(s: State<S>) {
    forall id :: id in s.boots ==> BootInv(s.db.recorded, s.boots[id])
  }

  lemma MoreRecordedKeepsBootInv(recorded: set<int>, v: int, b: Boot)
    requires BootInv(recorded, b)
    ensures BootInv(recorded + {v}, b)
    ensures b.pending != [] && v == b.pending[0] ==> BootInv(recorded + {v}, Boot(b.n, b.pending[1..]))
  {
    if b.pending != [] && v == b.pending[0] {
      var rest := b.pending[1..];
      forall w | 1 <= w <= b.n && w !in recorded + {v}
        ensures w in rest
      {
        var i :| 0 <= i < |b.pending| && b.pending[i] == w;
        assert rest[i - 1] == w;
      }
    }
  }

  lemma PendingIsExact(recorded: set<int>, n: nat)
    ensures BootInv(recorded, Boot(n, Pending(recorded, n)))
  {
    var p := Pending(recorded, n);
    assert forall i :: 0 <= i < |p| ==> p[i] in p;
  }

  lemma StepKeepsBootsInv<S>(m: int -> Migration<S>, s: State<S>, e: Event)
    requires BootsInv(s)
    ensures BootsInv(Next(m, s, e))
  {
    hide BootInv;
    match e
    case Start(id, n) =>
      assert BootInv(s.db.recorded, Boot(n, Pending(s.db.recorded, n))) by {
        PendingIsExact(s.db.recorded, n);
      }
    case Step(id, fate) =>
      if id in s.boots && s.boots[id].pending != [] {
        var v := s.boots[id].pending[0];
        assert Next(m, s, e).db.recorded == s.db.recorded || Next(m, s, e).db.recorded == s.db.recorded + {v};
        forall i | i in s.boots
          ensures BootInv(s.db.recorded + {v}, s.boots[i])
        {
          MoreRecordedKeepsBootInv(s.db.recorded, v, s.boots[i]);
        }
        MoreRecordedKeepsBootInv(s.db.recorded, v, s.boots[id]);
      }
    case Crash(_) =>
  }

  lemma CommitsGrow(commits: seq<int>, v: int)
    requires NoRepeats(commits)
    ensures ToSet(commits + [v]) == ToSet(commits) + {v}
    ensures v !in ToSet(commits) ==> NoRepeats(commits + [v])
  {
  }

  lemma TransactKeepsHistoryInv<S>(m: int -> Migration<S>, start: Db<S>, db: Db<S>, v: int, fate: Fate)
    requires HistoryInv(m, start, db)
    ensures HistoryInv(m, start, Transact(db, v, m(v), fate).0)
  {
    var db' := Transact(db, v, m(v), fate).0;
    if db' != db {
      CommitsGrow(db.commits, v);
      hide NoRepeats, ToSet;
      ReplayConcat(m, start.schema, db.commits, [v]);
      assert Replay(m, db.schema, [v]) == Some(db'.schema);
    }
  }

  lemma {:induction false} RunKeepsInv<S>(m: int -> Migration<S>, start: Db<S>, es: seq<Event>)
    requires start.commits == []
    ensures HistoryInv(m, start, Run(m, Begin(start), es).db) && BootsInv(Run(m, Begin(start), es))
  {
    if es != [] {
      RunKeepsInv(m, start, es[..|es| - 1]);
      hide HistoryInv, BootsInv, Transact;
      var s, e := Run(m, Begin(start), es[..|es| - 1]), es[|es| - 1];
      StepKeepsBootsInv(m, s, e);
      if e.Step? && e.id in s.boots && s.boots[e.id].pending != [] {
        TransactKeepsHistoryInv(m, start, s.db, s.boots[e.id].pending[0], e.fate);
      }
    }
  }

  /**
   Whatever crashes, repeats and overlaps there were: no migration commits twice, none that was recorded
   at the start commits at all, the recorded set is the committed one, and the schema is what those
   migrations leave when each is applied once in the order they committed.
   */
  lemma CommitsAtMostOnce<S>(m: int -> Migration<S>, start: Db<S>, es: seq<Event>)
    requires start.commits == []
    ensures var db := Run(m, Begin(start), es).db;
            && NoRepeats(db.commits)
            && ToSet(db.commits) !! start.recorded
            && db.recorded == start.recorded + ToSet(db.commits)
            && Replay(m, start.schema, db.commits) == Some(db.schema)
  {
    RunKeepsInv(m, start, es);
  }

  lemma RecordsStay<S>(m: int -> Migration<S>, s: State<S>, e: Event)
    ensures s.db.recorded <= Next(m, s, e).db.recorded
  {
  }

  /** A boot that succeeded has all its versions recorded, holes filled, and they stay so. */
  lemma {:induction false} SuccessIsComplete<S>(m: int -> Migration<S>, start: Db<S>, es: seq<Event>, more: seq<Event>,
      id: BootId)
    requires start.commits == [] && Succeeded(Run(m, Begin(start), es), id)
    ensures forall v :: 1 <= v <= Run(m, Begin(start), es).boots[id].n ==>
        v in Run(m, Begin(start), es + more).db.recorded
  {
    hide Next;
    var all := es + more;
    if more == [] {
      assert all == es;
      RunKeepsInv(m, start, es);
    } else {
      assert all[..|all| - 1] == es + more[..|more| - 1];
      SuccessIsComplete(m, start, es, more[..|more| - 1], id);
      RecordsStay(m, Run(m, Begin(start), all[..|all| - 1]), all[|all| - 1]);
    }
  }

  // ----- Starting without holes ------------------------------------------------------------------

  function Versions(from: nat, to: nat): (s: seq<int>)
    requires from <= to
    ensures |s| == to - from && forall i :: 0 <= i < |s| ==> s[i] == from + i + 1
  {
    seq(to - from, i => from + i + 1)
  }

  /** Versions 1..k0 are recorded and no others. */
  ghost predicate NoHoles<S>(start: Db<S>, k0: nat) {
    start.commits == [] && start.recorded == UpTo(k0)
  }

  /** Versions 1..k are recorded and the schema is the start's after one clean run of the others. */
  ghost predicate CleanUpTo<S>(m: int -> Migration<S>, start: Db<S>, k0: nat, k: nat, db: Db<S>) {
    && k0 <= k && db.recorded == UpTo(k) && db.commits == Versions(k0, k)
    && Replay(m, start.schema, Versions(k0, k)) == Some(db.schema)
  }

  function Frontier<S>(k0: nat, db: Db<S>): nat {
    k0 + |db.commits|
  }

  lemma HeadIsTheNext(k: nat, b: Boot)
    requires BootInv(UpTo(k), b) && b.pending != [] && b.pending[0] !in UpTo(k)
    ensures b.pending[0] == k + 1
  {
    assert b.pending[0] <= b.n;
    assert k + 1 in b.pending;
  }

  lemma TransactExtends<S>(m: int -> Migration<S>, start: Db<S>, k0: nat, k: nat, db: Db<S>, fate: Fate)
    requires CleanUpTo(m, start, k0, k, db) && Transact(db, k + 1, m(k + 1), fate).0 != db
    ensures CleanUpTo(m, start, k0, k + 1, Transact(db, k + 1, m(k + 1), fate).0)
  {
    ReplayConcat(m, start.schema, Versions(k0, k), [(k + 1) as int]);
    assert Versions(k0, k + 1) == Versions(k0, k) + [k + 1];
    assert UpTo(k + 1) == UpTo(k) + {k + 1};
  }

  lemma StepKeepsClean<S>(m: int -> Migration<S>, start: Db<S>, k0: nat, s: State<S>, e: Event)
    requires CleanUpTo(m, start, k0, Frontier(k0, s.db), s.db) && BootsInv(s)
    ensures CleanUpTo(m, start, k0, Frontier(k0, Next(m, s, e).db), Next(m, s, e).db)
    ensures Next(m, s, e).db != s.db ==> e.Step? && e.id in s.boots && Frontier(k0, Next(m, s, e).db) <= s.boots[e.id].n
  {
    var s', k := Next(m, s, e), Frontier(k0, s.db);
    if s'.db != s.db {
      HeadIsTheNext(k, s.boots[e.id]);
      hide CleanUpTo;
      TransactExtends(m, start, k0, k, s.db, e.fate);
    }
  }

  ghost predicate Bounded(es: seq<Event>, top: nat) {
    forall i :: 0 <= i < |es| && es[i].Start? ==> es[i].n <= top
  }

  ghost predicate BootsWithin(boots: map<BootId, Boot>, top: nat) {
    forall id :: id in boots ==> boots[id].n <= top
  }

  lemma StepKeepsBound<S>(m: int -> Migration<S>, s: State<S>, e: Event, top: nat)
    requires BootsWithin(s.boots, top) && (e.Start? ==> e.n <= top)
    ensures BootsWithin(Next(m, s, e).boots, top)
  {
    hide Transact, Pending;
  }

  lemma {:induction false} BootsAreBounded<S>(m: int -> Migration<S>, start: Db<S>, es: seq<Event>, top: nat)
    requires Bounded(es, top)
    ensures BootsWithin(Run(m, Begin(start), es).boots, top)
  {
    if es != [] {
      var before, e := es[..|es| - 1], es[|es| - 1];
      assert forall i :: 0 <= i < |before| ==> before[i] == es[i];
      BootsAreBounded(m, start, before, top);
      assert e.Start? ==> e.n <= top;
      StepKeepsBound(m, Run(m, Begin(start), before), e, top);
    }
  }

  /** From no holes there are never holes: at every moment some 1..k are recorded, applied once each and in order. */
  lemma {:induction false} NeverAnyHoles<S>(m: int -> Migration<S>, start: Db<S>, k0: nat, es: seq<Event>)
    requires NoHoles(start, k0)
    ensures var db := Run(m, Begin(start), es).db; CleanUpTo(m, start, k0, Frontier(k0, db), db)
  {
    if es != [] {
      var before := es[..|es| - 1];
      NeverAnyHoles(m, start, k0, before);
      RunKeepsInv(m, start, before);
      StepKeepsClean(m, start, k0, Run(m, Begin(start), before), es[|es| - 1]);
    }
  }

  lemma {:induction false} FrontierIsBounded<S>(m: int -> Migration<S>, start: Db<S>, k0: nat, es: seq<Event>, top: nat)
    requires NoHoles(start, k0) && k0 <= top && Bounded(es, top)
    ensures Frontier(k0, Run(m, Begin(start), es).db) <= top
  {
    if es != [] {
      var before := es[..|es| - 1];
      FrontierIsBounded(m, start, k0, before, top);
      NeverAnyHoles(m, start, k0, before);
      RunKeepsInv(m, start, before);
      BootsAreBounded(m, start, before, top);
      StepKeepsClean(m, start, k0, Run(m, Begin(start), before), es[|es| - 1]);
    }
  }

  /**
   The first boot to succeed with a catalogue as long as any that was tried leaves the schema, the records
   and the history of one clean run of its migrations in order, whatever failed and crashed before it.
   */
  lemma SuccessIsACleanRun<S>(m: int -> Migration<S>, start: Db<S>, k0: nat, es: seq<Event>, id: BootId)
    requires NoHoles(start, k0) && Succeeded(Run(m, Begin(start), es), id)
    ensures var s := Run(m, Begin(start), es); var n := s.boots[id].n;
            && n <= Frontier(k0, s.db)
            && (k0 <= n && Bounded(es, n) ==> CleanUpTo(m, start, k0, n, s.db))
  {
    var s := Run(m, Begin(start), es);
    var n := s.boots[id].n;
    NeverAnyHoles(m, start, k0, es);
    SuccessIsComplete(m, start, es, [], id);
    assert es + [] == es;
    assert n == 0 || n in s.db.recorded;
    if k0 <= n && Bounded(es, n) {
      FrontierIsBounded(m, start, k0, es, n);
    }
  }

  lemma {:induction false} VersionsFill(k: nat, n: nat)
    requires k <= n
    ensures UpTo(k) + ToSet(Versions(k, n)) == UpTo(n)
  {
    if k < n {
      VersionsFill(k, n - 1);
      assert Versions(k, n) == Versions(k, n - 1) + [n];
      assert ToSet(Versions(k, n)) == ToSet(Versions(k, n - 1)) + {n};
    }
  }

  lemma UndisturbedTail<S>(m: int -> Migration<S>, db: Db<S>, k: nat, n: nat, fates: int -> Fate)
    requires db.recorded == UpTo(k) && k <= n && forall v :: fates(v).Undisturbed?
    ensures var (after, outcome) := ApplyEach(db, m, Versions(k, n), fates);
            && (outcome.Done? <==> Replay(m, db.schema, Versions(k, n)).Some?)
            && (outcome.Done? ==>
                  after.recorded == UpTo(n) && Replay(m, db.schema, Versions(k, n)) == Some(after.schema))
  {
    var p := Versions(k, n);
    assert Unrecorded(db.recorded, p);
    hide Unrecorded, ApplyEach, Replay, UpTo, ToSet, Reached;
    EachInTurn(db, m, p, fates);
    EndsWhere(db, m, p, fates);
    assert p[..|p|] == p;
    VersionsFill(k, n);
  }

  lemma {:induction false} NothingPending(recorded: set<int>, n: nat)
    requires forall v :: 1 <= v <= n ==> v in recorded
    ensures Pending(recorded, n) == []
  {
    if n > 0 {
      NothingPending(recorded, n - 1);
    }
  }

  lemma {:induction false} PendingBeyond(k: nat, n: nat)
    requires k <= n
    ensures Pending(UpTo(k), n) == Versions(k, n)
  {
    hide UpTo;
    if k == n {
      NothingPending(UpTo(k), n);
    } else {
      PendingBeyond(k, n - 1);
      assert Versions(k, n) == Versions(k, n - 1) + [n];
    }
  }

  lemma PendingPastTheFrontier(k: nat, n: nat)
    ensures Pending(UpTo(k), n) == if n <= k then [] else Versions(k, n)
  {
    hide UpTo, Pending;
    if n <= k {
      NothingPending(UpTo(k), n);
    } else {
      PendingBeyond(k, n);
    }
  }

  lemma AppliedPastTheFrontier<S>(m: int -> Migration<S>, db: Db<S>, k: nat, n: nat, faults: Faults)
    requires db.recorded == UpTo(k) && !faults.table && !faults.read
    ensures n <= k ==> Applied(db, m, n, faults) == (db, Done)
    ensures n > k ==> Applied(db, m, n, faults) == ApplyEach(db, m, Versions(k, n), faults.fates)
  {
    hide Pending, UpTo;
    PendingPastTheFrontier(k, n);
  }

  lemma RecoversFrom<S>(m: int -> Migration<S>, start: Db<S>, k0: nat, k: nat, db: Db<S>, n: nat, faults: Faults)
    requires CleanUpTo(m, start, k0, k, db) && !faults.table && !faults.read && forall v :: faults.fates(v).Undisturbed?
    ensures var (after, outcome) := Applied(db, m, n, faults);
            && (n <= k ==> outcome.Done? && after == db)
            && (n > k ==>
                  && (outcome.Done? <==> Replay(m, start.schema, Versions(k0, n)).Some?)
                  && (outcome.Done? ==>
                        after.recorded == UpTo(n) && Replay(m, start.schema, Versions(k0, n)) == Some(after.schema)))
  {
    hide Pending, ApplyEach, UpTo, Applied, Replay;
    AppliedPastTheFrontier(m, db, k, n, faults);
    if n > k {
      assert Versions(k0, n) == Versions(k0, k) + Versions(k, n);
      ReplayConcat(m, start.schema, Versions(k0, k), Versions(k, n));
      UndisturbedTail(m, db, k, n, faults.fates);
    }
  }

  /**
   And a boot that nothing disturbs does succeed, after any such history, exactly when the clean run of
   its migrations does: crashes neither lose a migration nor make one impossible.
   */
  lemma UndisturbedBootRecovers<S>(m: int -> Migration<S>, start: Db<S>, k0: nat, es: seq<Event>, n: nat,
      faults: Faults)
    requires NoHoles(start, k0) && !faults.table && !faults.read && forall v :: faults.fates(v).Undisturbed?
    ensures var s := Run(m, Begin(start), es);
            var (after, outcome) := Applied(s.db, m, n, faults);
            && (n <= Frontier(k0, s.db) ==> outcome.Done? && after == s.db)
            && (n > Frontier(k0, s.db) ==>
                  && (outcome.Done? <==> Replay(m, start.schema, Versions(k0, n)).Some?)
                  && (outcome.Done? ==>
                        after.recorded == UpTo(n) && Replay(m, start.schema, Versions(k0, n)) == Some(after.schema)))
  {
    hide Applied, CleanUpTo, Run, UpTo, Replay, Frontier;
    NeverAnyHoles(m, start, k0, es);
    var db := Run(m, Begin(start), es).db;
    RecoversFrom(m, start, k0, Frontier(k0, db), db, n, faults);
  }

  /** Booting again with the same catalogue does nothing, whatever was recorded and whatever befalls it. */
  lemma SecondBootIsIdle<S>(m: int -> Migration<S>, db: Db<S>, n: nat, faults: Faults, again: Faults)
    requires Applied(db, m, n, faults).1.Done?
    ensures Applied(db, m, n, faults).0.recorded == db.recorded + UpTo(n)
    ensures Applied(Applied(db, m, n, faults).0, m, n, again).0 == Applied(db, m, n, faults).0
    ensures !again.table && !again.read ==> Applied(Applied(db, m, n, faults).0, m, n, again).1.Done?
  {
    var p := Pending(db.recorded, n);
    assert Unrecorded(db.recorded, p) by {
      PendingIsExact(db.recorded, n);
      assert forall i :: 0 <= i < |p| ==> p[i] in p;
    }
    EachInTurn(db, m, p, faults.fates);
    EndsWhere(db, m, p, faults.fates);
    assert p[..|p|] == p;
    var after := Applied(db, m, n, faults).0;
    assert after.recorded == db.recorded + UpTo(n);
    NothingPending(after.recorded, n);
  }
}
