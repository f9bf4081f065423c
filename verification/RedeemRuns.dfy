/**
 Every interleaving of redeem requests with reset requests. `claims` records who won which row,
 `changes` which claimed row set a password, `issued` which token text each row was created for.
 */
module RedeemRuns {
  import opened Wrappers
  import opened Sets
  import opened LinkToken
  import opened Redeem

  /** A redeem request, between its statements. */
  datatype Phase =
    | Verified(token: string, purpose: string, subject: UserId)
    | Found(token: string, purpose: string, subject: UserId, row: RowId)
    | Won(token: string, purpose: string, subject: UserId, row: RowId)

  datatype Claim = Claim(pid: Pid, row: RowId, token: string, purpose: string, subject: UserId)

  datatype State = State(
    rows: Table,
    issued: map<RowId, string>,
    redeems: map<Pid, Phase>,
    resets: map<Pid, UserId>,     // reset requests that have invalidated and not yet created
    claims: seq<Claim>,
    changes: seq<Claim>)

  datatype Event =
    | VerifyStep(pid: Pid, token: string, purpose: string, now: int)
    | FindStep(pid: Pid, found: Option<RowId>)
    | ConsumeStep(pid: Pid, now: int)
    | SetPassword(pid: Pid)
    | Drop(pid: Pid)              // an error, a suspended account, or a finished request
    | InvalidateStep(pid: Pid, user: UserId, now: int)
    | CreateStep(pid: Pid, id: RowId, ttl: int, now: int, nonce: string)
    | AbandonReset(pid: Pid)
    | MailVerification(id: RowId, user: UserId, ttl: int, now: int, nonce: string)

  const EMPTY := State(map[], map[], map[], map[], [], [])

  function Record(c: Crypto, s: State, id: RowId, user: UserId, purpose: string, ttl: int, now: int, nonce: string)
    : Option<State>
  {
    match Inserted(s.rows, id, Recording(c, user, purpose, ttl, now, nonce))
    case None => None
    case Some(rows) => Some(s.(rows := rows, issued := s.issued[id := Issue(c, user, purpose, ttl, now, nonce).0]))
  }

  function Next(c: Crypto, s: State, e: Event): Option<State> {
    match e
    case VerifyStep(pid, token, purpose, now) =>
      if pid in s.redeems then None
      else (match Verify(c, token, purpose, now)
            case Err(_) => Some(s)
            case Ok(p) => Some(s.(redeems := s.redeems[pid := Verified(token, purpose, p.subject)])))
    case FindStep(pid, found) =>
      if pid !in s.redeems || !s.redeems[pid].Verified? then None
      else
        var r := s.redeems[pid];
        var holders := Holders(s.rows, c.fingerprint(r.token));
        (match found
         case None => if holders == {} then Some(s.(redeems := s.redeems - {pid})) else None
         case Some(id) =>
           if id !in holders then None
           else if s.rows[id].purpose != r.purpose || s.rows[id].user != r.subject then
             Some(s.(redeems := s.redeems - {pid}))
           else Some(s.(redeems := s.redeems[pid := Found(r.token, r.purpose, r.subject, id)])))
    case ConsumeStep(pid, now) =>
      if pid !in s.redeems || !s.redeems[pid].Found? then None
      else
        var r := s.redeems[pid];
        if r.row in s.rows && s.rows[r.row].consumedAt.None? then
          Some(s.(rows := Consumed(s.rows, r.row, now),
                  redeems := s.redeems[pid := Won(r.token, r.purpose, r.subject, r.row)],
                  claims := s.claims + [Claim(pid, r.row, r.token, r.purpose, r.subject)]))
        else Some(s.(redeems := s.redeems - {pid}))
    case SetPassword(pid) =>
      if pid !in s.redeems || !s.redeems[pid].Won? || s.redeems[pid].purpose != PASSWORD_RESET then None
      else
        var r := s.redeems[pid];
        Some(s.(redeems := s.redeems - {pid},
                changes := s.changes + [Claim(pid, r.row, r.token, r.purpose, r.subject)]))
    case Drop(pid) => if pid !in s.redeems then None else Some(s.(redeems := s.redeems - {pid}))
    case InvalidateStep(pid, user, now) =>
      if pid in s.resets then None
      else Some(s.(rows := Invalidated(s.rows, user, PASSWORD_RESET, now), resets := s.resets[pid := user]))
    case CreateStep(pid, id, ttl, now, nonce) =>
      if pid !in s.resets then None
      else (match Record(c, s, id, s.resets[pid], PASSWORD_RESET, ttl, now, nonce)
            case None => None
            case Some(s') => Some(s'.(resets := s.resets - {pid})))
    case AbandonReset(pid) => if pid !in s.resets then None else Some(s.(resets := s.resets - {pid}))
    case MailVerification(id, user, ttl, now, nonce) => Record(c, s, id, user, EMAIL_VERIFICATION, ttl, now, nonce)
  }

  function Run(c: Crypto, s: State, es: seq<Event>): Option<State> {
    if es == [] then Some(s)
    else match Run(c, s, es[..|es| - 1])
         case None => None
         case Some(middle) => Next(c, middle, es[|es| - 1])
  }

  // ----- The table only ever grows and fills in -------------------------------------------------------

  /** Rows are never removed, never re-addressed, and never un-consumed. */
  ghost predicate Grows(before: Table, after: Table) {
    forall id :: id in before ==>
      && id in after
      && after[id].(consumedAt := None) == before[id].(consumedAt := None)
      && (before[id].consumedAt.Some? ==> after[id] == before[id])
  }

  lemma StepGrows(c: Crypto, s: State, e: Event)
    requires Next(c, s, e).Some?
    ensures Grows(s.rows, Next(c, s, e).value.rows)
    ensures s.claims <= Next(c, s, e).value.claims
  {
  }

  /** Once redeemed or retired, a link stays so, with the same timestamp, whatever happens next. */
  lemma {:induction false} ConsumptionIsFinal(c: Crypto, s: State, es: seq<Event>)
    requires Run(c, s, es).Some?
    ensures Grows(s.rows, Run(c, s, es).value.rows)
    ensures s.claims <= Run(c, s, es).value.claims
  {
    if es != [] {
      var front := es[..|es| - 1];
      ConsumptionIsFinal(c, s, front);
      StepGrows(c, Run(c, s, front).value, es[|es| - 1]);
    }
  }

  // ----- Each link is claimed at most once ------------------------------------------------------------

  function RowsOf(claims: seq<Claim>): seq<RowId> {
    seq(|claims|, i requires 0 <= i < |claims| => claims[i].row)
  }

  ghost predicate TableInv(c: Crypto, s: State) {
    && s.issued.Keys == s.rows.Keys
    && (forall id :: id in s.rows ==> s.rows[id].fingerprint == c.fingerprint(s.issued[id]))
  }

  /** The row a request holds records the token it presented, for that purpose and subject. */
  ghost predicate Holds(c: Crypto, s: State, token: string, purpose: string, subject: UserId, row: RowId) {
    row in s.rows && s.rows[row].fingerprint == c.fingerprint(token) && s.rows[row].purpose == purpose
        && s.rows[row].user == subject
  }

  ghost predicate RedeemsInv(c: Crypto, s: State) {
    forall pid :: pid in s.redeems && !s.redeems[pid].Verified? ==>
      var r := s.redeems[pid];
      && Holds(c, s, r.token, r.purpose, r.subject, r.row)
      && (r.Won? ==> s.rows[r.row].consumedAt.Some? && Claim(pid, r.row, r.token, r.purpose, r.subject) in s.claims)
  }

  ghost predicate ClaimsInv(c: Crypto, s: State) {
    && NoRepeats(RowsOf(s.claims))
    && (forall k :: k in s.claims ==>
          Holds(c, s, k.token, k.purpose, k.subject, k.row) && s.rows[k.row].consumedAt.Some?)
  }

  /** A request that may still change a password has not done so, and every change was a claim. */
  ghost predicate ChangesInv(s: State) {
    && NoRepeats(RowsOf(s.changes))
    && (forall k :: k in s.changes ==> k in s.claims && k.purpose == PASSWORD_RESET)
    && (forall pid, k :: pid in s.redeems && s.redeems[pid].Won? && k in s.changes ==> s.redeems[pid].row != k.row)
    && (forall p, q ::
          p in s.redeems && q in s.redeems && s.redeems[p].Won? && s.redeems[q].Won? ==>
            s.redeems[p].row == s.redeems[q].row ==> p == q)
  }

  ghost predicate Inv(c: Crypto, s: State) {
    TableInv(c, s) && RedeemsInv(c, s) && ClaimsInv(c, s) && ChangesInv(s)
  }

  lemma RowsOfSnoc(claims: seq<Claim>, k: Claim)
    ensures RowsOf(claims + [k]) == RowsOf(claims) + [k.row]
    ensures NoRepeats(RowsOf(claims)) && (forall j :: j in claims ==> j.row != k.row) ==>
        NoRepeats(RowsOf(claims + [k]))
  {
    var rows := RowsOf(claims);
    assert forall i :: 0 <= i < |claims| ==> rows[i] == claims[i].row && claims[i] in claims;
  }

  /** Two recorded claims of one row are one claim. */
  lemma OneClaimPerRow(claims: seq<Claim>, j: Claim, k: Claim)
    requires NoRepeats(RowsOf(claims)) && j in claims && k in claims && j.row == k.row
    ensures j == k
  {
    var x :| 0 <= x < |claims| && claims[x] == j;
    var y :| 0 <= y < |claims| && claims[y] == k;
    assert RowsOf(claims)[x] == RowsOf(claims)[y];
  }

  lemma StepKeepsTable(c: Crypto, s: State, e: Event)
    requires Inv(c, s) && Next(c, s, e).Some?
    ensures TableInv(c, Next(c, s, e).value)
  {
  }

  /** What a request holds stays true while rows only grow and claims are only added. */
  lemma GrowthKeepsRedeems(c: Crypto, s: State, s': State)
    requires RedeemsInv(c, s) && Grows(s.rows, s'.rows) && s.claims <= s'.claims
    requires forall pid :: pid in s'.redeems ==>
               s'.redeems[pid].Verified? || (pid in s.redeems && s'.redeems[pid] == s.redeems[pid])
    ensures RedeemsInv(c, s')
  {
  }

  lemma ProgressKeepsRedeems(c: Crypto, s: State, e: Event)
    requires Inv(c, s) && Next(c, s, e).Some? && (e.FindStep? || e.ConsumeStep?)
    ensures RedeemsInv(c, Next(c, s, e).value)
  {
    hide TableInv, ChangesInv, NoRepeats, Verify, Issue, Recording;
    StepGrows(c, s, e);
  }

  lemma StepKeepsRedeems(c: Crypto, s: State, e: Event)
    requires Inv(c, s) && Next(c, s, e).Some?
    ensures RedeemsInv(c, Next(c, s, e).value)
  {
    StepGrows(c, s, e);
    if e.FindStep? || e.ConsumeStep? {
      ProgressKeepsRedeems(c, s, e);
    } else {
      hide TableInv, RedeemsInv, ClaimsInv, ChangesInv, Grows, Verify, Recording, Holders, Invalidated, Inserted;
      GrowthKeepsRedeems(c, s, Next(c, s, e).value);
    }
  }

  lemma StepKeepsClaims(c: Crypto, s: State, e: Event)
    requires Inv(c, s) && Next(c, s, e).Some?
    ensures ClaimsInv(c, Next(c, s, e).value)
  {
    hide TableInv, ChangesInv, NoRepeats, RowsOf, Verify, Issue, Recording;
    StepGrows(c, s, e);
    if e.ConsumeStep? {
      var r := s.redeems[e.pid];
      RowsOfSnoc(s.claims, Claim(e.pid, r.row, r.token, r.purpose, r.subject));
    }
  }

  lemma StepKeepsChanges(c: Crypto, s: State, e: Event)
    requires Inv(c, s) && Next(c, s, e).Some?
    ensures ChangesInv(Next(c, s, e).value)
  {
    hide TableInv, NoRepeats, RowsOf, Verify, Issue, Recording;
    if e.SetPassword? {
      var r := s.redeems[e.pid];
      RowsOfSnoc(s.changes, Claim(e.pid, r.row, r.token, r.purpose, r.subject));
    }
  }

  lemma {:induction false} RunKeepsInv(c: Crypto, es: seq<Event>)
    requires Run(c, EMPTY, es).Some?
    ensures Inv(c, Run(c, EMPTY, es).value)
  {
    if es != [] {
      var front, e := es[..|es| - 1], es[|es| - 1];
      RunKeepsInv(c, front);
      var s := Run(c, EMPTY, front).value;
      hide Next;
      StepKeepsTable(c, s, e);
      StepKeepsRedeems(c, s, e);
      StepKeepsClaims(c, s, e);
      StepKeepsChanges(c, s, e);
    }
  }

  /**
   In every interleaving each issued link is claimed by at most one request, and a reset link changes a
   password at most once. The claiming request presented the very text that was issued, for the purpose
   and the account it was issued for; any other spelling of the token, verifiable or not, claims nothing.
   */
  lemma LinksAreSingleUse(c: Crypto, es: seq<Event>, s: State)
    requires FingerprintInjective(c) && Run(c, EMPTY, es) == Some(s)
    ensures NoRepeats(RowsOf(s.claims)) && NoRepeats(RowsOf(s.changes))
    ensures forall k :: k in s.claims ==>
              && k.row in s.rows && s.rows[k.row].consumedAt.Some?
              && k.row in s.issued && k.token == s.issued[k.row]
              && k.purpose == s.rows[k.row].purpose && k.subject == s.rows[k.row].user
    ensures forall k :: k in s.changes ==> k in s.claims && s.rows[k.row].purpose == PASSWORD_RESET
  {
    RunKeepsInv(c, es);
  }

  lemma StepKeepsUniqueFingerprints(c: Crypto, s: State, e: Event)
    requires UniqueFingerprints(s.rows) && Next(c, s, e).Some?
    ensures UniqueFingerprints(Next(c, s, e).value.rows)
  {
    hide Issue, Verify, Unix;
    var rows' := Next(c, s, e).value.rows;
    if e.CreateStep? || e.MailVerification? {
      assert forall i :: i in s.rows ==> i !in Holders(s.rows, rows'[e.id].fingerprint);
      assert rows' == s.rows[e.id := rows'[e.id]];
    } else {
      StepGrows(c, s, e);
      assert rows'.Keys == s.rows.Keys;
    }
  }

  lemma {:induction false} RunKeepsUniqueFingerprints(c: Crypto, es: seq<Event>)
    requires Run(c, EMPTY, es).Some?
    ensures UniqueFingerprints(Run(c, EMPTY, es).value.rows)
  {
    hide Next;
    if es != [] {
      RunKeepsUniqueFingerprints(c, es[..|es| - 1]);
      StepKeepsUniqueFingerprints(c, Run(c, EMPTY, es[..|es| - 1]).value, es[|es| - 1]);
    }
  }

  /** Two claims of one token text are the same claim. */
  lemma TokenClaimedOnce(c: Crypto, es: seq<Event>, s: State, j: Claim, k: Claim)
    requires FingerprintInjective(c) && Run(c, EMPTY, es) == Some(s)
    requires j in s.claims && k in s.claims && j.token == k.token
    ensures j == k
  {
    RunKeepsInv(c, es);
    RunKeepsUniqueFingerprints(c, es);
    assert s.rows[j.row].fingerprint == s.rows[k.row].fingerprint;
    OneClaimPerRow(s.claims, j, k);
  }

  /** The two ways for a row to be spent: a claim of that very row, or a reset request of its own user. */
  predicate Spends(s: State, e: Event, id: RowId) {
    id in s.rows &&
    match e
    case ConsumeStep(pid, _) => pid in s.redeems && s.redeems[pid].Found? && s.redeems[pid].row == id
    case InvalidateStep(_, user, _) => s.rows[id].user == user && s.rows[id].purpose == PASSWORD_RESET
    case _ => false
  }

  lemma StepSpends(c: Crypto, s: State, e: Event, id: RowId)
    requires Next(c, s, e).Some? && id in s.rows && s.rows[id].consumedAt.None?
    ensures id in Next(c, s, e).value.rows
    ensures Next(c, s, e).value.rows[id].consumedAt.Some? <==> Spends(s, e, id)
    ensures !Spends(s, e, id) ==> Next(c, s, e).value.rows[id] == s.rows[id]
  {
    hide Verify, Issue, Recording;
  }

  ghost predicate SpentAt(c: Crypto, s: State, es: seq<Event>, id: RowId, i: nat)
    requires i < |es|
  {
    Run(c, s, es[..i]).Some? && Spends(Run(c, s, es[..i]).value, es[i], id)
  }

  /**
   A live link stays exactly as it is, whatever other accounts do and whatever its own does with links for
   another purpose, until a request claims that link or its own user asks for a password reset.
   */
  lemma {:induction false} SpentOnlyByItsOwn(c: Crypto, s: State, es: seq<Event>, id: RowId)
    requires Run(c, s, es).Some? && id in s.rows && s.rows[id].consumedAt.None?
    ensures var t := Run(c, s, es).value.rows;
            && id in t
            && (t[id].consumedAt.Some? <==> exists i :: 0 <= i < |es| && SpentAt(c, s, es, id, i))
            && (t[id].consumedAt.None? ==> t[id] == s.rows[id])
  {
    hide Next, Spends;
    if es != [] {
      var front, e := es[..|es| - 1], es[|es| - 1];
      SpentOnlyByItsOwn(c, s, front, id);
      var middle := Run(c, s, front).value;
      assert forall i :: 0 <= i < |front| ==> front[..i] == es[..i] && front[i] == es[i];
      assert SpentAt(c, s, es, id, |front|) <==> Spends(middle, e, id);
      StepGrows(c, middle, e);
      forall i | 0 <= i < |front|
        ensures SpentAt(c, s, es, id, i) <==> SpentAt(c, s, front, id, i)
      {
      }
      if middle.rows[id].consumedAt.None? {
        StepSpends(c, middle, e, id);
      }
    }
  }

  // ----- Every live link can be redeemed --------------------------------------------------------------

  /** The token text was issued for the row's own user and purpose, and expires when the row says. */
  ghost predicate IssuedFor(c: Crypto, row: Row, token: string) {
    exists ttl: int, at: int, nonce: string ::
      token == Issue(c, row.user, row.purpose, ttl, at, nonce).0 && row.expiresAt == Unix(at + ttl)
  }

  ghost predicate IssuedInv(c: Crypto, s: State) {
    s.issued.Keys == s.rows.Keys && forall id :: id in s.rows ==> IssuedFor(c, s.rows[id], s.issued[id])
  }

  lemma RecordIsIssued(c: Crypto, user: UserId, purpose: string, ttl: int, now: int, nonce: string)
    ensures IssuedFor(c, Recording(c, user, purpose, ttl, now, nonce), Issue(c, user, purpose, ttl, now, nonce).0)
  {
    hide Issue, Unix;
  }

  lemma GrowthKeepsIssued(c: Crypto, row: Row, row': Row, token: string)
    requires IssuedFor(c, row, token) && row'.(consumedAt := None) == row.(consumedAt := None)
    ensures IssuedFor(c, row', token)
  {
    hide Issue, Unix;
    var ttl: int, at: int, nonce: string :|
      token == Issue(c, row.user, row.purpose, ttl, at, nonce).0 && row.expiresAt == Unix(at + ttl);
    assert token == Issue(c, row'.user, row'.purpose, ttl, at, nonce).0 && row'.expiresAt == Unix(at + ttl);
  }

  lemma RecordKeepsIssued(c: Crypto, s: State, id: RowId, user: UserId, purpose: string, ttl: int, now: int,
      nonce: string)
    requires IssuedInv(c, s) && Record(c, s, id, user, purpose, ttl, now, nonce).Some?
    ensures IssuedInv(c, Record(c, s, id, user, purpose, ttl, now, nonce).value)
  {
    RecordIsIssued(c, user, purpose, ttl, now, nonce);
    hide IssuedFor, Recording, Issue, Holders;
  }

  lemma OthersIssueNothing(c: Crypto, s: State, e: Event)
    requires Next(c, s, e).Some? && !e.CreateStep? && !e.MailVerification?
    ensures Next(c, s, e).value.issued == s.issued && Next(c, s, e).value.rows.Keys == s.rows.Keys
  {
    hide Verify, Record;
  }

  lemma GrowthKeepsIssuedInv(c: Crypto, s: State, s': State)
    requires IssuedInv(c, s) && Grows(s.rows, s'.rows) && s'.issued == s.issued && s'.rows.Keys == s.rows.Keys
    ensures IssuedInv(c, s')
  {
    hide IssuedFor;
    forall id | id in s.rows
      ensures IssuedFor(c, s'.rows[id], s'.issued[id])
    {
      GrowthKeepsIssued(c, s.rows[id], s'.rows[id], s.issued[id]);
    }
  }

  lemma IssuedIgnoresResets(c: Crypto, s: State, resets: map<Pid, UserId>)
    requires IssuedInv(c, s)
    ensures IssuedInv(c, s.(resets := resets))
  {
    hide IssuedFor;
  }

  lemma StepKeepsIssued(c: Crypto, s: State, e: Event)
    requires IssuedInv(c, s) && Next(c, s, e).Some?
    ensures IssuedInv(c, Next(c, s, e).value)
  {
    hide IssuedInv, Verify, Record, Grows;
    match e
    case CreateStep(pid, id, ttl, now, nonce) =>
      RecordKeepsIssued(c, s, id, s.resets[pid], PASSWORD_RESET, ttl, now, nonce);
      IssuedIgnoresResets(c, Record(c, s, id, s.resets[pid], PASSWORD_RESET, ttl, now, nonce).value, s.resets - {pid});
    case MailVerification(id, user, ttl, now, nonce) =>
      RecordKeepsIssued(c, s, id, user, EMAIL_VERIFICATION, ttl, now, nonce);
    case _ =>
      StepGrows(c, s, e);
      OthersIssueNothing(c, s, e);
      GrowthKeepsIssuedInv(c, s, Next(c, s, e).value);
  }

  lemma {:induction false} RunKeepsIssued(c: Crypto, es: seq<Event>)
    requires Run(c, EMPTY, es).Some?
    ensures IssuedInv(c, Run(c, EMPTY, es).value)
  {
    hide Next;
    if es != [] {
      RunKeepsIssued(c, es[..|es| - 1]);
      StepKeepsIssued(c, Run(c, EMPTY, es[..|es| - 1]).value, es[|es| - 1]);
    }
  }

  lemma IssuedIsVerified(c: Crypto, row: Row, token: string, now: int)
    requires JsonRoundTrips(c) && IssuedFor(c, row, token) && row.user != NIL && Unix(now) < row.expiresAt
    ensures Verify(c, token, row.purpose, now).Ok? && Verify(c, token, row.purpose, now).value.subject == row.user
  {
    hide Issue, Unix, Verify;
    var ttl: int, at: int, nonce: string :|
      token == Issue(c, row.user, row.purpose, ttl, at, nonce).0 && row.expiresAt == Unix(at + ttl);
    VerifyIssuedToken(c, row.user, row.purpose, ttl, at, nonce, row.purpose, now);
  }

  lemma OneMore(c: Crypto, s: State, es: seq<Event>, e: Event)
    requires Run(c, s, es).Some?
    ensures Run(c, s, es + [e]) == Next(c, Run(c, s, es).value, e)
  {
    assert (es + [e])[..|es + [e]| - 1] == es;
  }

  lemma RedeemingSteps(c: Crypto, s: State, id: RowId, pid: Pid, now: int, at: int)
    requires id in s.rows && id in s.issued && s.rows[id].consumedAt.None? && pid !in s.redeems
    requires s.rows[id].fingerprint == c.fingerprint(s.issued[id])
    requires var v := Verify(c, s.issued[id], s.rows[id].purpose, now); v.Ok? && v.value.subject == s.rows[id].user
    ensures var row, token := s.rows[id], s.issued[id];
            var r := Run(c, s, [VerifyStep(pid, token, row.purpose, now), FindStep(pid, Some(id)),
                ConsumeStep(pid, at)]);
            && r.Some?
            && r.value.claims == s.claims + [Claim(pid, id, token, row.purpose, row.user)]
            && r.value.rows == s.rows[id := row.(consumedAt := Some(at))]
  {
    hide Verify, Issue, Unix;
    var row, token := s.rows[id], s.issued[id];
    var verify, find, claim := VerifyStep(pid, token, row.purpose, now), FindStep(pid, Some(id)), ConsumeStep(pid, at);
    OneMore(c, s, [], verify);
    assert [] + [verify] == [verify];
    OneMore(c, s, [verify], find);
    assert [verify] + [find] == [verify, find];
    OneMore(c, s, [verify, find], claim);
    assert [verify, find] + [claim] == [verify, find, claim];
  }

  /**
   Nor is a live link ever lost: in every reachable state, whoever presents an unredeemed, unexpired link for
   its purpose can verify, find and claim it, in the name of the account it was issued for.
   */
  lemma {:induction false} LiveLinkRedeems(c: Crypto, es: seq<Event>, s: State, id: RowId, pid: Pid, now: int, at: int)
    requires JsonRoundTrips(c) && Run(c, EMPTY, es) == Some(s)
    requires id in s.rows && s.rows[id].consumedAt.None? && s.rows[id].user != NIL && Unix(now) < s.rows[id].expiresAt
    requires pid !in s.redeems
    ensures id in s.issued
    ensures var row, token := s.rows[id], s.issued[id];
            var r := Run(c, s, [VerifyStep(pid, token, row.purpose, now), FindStep(pid, Some(id)),
                ConsumeStep(pid, at)]);
            && r.Some?
            && r.value.claims == s.claims + [Claim(pid, id, token, row.purpose, row.user)]
            && r.value.rows == s.rows[id := row.(consumedAt := Some(at))]
  {
    RunKeepsIssued(c, es);
    RunKeepsInv(c, es);
    assert id in s.issued && s.rows[id].fingerprint == c.fingerprint(s.issued[id]);
    IssuedIsVerified(c, s.rows[id], s.issued[id], now);
    hide IssuedInv, Inv, IssuedFor, Verify, Issue, Unix;
    RedeemingSteps(c, s, id, pid, now, at);
  }

  // ----- A new reset link retires the old ones --------------------------------------------------------

  lemma {:induction false} NoClaimOfDeadRow(c: Crypto, s: State, id: RowId, es: seq<Event>)
    requires Run(c, s, es).Some? && id in s.rows && s.rows[id].consumedAt.Some?
    ensures var later := Run(c, s, es).value;
            && id in later.rows && later.rows[id].consumedAt.Some?
            && forall k :: k in later.claims && k.row == id ==> k in s.claims
  {
    if es != [] {
      var front := es[..|es| - 1];
      NoClaimOfDeadRow(c, s, id, front);
      StepGrows(c, Run(c, s, front).value, es[|es| - 1]);
    }
  }

  /**
   Every reset link in the table when its user asks for another is dead in all later states: nobody claims
   it after.
   */
  lemma {:induction false} ResetSupersedes(c: Crypto, es: seq<Event>, s: State, pid: Pid, user: UserId, now: int,
      id: RowId, more: seq<Event>)
    requires Run(c, EMPTY, es) == Some(s) && Next(c, s, InvalidateStep(pid, user, now)).Some?
    requires id in s.rows && s.rows[id].user == user && s.rows[id].purpose == PASSWORD_RESET
    requires Run(c, Next(c, s, InvalidateStep(pid, user, now)).value, more).Some?
    ensures var later := Run(c, Next(c, s, InvalidateStep(pid, user, now)).value, more).value;
            && id in later.rows && later.rows[id].consumedAt.Some?
            && forall k :: k in later.claims && k.row == id ==> k in s.claims
  {
    NoClaimOfDeadRow(c, Next(c, s, InvalidateStep(pid, user, now)).value, id, more);
  }

  function InFlight(s: State, user: UserId): set<Pid> {
    set pid | pid in s.resets && s.resets[pid] == user
  }

  ghost predicate AtMostInFlight(c: Crypto, es: seq<Event>, user: UserId, n: nat) {
    forall i :: 0 <= i <= |es| && Run(c, EMPTY, es[..i]).Some? ==> |InFlight(Run(c, EMPTY, es[..i]).value, user)| <= n
  }

  lemma CreateEffect(c: Crypto, s: State, e: Event, user: UserId)
    requires Next(c, s, e).Some? && e.CreateStep?
    ensures e.pid in s.resets
    ensures var s' := Next(c, s, e).value;
            if s.resets[e.pid] == user then
              && LiveResets(s'.rows, user) == LiveResets(s.rows, user) + {e.id}
              && e.pid in InFlight(s, user) && InFlight(s', user) == InFlight(s, user) - {e.pid}
            else LiveResets(s'.rows, user) == LiveResets(s.rows, user) && InFlight(s', user) == InFlight(s, user)
  {
    hide Issue, Verify, Unix, Holders;
  }

  lemma CreateKeepsLiveBound(c: Crypto, s: State, e: Event, user: UserId, n: nat)
    requires Next(c, s, e).Some? && e.CreateStep?
    requires |LiveResets(s.rows, user)| + |InFlight(s, user)| <= n
    ensures |LiveResets(Next(c, s, e).value.rows, user)| + |InFlight(Next(c, s, e).value, user)| <= n
  {
    hide *;
    CreateEffect(c, s, e, user);
  }

  lemma AbandonKeepsLiveBound(c: Crypto, s: State, e: Event, user: UserId, n: nat)
    requires Next(c, s, e).Some? && e.AbandonReset?
    requires |LiveResets(s.rows, user)| + |InFlight(s, user)| <= n
    ensures |LiveResets(Next(c, s, e).value.rows, user)| + |InFlight(Next(c, s, e).value, user)| <= n
  {
    SubsetSize(InFlight(Next(c, s, e).value, user), InFlight(s, user));
  }

  lemma InvalidateKeepsLiveBound(c: Crypto, s: State, e: Event, user: UserId, n: nat)
    requires Next(c, s, e).Some? && e.InvalidateStep?
    requires |LiveResets(s.rows, user)| + |InFlight(s, user)| <= n
    requires |InFlight(Next(c, s, e).value, user)| <= n
    ensures |LiveResets(Next(c, s, e).value.rows, user)| + |InFlight(Next(c, s, e).value, user)| <= n
  {
    var s' := Next(c, s, e).value;
    if e.user == user {
      assert LiveResets(s'.rows, user) == {};
    } else {
      assert LiveResets(s'.rows, user) == LiveResets(s.rows, user);
      assert InFlight(s', user) == InFlight(s, user);
    }
  }

  lemma StepKeepsLiveBound(c: Crypto, s: State, e: Event, user: UserId, n: nat)
    requires Next(c, s, e).Some?
    requires |LiveResets(s.rows, user)| + |InFlight(s, user)| <= n
    requires |InFlight(Next(c, s, e).value, user)| <= n
    ensures |LiveResets(Next(c, s, e).value.rows, user)| + |InFlight(Next(c, s, e).value, user)| <= n
  {
    if e.InvalidateStep? {
      InvalidateKeepsLiveBound(c, s, e, user, n);
    } else if e.CreateStep? {
      CreateKeepsLiveBound(c, s, e, user, n);
    } else if e.AbandonReset? {
      AbandonKeepsLiveBound(c, s, e, user, n);
    } else {
      hide Issue, Verify, Unix, Holders;
      var s' := Next(c, s, e).value;
      assert InFlight(s', user) == InFlight(s, user);
      assert LiveResets(s'.rows, user) <= LiveResets(s.rows, user);
      SubsetSize(LiveResets(s'.rows, user), LiveResets(s.rows, user));
    }
  }

  /**
   If never more than n of a user's reset requests are between retiring and recording at once, the user
   never has more than n unredeemed reset links: one, when the requests do not overlap.
   */
  lemma {:induction false} LiveResetsBounded(c: Crypto, es: seq<Event>, user: UserId, n: nat)
    requires Run(c, EMPTY, es).Some? && AtMostInFlight(c, es, user, n)
    ensures var s := Run(c, EMPTY, es).value;
            |LiveResets(s.rows, user)| + |InFlight(s, user)| <= n
  {
    if es == [] {
      assert LiveResets(EMPTY.rows, user) == {} && InFlight(EMPTY, user) == {};
    } else {
      var front := es[..|es| - 1];
      assert forall i :: 0 <= i <= |front| ==> front[..i] == es[..i];
      LiveResetsBounded(c, front, user, n);
      assert es[..|es|] == es;
      StepKeepsLiveBound(c, Run(c, EMPTY, front).value, es[|es| - 1], user, n);
    }
  }

  /** Two overlapping reset requests do leave two live links: the bound is met, so overlap must be excluded for one. */
  lemma OverlappingResetsLeaveTwo(c: Crypto, user: UserId, ttl: int, now: int, nonceA: string, nonceB: string)
      returns (es: seq<Event>)
    requires c.fingerprint(Issue(c, user, PASSWORD_RESET, ttl, now, nonceA).0)
             != c.fingerprint(Issue(c, user, PASSWORD_RESET, ttl, now, nonceB).0)
    ensures Run(c, EMPTY, es).Some? && |LiveResets(Run(c, EMPTY, es).value.rows, user)| == 2
  {
    var a, b := InvalidateStep(0, user, now), InvalidateStep(1, user, now);
    var x, y := CreateStep(0, 0, ttl, now, nonceA), CreateStep(1, 1, ttl, now, nonceB);
    OneMore(c, EMPTY, [], a);
    OneMore(c, EMPTY, [] + [a], b);
    OneMore(c, EMPTY, [] + [a] + [b], x);
    OneMore(c, EMPTY, [] + [a] + [b] + [x], y);
    es := [] + [a] + [b] + [x] + [y];
    assert LiveResets(Run(c, EMPTY, es).value.rows, user) == {0, 1};
  }
}
