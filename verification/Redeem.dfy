/**
 Single-use links: the table that remembers them, the service calls that issue and redeem one, and every
 interleaving of redeem requests (verify, find, consume, act) with reset requests (invalidate, create).
 Each statement on the table is one atomic step.
 */
module Redeem {
  import opened Wrappers
  import opened Sets
  import opened LinkToken

  type RowId = nat
  type Pid = nat

  datatype Row = Row(user: UserId, fingerprint: string, purpose: string, expiresAt: int, consumedAt: Option<int>)
  type Table = map<RowId, Row>

  /** The unique index on fingerprint. */
  ghost predicate UniqueFingerprints(t: Table) {
    forall i, j :: i in t && j in t && t[i].fingerprint == t[j].fingerprint ==> i == j
  }

  function Holders(t: Table, fingerprint: string): set<RowId> {
    set id | id in t && t[id].fingerprint == fingerprint
  }

  /** INSERT: refused when the id or the fingerprint is taken. */
  function Inserted(t: Table, id: RowId, row: Row): Option<Table> {
    if id in t || Holders(t, row.fingerprint) != {} then None else Some(t[id := row])
  }

  /** UPDATE ... WHERE id = ? AND consumed_at IS NULL. */
  function Consumed(t: Table, id: RowId, at: int): Table {
    if id in t && t[id].consumedAt.None? then t[id := t[id].(consumedAt := Some(at))] else t
  }

  /** UPDATE ... WHERE user_id = ? AND purpose = ? AND consumed_at IS NULL. */
  function Invalidated(t: Table, user: UserId, purpose: string, at: int): Table {
    map id | id in t ::
      if t[id].user == user && t[id].purpose == purpose && t[id].consumedAt.None?
      then t[id].(consumedAt := Some(at)) else t[id]
  }

  /** What each statement does to each row: nothing else changes, and nothing goes. */
  lemma StatementsAreExact(t: Table, id: RowId, row: Row, user: UserId, purpose: string, at: int)
    ensures Inserted(t, id, row).Some? <==> id !in t && forall i :: i in t ==> t[i].fingerprint != row.fingerprint
    ensures Inserted(t, id, row).Some? ==> Inserted(t, id, row).value == t[id := row]
    ensures Consumed(t, id, at).Keys == t.Keys
    ensures forall i :: i in t ==>
              Consumed(t, id, at)[i] == if i == id && t[i].consumedAt.None? then t[i].(consumedAt := Some(at)) else t[i]
    ensures Invalidated(t, user, purpose, at).Keys == t.Keys
    ensures forall i :: i in t && (t[i].user != user || t[i].purpose != purpose || t[i].consumedAt.Some?) ==>
              Invalidated(t, user, purpose, at)[i] == t[i]
    ensures forall i :: i in t && t[i].user == user && t[i].purpose == purpose && t[i].consumedAt.None? ==>
              Invalidated(t, user, purpose, at)[i] == t[i].(consumedAt := Some(at))
  {
    assert Holders(t, row.fingerprint) == {} <==> forall i :: i in t ==> i !in Holders(t, row.fingerprint);
  }

  /** The user's unredeemed reset links. */
  function LiveResets(t: Table, user: UserId): set<RowId> {
    set id | id in t && t[id].user == user && t[id].purpose == PASSWORD_RESET && t[id].consumedAt.None?
  }

  /** None of them for an unknown or a suspended account. */
  function LiveResetsOf(t: Table, account: Option<(UserId, bool)>): set<RowId> {
    if account.None? || account.value.1 then {} else LiveResets(t, account.value.0)
  }

  datatype Statement = InsertRow | FindRow | ClaimRow | RetireRows

  /** What the link is worth, or that the database could not be asked. */
  datatype RedeemError = Link(error: TokenError) | Unavailable

  /** An unredeemed row of that user and that purpose. */
  ghost predicate Outstanding(row: Row, user: UserId, purpose: string) {
    row.user == user && row.purpose == purpose && row.consumedAt.None?
  }

  class VerificationTokenRepository {
    var rows: Table

    constructor ()
      ensures rows == map[]
    {
      rows := map[];
    }

    method Create(id: RowId, row: Row, fault: Fault<Statement>) returns (created: bool)
      modifies this
      ensures created <==> Inserted(old(rows), id, row).Some? && fault != Refuses(InsertRow) && !fault.LosesAnswer?
      ensures rows == if Inserted(old(rows), id, row).Some? && fault != Refuses(InsertRow) then old(rows)[id := row]
          else old(rows)
      ensures old(UniqueFingerprints(rows)) ==> UniqueFingerprints(rows)
    {
      if fault == Refuses(InsertRow) || id in rows || Holders(rows, row.fingerprint) != {} {
        return false;
      }
      assert forall i :: i in rows ==> i !in Holders(rows, row.fingerprint);
      rows := rows[id := row];
      return !fault.LosesAnswer?;
    }

    method FindByFingerprint(fingerprint: string, fault: Fault<Statement>)
        returns (found: Result<Option<RowId>, RedeemError>)
      ensures fault == Refuses(FindRow) ==> found == Err(Unavailable)
      ensures fault != Refuses(FindRow) ==>
                && found.Ok?
                && (found.value.None? <==> Holders(rows, fingerprint) == {})
                && (found.value.Some? ==> found.value.value in Holders(rows, fingerprint))
    {
      if fault == Refuses(FindRow) {
        return Err(Unavailable);
      }
      var holders := Holders(rows, fingerprint);
      if holders == {} {
        return Ok(None);
      }
      var id := Pick(holders);
      return Ok(Some(id));
    }

    method Consume(id: RowId, at: int, fault: Fault<Statement>) returns (claimed: Result<bool, RedeemError>)
      modifies this
      ensures rows == if fault == Refuses(ClaimRow) then old(rows) else Consumed(old(rows), id, at)
      ensures claimed == if fault == Refuses(ClaimRow) || fault.LosesAnswer? then Err(Unavailable)
                         else Ok(id in old(rows) && old(rows)[id].consumedAt.None?)
    {
      if fault == Refuses(ClaimRow) {
        return Err(Unavailable);
      }
      var affected := id in rows && rows[id].consumedAt.None?;
      if affected {
        rows := rows[id := rows[id].(consumedAt := Some(at))];
      }
      return if fault.LosesAnswer? then Err(Unavailable) else Ok(affected);
    }

    method InvalidateOutstanding(user: UserId, purpose: string, at: int, fault: Fault<Statement>) returns (done: bool)
      modifies this
      ensures done <==> fault != Refuses(RetireRows) && !fault.LosesAnswer?
      ensures rows == if fault == Refuses(RetireRows) then old(rows) else Invalidated(old(rows), user, purpose, at)
      ensures rows.Keys == old(rows).Keys
      ensures forall i :: i in old(rows) && !Outstanding(old(rows)[i], user, purpose) ==> rows[i] == old(rows)[i]
      ensures fault != Refuses(RetireRows) ==>
                forall i :: i in old(rows) && Outstanding(old(rows)[i], user, purpose) ==>
                  rows[i] == old(rows)[i].(consumedAt := Some(at))
    {
      if fault == Refuses(RetireRows) {
        return false;
      }
      rows := map id | id in rows ::
        if rows[id].user == user && rows[id].purpose == purpose && rows[id].consumedAt.None?
        then rows[id].(consumedAt := Some(at)) else rows[id];
      return !fault.LosesAnswer?;
    }
  }

  /** The row records this very token, for the purpose and subject the token carries. */
  ghost predicate Names(row: Row, c: Crypto, token: string, purpose: string, now: int) {
    && Verify(c, token, purpose, now).Ok?
    && row.fingerprint == c.fingerprint(token)
    && row.purpose == purpose
    && row.user == Verify(c, token, purpose, now).value.subject
  }

  /** The row that records an issued token. */
  function Recording(c: Crypto, user: UserId, purpose: string, ttl: int, now: int, nonce: string): Row {
    Row(user, c.fingerprint(Issue(c, user, purpose, ttl, now, nonce).0), purpose, Unix(now + ttl), None)
  }

  /** The row recorded with an issued token names it, for a real account, until it expires. */
  lemma {:induction false} RecordingNamesItsToken(c: Crypto, user: UserId, purpose: string, ttl: int, issuedAt: int,
      nonce: string, now: int)
    requires JsonRoundTrips(c)
    ensures var token := Issue(c, user, purpose, ttl, issuedAt, nonce).0;
            var row := Recording(c, user, purpose, ttl, issuedAt, nonce);
            && (Names(row, c, token, purpose, now) <==> user != NIL && Unix(now) < row.expiresAt)
            && row == Row(user, c.fingerprint(token), purpose, Unix(issuedAt + ttl), None)
  {
    VerifyIssuedToken(c, user, purpose, ttl, issuedAt, nonce, purpose, now);
    hide Verify, Issue, Unix;
  }

  class AuthService {
    const crypto: Crypto
    const tokens: VerificationTokenRepository

    constructor (crypto: Crypto, tokens: VerificationTokenRepository)
      ensures this.crypto == crypto && this.tokens == tokens
    {
      this.crypto, this.tokens := crypto, tokens;
    }

    /**
     Mints a token and records its fingerprint. It is handed out exactly when there was a nonce for it and
     the insert succeeded and said so; only a lost answer leaves a recorded token that nobody was given.
     */
    method IssueLinkToken(id: RowId, user: UserId, purpose: string, ttl: int, now: int, nonce: Option<string>,
        fault: Fault<Statement>)
      returns (token: Option<string>)
      modifies tokens
      ensures nonce.None? ==> token.None? && tokens.rows == old(tokens.rows)
      ensures nonce.Some? ==>
                var inserted := Inserted(old(tokens.rows), id, Recording(crypto, user, purpose, ttl, now, nonce.value));
                && (token.Some? <==> inserted.Some? && fault != Refuses(InsertRow) && !fault.LosesAnswer?)
                && (token.Some? ==> token.value == Issue(crypto, user, purpose, ttl, now, nonce.value).0)
                && tokens.rows == if inserted.Some? && fault != Refuses(InsertRow) then inserted.value
                    else old(tokens.rows)
      ensures old(UniqueFingerprints(tokens.rows)) ==> UniqueFingerprints(tokens.rows)
    {
      if nonce.None? {
        return None;
      }
      var (minted, payload) := Issue(crypto, user, purpose, ttl, now, nonce.value);
      var created := tokens.Create(id, Row(user, crypto.fingerprint(minted), purpose, payload.expiresAt, None), fault);
      return if created then Some(minted) else None;
    }

    /**
     Retires the account's outstanding reset links, then issues one. Nothing happens, and nothing tells, for
     an unknown or a suspended account; a link handed out is the account's only live one.
     */
    method RequestPasswordReset(account: Option<(UserId, bool)>, id: RowId, ttl: int, now: int, nonce: Option<string>,
                                retire: Fault<Statement>, record: Fault<Statement>)
      returns (r: Result<Option<string>, RedeemError>)
      modifies tokens
      ensures account.None? || account.value.1 ==> r == Ok(None) && tokens.rows == old(tokens.rows)
      ensures old(tokens.rows).Keys <= tokens.rows.Keys <= old(tokens.rows).Keys + {id}
      ensures forall i :: i in old(tokens.rows) && i !in LiveResetsOf(old(tokens.rows), account) ==>
          tokens.rows[i] == old(tokens.rows)[i]
      ensures forall i :: i in LiveResetsOf(old(tokens.rows), account) && retire != Refuses(RetireRows) ==>
                tokens.rows[i] == old(tokens.rows)[i].(consumedAt := Some(now))
      ensures account.Some? && !account.value.1 ==>
                && (r.Ok? ==> r.value.Some? && LiveResets(tokens.rows, account.value.0) == {id})
                && (r.Err? ==>
                      && r.error == Unavailable
                      && LiveResets(tokens.rows, account.value.0)
                         <= LiveResets(old(tokens.rows), account.value.0) + {id})
                && (retire == Refuses(RetireRows) ==> r.Err? && tokens.rows == old(tokens.rows))
                && (r.Ok? <==> nonce.Some? && retire != Refuses(RetireRows) && !retire.LosesAnswer?
                               && record != Refuses(InsertRow) && !record.LosesAnswer?
                               && Inserted(Invalidated(old(tokens.rows), account.value.0, PASSWORD_RESET, now), id,
                                           Recording(crypto, account.value.0, PASSWORD_RESET, ttl, now, nonce.value))
                                  .Some?)
    {
      if account.None? || account.value.1 {
        return Ok(None);
      }
      var done := tokens.InvalidateOutstanding(account.value.0, PASSWORD_RESET, now, retire);
      if !done {
        return Err(Unavailable);
      }
      assert LiveResets(tokens.rows, account.value.0) == {};
      var token := IssueLinkToken(id, account.value.0, PASSWORD_RESET, ttl, now, nonce, record);
      return if token.Some? then Ok(token) else Err(Unavailable);
    }

    /**
     Verify, find, compare, consume. A token that does not verify is refused as it deserves; one that no row
     names is Invalid; and the row that names it is spent, whether or not the answer comes back: it succeeds
     exactly if that row was unredeemed and the database neither refused nor went silent, and is Gone if not.
     */
    method ConsumeToken(token: string, purpose: string, now: int, consumedAt: int, fault: Fault<Statement>)
      returns (r: Result<Payload, RedeemError>)
      requires UniqueFingerprints(tokens.rows)
      modifies tokens
      ensures var v := Verify(crypto, token, purpose, now);
              && (v.Err? ==> r == Err(Link(v.error)) && tokens.rows == old(tokens.rows))
              && (v.Ok? && fault == Refuses(FindRow) ==> r == Err(Unavailable) && tokens.rows == old(tokens.rows))
              && (v.Ok? && fault != Refuses(FindRow)
                  && (forall id :: id in old(tokens.rows) ==>
                        !Names(old(tokens.rows)[id], crypto, token, purpose, now)) ==>
                    r == Err(Link(Invalid)) && tokens.rows == old(tokens.rows))
              && (fault != Refuses(FindRow) ==>
                    forall id :: id in old(tokens.rows) && Names(old(tokens.rows)[id], crypto, token, purpose, now) ==>
                      && tokens.rows == (if fault == Refuses(ClaimRow) then old(tokens.rows)
                          else Consumed(old(tokens.rows), id, consumedAt))
                      && r == (if fault == Refuses(ClaimRow) || fault.LosesAnswer? then Err(Unavailable)
                               else if old(tokens.rows)[id].consumedAt.Some? then Err(Link(Gone))
                               else Ok(v.value)))
    {
      var verified := Verify(crypto, token, purpose, now);
      if verified.Err? {
        return Err(Link(verified.error));
      }
      var found := tokens.FindByFingerprint(crypto.fingerprint(token), fault);
      if found.Err? {
        return Err(found.error);
      }
      if found.value.None? {
        assert forall id :: id in tokens.rows ==> id !in Holders(tokens.rows, crypto.fingerprint(token));
        return Err(Link(Invalid));
      }
      var id := found.value.value;
      var record := tokens.rows[id];
      if record.purpose != purpose || record.user != verified.value.subject {
        return Err(Link(Invalid));
      }
      assert Names(record, crypto, token, purpose, now);
      var claimed := tokens.Consume(id, consumedAt, fault);
      if claimed.Err? {
        return Err(claimed.error);
      }
      return if claimed.value then Ok(verified.value) else Err(Link(Gone));
    }
  }
}
