/**
 The signed link token: base64url(json) "." base64url(hmac of the json bytes). JSON, HMAC and the
 fingerprint are functions the caller supplies; what is assumed of them is said where it is used.
 Times are nanoseconds since the epoch, and the payload keeps whole seconds.
 */
module LinkToken {
  import opened Wrappers
  import opened Base64

  type UserId = nat

  const NIL: UserId := 0
  const SECOND := 1_000_000_000
  const EMAIL_VERIFICATION := "email_verification"
  const PASSWORD_RESET := "password_reset"

  datatype Payload = Payload(subject: UserId, purpose: string, nonce: string, issuedAt: int, expiresAt: int)

  datatype Crypto = Crypto(
    marshal: Payload -> seq<Octet>,
    unmarshal: seq<Octet> -> Option<Payload>,
    sign: seq<Octet> -> seq<Octet>,
    fingerprint: string -> string)

  ghost predicate JsonRoundTrips(c: Crypto) {
    forall p :: c.unmarshal(c.marshal(p)) == Some(p)
  }

  ghost predicate FingerprintInjective(c: Crypto) {
    forall t, u :: c.fingerprint(t) == c.fingerprint(u) ==> t == u
  }

  datatype TokenError = Invalid | Gone

  function Unix(t: int): int {
    t / SECOND
  }

  function Issue(c: Crypto, subject: UserId, purpose: string, ttl: int, now: int, nonce: string): (string, Payload) {
    var payload := Payload(subject, purpose, nonce, Unix(now), Unix(now + ttl));
    var encoded := c.marshal(payload);
    (EncodeUrl(encoded) + "." + EncodeUrl(c.sign(encoded)), payload)
  }

  /** The text before the first separator and the text after it. */
  function Cut(t: string): Option<(string, string)> {
    if t == "" then None
    else if t[0] == '.' then Some(("", t[1..]))
    else match Cut(t[1..])
         case None => None
         case Some((before, after)) => Some(([t[0]] + before, after))
  }

  /** The signature is checked over the decoded bytes before they are parsed. */
  function Verify(c: Crypto, token: string, purpose: string, now: int): Result<Payload, TokenError> {
    match Cut(token)
    case None => Err(Invalid)
    case Some((encodedPayload, encodedSignature)) =>
      match (DecodeUrl(encodedPayload), DecodeUrl(encodedSignature))
      case (Some(bytes), Some(signature)) =>
        if signature != c.sign(bytes) then Err(Invalid)
        else
          (match c.unmarshal(bytes)
           case None => Err(Invalid)
           case Some(p) =>
             if p.purpose != purpose || p.subject == NIL then Err(Invalid)
             else if Unix(now) >= p.expiresAt then Err(Gone)
             else Ok(p))
      case _ => Err(Invalid)
  }

  lemma {:induction false} CutAtFirstDot(a: string, b: string)
    requires '.' !in a
    ensures Cut(a + "." + b) == Some((a, b))
  {
    var t := a + "." + b;
    if a == "" {
      assert t[1..] == b;
    } else {
      assert a == [a[0]] + a[1..];
      assert t[1..] == a[1..] + "." + b;
      CutAtFirstDot(a[1..], b);
    }
  }

  /** What Cut finds is what was there, and the first part has no separator in it. */
  lemma {:induction false} CutSplits(t: string)
    ensures Cut(t).None? <==> '.' !in t
    ensures Cut(t).Some? ==> t == Cut(t).value.0 + "." + Cut(t).value.1 && '.' !in Cut(t).value.0
  {
    if t != "" && t[0] != '.' {
      CutSplits(t[1..]);
      assert t == [t[0]] + t[1..];
    }
  }

  /** The token's two parts, and the bytes and the signature they decode to. */
  ghost predicate Carries(token: string, bytes: seq<Octet>, signature: seq<Octet>) {
    exists a, b :: '.' !in a && token == a + "." + b && DecodeUrl(a) == Some(bytes) && DecodeUrl(b) == Some(signature)
  }

  lemma CutCarries(token: string, a: string, b: string)
    requires '.' !in a && token == a + "." + b
    ensures Cut(token) == Some((a, b))
  {
    CutAtFirstDot(a, b);
  }

  /** Of the bytes and the signature there is only one reading. */
  lemma CarriesIff(token: string, bytes: seq<Octet>, signature: seq<Octet>)
    ensures Carries(token, bytes, signature) <==>
              Cut(token).Some? && DecodeUrl(Cut(token).value.0) == Some(bytes)
                  && DecodeUrl(Cut(token).value.1) == Some(signature)
  {
    hide DecodeUrl;
    CutSplits(token);
    if Carries(token, bytes, signature) {
      var a, b :| '.' !in a && token == a + "." + b && DecodeUrl(a) == Some(bytes) && DecodeUrl(b) == Some(signature);
      CutCarries(token, a, b);
    }
  }

  /**
   What a token must be to count at all: signed over the very bytes that parse to this payload, for this
   purpose and someone.
   */
  ghost predicate Genuine(c: Crypto, token: string, purpose: string, p: Payload) {
    && p.purpose == purpose && p.subject != NIL
    && exists bytes :: Carries(token, bytes, c.sign(bytes)) && c.unmarshal(bytes) == Some(p)
  }

  /**
   The verifier's three verdicts on any text at all: the payload exactly if the text is genuine and not
   expired, Gone exactly if it is genuine and expired, and Invalid otherwise.
   */
  lemma VerdictIff(c: Crypto, token: string, purpose: string, now: int, p: Payload)
    ensures Verify(c, token, purpose, now) == Ok(p) <==> Genuine(c, token, purpose, p) && Unix(now) < p.expiresAt
    ensures Verify(c, token, purpose, now) == Err(Gone) <==>
              exists q :: Genuine(c, token, purpose, q) && Unix(now) >= q.expiresAt
  {
    hide DecodeUrl, Unix;
    forall bytes, signature
      ensures Carries(token, bytes, signature) <==>
                Cut(token).Some? && DecodeUrl(Cut(token).value.0) == Some(bytes)
                    && DecodeUrl(Cut(token).value.1) == Some(signature)
    {
      CarriesIff(token, bytes, signature);
    }
    var r := Verify(c, token, purpose, now);
    if r.Ok? || r == Err(Gone) {
      var bytes := DecodeUrl(Cut(token).value.0).value;
      assert Carries(token, bytes, c.sign(bytes));
      assert Genuine(c, token, purpose, c.unmarshal(bytes).value);
    }
  }

  /** An accepted text carries, after its first separator, the signature of what it carries before it. */
  lemma AcceptedIsSigned(c: Crypto, token: string, purpose: string, now: int)
    requires Verify(c, token, purpose, now).Ok?
    ensures exists bytes ::
              Carries(token, bytes, c.sign(bytes)) && c.unmarshal(bytes) == Some(Verify(c, token, purpose, now).value)
  {
    VerdictIff(c, token, purpose, now, Verify(c, token, purpose, now).value);
  }

  /** Any bytes with any signature but their own are Invalid, for every purpose and at every time. */
  lemma ForgedIsInvalid(c: Crypto, bytes: seq<Octet>, signature: seq<Octet>, purpose: string, now: int)
    requires signature != c.sign(bytes)
    ensures Verify(c, EncodeUrl(bytes) + "." + EncodeUrl(signature), purpose, now) == Err(Invalid)
  {
    EncodeUrlChars(bytes);
    CutAtFirstDot(EncodeUrl(bytes), EncodeUrl(signature));
    DecodeUrlUndoesEncode(bytes);
    DecodeUrlUndoesEncode(signature);
  }

  /**
   An issued token is accepted, with exactly the payload it was asked for, exactly when it is presented for
   its own purpose, its subject is not nil, and it has not expired; an expired one is Gone, anything else
   Invalid.
   */
  lemma {:induction false} VerifyIssuedToken(c: Crypto, subject: UserId, purpose: string, ttl: int, issuedAt: int,
      nonce: string, asked: string, now: int)
    requires JsonRoundTrips(c)
    ensures Verify(c, Issue(c, subject, purpose, ttl, issuedAt, nonce).0, asked, now)
            == if asked != purpose || subject == NIL then Err(Invalid)
               else if Unix(now) < Unix(issuedAt + ttl)
               then Ok(Payload(subject, purpose, nonce, Unix(issuedAt), Unix(issuedAt + ttl)))
               else Err(Gone)
  {
    var (token, payload) := Issue(c, subject, purpose, ttl, issuedAt, nonce);
    var bytes := c.marshal(payload);
    EncodeUrlChars(bytes);
    DecodeUrlUndoesEncode(bytes);
    DecodeUrlUndoesEncode(c.sign(bytes));
    CutAtFirstDot(EncodeUrl(bytes), EncodeUrl(c.sign(bytes)));
    hide EncodeUrl, DecodeUrl, Cut, Unix;
  }

  /** What is recorded of an issued token is its own expiry. */
  lemma IssuedPayload(c: Crypto, subject: UserId, purpose: string, ttl: int, issuedAt: int, nonce: string)
    ensures Issue(c, subject, purpose, ttl, issuedAt, nonce).1
            == Payload(subject, purpose, nonce, Unix(issuedAt), Unix(issuedAt + ttl))
  {
  }

  /** Whole seconds cost less than one: a link never outlives its lifetime, and loses under a second of it. */
  lemma LinkLifetime(issuedAt: int, ttl: int, now: int)
    ensures Unix(now) < Unix(issuedAt + ttl) ==> now < issuedAt + ttl
    ensures now + 1_000_000_000 <= issuedAt + ttl ==> Unix(now) < Unix(issuedAt + ttl)
  {
  }

  /** Two texts whose parts decode alike get the same verdict. */
  lemma ReadAlike(c: Crypto, t: string, u: string, purpose: string, now: int)
    requires Cut(t).None? <==> Cut(u).None?
    requires Cut(t).Some? ==>
               && DecodeUrl(Cut(t).value.0) == DecodeUrl(Cut(u).value.0)
               && DecodeUrl(Cut(t).value.1) == DecodeUrl(Cut(u).value.1)
    ensures Verify(c, t, purpose, now) == Verify(c, u, purpose, now)
  {
    hide Cut, DecodeUrl, Unix;
  }

  lemma BreakAfterTheDot(p: string, q: string, after: string, lineBreak: char)
    requires '.' !in p && IsLineBreak(lineBreak)
    ensures var t, u := Cut(p + "." + q + after), Cut(p + "." + q + [lineBreak] + after);
            t.Some? && u.Some? && t.value.0 == u.value.0 && DecodeUrl(t.value.1) == DecodeUrl(u.value.1)
  {
    hide DecodeUrl, IsLineBreak;
    assert p + "." + q + after == p + "." + (q + after);
    assert p + "." + q + [lineBreak] + after == p + "." + (q + [lineBreak] + after);
    CutAtFirstDot(p, q + after);
    CutAtFirstDot(p, q + [lineBreak] + after);
    LineBreaksAreIgnored(q, after, lineBreak);
  }

  lemma BreakBeforeTheDot(before: string, p: string, q: string, lineBreak: char)
    requires '.' !in before && '.' !in p && IsLineBreak(lineBreak)
    ensures var t, u := Cut(before + (p + "." + q)), Cut(before + [lineBreak] + (p + "." + q));
            t.Some? && u.Some? && t.value.1 == u.value.1 && DecodeUrl(t.value.0) == DecodeUrl(u.value.0)
  {
    assert lineBreak != '.';
    hide DecodeUrl, IsLineBreak;
    assert before + (p + "." + q) == (before + p) + "." + q;
    assert before + [lineBreak] + (p + "." + q) == (before + [lineBreak] + p) + "." + q;
    CutAtFirstDot(before + p, q);
    CutAtFirstDot(before + [lineBreak] + p, q);
    LineBreaksAreIgnored(before, p, lineBreak);
  }

  /**
   A token's spelling is not unique: a line break may be put anywhere in any token without changing what
   the verifier says of it. (Redemption looks the exact spelling up; see Redeem.)
   */
  lemma LineBreaksDoNotChangeTheVerdict(c: Crypto, before: string, after: string, lineBreak: char, purpose: string,
      now: int)
    requires IsLineBreak(lineBreak)
    ensures Verify(c, before + [lineBreak] + after, purpose, now) == Verify(c, before + after, purpose, now)
  {
    var t, u := before + after, before + [lineBreak] + after;
    assert lineBreak != '.';
    hide Cut, DecodeUrl, Verify, IsLineBreak;
    CutSplits(before);
    CutSplits(after);
    if '.' in before {
      BreakAfterTheDot(Cut(before).value.0, Cut(before).value.1, after, lineBreak);
    } else if '.' in after {
      BreakBeforeTheDot(before, Cut(after).value.0, Cut(after).value.1, lineBreak);
    } else {
      CutSplits(t);
      CutSplits(u);
    }
    ReadAlike(c, u, t, purpose, now);
  }
}
