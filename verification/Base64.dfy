/**
 Base64 (RFC 4648): the unpadded URL alphabet of section 5, which signs links, and the padded standard
 alphabet of section 4 as section 6.8 of RFC 2045 uses it in mail bodies. Both decoders skip CR and LF
 and ignore the unused low bits of the last character, as the encoders' library does.
 */
module Base64 {
  import opened Wrappers

  type Octet = x: int | 0 <= x < 256
  type Sextet = x: int | 0 <= x < 64

  datatype Alphabet = Standard | Url

  function Char(a: Alphabet, s: Sextet): char {
    if s < 26 then 'A' + s as char
    else if s < 52 then 'a' + (s - 26) as char
    else if s < 62 then '0' + (s - 52) as char
    else if s == 62 then (if a.Url? then '-' else '+')
    else (if a.Url? then '_' else '/')
  }

  function Value(a: Alphabet, c: char): Option<Sextet> {
    if 'A' <= c <= 'Z' then Some(c as int - 'A' as int)
    else if 'a' <= c <= 'z' then Some(c as int - 'a' as int + 26)
    else if '0' <= c <= '9' then Some(c as int - '0' as int + 52)
    else if c == (if a.Url? then '-' else '+') then Some(62)
    else if c == (if a.Url? then '_' else '/') then Some(63)
    else None
  }

  lemma ValueOfChar(a: Alphabet, s: Sextet)
    ensures Value(a, Char(a, s)) == Some(s)
  {
  }

  // ----- Octets and sextets ----------------------------------------------------------------------

  // Three octets are four sextets: each function names one of the seven pieces.
  function S0(x: Octet): Sextet { x / 4 }
  function S1(x: Octet, y: Octet): Sextet { x % 4 * 16 + y / 16 }
  function S2(y: Octet, z: Octet): Sextet { y % 16 * 4 + z / 64 }
  function S3(z: Octet): Sextet { z % 64 }
  function O0(p: Sextet, q: Sextet): Octet { p as int * 4 + q as int / 16 }
  function O1(q: Sextet, r: Sextet): Octet { q as int % 16 * 16 + r as int / 4 }
  function O2(r: Sextet, s: Sextet): Octet { r as int % 4 * 64 + s as int }

  lemma BlockRoundTrip(x: Octet, y: Octet, z: Octet)
    ensures O0(S0(x), S1(x, y)) == x
    ensures O1(S1(x, y), S2(y, z)) == y
    ensures O2(S2(y, z), S3(z)) == z
  {
  }

  function Pack(b: seq<Octet>): (s: seq<Sextet>)
    ensures |s| == (4 * |b| + 2) / 3
  {
    if |b| == 0 then []
    else if |b| == 1 then [S0(b[0]), S1(b[0], 0)]
    else if |b| == 2 then [S0(b[0]), S1(b[0], b[1]), S2(b[1], 0)]
    else [S0(b[0]), S1(b[0], b[1]), S2(b[1], b[2]), S3(b[2])] + Pack(b[3..])
  }

  /** None for a single left-over character, which no octets produce. */
  function Unpack(s: seq<Sextet>): Option<seq<Octet>> {
    if |s| == 0 then Some([])
    else if |s| == 1 then None
    else if |s| == 2 then Some([O0(s[0], s[1])])
    else if |s| == 3 then Some([O0(s[0], s[1]), O1(s[1], s[2])])
    else match Unpack(s[4..])
         case None => None
         case Some(rest) => Some([O0(s[0], s[1]), O1(s[1], s[2]), O2(s[2], s[3])] + rest)
  }

  lemma {:induction false} UnpackUndoesPack(b: seq<Octet>)
    ensures Unpack(Pack(b)) == Some(b)
  {
    hide S0, S1, S2, S3, O0, O1, O2;
    if |b| == 1 {
      BlockRoundTrip(b[0], 0, 0);
      assert [b[0]] == b;
    } else if |b| == 2 {
      BlockRoundTrip(b[0], b[1], 0);
      assert [b[0], b[1]] == b;
    } else if |b| >= 3 {
      BlockRoundTrip(b[0], b[1], b[2]);
      UnpackUndoesPack(b[3..]);
      assert Pack(b)[4..] == Pack(b[3..]);
      assert b == [b[0], b[1], b[2]] + b[3..];
    }
  }

  // ----- Characters ------------------------------------------------------------------------------

  function Chars(a: Alphabet, s: seq<Sextet>): (t: string)
    ensures |t| == |s| && forall i :: 0 <= i < |s| ==> t[i] == Char(a, s[i])
  {
    seq(|s|, i requires 0 <= i < |s| => Char(a, s[i]))
  }

  predicate IsLineBreak(c: char) {
    c == '\r' || c == '\n'
  }

  function Unfold(t: string): string {
    if t == "" then ""
    else if IsLineBreak(t[0]) then Unfold(t[1..])
    else [t[0]] + Unfold(t[1..])
  }

  function Values(a: Alphabet, t: string): Option<seq<Sextet>> {
    if t == "" then Some([])
    else match (Value(a, t[0]), Values(a, t[1..]))
         case (Some(s), Some(rest)) => Some([s] + rest)
         case _ => None
  }

  lemma {:induction false} ValuesOfChars(a: Alphabet, s: seq<Sextet>)
    ensures Values(a, Chars(a, s)) == Some(s)
  {
    if s == [] {
      assert Chars(a, s) == "";
    } else {
      ValueOfChar(a, s[0]);
      ValuesOfChars(a, s[1..]);
      assert Chars(a, s)[1..] == Chars(a, s[1..]);
      assert [s[0]] + s[1..] == s;
    }
  }

  lemma {:induction false} UnfoldConcat(t: string, u: string)
    ensures Unfold(t + u) == Unfold(t) + Unfold(u)
  {
    if t == "" {
      assert t + u == u;
    } else {
      assert (t + u)[1..] == t[1..] + u;
      UnfoldConcat(t[1..], u);
    }
  }

  lemma {:induction false} UnfoldPlain(t: string)
    requires forall i :: 0 <= i < |t| ==> !IsLineBreak(t[i])
    ensures Unfold(t) == t
  {
    if t != "" {
      UnfoldPlain(t[1..]);
    }
  }

  // ----- The two codecs --------------------------------------------------------------------------

  function EncodeUrl(b: seq<Octet>): string {
    Chars(Url, Pack(b))
  }

  function DecodeUrl(t: string): Option<seq<Octet>> {
    match Values(Url, Unfold(t))
    case None => None
    case Some(s) => Unpack(s)
  }

  function Padding(n: nat): string {
    if n % 3 == 0 then "" else if n % 3 == 1 then "==" else "="
  }

  function EncodeStandard(b: seq<Octet>): string {
    Chars(Standard, Pack(b)) + Padding(|b|)
  }

  function Unpadded(t: string): string {
    if |t| >= 2 && t[|t| - 2..] == "==" then t[..|t| - 2]
    else if |t| >= 1 && t[|t| - 1] == '=' then t[..|t| - 1]
    else t
  }

  function DecodeStandard(t: string): Option<seq<Octet>> {
    var u := Unfold(t);
    if |u| % 4 != 0 then None
    else match Values(Standard, Unpadded(u))
         case None => None
         case Some(s) => Unpack(s)
  }

  predicate IsUrlChar(c: char) {
    'A' <= c <= 'Z' || 'a' <= c <= 'z' || '0' <= c <= '9' || c == '-' || c == '_'
  }

  predicate IsStandardChar(c: char) {
    'A' <= c <= 'Z' || 'a' <= c <= 'z' || '0' <= c <= '9' || c == '+' || c == '/' || c == '='
  }

  /** The URL encoding emits letters, digits, '-' and '_' only: never a dot, never a line break. */
  lemma EncodeUrlChars(b: seq<Octet>)
    ensures forall i :: 0 <= i < |EncodeUrl(b)| ==> IsUrlChar(EncodeUrl(b)[i])
  {
  }

  lemma CharIsStandard(s: Sextet)
    ensures IsStandardChar(Char(Standard, s))
  {
  }

  lemma PaddingIsStandard(n: nat, i: nat)
    requires i < |Padding(n)|
    ensures IsStandardChar(Padding(n)[i])
  {
  }

  lemma EncodeStandardChars(b: seq<Octet>)
    ensures forall i :: 0 <= i < |EncodeStandard(b)| ==> IsStandardChar(EncodeStandard(b)[i])
  {
    hide IsStandardChar, Char, Pack, Padding;
    var t, c := EncodeStandard(b), Chars(Standard, Pack(b));
    forall i | 0 <= i < |t|
      ensures IsStandardChar(t[i])
    {
      if i < |c| {
        CharIsStandard(Pack(b)[i]);
      } else {
        PaddingIsStandard(|b|, i - |c|);
      }
    }
  }

  lemma PaddedLength(n: nat)
    ensures ((4 * n + 2) / 3 + |Padding(n)|) % 4 == 0
  {
    var q := n / 3;
    if n % 3 == 0 {
      assert n == 3 * q && (4 * n + 2) / 3 == 4 * q;
    } else if n % 3 == 1 {
      assert n == 3 * q + 1 && (4 * n + 2) / 3 == 4 * q + 2;
    } else {
      assert n == 3 * q + 2 && (4 * n + 2) / 3 == 4 * q + 3;
    }
  }

  lemma EncodeStandardLength(b: seq<Octet>)
    ensures |EncodeStandard(b)| % 4 == 0
  {
    hide Padding, Pack;
    PaddedLength(|b|);
  }

  lemma DecodeUrlUndoesEncode(b: seq<Octet>)
    ensures DecodeUrl(EncodeUrl(b)) == Some(b)
  {
    EncodeUrlChars(b);
    UnfoldPlain(EncodeUrl(b));
    ValuesOfChars(Url, Pack(b));
    UnpackUndoesPack(b);
  }

  predicate Decodes(a: Alphabet, t: string) {
    forall i :: 0 <= i < |t| ==> Value(a, t[i]).Some?
  }

  lemma {:induction false} ValuesExistIff(a: Alphabet, t: string)
    ensures Values(a, t).Some? <==> Decodes(a, t)
    ensures Values(a, t).Some? ==> |Values(a, t).value| == |t|
  {
    if t != "" {
      ValuesExistIff(a, t[1..]);
      assert t == [t[0]] + t[1..];
      assert Decodes(a, t) <==> Value(a, t[0]).Some? && Decodes(a, t[1..]) by {
        forall i | 0 <= i < |t[1..]|
          ensures t[1..][i] == t[i + 1]
        {
        }
        assert forall i :: 1 <= i < |t| ==> t[i] == t[1..][i - 1];
      }
    }
  }

  lemma FourLess(n: nat)
    requires n >= 4
    ensures n % 4 == (n - 4) % 4
  {
  }

  lemma {:induction false} UnpackExistsIff(s: seq<Sextet>)
    ensures Unpack(s).Some? <==> |s| % 4 != 1
  {
    hide O0, O1, O2;
    if |s| >= 4 {
      UnpackExistsIff(s[4..]);
      FourLess(|s|);
    } else {
      assert |s| % 4 == |s|;
    }
  }

  lemma {:induction false} UnfoldKeeps(t: string, c: char)
    requires !IsLineBreak(c)
    ensures c in Unfold(t) <==> c in t
    ensures forall d :: d in Unfold(t) ==> !IsLineBreak(d)
  {
    if t != "" {
      UnfoldKeeps(t[1..], c);
      assert t == [t[0]] + t[1..];
    }
  }

  /** Nothing else decodes: every character but line breaks is in the alphabet, and none is left over. */
  lemma DecodeUrlExistsIff(t: string)
    ensures DecodeUrl(t).Some? <==> (forall c :: c in t ==> IsLineBreak(c) || IsUrlChar(c)) && |Unfold(t)| % 4 != 1
  {
    var u := Unfold(t);
    ValuesExistIff(Url, u);
    if Values(Url, u).Some? {
      UnpackExistsIff(Values(Url, u).value);
    }
    forall c | !IsLineBreak(c)
      ensures c in u <==> c in t
    {
      UnfoldKeeps(t, c);
    }
    UnfoldKeeps(t, 'A');
    hide Unfold, Unpack, Values;
    assert forall c :: Value(Url, c).Some? <==> IsUrlChar(c);
    if forall c :: c in t ==> IsLineBreak(c) || IsUrlChar(c) {
      forall i | 0 <= i < |u|
        ensures Value(Url, u[i]).Some?
      {
        assert u[i] in u;
      }
    }
    if Decodes(Url, u) {
      forall c | c in t && !IsLineBreak(c)
        ensures IsUrlChar(c)
      {
        assert c in u;
        var i :| 0 <= i < |u| && u[i] == c;
      }
    }
  }

  lemma PaddingComesOff(s: seq<Sextet>, n: nat)
    requires |s| == (4 * n + 2) / 3
    ensures Unpadded(Chars(Standard, s) + Padding(n)) == Chars(Standard, s)
  {
    var c, t := Chars(Standard, s), Chars(Standard, s) + Padding(n);
    assert forall i :: 0 <= i < |s| ==> c[i] != '=';
    if n % 3 == 1 {
      assert t[|t| - 2..] == "==";
    } else if |t| >= 2 {
      assert t[|t| - 2] != '=';
      assert t[|t| - 2..][0] != '=';
    }
  }

  /** However a standard encoding is folded, the decoder recovers the octets. */
  lemma {:induction false} DecodeStandardUndoesEncode(b: seq<Octet>, folded: string)
    requires Unfold(folded) == EncodeStandard(b)
    ensures DecodeStandard(folded) == Some(b)
  {
    var s := Pack(b);
    var t := EncodeStandard(b);
    EncodeStandardLength(b);
    PaddingComesOff(s, |b|);
    ValuesOfChars(Standard, s);
    UnpackUndoesPack(b);
  }

  /**
   A line break anywhere in an encoding is ignored, so an encoding is not the only text that decodes to its
   octets.
   */
  lemma LineBreaksAreIgnored(t: string, u: string, c: char)
    requires IsLineBreak(c)
    ensures DecodeUrl(t + [c] + u) == DecodeUrl(t + u)
  {
    UnfoldConcat(t + [c], u);
    UnfoldConcat(t, [c]);
    UnfoldConcat(t, u);
    assert Unfold([c]) == "";
    assert Unfold(t + [c]) == Unfold(t);
  }
}
