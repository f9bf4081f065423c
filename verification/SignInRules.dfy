/**
 What the sign-in rules mean, character by character: which texts are spellings of one identifier, which
 passwords, names and addresses are accepted, and what a registration or a rename leaves in the row.
 */
module SignInRules {
  import opened Wrappers
  import opened SignIn
  // ----- Spellings ---------------------------------------------------------------------------------

  ghost predicate AllSpace(f: Folding, s: string) {
    forall i :: 0 <= i < |s| ==> f.space(s[i])
  }

  ghost predicate LowersTo(f: Folding, s: string, t: string) {
    |s| == |t| && forall i :: 0 <= i < |t| ==> f.lower(s[i]) == t[i]
  }

  /** White space, a text that lower-cases to the stored one character by character, and white space. */
  ghost predicate Spells(f: Folding, spelling: string, stored: string) {
    exists pre, core, post ::
      && spelling == pre + core + post && AllSpace(f, pre) && AllSpace(f, post)
      && LowersTo(f, core, stored)
  }

  /** In the form identifiers are stored in: not empty, no white space at either end, and in lower case. */
  ghost predicate Fixed(f: Folding, s: string) {
    s != "" && Trimmed(f, s) && LowersTo(f, s, s)
  }

  lemma {:induction false} TrimLeftSkips(f: Folding, pre: string, rest: string)
    requires AllSpace(f, pre) && (rest == "" || !f.space(rest[0]))
    ensures TrimLeft(f, pre + rest) == rest
  {
    if pre == "" {
      assert pre + rest == rest;
    } else {
      assert (pre + rest)[0] == pre[0] && (pre + rest)[1..] == pre[1..] + rest;
      TrimLeftSkips(f, pre[1..], rest);
    }
  }

  lemma {:induction false} TrimRightSkips(f: Folding, core: string, post: string)
    requires AllSpace(f, post) && (core == "" || !f.space(core[|core| - 1]))
    ensures TrimRight(f, core + post) == core
  {
    if post == "" {
      assert core + post == core;
    } else {
      var s, shorter := core + post, post[..|post| - 1];
      assert s[|s| - 1] == post[|post| - 1] && s[..|s| - 1] == core + shorter;
      TrimRightSkips(f, core, shorter);
    }
  }

  /** Trimming takes white space off both ends and nothing else. */
  lemma TrimTakesOff(f: Folding, pre: string, core: string, post: string)
    requires AllSpace(f, pre) && AllSpace(f, post) && Trimmed(f, core) && core != ""
    ensures Trim(f, pre + core + post) == core
  {
    assert pre + core + post == pre + (core + post);
    TrimLeftSkips(f, pre, core + post);
    TrimRightSkips(f, core, post);
  }

  lemma BlankTrimsAway(f: Folding, s: string)
    requires AllSpace(f, s)
    ensures Trim(f, s) == ""
  {
    assert s + "" == s;
    TrimLeftSkips(f, s, "");
  }

  lemma {:induction false} LeftSplits(f: Folding, s: string) returns (pre: string)
    ensures s == pre + TrimLeft(f, s) && AllSpace(f, pre)
  {
    if s != "" && f.space(s[0]) {
      var rest := LeftSplits(f, s[1..]);
      pre := [s[0]] + rest;
      assert s == [s[0]] + s[1..];
    } else {
      pre := "";
    }
  }

  lemma {:induction false} RightSplits(f: Folding, s: string) returns (post: string)
    ensures s == TrimRight(f, s) + post && AllSpace(f, post)
  {
    if s != "" && f.space(s[|s| - 1]) {
      var rest := RightSplits(f, s[..|s| - 1]);
      post := rest + [s[|s| - 1]];
      assert s == s[..|s| - 1] + [s[|s| - 1]];
    } else {
      post := "";
    }
  }

  lemma TrimSplits(f: Folding, s: string) returns (pre: string, post: string)
    ensures s == pre + Trim(f, s) + post && AllSpace(f, pre) && AllSpace(f, post) && Trimmed(f, Trim(f, s))
  {
    pre := LeftSplits(f, s);
    post := RightSplits(f, TrimLeft(f, s));
    TrimLeftTrims(f, s);
    TrimRightTrims(f, TrimLeft(f, s));
  }

  lemma TrimIsEmptyIff(f: Folding, s: string)
    ensures Trim(f, s) == "" <==> AllSpace(f, s)
  {
    hide Trim;
    var pre, post := TrimSplits(f, s);
    assert Trim(f, s) == "" ==> s == pre + post;
    if AllSpace(f, s) {
      BlankTrimsAway(f, s);
    }
  }

  /** A text normalises to a stored identifier exactly if it is a spelling of it. */
  lemma NormalFormIff(f: Folding, spelling: string, stored: string)
    requires SoundFolding(f) && Fixed(f, stored)
    ensures Normalize(f, spelling) == stored <==> Spells(f, spelling, stored)
  {
    hide Trim;
    var pre, post := TrimSplits(f, spelling);
    if Normalize(f, spelling) == stored {
      assert LowersTo(f, Trim(f, spelling), stored);
    }
    if Spells(f, spelling, stored) {
      var left, core, right :| spelling == left + core + right && AllSpace(f, left) && AllSpace(f, right)
          && LowersTo(f, core, stored);
      assert Trimmed(f, core) by {
        assert f.lower(core[0]) == stored[0] && f.lower(core[|core| - 1]) == stored[|core| - 1];
      }
      TrimTakesOff(f, left, core, right);
      assert Lower(f, core) == stored;
    }
  }

  lemma NormalFormIsFixed(f: Folding, s: string)
    requires SoundFolding(f) && Normalize(f, s) != ""
    ensures Fixed(f, Normalize(f, s)) && Spells(f, s, Normalize(f, s))
  {
    hide Trim;
    var pre, post := TrimSplits(f, s);
    assert LowersTo(f, Trim(f, s), Normalize(f, s));
  }

  // ----- Passwords, names and addresses --------------------------------------------------------------

  function CountFrom(s: string, bound: int): nat {
    if s == "" then 0 else (if s[0] as int >= bound then 1 else 0) + CountFrom(s[1..], bound)
  }

  /** A character takes one byte, and one more from each of U+0080, U+0800 and U+10000 on. */
  lemma {:induction false} BytesAreCounted(s: string)
    ensures Utf8Length(s) == |s| + CountFrom(s, 0x80) + CountFrom(s, 0x800) + CountFrom(s, 0x1_0000)
  {
    if s != "" {
      BytesAreCounted(s[1..]);
    }
  }

  /** The verdict on a password, error by error. */
  lemma PasswordVerdict(f: Folding, s: string)
    ensures var bytes := |s| + CountFrom(s, 0x80) + CountFrom(s, 0x800) + CountFrom(s, 0x1_0000);
            var r := ValidatePassword(f, s);
            && (r.Ok? <==> |s| >= 8 && bytes <= 72 && exists i :: 0 <= i < |s| && !f.space(s[i]))
            && (r == Err(PasswordTooShort) <==> |s| < 8)
            && (r == Err(PasswordTooLong) <==> |s| >= 8 && bytes > 72)
            && (r == Err(PasswordBlank) <==> |s| >= 8 && bytes <= 72 && AllSpace(f, s))
  {
    BytesAreCounted(s);
    TrimIsEmptyIff(f, s);
    hide Trim, Utf8Length, CountFrom;
  }

  /** The verdict on a name: white space at the ends does not count, towards its length or otherwise. */
  lemma NameVerdict(f: Folding, field: NameField, pre: string, core: string, post: string)
    requires AllSpace(f, pre) && AllSpace(f, post) && Trimmed(f, core)
    ensures ValidateName(f, field, pre + core + post)
            == if core == "" then Err(NameMissing(field)) else if |core| > 100 then Err(NameTooLong(field)) else Ok(())
  {
    hide Trim;
    if core == "" {
      BlankTrimsAway(f, pre + core + post);
    } else {
      TrimTakesOff(f, pre, core, post);
    }
  }

  ghost predicate PlainText(s: string) {
    s != "" && forall i :: 0 <= i < |s| ==> s[i] != '@' && s[i] !in " \t\n\r" && s[i] as int != 12
  }

  /** Three plain texts with an '@' and a '.' between them, the last of some length. */
  ghost predicate AddressOf(s: string, tail: nat, local: string, host: string, top: string) {
    && s == local + "@" + host + "." + top
    && PlainText(local) && PlainText(host) && PlainText(top) && |top| >= tail
  }

  ghost predicate IsAddress(s: string, tail: nat) {
    exists local, host, top :: AddressOf(s, tail, local, host, top)
  }

  lemma PlainSlice(s: string, lo: nat, hi: nat)
    requires lo < hi <= |s| && forall k :: lo <= k < hi ==> s[k] != '@' && !PatternSpace(s[k])
    ensures PlainText(s[lo..hi])
  {
    forall i | 0 <= i < hi - lo
      ensures s[lo..hi][i] != '@' && !PatternSpace(s[lo..hi][i])
    {
      assert s[lo..hi][i] == s[lo + i];
    }
  }

  lemma SplitTwice(s: string, i: nat, j: nat)
    requires i < j < |s| && s[i] == '@' && s[j] == '.'
    ensures s == s[0..i] + "@" + s[i + 1..j] + "." + s[j + 1..|s|]
  {
    assert s[0..j] == s[0..i] + "@" + s[i + 1..j];
    assert s == s[0..j] + "." + s[j + 1..|s|];
  }

  lemma ShapedAtIsAddress(s: string, tail: nat, i: int, j: int)
    requires ShapedAt(s, tail, i, j) && tail >= 1
    ensures AddressOf(s, tail, s[0..i], s[i + 1..j], s[j + 1..|s|])
  {
    PlainSlice(s, 0, i);
    PlainSlice(s, i + 1, j);
    PlainSlice(s, j + 1, |s|);
    hide PlainText, PatternSpace, ShapedAt;
    SplitTwice(s, i, j);
  }

  lemma ShapedIsAddress(s: string, tail: nat)
    requires AddressShaped(s, tail) && tail >= 1
    ensures IsAddress(s, tail)
  {
    hide AddressOf, ShapedAt;
    var i, j :| 0 < i < |s| && i < j < |s| && ShapedAt(s, tail, i, j);
    ShapedAtIsAddress(s, tail, i, j);
  }

  lemma AddressIsShaped(local: string, host: string, top: string, tail: nat)
    requires PlainText(local) && PlainText(host) && PlainText(top) && |top| >= tail >= 1
    ensures AddressShaped(local + "@" + host + "." + top, tail)
  {
    var s, i, j := local + "@" + host + "." + top, |local|, |local| + 1 + |host|;
    assert s[i] == '@' && s[j] == '.';
    forall k | 0 <= k < |s| && k != i
      ensures s[k] != '@' && !PatternSpace(s[k])
    {
      if k < i {
        assert s[k] == local[k];
      } else if k < j {
        assert s[k] == host[k - i - 1];
      } else if k > j {
        assert s[k] == top[k - j - 1];
      }
    }
    assert ShapedAt(s, tail, i, j);
  }

  /** The verdict on an address, error by error. */
  lemma EmailVerdict(s: string)
    ensures ValidateEmail(s) == if !IsAddress(s, 2) then Err(BadEmail) else if |s| > 255 then Err(EmailTooLong)
        else Ok(())
  {
    if AddressShaped(s, 2) {
      ShapedIsAddress(s, 2);
    } else if IsAddress(s, 2) {
      var local, host, top :| AddressOf(s, 2, local, host, top);
      AddressIsShaped(local, host, top, 2);
    }
  }

  /** The verdict on a username: the error says whether its length, its look or its alphabet is wrong, in that order. */
  lemma UsernameVerdict(s: string)
    ensures ValidateUsername(s)
            == if !(3 <= |s| <= 50) then Err(BadLength)
               else if IsAddress(s, 1) then Err(LooksLikeEmail)
               else if !(forall i :: 0 <= i < |s| ==> 'a' <= s[i] <= 'z' || '0' <= s[i] <= '9' || s[i] in "._-")
               then Err(BadCharacters)
               else Ok(())
  {
    if AddressShaped(s, 1) {
      ShapedIsAddress(s, 1);
    } else if IsAddress(s, 1) {
      var local, host, top :| AddressOf(s, 1, local, host, top);
      AddressIsShaped(local, host, top, 1);
    }
  }

  // ----- What is saved -------------------------------------------------------------------------------

  /** The rule named is the first that is broken, and none is exactly if none is. */
  lemma BrokenRuleIsTheFirst(f: Folding, q: Request)
    ensures var username, email := ValidateUsername(Normalize(f, q.username)), ValidateEmail(Normalize(f, q.email));
            var password := ValidatePassword(f, q.password);
            var first, last := ValidateName(f, FirstName, q.firstName), ValidateName(f, LastName, q.lastName);
            BrokenRule(f, q)
            == if username.Err? then Some(username.error)
               else if email.Err? then Some(email.error)
               else if password.Err? then Some(password.error)
               else if first.Err? then Some(first.error)
               else if last.Err? then Some(last.error)
               else None
  {
    hide Normalize, ValidateUsername, ValidateEmail, ValidatePassword, ValidateName;
  }

  lemma AcceptedIsNotEmpty(s: string)
    requires ValidateUsername(s).Ok? || ValidateEmail(s).Ok?
    ensures s != ""
  {
  }

  /** The row says what was asked for: the identifiers in stored form, the hash for the password, the names as given. */
  ghost predicate RowFor(f: Folding, q: Request, hash: string, u: User) {
    && Fixed(f, u.username) && Spells(f, q.username, u.username)
    && Fixed(f, u.email) && Spells(f, q.email, u.email)
    && u.passwordHash == hash && u.firstName == q.firstName && u.lastName == q.lastName
  }

  /** A registration that succeeds adds exactly the row asked for, and changes no other. */
  lemma RegisteredRow(f: Folding, t: Table, id: UserId, q: Request, hash: Option<string>, fault: Fault<Statement>)
    requires SoundFolding(f) && RegisterAttempt(f, t, id, q, hash, fault).1.Ok?
    ensures var t' := RegisterAttempt(f, t, id, q, hash, fault).0;
            && id !in t && hash.Some? && t'.Keys == t.Keys + {id}
            && RowFor(f, q, hash.value, t'[id])
            && forall other :: other in t ==> t'[other] == t[other]
  {
    hide Normalize, Fixed, Spells, ValidateUsername, ValidateEmail, ValidatePassword, ValidateName;
    AcceptedIsNotEmpty(Normalize(f, q.username));
    AcceptedIsNotEmpty(Normalize(f, q.email));
    hide BrokenRule;
    NormalFormIsFixed(f, q.username);
    NormalFormIsFixed(f, q.email);
    hide WithEmail, WithUsername, Collides;
  }

  /** A profile change that succeeds writes what was asked for, leaves the rest of the row and every other row. */
  lemma ChangedRow(f: Folding, t: Table, id: UserId, ch: Change, fault: Fault<Statement>)
    requires SoundFolding(f) && ProfileAttempt(f, t, id, ch, fault).1.Ok?
    ensures id in t
    ensures var t', row := ProfileAttempt(f, t, id, ch, fault).0, t[id];
            && t'.Keys == t.Keys
            && (forall other :: other in t && other != id ==> t'[other] == t[other])
            && (match ch.username
                case None => t'[id].username == row.username
                case Some(name) => Fixed(f, t'[id].username) && Spells(f, name, t'[id].username))
            && t'[id].firstName == (if ch.firstName.Some? then ch.firstName.value else row.firstName)
            && t'[id].lastName == (if ch.lastName.Some? then ch.lastName.value else row.lastName)
            && t'[id].email == row.email && t'[id].passwordHash == row.passwordHash && t'[id].details == row.details
  {
    hide Normalize, Fixed, Spells, ValidateName;
    if ch.username.Some? {
      NormalFormIsFixed(f, ch.username.value);
    }
  }

  /**
   With the database sound a profile change succeeds exactly when the names asked for are acceptable and the
   unique indexes take the row: here too the look-up only chooses which conflict to name.
   */
  lemma ChangeSucceedsIff(f: Folding, t: Table, id: UserId, ch: Change)
    requires SoundFolding(f) && UniqueColumns(t)
    ensures ProfileAttempt(f, t, id, ch, NoFault).1.Ok? <==>
              && id in t
              && (ch.username.Some? ==> ValidateUsername(Normalize(f, ch.username.value)).Ok?)
              && (ch.firstName.Some? ==> ValidateName(f, FirstName, ch.firstName.value).Ok?)
              && (ch.lastName.Some? ==> ValidateName(f, LastName, ch.lastName.value).Ok?)
              && (ch.username.Some? ==>
                    forall other :: other in t && other != id ==> t[other].username != Normalize(f, ch.username.value))
  {
    hide Normalize, ValidateUsername, ValidateName;
    if id in t && ch.username.Some? {
      var name := Normalize(f, ch.username.value);
      assert forall other :: other in WithUsername(t, name) <==> other in t && t[other].username == name;
    }
  }

  /** Whatever the database does, a call changes nothing or what it changes when nothing goes wrong. */
  lemma FaultsNeverHalfWrite(f: Folding, t: Table, id: UserId, q: Request, hash: Option<string>, ch: Change,
      fault: Fault<Statement>)
    ensures var (t', r) := RegisterAttempt(f, t, id, q, hash, fault);
            var (sound, ok) := RegisterAttempt(f, t, id, q, hash, NoFault);
            && (t' == t || t' == sound)
            && (r.Ok? ==> ok.Ok? && t' == sound && !fault.LosesAnswer?)
            && (r.Err? && ok.Ok? ==>
                  r == Err(Unavailable) && (fault.LosesAnswer? ==> t' == sound) && (fault.Refuses? ==> t' == t))
    ensures var (t', r) := ProfileAttempt(f, t, id, ch, fault);
            var (sound, ok) := ProfileAttempt(f, t, id, ch, NoFault);
            && (t' == t || t' == sound)
            && (r.Ok? ==> ok.Ok? && t' == sound && !fault.LosesAnswer?)
            && (r.Err? && ok.Ok? ==>
                  r == Err(Unavailable) && (fault.LosesAnswer? ==> t' == sound) && (fault.Refuses? ==> t' == t))
  {
    hide Normalize, BrokenRule, BrokenNameRule, ValidateUsername, Renamed;
  }
}
