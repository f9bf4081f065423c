/** The encoder itself: a string builder written to step by step, from the header to the closing delimiter. */
module MailEncoder {
  import opened Wrappers
  import opened Base64
  import opened Mime
  import opened MimeProofs

  class Builder {
    var text: string

    constructor ()
      ensures text == ""
    {
      text := "";
    }

    method WriteString(s: string)
      modifies this
      ensures text == old(text) + s
    {
      text := text + s;
    }
  }

  lemma OneTerminated(line: string)
    ensures Terminated([line]) == line + CRLF
  {
    assert [line][1..] == [];
  }

  lemma {:induction false} TerminatedUnfolds(lines: seq<string>)
    ensures Unfold(Terminated(lines)) == Unfold(Joined(lines))
  {
    UnfoldBreak();
    hide Unfold;
    if |lines| == 1 {
      UnfoldConcat(lines[0], CRLF);
      OneTerminated(lines[0]);
      assert lines == [lines[0]];
    } else if lines != [] {
      TerminatedUnfolds(lines[1..]);
      UnfoldConcat(lines[0] + CRLF, Terminated(lines[1..]));
      UnfoldConcat(lines[0] + CRLF, Joined(lines[1..]));
    }
  }

  function Folded(t: string): string {
    Terminated(Chunks(t))
  }

  lemma FoldedFrom(t: string, i: nat, end: nat)
    requires i < |t| && end == if i + MAX_LINE_OCTETS > |t| then |t| else i + MAX_LINE_OCTETS
    ensures Folded(t[i..]) == t[i..end] + CRLF + Folded(t[end..])
  {
    var rest := t[i..];
    if |rest| <= MAX_LINE_OCTETS {
      assert t[i..end] == rest && t[end..] == "";
      OneTerminated(rest);
    } else {
      var head, tail := rest[..MAX_LINE_OCTETS], rest[MAX_LINE_OCTETS..];
      assert t[i..end] == head && t[end..] == tail;
      hide Terminated;
      assert Chunks(rest) == [head] + Chunks(tail);
      TerminatedConcat([head], Chunks(tail));
      OneTerminated(head);
    }
  }

  lemma FoldedNothing(t: string)
    ensures t[|t|..] == "" && Folded("") == ""
  {
  }

  lemma Associate(a: string, b: string, c: string, d: string)
    ensures a + (b + c + d) == a + b + c + d
  {
  }

  lemma WrappedIsGood(body: seq<Octet>)
    ensures var wrapped := Terminated(Chunks(EncodeStandard(body)));
            DecodeStandard(wrapped) == Some(body) && Short(Lines(wrapped)) && NoBareBreaks(wrapped)
  {
    var encoded := EncodeStandard(body);
    StandardIsOneLine(body);
    ChunksAreShort(encoded);
    UnfoldUndoesChunks(encoded);
    TerminatedUnfolds(Chunks(encoded));
    hide Chunks, EncodeStandard, Unfold;
    DecodeStandardUndoesEncode(body, Terminated(Chunks(encoded)));
    LinesOfTerminated(Chunks(encoded));
    TerminatedHasNoBareBreaks(Chunks(encoded));
  }

  /** Whole lines of at most 76 characters, from which a decoder has the body back. */
  method WrapBase64(body: seq<Octet>) returns (wrapped: string)
    ensures wrapped == Terminated(Chunks(EncodeStandard(body)))
    ensures DecodeStandard(wrapped) == Some(body)
    ensures Short(Lines(wrapped)) && NoBareBreaks(wrapped)
  {
    var encoded := EncodeStandard(body);
    var b := new Builder();
    var i := 0;
    ghost var whole := Folded(encoded);
    assert whole == Terminated(Chunks(encoded));
    assert "" + whole == whole && encoded[0..] == encoded;
    hide Folded, Terminated, Chunks, EncodeStandard, DecodeStandard, Lines, Short, NoBareBreaks;
    while i < |encoded|
      invariant 0 <= i
      invariant b.text + Folded(encoded[if i < |encoded| then i else |encoded|..]) == whole
    {
      var end := i + MAX_LINE_OCTETS;
      if end > |encoded| {
        end := |encoded|;
      }
      FoldedFrom(encoded, i, end);
      Associate(b.text, encoded[i..end], CRLF, Folded(encoded[end..]));
      b.WriteString(encoded[i..end]);
      b.WriteString(CRLF);
      i := i + MAX_LINE_OCTETS;
    }
    FoldedNothing(encoded);
    wrapped := b.text;
    WrappedIsGood(body);
  }

  method WriteHeader(b: Builder, name: string, value: string)
    modifies b
    ensures b.text == old(b.text) + Terminated([HeaderLine(Field(name, value))])
  {
    b.WriteString(name);
    b.WriteString(": ");
    b.WriteString(value);
    b.WriteString(CRLF);
    OneTerminated(HeaderLine(Field(name, value)));
  }

  lemma PartIsWritten(start: string, boundary: string, contentType: string, body: seq<Octet>)
    ensures start + ("--" + boundary + CRLF)
            + Terminated([HeaderLine(Field("Content-Type", contentType))])
            + Terminated([HeaderLine(Field("Content-Transfer-Encoding", "base64"))])
            + CRLF + Terminated(Chunks(EncodeStandard(body)))
            == start + Terminated([Delimiter(boundary)] + PartLines(Part(contentType, body)))
  {
    var first, second := HeaderLine(Field("Content-Type", contentType)),
        HeaderLine(Field("Content-Transfer-Encoding", "base64"));
    var chunks := Chunks(EncodeStandard(body));
    PartLinesAre(Part(contentType, body));
    OneTerminated(Delimiter(boundary));
    OneTerminated("");
    hide Terminated, HeaderLine, Chunks, EncodeStandard, PartLines;
    TerminatedConcat([Delimiter(boundary)], PartLines(Part(contentType, body)));
    assert PartLines(Part(contentType, body)) == [first] + ([second] + ([""] + chunks));
    TerminatedConcat([first], [second] + ([""] + chunks));
    TerminatedConcat([second], [""] + chunks);
    TerminatedConcat([""], chunks);
  }

  method WritePart(b: Builder, boundary: string, contentType: string, body: seq<Octet>)
    modifies b
    ensures b.text == old(b.text) + Terminated([Delimiter(boundary)] + PartLines(Part(contentType, body)))
  {
    ghost var start := b.text;
    b.WriteString("--" + boundary + CRLF);
    WriteHeader(b, "Content-Type", contentType);
    WriteHeader(b, "Content-Transfer-Encoding", "base64");
    b.WriteString(CRLF);
    var wrapped := WrapBase64(body);
    b.WriteString(wrapped);
    PartIsWritten(start, boundary, contentType, body);
  }

  function Header(fields: seq<Field>): string {
    Terminated(HeaderLines(fields))
  }

  lemma {:induction false} HeaderGrows(fields: seq<Field>, f: Field)
    ensures Header(fields + [f]) == Header(fields) + Terminated([HeaderLine(f)])
  {
    if fields == [] {
      assert fields + [f] == [f] && [f][1..] == [];
    } else {
      assert (fields + [f])[1..] == fields[1..] + [f];
      HeaderGrows(fields[1..], f);
    }
  }

  /** The next field of `all` follows the k that are written. */
  method WriteField(b: Builder, ghost start: string, ghost all: seq<Field>, ghost k: nat, name: string, value: string)
    requires k < |all| && all[k] == Field(name, value) && b.text == start + Header(all[..k])
    modifies b
    ensures b.text == start + Header(all[..k + 1])
  {
    hide *;
    WriteHeader(b, name, value);
    HeaderGrows(all[..k], all[k]);
    assert all[..k] + [all[k]] == all[..k + 1];
    Associate(start, Header(all[..k]), Terminated([HeaderLine(all[k])]), "");
  }

  method WriteFields(b: Builder, lib: Library, m: Message, boundary: string, messageId: string, date: string)
    modifies b
    ensures b.text == old(b.text) + Header(Fields(lib, m, boundary, messageId, date))
  {
    ghost var start, all := b.text, Fields(lib, m, boundary, messageId, date);
    assert Header(all[..0]) == "";
    hide Header, Render, Multipart;
    WriteField(b, start, all, 0, "From", Render(lib, m.from));
    WriteField(b, start, all, 1, "To", Render(lib, Address(m.toName, m.to)));
    WriteField(b, start, all, 2, "Subject", lib.encodeWord(m.subject));
    WriteField(b, start, all, 3, "Date", date);
    WriteField(b, start, all, 4, "Message-ID", messageId);
    WriteField(b, start, all, 5, "MIME-Version", "1.0");
    WriteField(b, start, all, 6, "Auto-Submitted", "auto-generated");
    WriteField(b, start, all, 7, "X-Auto-Response-Suppress", "All");
    WriteField(b, start, all, 8, "Content-Type", Multipart(boundary));
    assert all[..9] == all;
  }

  lemma PartComesFirst(boundary: string, p: Part, tail: seq<string>)
    ensures Terminated([Delimiter(boundary)] + PartLines(p) + tail) == Terminated([Delimiter(boundary)] + PartLines(p))
        + Terminated(tail)
  {
    TerminatedConcat([Delimiter(boundary)] + PartLines(p), tail);
  }

  lemma BodyIsWritten(boundary: string, parts: seq<Part>)
    requires 1 <= |parts| <= 2
    ensures Terminated(BodyLines(boundary, parts))
            == Terminated([Delimiter(boundary)] + PartLines(parts[0]))
               + (if |parts| == 2 then Terminated([Delimiter(boundary)] + PartLines(parts[1])) else "")
               + ("--" + boundary + "--" + CRLF)
  {
    hide Terminated, PartLines;
    OneTerminated(Close(boundary));
    PartComesFirst(boundary, parts[0], BodyLines(boundary, parts[1..]));
    if |parts| == 2 {
      assert parts[1..] == [parts[1]] && [parts[1]][1..] == [];
      PartComesFirst(boundary, parts[1], BodyLines(boundary, []));
    } else {
      assert parts[1..] == [];
    }
  }

  method WriteParts(b: Builder, lib: Library, m: Message, boundary: string)
    modifies b
    ensures b.text == old(b.text) + Terminated(BodyLines(boundary, Parts(lib, m)))
  {
    hide Terminated, PartLines, BodyLines, Delimiter;
    var text := m.text;
    if lib.blankBody(text) {
      text := Octets(FALLBACK);
    }
    WritePart(b, boundary, PLAIN, text);
    if !lib.blankBody(m.html) {
      WritePart(b, boundary, HTML, m.html);
    }
    b.WriteString("--" + boundary + "--" + CRLF);
    BodyIsWritten(boundary, Parts(lib, m));
  }

  lemma MessageIsWritten(boundary: string, fields: seq<Field>, parts: seq<Part>)
    ensures Terminated(MessageLines(boundary, fields, parts)) == Header(fields) + CRLF
        + Terminated(BodyLines(boundary, parts))
  {
    hide Terminated, BodyLines;
    TerminatedConcat(HeaderLines(fields) + [""], BodyLines(boundary, parts));
    TerminatedConcat(HeaderLines(fields), [""]);
    OneTerminated("");
  }

  method Write(lib: Library, m: Message, boundary: string, messageId: string, date: string) returns (text: string)
    ensures text == Terminated(MessageLines(boundary, Fields(lib, m, boundary, messageId, date), Parts(lib, m)))
  {
    MessageIsWritten(boundary, Fields(lib, m, boundary, messageId, date), Parts(lib, m));
    hide Fields, Parts, Header, BodyLines, Terminated, MessageLines;
    var b := new Builder();
    WriteFields(b, lib, m, boundary, messageId, date);
    b.WriteString(CRLF);
    WriteParts(b, lib, m, boundary);
    return b.text;
  }

  /**
   Encodes a message that passes the checks, or says which check it failed. A reader has the message back:
   its header fields and its parts, and nothing a value or a body could have added to them.
   */
  method Encode(lib: Library, m: Message, entropy: Entropy, date: string) returns (r: Result<string, MailError>)
    requires SoundLibrary(lib) && !HeaderUnsafe(date)
    requires entropy.boundary.Some? ==> |entropy.boundary.value| == 24
    ensures Validate(lib, m).Some? ==> r == Err(Validate(lib, m).value)
    ensures Validate(lib, m).None? ==>
              && (r == Err(NoSender) <==> entropy.boundary.Some? && m.from.email == "")
              && (r == Err(NoRandomness) <==> entropy.boundary.None? || (m.from.email != "" && entropy.id.None?))
              && (r.Ok? <==> entropy.boundary.Some? && m.from.email != "" && entropy.id.Some?)
    ensures r.Ok? ==>
              var boundary := Boundary(entropy.boundary.value);
              && ParseMessage(r.value)
                  == Some(Mail(Fields(lib, m, boundary, MessageId(entropy.id.value, m.from.email), date),
                  Parts(lib, m)))
              && Says(lib, m, entropy.boundary.value, entropy.id.value, date, ParseMessage(r.value).value)
              && NoBareBreaks(r.value)
              && |Lines(r.value)| > 9 && Short(Lines(r.value)[9..])
  {
    var invalid := Validate(lib, m);
    if invalid.Some? {
      return Err(invalid.value);
    }
    if entropy.boundary.None? {
      return Err(NoRandomness);
    }
    if m.from.email == "" {
      return Err(NoSender);
    }
    if entropy.id.None? {
      return Err(NoRandomness);
    }
    var text := Write(lib, m, Boundary(entropy.boundary.value), MessageId(entropy.id.value, m.from.email), date);
    assert Encodable(lib, m, entropy.boundary.value, date);
    MessageSays(lib, m, entropy.boundary.value, entropy.id.value, date);
    hide Validate, Encoding, ParseMessage, Fields, Parts, Lines, Short, NoBareBreaks, Says;
    EncodingIsReadBack(lib, m, entropy.boundary.value, entropy.id.value, date);
    return Ok(text);
  }
}
