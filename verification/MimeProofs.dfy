/** The reader undoes the encoder, and the encoding is made of whole, short lines. */
module MimeProofs {
  import opened Wrappers
  import opened Base64
  import opened Mime
  // ----- Lines -----------------------------------------------------------------------------------

  ghost predicate OneLine(s: string) {
    '\r' !in s && '\n' !in s
  }

  ghost predicate AllOneLine(lines: seq<string>) {
    forall i :: 0 <= i < |lines| ==> OneLine(lines[i])
  }

  lemma {:induction false} TerminatedConcat(a: seq<string>, b: seq<string>)
    ensures Terminated(a + b) == Terminated(a) + Terminated(b)
  {
    if a == [] {
      assert a + b == b;
    } else {
      assert (a + b)[1..] == a[1..] + b;
      TerminatedConcat(a[1..], b);
    }
  }

  lemma {:induction false} LineEndOfLine(line: string, rest: string)
    requires OneLine(line)
    ensures LineEnd(line + CRLF + rest) == |line|
  {
    var t := line + CRLF + rest;
    if line != "" {
      assert t[0] == line[0] && IsLineBreak('\r');
      assert t[1..] == line[1..] + CRLF + rest;
      LineEndOfLine(line[1..], rest);
    } else {
      assert t[0] == '\r' && t[1] == '\n';
    }
  }

  lemma {:induction false} LinesOfTerminated(lines: seq<string>)
    requires AllOneLine(lines)
    ensures Lines(Terminated(lines)) == lines
  {
    if lines != [] {
      var rest := Terminated(lines[1..]);
      var t := Terminated(lines);
      assert t == lines[0] + CRLF + rest;
      LineEndOfLine(lines[0], rest);
      assert t[..|lines[0]|] == lines[0] && t[|lines[0]| + 2..] == rest;
      assert AllOneLine(lines[1..]);
      LinesOfTerminated(lines[1..]);
    }
  }

  predicate PairedAt(t: string, i: nat)
    requires i < |t|
  {
    && (t[i] == '\r' ==> i + 1 < |t| && t[i + 1] == '\n')
    && (t[i] == '\n' ==> i > 0 && t[i - 1] == '\r')
  }

  /** CR and LF only ever as a pair. */
  ghost predicate NoBareBreaks(t: string) {
    forall i :: 0 <= i < |t| ==> PairedAt(t, i)
  }

  lemma BreaksConcat(a: string, b: string)
    requires NoBareBreaks(a) && NoBareBreaks(b)
    ensures NoBareBreaks(a + b)
  {
    forall i | 0 <= i < |a + b|
      ensures PairedAt(a + b, i)
    {
      assert if i < |a| then PairedAt(a, i) else PairedAt(b, i - |a|);
    }
  }

  lemma {:induction false} TerminatedHasNoBareBreaks(lines: seq<string>)
    requires AllOneLine(lines)
    ensures NoBareBreaks(Terminated(lines))
  {
    if lines != [] {
      assert OneLine(lines[0]) && AllOneLine(lines[1..]);
      TerminatedHasNoBareBreaks(lines[1..]);
      assert NoBareBreaks(lines[0] + CRLF);
      BreaksConcat(lines[0] + CRLF, Terminated(lines[1..]));
    }
  }

  // ----- Base64 bodies ---------------------------------------------------------------------------

  lemma {:induction false} ChunksAreShort(t: string)
    requires OneLine(t)
    ensures AllOneLine(Chunks(t))
    ensures forall i :: 0 <= i < |Chunks(t)| ==> 0 < |Chunks(t)[i]| <= MAX_LINE_OCTETS && Chunks(t)[i][0] in t
    decreases |t|
  {
    if |t| > MAX_LINE_OCTETS {
      var head, tail := t[..MAX_LINE_OCTETS], t[MAX_LINE_OCTETS..];
      ChunksAreShort(tail);
      assert t == head + tail;
      assert head[0] == t[0];
    }
  }

  lemma UnfoldBreak()
    ensures Unfold(CRLF) == ""
  {
    assert CRLF[1..] == "\n" && "\n"[1..] == "";
  }

  lemma {:induction false} UnfoldUndoesChunks(t: string)
    requires OneLine(t)
    ensures Unfold(Joined(Chunks(t))) == t
    decreases |t|
  {
    if |t| > MAX_LINE_OCTETS {
      var head, tail := t[..MAX_LINE_OCTETS], t[MAX_LINE_OCTETS..];
      assert t == head + tail;
      UnfoldUndoesChunks(tail);
      UnfoldPlain(head);
      UnfoldBreak();
      hide Unfold, OneLine;
      UnfoldConcat(head + CRLF, Joined(Chunks(tail)));
      UnfoldConcat(head, CRLF);
      assert Joined(Chunks(t)) == head + CRLF + Joined(Chunks(tail));
    } else {
      UnfoldPlain(t);
    }
  }

  lemma StandardIsOneLine(body: seq<Octet>)
    ensures OneLine(EncodeStandard(body))
  {
    EncodeStandardChars(body);
  }

  /** However the body was folded into lines, the reader has its octets back. */
  lemma FoldingIsUndone(body: seq<Octet>)
    ensures DecodeStandard(Joined(Chunks(EncodeStandard(body)))) == Some(body)
  {
    StandardIsOneLine(body);
    UnfoldUndoesChunks(EncodeStandard(body));
    DecodeStandardUndoesEncode(body, Joined(Chunks(EncodeStandard(body))));
  }

  lemma StandardHasNoHyphen(body: seq<Octet>)
    ensures '-' !in EncodeStandard(body)
  {
    EncodeStandardChars(body);
  }

  // ----- Header fields ---------------------------------------------------------------------------

  ghost predicate PlainName(name: string) {
    name != "" && ':' !in name && name[0] != ' ' && name[0] != '\t'
  }

  ghost predicate PlainFields(fields: seq<Field>) {
    forall i :: 0 <= i < |fields| ==> PlainName(fields[i].name) && OneLine(fields[i].name) && OneLine(fields[i].value)
  }

  lemma FieldIsReadBack(f: Field)
    requires PlainName(f.name)
    ensures ParseField(HeaderLine(f)) == Some(f)
  {
    var line, colon := HeaderLine(f), IndexOf(HeaderLine(f), ':');
    assert line[|f.name|] == ':';
    assert forall i :: 0 <= i < |f.name| ==> line[i] == f.name[i] && f.name[i] in f.name;
    assert colon == |f.name|;
    assert line[..colon] == f.name;
    assert line[colon + 1..] == " " + f.value;
    assert (" " + f.value)[1..] == f.value;
  }

  lemma {:induction false} FieldsAreReadBack(fields: seq<Field>)
    requires PlainFields(fields)
    ensures ParseFields(HeaderLines(fields)) == Some(fields)
    ensures |HeaderLines(fields)| == |fields| && "" !in HeaderLines(fields)
    ensures AllOneLine(HeaderLines(fields))
  {
    if fields != [] {
      FieldIsReadBack(fields[0]);
      FieldsAreReadBack(fields[1..]);
      var lines := HeaderLines(fields);
      assert lines[0] == HeaderLine(fields[0]) && lines[1..] == HeaderLines(fields[1..]);
      assert [fields[0]] + fields[1..] == fields;
    }
  }

  lemma BlankLineEndsTheHeader(before: seq<string>, after: seq<string>)
    requires "" !in before
    ensures var lines := before + [""] + after;
            IndexOf(lines, "") == |before| && lines[..|before|] == before && lines[|before| + 1..] == after
  {
    var lines := before + [""] + after;
    assert lines[|before|] == "";
    assert forall i :: 0 <= i < |before| ==> lines[i] == before[i] && before[i] in before;
  }

  /** What comes before the opening quote. */
  lemma BoundaryLead(rest: string)
    ensures var value := "multipart/alternative; boundary=" + "\"" + rest;
            && IndexOf(value, '"') == 32 && value[33..] == rest
            && "multipart/" <= value && value[23..32] == "boundary="
  {
    var lead: string := "multipart/alternative; boundary=";
    var value := lead + "\"" + rest;
    assert |lead| == 32 && '"' !in lead && value[32] == '"';
    assert forall i :: 0 <= i < 32 ==> value[i] == lead[i] && lead[i] in lead;
    assert value[23..32] == lead[23..32] == "boundary=";
    assert value[..10] == lead[..10] == "multipart/";
  }

  lemma QuoteEnds(boundary: string)
    requires '"' !in boundary
    ensures IndexOf(boundary + "\"", '"') == |boundary|
  {
    var t := boundary + "\"";
    assert t[|boundary|] == '"';
    assert forall i :: 0 <= i < |boundary| ==> t[i] == boundary[i] && boundary[i] in boundary;
  }

  lemma BoundaryIsReadBack(boundary: string)
    requires '"' !in boundary
    ensures ParseBoundary(Multipart(boundary)) == Some(boundary)
  {
    hide IndexOf;
    var rest := boundary + "\"";
    assert Multipart(boundary) == "multipart/alternative; boundary=" + "\"" + rest;
    BoundaryLead(rest);
    QuoteEnds(boundary);
    assert rest[..|boundary|] == boundary;
  }

  // ----- Parts -----------------------------------------------------------------------------------

  ghost predicate NoDelimiters(boundary: string, lines: seq<string>) {
    forall i :: 0 <= i < |lines| ==> !IsDelimiter(boundary, lines[i])
  }

  lemma {:induction false} NextDelimiterSkips(boundary: string, lines: seq<string>, rest: seq<string>)
    requires NoDelimiters(boundary, lines)
    requires rest != [] && IsDelimiter(boundary, rest[0])
    ensures NextDelimiter(boundary, lines + rest) == |lines|
  {
    if lines == [] {
      assert lines + rest == rest;
    } else {
      assert (lines + rest)[1..] == lines[1..] + rest;
      assert (lines + rest)[0] == lines[0];
      NextDelimiterSkips(boundary, lines[1..], rest);
    }
  }

  lemma HyphenLess(boundary: string, line: string)
    requires line == "" || line[0] != '-'
    ensures !IsDelimiter(boundary, line)
  {
    assert ("--" + boundary)[0] == '-';
  }

  lemma PartLinesAre(p: Part)
    ensures var chunks := Chunks(EncodeStandard(p.body));
            PartLines(p) == [HeaderLine(Field("Content-Type", p.contentType)),
                HeaderLine(Field("Content-Transfer-Encoding", "base64")), ""] + chunks
    ensures PartLines(p)[0][0] == 'C' && PartLines(p)[1][0] == 'C'
  {
    var fields := PartFields(p.contentType);
    assert fields[1..][1..] == [];
    assert HeaderLines(fields[1..]) == [HeaderLine(fields[1])];
  }

  /** No line of a part can be mistaken for a delimiter, whatever the boundary. */
  lemma PartHasNoDelimiter(boundary: string, p: Part)
    ensures NoDelimiters(boundary, PartLines(p))
  {
    StandardIsOneLine(p.body);
    StandardHasNoHyphen(p.body);
    ChunksAreShort(EncodeStandard(p.body));
    var lines, chunks := PartLines(p), Chunks(EncodeStandard(p.body));
    PartLinesAre(p);
    forall i | 0 <= i < |lines|
      ensures !IsDelimiter(boundary, lines[i])
    {
      if i >= 3 {
        assert lines[i] == chunks[i - 3];
      }
      HyphenLess(boundary, lines[i]);
    }
  }

  lemma EncodingNameIsPlain()
    ensures PlainName("Content-Transfer-Encoding") && OneLine("Content-Transfer-Encoding")
  {
  }

  lemma TypeNameIsPlain()
    ensures PlainName("Content-Type") && OneLine("Content-Type") && OneLine("base64")
  {
  }

  lemma ContentNamesArePlain()
    ensures PlainName("Content-Type") && OneLine("Content-Type")
    ensures PlainName("Content-Transfer-Encoding") && OneLine("Content-Transfer-Encoding")
    ensures OneLine("base64")
  {
    hide PlainName, OneLine;
    EncodingNameIsPlain();
    TypeNameIsPlain();
  }

  lemma PartFieldsArePlain(contentType: string)
    requires OneLine(contentType)
    ensures PlainFields(PartFields(contentType))
  {
    ContentNamesArePlain();
  }

  lemma PartIsReadBack(p: Part)
    requires OneLine(p.contentType)
    ensures ParsePart(PartLines(p)) == Some(p)
  {
    var fields, chunks := PartFields(p.contentType), Chunks(EncodeStandard(p.body));
    PartFieldsArePlain(p.contentType);
    FieldsAreReadBack(fields);
    BlankLineEndsTheHeader(HeaderLines(fields), chunks);
    FoldingIsUndone(p.body);
    assert Find(fields, "Content-Type") == Some(p.contentType);
    assert fields[1..][0] == fields[1];
    assert Find(fields, "Content-Transfer-Encoding") == Find(fields[1..], "Content-Transfer-Encoding")
        == Some("base64");
  }

  lemma DelimiterIsNotClose(boundary: string)
    ensures IsDelimiter(boundary, Delimiter(boundary)) && !IsClose(boundary, Delimiter(boundary))
    ensures IsDelimiter(boundary, Close(boundary)) && IsClose(boundary, Close(boundary))
  {
  }

  ghost predicate PlainParts(parts: seq<Part>) {
    forall i :: 0 <= i < |parts| ==> OneLine(parts[i].contentType)
  }

  /** One part, opened by its delimiter and ended by the line that opens what follows. */
  lemma PartComesOff(boundary: string, p: Part, tail: seq<string>)
    requires OneLine(p.contentType) && tail != [] && IsDelimiter(boundary, tail[0])
    ensures ParseParts(boundary, [Delimiter(boundary)] + PartLines(p) + tail)
            == match ParseParts(boundary, tail) case None => None case Some(parts) => Some([p] + parts)
  {
    hide IsDelimiter, IsClose, ParsePart, PartLines;
    DelimiterIsNotClose(boundary);
    var lines := [Delimiter(boundary)] + PartLines(p) + tail;
    PartHasNoDelimiter(boundary, p);
    PartIsReadBack(p);
    NextDelimiterSkips(boundary, PartLines(p), tail);
    assert lines[0] == Delimiter(boundary) && lines[1..] == PartLines(p) + tail;
    assert lines[1..][..|PartLines(p)|] == PartLines(p) && lines[1..][|PartLines(p)|..] == tail;
  }

  lemma {:induction false} PartsAreReadBack(boundary: string, parts: seq<Part>)
    requires PlainParts(parts)
    ensures ParseParts(boundary, BodyLines(boundary, parts)) == Some(parts)
    ensures IsDelimiter(boundary, BodyLines(boundary, parts)[0])
  {
    hide IsDelimiter, IsClose, ParsePart, PartLines;
    DelimiterIsNotClose(boundary);
    if parts != [] {
      PartsAreReadBack(boundary, parts[1..]);
      PartComesOff(boundary, parts[0], BodyLines(boundary, parts[1..]));
      assert [parts[0]] + parts[1..] == parts;
    }
  }

  // ----- The whole message -----------------------------------------------------------------------

  ghost predicate Short(lines: seq<string>) {
    forall i :: 0 <= i < |lines| ==> |lines[i]| <= 76
  }

  lemma PartLinesAreWhole(p: Part)
    requires OneLine(p.contentType)
    ensures AllOneLine(PartLines(p))
  {
    StandardIsOneLine(p.body);
    ChunksAreShort(EncodeStandard(p.body));
    PartFieldsArePlain(p.contentType);
    FieldsAreReadBack(PartFields(p.contentType));
    hide PartFields, HeaderLines, Chunks, EncodeStandard;
    assert OneLine("");
  }

  lemma PartLinesAreShort(p: Part)
    requires |p.contentType| <= 62
    ensures Short(PartLines(p))
  {
    StandardIsOneLine(p.body);
    ChunksAreShort(EncodeStandard(p.body));
    PartLinesAre(p);
    hide PartLines, Chunks, EncodeStandard;
  }

  lemma {:induction false} BodyLinesAreShort(boundary: string, parts: seq<Part>)
    requires OneLine(boundary) && |boundary| <= 72 && PlainParts(parts)
    requires forall i :: 0 <= i < |parts| ==> |parts[i].contentType| <= 62
    ensures AllOneLine(BodyLines(boundary, parts)) && Short(BodyLines(boundary, parts))
  {
    hide PartLines;
    if parts != [] {
      BodyLinesAreShort(boundary, parts[1..]);
      PartLinesAreShort(parts[0]);
      PartLinesAreWhole(parts[0]);
    }
  }

  // What becomes a header is safe, by the checks a message passes before it is encoded.

  ghost predicate Encodable(lib: Library, m: Message, boundary: seq<Octet>, date: string) {
    SoundLibrary(lib) && Validate(lib, m).None? && m.from.email != "" && |boundary| == 24 && !HeaderUnsafe(date)
  }

  lemma RenderedIsOneLine(lib: Library, a: Address)
    requires SoundLibrary(lib) && !HeaderUnsafe(a.name) && !HeaderUnsafe(a.email)
    ensures OneLine(Render(lib, a))
  {
  }

  lemma UrlIsOneLine(octets: seq<Octet>)
    ensures OneLine(EncodeUrl(octets)) && '"' !in EncodeUrl(octets)
  {
    EncodeUrlChars(octets);
  }

  lemma DomainIsOneLine(email: string)
    requires !HeaderUnsafe(email)
    ensures OneLine(Domain(email))
  {
    assert OneLine("localhost");
    var at := LastIndex(email, '@');
    if 0 <= at && at + 1 < |email| {
      assert email == email[..at + 1] + email[at + 1..];
    }
  }

  lemma OneLineConcat(a: string, b: string)
    requires OneLine(a) && OneLine(b)
    ensures OneLine(a + b)
  {
  }

  lemma MarksAreOneLine()
    ensures OneLine("<") && OneLine("@") && OneLine(">")
  {
  }

  lemma MessageIdIsOneLine(id: seq<Octet>, email: string)
    requires !HeaderUnsafe(email)
    ensures OneLine(MessageId(id, email))
  {
    hide OneLine, EncodeUrl, Domain, HeaderUnsafe;
    var octets, domain := EncodeUrl(id), Domain(email);
    DomainIsOneLine(email);
    UrlIsOneLine(id);
    MarksAreOneLine();
    OneLineConcat("<", octets);
    OneLineConcat("<" + octets, "@");
    OneLineConcat("<" + octets + "@", domain);
    OneLineConcat("<" + octets + "@" + domain, ">");
  }

  lemma MultipartIsOneLine(boundary: string)
    requires OneLine(boundary)
    ensures OneLine(Multipart(boundary))
  {
    assert OneLine("multipart/alternative; boundary=\"");
  }

  lemma ShortNamesArePlain()
    ensures PlainName("From") && OneLine("From") && PlainName("To") && OneLine("To")
    ensures PlainName("Subject") && OneLine("Subject") && PlainName("Date") && OneLine("Date")
    ensures PlainName("Message-ID") && OneLine("Message-ID")
  {
  }

  lemma VersionNameIsPlain()
    ensures PlainName("MIME-Version") && OneLine("MIME-Version") && OneLine("1.0")
  {
  }

  lemma SubmittedNameIsPlain()
    ensures PlainName("Auto-Submitted") && OneLine("Auto-Submitted") && OneLine("auto-generated")
  {
  }

  lemma LongestNameIsPlain()
    ensures PlainName("X-Auto-Response-Suppress") && OneLine("X-Auto-Response-Suppress") && OneLine("All")
  {
  }

  lemma {:induction false} FieldsArePlain(lib: Library, m: Message, octets: seq<Octet>, id: seq<Octet>, date: string)
    requires Encodable(lib, m, octets, date)
    ensures PlainFields(Fields(lib, m, Boundary(octets), MessageId(id, m.from.email), date))
    ensures OneLine(Boundary(octets)) && '"' !in Boundary(octets) && |Boundary(octets)| == 34
  {
    RenderedIsOneLine(lib, m.from);
    RenderedIsOneLine(lib, Address(m.toName, m.to));
    assert OneLine(lib.encodeWord(m.subject));
    UrlIsOneLine(octets);
    MessageIdIsOneLine(id, m.from.email);
    MultipartIsOneLine(Boundary(octets));
    ShortNamesArePlain();
    VersionNameIsPlain();
    SubmittedNameIsPlain();
    LongestNameIsPlain();
    ContentNamesArePlain();
    hide PlainName, OneLine, Render, MessageId, Boundary, Multipart;
  }

  lemma {:induction false} FindAt(fields: seq<Field>, name: string, k: nat)
    requires k < |fields| && fields[k].name == name
    requires forall i :: 0 <= i < k ==> fields[i].name != name
    ensures Find(fields, name) == Some(fields[k].value)
  {
    if k > 0 {
      FindAt(fields[1..], name, k - 1);
    }
  }

  // ----- What the reader is told -----------------------------------------------------------------

  function Displayed(lib: Library, name: string, email: string): string {
    if name == "" then email else lib.encodeWord(name) + " <" + email + ">"
  }

  /**
   The header names each address, the subject, the date and the id for what they are; the parts are the
   text and the HTML.
   */
  ghost predicate Says(lib: Library, m: Message, octets: seq<Octet>, id: seq<Octet>, date: string, mail: Mail) {
    && Find(mail.fields, "From") == Some(Displayed(lib, m.from.name, m.from.email))
    && Find(mail.fields, "To") == Some(Displayed(lib, m.toName, m.to))
    && Find(mail.fields, "Subject") == Some(lib.encodeWord(m.subject))
    && Find(mail.fields, "Date") == Some(date)
    && Find(mail.fields, "Message-ID") == Some("<" + EncodeUrl(id) + "@" + Domain(m.from.email) + ">")
    && Find(mail.fields, "MIME-Version") == Some("1.0")
    && Find(mail.fields, "Auto-Submitted") == Some("auto-generated")
    && Find(mail.fields, "X-Auto-Response-Suppress") == Some("All")
    && Find(mail.fields, "Content-Type") == Some("multipart/alternative; boundary=\"" + "b_" + EncodeUrl(octets) + "\"")
    && |mail.fields| == 9
    && |mail.parts| == (if lib.blankBody(m.html) then 1 else 2)
    && mail.parts[0] == Part("text/plain; charset=utf-8",
                             if lib.blankBody(m.text)
                             then Octets("This message requires an email client that can display HTML.")
                             else m.text)
    && (!lib.blankBody(m.html) ==> mail.parts[1] == Part("text/html; charset=utf-8", m.html))
  }

  /** No two of the nine header names are alike. */
  lemma NamesDiffer(fields: seq<Field>, i: nat, j: nat)
    requires i < j < |fields| && |fields| == 9
    requires fields[0].name == "From" && fields[1].name == "To" && fields[2].name == "Subject"
        && fields[3].name == "Date"
    requires fields[4].name == "Message-ID" && fields[5].name == "MIME-Version" && fields[6].name == "Auto-Submitted"
    requires fields[7].name == "X-Auto-Response-Suppress" && fields[8].name == "Content-Type"
    ensures fields[i].name != fields[j].name
  {
    assert fields[0].name[0] == 'F' && fields[1].name[0] == 'T' && fields[2].name[0] == 'S' && fields[3].name[0] == 'D';
    assert fields[4].name[0] == 'M' && fields[4].name[1] == 'e' && fields[5].name[0] == 'M' && fields[5].name[1] == 'I';
    assert fields[6].name[0] == 'A' && fields[7].name[0] == 'X' && fields[8].name[0] == 'C';
  }

  lemma FieldIsFound(lib: Library, m: Message, boundary: string, messageId: string, date: string, k: nat)
    requires k < 9
    ensures var fields := Fields(lib, m, boundary, messageId, date);
            |fields| == 9 && Find(fields, fields[k].name) == Some(fields[k].value)
  {
    hide Find, Render, Multipart;
    var fields := Fields(lib, m, boundary, messageId, date);
    forall i | 0 <= i < k
      ensures fields[i].name != fields[k].name
    {
      NamesDiffer(fields, i, k);
    }
    FindAt(fields, fields[k].name, k);
  }

  lemma ContentTypeIsFound(lib: Library, m: Message, boundary: string, messageId: string, date: string)
    ensures Find(Fields(lib, m, boundary, messageId, date), "Content-Type") == Some(Multipart(boundary))
    ensures |Fields(lib, m, boundary, messageId, date)| == 9
  {
    hide Find;
    FieldIsFound(lib, m, boundary, messageId, date, 8);
  }

  lemma MessageSays(lib: Library, m: Message, octets: seq<Octet>, id: seq<Octet>, date: string)
    ensures Says(lib, m, octets, id, date,
                 Mail(Fields(lib, m, Boundary(octets), MessageId(id, m.from.email), date), Parts(lib, m)))
  {
    hide Find, EncodeUrl, Domain, Octets;
    var boundary, messageId := Boundary(octets), MessageId(id, m.from.email);
    forall k | 0 <= k < 9
      ensures var fields := Fields(lib, m, boundary, messageId, date);
              |fields| == 9 && Find(fields, fields[k].name) == Some(fields[k].value)
    {
      FieldIsFound(lib, m, boundary, messageId, date, k);
    }
    var fields := Fields(lib, m, boundary, messageId, date);
    assert Multipart(boundary) == "multipart/alternative; boundary=\"" + "b_" + EncodeUrl(octets) + "\"";
    assert Find(fields, fields[0].name) == Some(fields[0].value)
        && Find(fields, fields[1].name) == Some(fields[1].value);
    assert Find(fields, fields[2].name) == Some(fields[2].value)
        && Find(fields, fields[3].name) == Some(fields[3].value);
    assert Find(fields, fields[4].name) == Some(fields[4].value)
        && Find(fields, fields[5].name) == Some(fields[5].value);
    assert Find(fields, fields[6].name) == Some(fields[6].value)
        && Find(fields, fields[7].name) == Some(fields[7].value);
    assert Find(fields, fields[8].name) == Some(fields[8].value);
  }

  /** The id's domain is what follows the last '@' of the sender, if anything does. */
  lemma DomainFollowsTheLastAt(local: string, domain: string)
    requires '@' !in domain
    ensures Domain(local + "@" + domain) == if domain == "" then "localhost" else domain
  {
    var email := local + "@" + domain;
    assert email[|local|] == '@';
    assert forall j :: |local| < j < |email| ==> email[j] == domain[j - |local| - 1] && email[j] in domain;
    assert LastIndex(email, '@') == |local|;
    assert email[|local| + 1..] == domain;
  }

  /** The checks in their order, and when each fails. */
  ghost predicate FailsCheck(lib: Library, m: Message, i: nat)
    requires i < 7
  {
    match i
    case 0 => lib.blank(m.to)
    case 1 => '\r' in m.to || '\n' in m.to || '\0' in m.to || lib.parse(m.to) != Some(m.to)
    case 2 =>
      && m.from.email != ""
      && ('\r' in m.from.email || '\n' in m.from.email || '\0' in m.from.email
          || lib.parse(m.from.email) != Some(m.from.email))
    case 3 => '\r' in m.from.name + m.toName || '\n' in m.from.name + m.toName || '\0' in m.from.name + m.toName
    case 4 => lib.blank(m.subject)
    case 5 => '\r' in m.subject || '\n' in m.subject || '\0' in m.subject
    case 6 => lib.blankBody(m.text) && lib.blankBody(m.html)
  }

  function CheckNames(): seq<MailError> {
    [NoRecipient, BadRecipient, BadSender, BadDisplayName, NoSubject, BadSubject, NoBody]
  }

  /** A message passes exactly if it fails no check, and is refused for the first it fails. */
  lemma ValidateVerdict(lib: Library, m: Message)
    ensures Validate(lib, m).None? <==> forall i :: 0 <= i < 7 ==> !FailsCheck(lib, m, i)
    ensures Validate(lib, m).Some? ==>
              exists i :: 0 <= i < 7 && CheckNames()[i] == Validate(lib, m).value && FailsCheck(lib, m, i)
                          && forall j :: 0 <= j < i ==> !FailsCheck(lib, m, j)
  {
    var v := Validate(lib, m);
    if v.Some? {
      var i := if FailsCheck(lib, m, 0) then 0 else if FailsCheck(lib, m, 1) then 1 else if FailsCheck(lib, m, 2) then 2
               else if FailsCheck(lib, m, 3) then 3 else if FailsCheck(lib, m, 4) then 4
                   else if FailsCheck(lib, m, 5) then 5 else 6;
      assert CheckNames()[i] == v.value && FailsCheck(lib, m, i);
    } else {
      assert !FailsCheck(lib, m, 0) && !FailsCheck(lib, m, 1) && !FailsCheck(lib, m, 2) && !FailsCheck(lib, m, 3);
      assert !FailsCheck(lib, m, 4) && !FailsCheck(lib, m, 5) && !FailsCheck(lib, m, 6);
    }
  }

  lemma PartTypesAreShort(lib: Library, m: Message)
    ensures PlainParts(Parts(lib, m))
    ensures forall i :: 0 <= i < |Parts(lib, m)| ==> |Parts(lib, m)[i].contentType| <= 62
  {
    assert OneLine(PLAIN);
    assert OneLine(HTML);
  }

  /**
   Fields whose names and values are whole lines, a content type, and parts: the reader has them all back,
   and no more.
   */
  lemma LinesAreReadBack(boundary: string, fields: seq<Field>, parts: seq<Part>)
    requires PlainFields(fields) && PlainParts(parts) && AllOneLine(BodyLines(boundary, parts)) && '"' !in boundary
    requires Find(fields, "Content-Type") == Some(Multipart(boundary))
    ensures AllOneLine(MessageLines(boundary, fields, parts))
    ensures ParseMessage(Terminated(MessageLines(boundary, fields, parts))) == Some(Mail(fields, parts))
  {
    var lines := MessageLines(boundary, fields, parts);
    FieldsAreReadBack(fields);
    BlankLineEndsTheHeader(HeaderLines(fields), BodyLines(boundary, parts));
    assert OneLine("");
    hide OneLine, PlainFields;
    assert AllOneLine(lines);
    LinesOfTerminated(lines);
    BoundaryIsReadBack(boundary);
    PartsAreReadBack(boundary, parts);
  }

  function Encoding(lib: Library, m: Message, octets: seq<Octet>, id: seq<Octet>, date: string): string {
    Terminated(MessageLines(Boundary(octets), Fields(lib, m, Boundary(octets), MessageId(id, m.from.email), date),
        Parts(lib, m)))
  }

  lemma BodyFollowsBlankLine(boundary: string, fields: seq<Field>, parts: seq<Part>)
    ensures MessageLines(boundary, fields, parts) == HeaderLines(fields) + ([""] + BodyLines(boundary, parts))
  {
    hide HeaderLines, BodyLines;
  }

  lemma ShortAfterBlankLine(lines: seq<string>)
    requires Short(lines)
    ensures Short([""] + lines)
  {
  }

  lemma LinesAreWhole(boundary: string, fields: seq<Field>, parts: seq<Part>)
    requires PlainFields(fields) && AllOneLine(MessageLines(boundary, fields, parts))
        && Short(BodyLines(boundary, parts))
    ensures var t := Terminated(MessageLines(boundary, fields, parts));
            NoBareBreaks(t) && |Lines(t)| > |fields| && Short(Lines(t)[|fields|..])
  {
    hide *;
    FieldsAreReadBack(fields);
    BodyFollowsBlankLine(boundary, fields, parts);
    ShortAfterBlankLine(BodyLines(boundary, parts));
    TerminatedHasNoBareBreaks(MessageLines(boundary, fields, parts));
    LinesOfTerminated(MessageLines(boundary, fields, parts));
    assert MessageLines(boundary, fields, parts)[|fields|..] == [""] + BodyLines(boundary, parts);
  }

  /**
   For every message that passes the checks, the reader recovers the nine header fields, value for value,
   and exactly the parts; every line below the header fits the width, and CR and LF occur in pairs only.
   */
  lemma {:induction false} EncodingIsReadBack(lib: Library, m: Message, octets: seq<Octet>, id: seq<Octet>,
      date: string)
    requires Encodable(lib, m, octets, date)
    ensures var t := Encoding(lib, m, octets, id, date);
            && ParseMessage(t) == Some(Mail(Fields(lib, m, Boundary(octets), MessageId(id, m.from.email), date),
                Parts(lib, m)))
            && NoBareBreaks(t)
            && |Lines(t)| > 9 && Short(Lines(t)[9..])
  {
    var boundary, messageId := Boundary(octets), MessageId(id, m.from.email);
    FieldsArePlain(lib, m, octets, id, date);
    PartTypesAreShort(lib, m);
    ContentTypeIsFound(lib, m, boundary, messageId, date);
    hide Fields, Parts, Find, ParseMessage, Boundary, MessageId, Multipart, OneLine, PlainFields, PlainParts,
        MessageLines;
    BodyLinesAreShort(boundary, Parts(lib, m));
    LinesAreReadBack(boundary, Fields(lib, m, boundary, messageId, date), Parts(lib, m));
    LinesAreWhole(boundary, Fields(lib, m, boundary, messageId, date), Parts(lib, m));
  }
}
