/**
 Mail messages: the checks before sending, the encoder, and a reader of multipart messages after RFC 5322
 (lines and header fields) and RFC 2046 section 5.1.1 (delimiter lines) that undoes it. Encoded words,
 address parsing, white space and the date's format are the library's; random octets are given.
 */
module Mime {
  import opened Wrappers
  import opened Base64

  const CRLF: string := "\r\n"
  const MAX_LINE_OCTETS := 76
  const PLAIN: string := "text/plain; charset=utf-8"
  const HTML: string := "text/html; charset=utf-8"

  datatype Library = Library(
    blank: string -> bool,             // nothing but white space
    blankBody: seq<Octet> -> bool,
    parse: string -> Option<string>,   // the bare address in a parsed one
    encodeWord: string -> string)

  /** Stands in for a blank text. */
  const FALLBACK: string := "This message requires an email client that can display HTML."

  /** The octets of ASCII text. */
  function Octets(s: string): (b: seq<Octet>)
    ensures |b| == |s| && forall i :: 0 <= i < |s| && s[i] as int < 128 ==> b[i] == s[i] as int
  {
    seq(|s|, i requires 0 <= i < |s| => s[i] as int % 256)
  }

  datatype Address = Address(name: string, email: string)

  datatype Message = Message(from: Address, to: string, toName: string, subject: string, text: seq<Octet>,
      html: seq<Octet>)

  /** Random octets for the boundary and the message id, None when the source of randomness fails. */
  datatype Entropy = Entropy(boundary: Option<seq<Octet>>, id: Option<seq<Octet>>)

  datatype MailError =
    | NoRecipient | BadRecipient | BadSender | BadDisplayName | NoSubject | BadSubject | NoBody
    | NoRandomness | NoSender

  predicate HeaderUnsafe(value: string) {
    '\r' in value || '\n' in value || '\0' in value
  }

  /** An encoded word never holds a line break its source did not. */
  ghost predicate SoundLibrary(lib: Library) {
    forall v :: !HeaderUnsafe(v) ==> !HeaderUnsafe(lib.encodeWord(v))
  }

  predicate ValidAddress(lib: Library, value: string) {
    !HeaderUnsafe(value) && lib.parse(value) == Some(value)
  }

  function Validate(lib: Library, m: Message): Option<MailError> {
    if lib.blank(m.to) then Some(NoRecipient)
    else if !ValidAddress(lib, m.to) then Some(BadRecipient)
    else if m.from.email != "" && !ValidAddress(lib, m.from.email) then Some(BadSender)
    else if HeaderUnsafe(m.from.name) || HeaderUnsafe(m.toName) then Some(BadDisplayName)
    else if lib.blank(m.subject) then Some(NoSubject)
    else if HeaderUnsafe(m.subject) then Some(BadSubject)
    else if lib.blankBody(m.text) && lib.blankBody(m.html) then Some(NoBody)
    else None
  }

  function Render(lib: Library, a: Address): string {
    if a.name == "" then a.email else lib.encodeWord(a.name) + " <" + a.email + ">"
  }

  function LastIndex(s: string, c: char): (i: int)
    ensures -1 <= i < |s|
    ensures i >= 0 ==> s[i] == c
    ensures forall j :: i < j < |s| ==> s[j] != c
  {
    if s == "" then -1 else if s[|s| - 1] == c then |s| - 1 else LastIndex(s[..|s| - 1], c)
  }

  function Domain(email: string): string {
    var at := LastIndex(email, '@');
    if 0 <= at && at + 1 < |email| then email[at + 1..] else "localhost"
  }

  function MessageId(id: seq<Octet>, email: string): string {
    "<" + EncodeUrl(id) + "@" + Domain(email) + ">"
  }

  function Boundary(octets: seq<Octet>): string {
    "b_" + EncodeUrl(octets)
  }

  // ----- The message as lines --------------------------------------------------------------------

  datatype Field = Field(name: string, value: string)
  datatype Part = Part(contentType: string, body: seq<Octet>)

  function Terminated(lines: seq<string>): string {
    if lines == [] then "" else lines[0] + CRLF + Terminated(lines[1..])
  }

  function Chunks(t: string): seq<string> {
    if t == "" then []
    else if |t| <= MAX_LINE_OCTETS then [t]
    else [t[..MAX_LINE_OCTETS]] + Chunks(t[MAX_LINE_OCTETS..])
  }

  function HeaderLine(f: Field): string {
    f.name + ": " + f.value
  }

  function HeaderLines(fields: seq<Field>): seq<string> {
    if fields == [] then [] else [HeaderLine(fields[0])] + HeaderLines(fields[1..])
  }

  function Delimiter(boundary: string): string {
    "--" + boundary
  }

  function Close(boundary: string): string {
    "--" + boundary + "--"
  }

  function PartFields(contentType: string): seq<Field> {
    [Field("Content-Type", contentType), Field("Content-Transfer-Encoding", "base64")]
  }

  /** A part between its delimiter line and the next. */
  function PartLines(p: Part): seq<string> {
    HeaderLines(PartFields(p.contentType)) + [""] + Chunks(EncodeStandard(p.body))
  }

  function BodyLines(boundary: string, parts: seq<Part>): seq<string> {
    if parts == [] then [Close(boundary)]
    else [Delimiter(boundary)] + PartLines(parts[0]) + BodyLines(boundary, parts[1..])
  }

  function Multipart(boundary: string): string {
    "multipart/alternative; boundary=\"" + boundary + "\""
  }

  function Fields(lib: Library, m: Message, boundary: string, messageId: string, date: string): seq<Field> {
    [Field("From", Render(lib, m.from)),
     Field("To", Render(lib, Address(m.toName, m.to))),
     Field("Subject", lib.encodeWord(m.subject)),
     Field("Date", date),
     Field("Message-ID", messageId),
     Field("MIME-Version", "1.0"),
     Field("Auto-Submitted", "auto-generated"),
     Field("X-Auto-Response-Suppress", "All"),
     Field("Content-Type", Multipart(boundary))]
  }

  /** The text, or its stand-in when blank; then the HTML, unless blank. */
  function Parts(lib: Library, m: Message): seq<Part> {
    [Part(PLAIN, if lib.blankBody(m.text) then Octets(FALLBACK) else m.text)]
    + if lib.blankBody(m.html) then [] else [Part(HTML, m.html)]
  }

  function MessageLines(boundary: string, fields: seq<Field>, parts: seq<Part>): seq<string> {
    HeaderLines(fields) + [""] + BodyLines(boundary, parts)
  }

  // ----- A reader of multipart messages ----------------------------------------------------------

  datatype Mail = Mail(fields: seq<Field>, parts: seq<Part>)

  /** Where the first CRLF is, or the length. */
  function LineEnd(t: string): (i: nat)
    ensures i <= |t|
  {
    if |t| < 2 then |t| else if t[0] == '\r' && t[1] == '\n' then 0 else 1 + LineEnd(t[1..])
  }

  function Lines(t: string): seq<string>
    decreases |t|
  {
    if t == "" then []
    else var i := LineEnd(t); [t[..i]] + Lines(if i + 2 <= |t| then t[i + 2..] else "")
  }

  function IndexOf<T(==)>(s: seq<T>, x: T): (i: nat)
    ensures i <= |s|
    ensures i < |s| ==> s[i] == x
    ensures forall j :: 0 <= j < i ==> s[j] != x
  {
    if s == [] || s[0] == x then 0 else 1 + IndexOf(s[1..], x)
  }

  function ParseField(line: string): Option<Field> {
    var colon := IndexOf(line, ':');
    if colon == 0 || colon == |line| || line[0] == ' ' || line[0] == '\t' then None
    else var value := line[colon + 1..];
         Some(Field(line[..colon], if value != "" && value[0] == ' ' then value[1..] else value))
  }

  function ParseFields(lines: seq<string>): Option<seq<Field>> {
    if lines == [] then Some([])
    else match (ParseField(lines[0]), ParseFields(lines[1..]))
         case (Some(f), Some(rest)) => Some([f] + rest)
         case _ => None
  }

  function Find(fields: seq<Field>, name: string): Option<string> {
    if fields == [] then None
    else if fields[0].name == name then Some(fields[0].value)
    else Find(fields[1..], name)
  }

  /** The quoted boundary parameter of a multipart content type. */
  function ParseBoundary(contentType: string): Option<string> {
    var open := IndexOf(contentType, '"');
    if !("multipart/" <= contentType) || open == |contentType| || open < 9
        || contentType[open - 9..open] != "boundary=" then None
    else var rest := contentType[open + 1..];
         var shut := IndexOf(rest, '"');
         if shut == |rest| then None else Some(rest[..shut])
  }

  /** Only the beginning of a line is compared with the boundary. */
  predicate IsDelimiter(boundary: string, line: string) {
    "--" + boundary <= line
  }

  predicate IsClose(boundary: string, line: string) {
    "--" + boundary + "--" <= line
  }

  function NextDelimiter(boundary: string, lines: seq<string>): (i: nat)
    ensures i <= |lines|
  {
    if lines == [] || IsDelimiter(boundary, lines[0]) then 0 else 1 + NextDelimiter(boundary, lines[1..])
  }

  /** The line break before a delimiter belongs to the delimiter. */
  function Joined(lines: seq<string>): string {
    if lines == [] then "" else if |lines| == 1 then lines[0] else lines[0] + CRLF + Joined(lines[1..])
  }

  function ParsePart(lines: seq<string>): Option<Part> {
    var end := IndexOf(lines, "");
    if end == |lines| then None
    else match ParseFields(lines[..end])
         case None => None
         case Some(fields) =>
           match (Find(fields, "Content-Type"), Find(fields, "Content-Transfer-Encoding"),
               DecodeStandard(Joined(lines[end + 1..])))
           case (Some(contentType), Some(encoding), Some(body)) =>
             if encoding == "base64" then Some(Part(contentType, body)) else None
           case _ => None
  }

  /** The parts, each opened by a delimiter line, up to the closing one; None without it. */
  function ParseParts(boundary: string, lines: seq<string>): Option<seq<Part>>
    decreases |lines|
  {
    var open := NextDelimiter(boundary, lines);
    if open == |lines| then None
    else if IsClose(boundary, lines[open]) then Some([])
    else var rest := lines[open + 1..];
         var next := NextDelimiter(boundary, rest);
         match (ParsePart(rest[..next]), ParseParts(boundary, rest[next..]))
         case (Some(part), Some(parts)) => Some([part] + parts)
         case _ => None
  }

  function ParseMessage(t: string): Option<Mail> {
    var lines := Lines(t);
    var end := IndexOf(lines, "");
    if end == |lines| then None
    else match ParseFields(lines[..end])
         case None => None
         case Some(fields) =>
           match Find(fields, "Content-Type")
           case None => None
           case Some(contentType) =>
             match ParseBoundary(contentType)
             case None => None
             case Some(boundary) =>
               match ParseParts(boundary, lines[end + 1..])
               case None => None
               case Some(parts) => Some(Mail(fields, parts))
  }
}
