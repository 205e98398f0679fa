/** The syntax of SIP messages (section 7 of RFC 3261) as the server prints and reads it, and what
    printing and then reading returns. */
module SipSyntax {
  import opened Basics
  import opened Bytes
  import opened Text
  import opened SipNames

  datatype Header = Header(name: string, value: string)
  datatype StartLine =
    | Request(verb: string, uri: string)
    | Response(status: int, reason: string)
  datatype Msg = Msg(start: StartLine, headers: seq<Header>, body: string)

  datatype Error = BadLength | BadStatus | BadRequestLine
  datatype Result<+T> = Ok(value: T) | Err(error: Error)

  const MAX_UDP_PAYLOAD: nat := 65535
  const CRLF: string := "\r\n"
  const BLANK: string := "\r\n\r\n"
  const VERSION: string := "SIP/2.0"

  // ----- printing -----

  function ReasonText(code: int): string {
    match code
    case 100 => "Trying"
    case 180 => "Ringing"
    case 200 => "OK"
    case 400 => "Bad Request"
    case 401 => "Unauthorized"
    case 403 => "Forbidden"
    case 404 => "Not Found"
    case 405 => "Method Not Allowed"
    case 408 => "Request Timeout"
    case 481 => "Call/Transaction Does Not Exist"
    case 500 => "Server Internal Error"
    case _ => "OK"
  }

  predicate IsPhrase(r: string) {
    r != "" && Trimmed(r) && Without(r, '\n')
  }

  lemma ShortPhrases()
    ensures IsPhrase("Trying") && IsPhrase("Ringing") && IsPhrase("OK") && IsPhrase("Bad Request")
    ensures IsPhrase("Unauthorized") && IsPhrase("Forbidden") && IsPhrase("Not Found")
  {
  }

  lemma {:induction false} LongPhrases()
    ensures IsPhrase("Method Not Allowed") && IsPhrase("Request Timeout")
    ensures IsPhrase("Call/Transaction Does Not Exist") && IsPhrase("Server Internal Error")
  {
  }

  lemma ReasonCases(code: int, holds: string -> bool)
    requires holds("Trying") && holds("Ringing") && holds("OK") && holds("Bad Request")
    requires holds("Unauthorized") && holds("Forbidden") && holds("Not Found")
    requires holds("Method Not Allowed") && holds("Request Timeout")
    requires holds("Call/Transaction Does Not Exist") && holds("Server Internal Error")
    ensures holds(ReasonText(code))
  {
  }

  lemma ReasonTextIsPhrase(code: int)
    ensures IsPhrase(ReasonText(code))
  {
    ShortPhrases();
    LongPhrases();
    ReasonCases(code, r => IsPhrase(r));
  }

  /** A response without a reason is printed with the standard one. */
  function Shown(start: StartLine): StartLine {
    if start.Response? && start.reason == "" then start.(reason := ReasonText(start.status)) else start
  }

  function StartText(start: StartLine): string {
    match Shown(start)
    case Request(verb, uri) => verb + " " + uri + " " + VERSION
    case Response(status, reason) => VERSION + " " + Itoa(status) + " " + reason
  }

  function HeaderText(h: Header): string {
    h.name + ": " + h.value
  }

  function WithLength(h: Header, length: nat): Header {
    if h.name == CONTENT_LENGTH then h.(value := Itoa(length)) else h
  }

  predicate HasLength(hs: seq<Header>) {
    exists k :: 0 <= k < |hs| && hs[k].name == CONTENT_LENGTH
  }

  /** The headers sent: Content-Length set to the body's length, or added at the end. */
  function Fixed(hs: seq<Header>, length: nat): seq<Header> {
    var set_ := seq(|hs|, k requires 0 <= k < |hs| => WithLength(hs[k], length));
    if HasLength(hs) then set_ else set_ + [Header(CONTENT_LENGTH, Itoa(length))]
  }

  function HeaderTexts(hs: seq<Header>): (ls: seq<string>)
    ensures |ls| == |hs| && forall k :: 0 <= k < |hs| ==> ls[k] == HeaderText(hs[k])
  {
    seq(|hs|, k requires 0 <= k < |hs| => HeaderText(hs[k]))
  }

  function Terminated(lines: seq<string>): string {
    if lines == [] then "" else lines[0] + CRLF + Terminated(lines[1..])
  }

  function HeadLines(m: Msg): seq<string> {
    [StartText(m.start)] + HeaderTexts(Fixed(m.headers, |m.body|))
  }

  function Wire(m: Msg): string {
    Terminated(HeadLines(m)) + CRLF + m.body
  }

  // ----- reading -----

  /** CRLF becomes LF. */
  function Unix(s: string): string {
    if s == "" then ""
    else if HasPrefix(s, CRLF) then "\n" + Unix(s[2..])
    else [s[0]] + Unix(s[1..])
  }

  predicate Folded(line: string) {
    line != "" && (line[0] == ' ' || line[0] == '\t')
  }

  /** Lines that begin with white space continue the line before. */
  function Unfold(raw: seq<string>): (lines: seq<string>)
    ensures raw != [] ==> lines != []
  {
    if raw == [] then []
    else
      var out, line := Unfold(raw[..|raw| - 1]), raw[|raw| - 1];
      if Folded(line) && out != [] then out[..|out| - 1] + [out[|out| - 1] + " " + TrimSpace(line)]
      else out + [line]
  }

  function Lines(head: string): seq<string> {
    Unfold(Split(Unix(head), '\n'))
  }

  function HeaderOf(line: string): Option<Header> {
    var colon := IndexByte(line, ':');
    if colon == |line| then None
    else Some(Header(CanonName(line[..colon]), TrimSpace(line[colon + 1..])))
  }

  /** The lines that can be read, in order. */
  function Collect(lines: seq<string>, read: string -> Option<Header>): seq<Header> {
    if lines == [] then []
    else
      var hs, h := Collect(lines[..|lines| - 1], read), read(lines[|lines| - 1]);
      if h.Some? then hs + [h.value] else hs
  }

  /** Lines without a colon are skipped. */
  function HeadersOf(lines: seq<string>): seq<Header> {
    Collect(lines, HeaderOf)
  }

  function ParseStatusLine(line: string): Result<StartLine>
    requires HasPrefix(line, VERSION)
  {
    var rest := TrimSpace(line[|VERSION|..]);
    var sp := IndexByte(rest, ' ');
    var code := Atoi(rest[..sp]);
    if code.None? then Err(BadStatus)
    else Ok(Response(code.value, if sp < |rest| then TrimSpace(rest[sp + 1..]) else ""))
  }

  function ParseRequestLine(line: string): Result<StartLine> {
    var i := IndexByte(line, ' ');
    if i == |line| then Err(BadRequestLine)
    else
      var tail := line[i + 1..];
      var j := IndexByte(tail, ' ');
      if j == |tail| || !HasPrefix(tail[j + 1..], VERSION) then Err(BadRequestLine)
      else Ok(Request(Upper(line[..i]), tail[..j]))
  }

  function ParseStart(line: string): Result<StartLine> {
    if HasPrefix(line, VERSION) then ParseStatusLine(line) else ParseRequestLine(line)
  }

  /** The text before the first blank line, and the body after it. */
  function Cut(text: string): (string, string) {
    var i := Index(text, BLANK);
    if i < |text| then (text[..i], text[i + 4..])
    else
      var j := Index(text, "\n\n");
      if j < |text| then (text[..j], text[j + 2..]) else (text, "")
  }

  function ParseLines(lines: seq<string>, body: string): Result<Msg>
    requires lines != []
  {
    match ParseStart(lines[0])
    case Err(e) => Err(e)
    case Ok(start) => Ok(Msg(start, HeadersOf(lines[1..]), body))
  }

  function Parse(data: string): Result<Msg> {
    if |data| == 0 || |data| > MAX_UDP_PAYLOAD then Err(BadLength)
    else ParseLines(Lines(Cut(data).0), Cut(data).1)
  }

  // ----- what can be sent and read back -----

  predicate WellFormedHeader(h: Header) {
    CanonName(h.name) == h.name && Plain(h.name) && Trimmed(h.value) && Without(h.value, '\n')
  }

  predicate WellFormedStart(start: StartLine) {
    match start
    case Request(verb, uri) =>
      && Without(verb, ' ') && Without(verb, '\n') && Upper(verb) == verb
      && Without(uri, ' ') && Without(uri, '\n')
    case Response(status, reason) => FitsInt64(status) && Trimmed(reason) && Without(reason, '\n')
  }

  /** A request whose method makes it look like a response. */
  predicate Disguised(start: StartLine) {
    start.Request? && HasPrefix(start.verb, VERSION)
  }

  predicate AllWellFormed(hs: seq<Header>) {
    forall k :: 0 <= k < |hs| ==> WellFormedHeader(hs[k])
  }

  predicate WellFormed(m: Msg) {
    WellFormedStart(m.start) && AllWellFormed(m.headers)
  }

  /** The message as it is read back. */
  function Normalized(m: Msg): Msg {
    Msg(Shown(m.start), Fixed(m.headers, |m.body|), m.body)
  }

  // ----- finding the end of the headers -----

  predicate IsLine(line: string) {
    line != "" && Without(line, '\n')
  }

  predicate AreLines(lines: seq<string>) {
    forall k :: 0 <= k < |lines| ==> IsLine(lines[k])
  }

  lemma {:induction false} SkipLine(line: string, rest: string)
    requires Without(line, '\n') && HasPrefix(rest, CRLF)
    ensures Index(line + rest, BLANK) == |line| + Index(rest, BLANK)
  {
    if line == "" {
      assert line + rest == rest;
    } else {
      var s := line + rest;
      assert s[1..] == line[1..] + rest;
      assert s[1] != '\n';
      SkipLine(line[1..], rest);
    }
  }

  lemma {:induction false} SkipCrlf(rest: string)
    requires |rest| >= 2 && rest[1] != '\n'
    ensures Index(CRLF + rest, BLANK) == 2 + Index(rest, BLANK)
  {
    var s := CRLF + rest;
    assert s[3] != '\n';
    assert s[1..][0] == '\n';
    assert s[1..][1..] == rest;
  }

  lemma TerminatedStarts(lines: seq<string>, rest: string)
    requires lines != [] && AreLines(lines)
    ensures |Terminated(lines) + rest| >= 2 && (Terminated(lines) + rest)[1] != '\n'
  {
    assert IsLine(lines[0]);
  }

  lemma LineSkipped(line: string, rest: string)
    requires IsLine(line) && |rest| >= 2 && rest[1] != '\n'
    ensures Index(line + CRLF + rest, BLANK) == |line| + 2 + Index(rest, BLANK)
  {
    assert line + CRLF + rest == line + (CRLF + rest);
    SkipLine(line, CRLF + rest);
    SkipCrlf(rest);
  }

  lemma {:induction false} LastLine(line: string, body: string)
    requires IsLine(line)
    ensures Index(line + CRLF + (CRLF + body), BLANK) == |line|
  {
    var rest := CRLF + (CRLF + body);
    assert line + CRLF + (CRLF + body) == line + rest;
    assert rest == BLANK + body;
    SkipLine(line, rest);
  }

  /** The first blank line is the one that ends the headers. */
  lemma {:induction false} BlankLineFound(lines: seq<string>, body: string)
    requires lines != [] && AreLines(lines)
    ensures Index(Terminated(lines) + (CRLF + body), BLANK) == |Terminated(lines)| - 2
  {
    assert IsLine(lines[0]);
    var rest := Terminated(lines[1..]);
    assert Terminated(lines) + (CRLF + body) == lines[0] + CRLF + (rest + (CRLF + body));
    if |lines| == 1 {
      assert rest + (CRLF + body) == CRLF + body;
      LastLine(lines[0], body);
    } else {
      BlankLineFound(lines[1..], body);
      TerminatedStarts(lines[1..], CRLF + body);
      LineSkipped(lines[0], rest + (CRLF + body));
    }
  }

  function Joined(lines: seq<string>): string
    requires lines != []
  {
    if |lines| == 1 then lines[0] else lines[0] + CRLF + Joined(lines[1..])
  }

  lemma {:induction false} TerminatedIsJoined(lines: seq<string>)
    requires lines != []
    ensures Terminated(lines) == Joined(lines) + CRLF
  {
    if |lines| > 1 {
      TerminatedIsJoined(lines[1..]);
    } else {
      assert Terminated(lines[1..]) == "";
    }
  }

  lemma {:induction false} CutAtBlank(lines: seq<string>, body: string)
    requires lines != [] && AreLines(lines)
    ensures Cut(Terminated(lines) + CRLF + body) == (Joined(lines), body)
  {
    var text := Terminated(lines) + CRLF + body;
    BlankLineFound(lines, body);
    assert text == Terminated(lines) + (CRLF + body);
    TerminatedIsJoined(lines);
    assert text == Joined(lines) + BLANK + body;
    assert text[..|Joined(lines)|] == Joined(lines);
    assert text[|Joined(lines)| + 4..] == body;
  }

  // ----- the lines come back -----

  lemma UnixStep(s: string)
    requires s != "" && (|s| > 1 ==> s[1] != '\n')
    ensures Unix(s) == [s[0]] + Unix(s[1..])
  {
    assert !HasPrefix(s, CRLF);
  }

  lemma {:induction false} UnixLine(line: string, rest: string)
    requires Without(line, '\n') && (rest == "" || HasPrefix(rest, CRLF))
    ensures Unix(line + rest) == line + Unix(rest)
  {
    if line == "" {
      assert line + rest == rest;
    } else {
      var s := line + rest;
      assert s[1..] == line[1..] + rest;
      assert |s| > 1 ==> s[1] != '\n';
      UnixStep(s);
      UnixLine(line[1..], rest);
      assert line == [line[0]] + line[1..];
    }
  }

  lemma {:induction false} UnixJoined(lines: seq<string>)
    requires lines != [] && forall k :: 0 <= k < |lines| ==> Without(lines[k], '\n')
    ensures Unix(Joined(lines)) == Join(lines, '\n')
  {
    if |lines| == 1 {
      UnixLine(lines[0], "");
      assert lines[0] + "" == lines[0];
    } else {
      var rest := CRLF + Joined(lines[1..]);
      assert Joined(lines) == lines[0] + rest;
      UnixLine(lines[0], rest);
      UnixJoined(lines[1..]);
      assert rest[2..] == Joined(lines[1..]);
      assert lines[0] + ("\n" + Join(lines[1..], '\n')) == Join(lines, '\n');
    }
  }

  lemma {:induction false} SplitJoined(lines: seq<string>)
    requires lines != [] && forall k :: 0 <= k < |lines| ==> Without(lines[k], '\n')
    ensures Split(Join(lines, '\n'), '\n') == lines
  {
    if |lines| == 1 {
      IndexByteNone(lines[0], '\n');
    } else {
      SplitJoined(lines[1..]);
      SplitFirst(lines[0], '\n', Join(lines[1..], '\n'));
    }
  }

  lemma SplitFirst(a: string, c: char, rest: string)
    requires Without(a, c)
    ensures Split(a + [c] + rest, c) == [a] + Split(rest, c)
  {
    var s := a + [c] + rest;
    IndexByteAt(a, c, rest);
    assert s[..|a|] == a;
    assert s[|a| + 1..] == rest;
  }

  lemma {:induction false} UnfoldKeeps(lines: seq<string>)
    requires forall k :: 0 < k < |lines| ==> !Folded(lines[k])
    ensures Unfold(lines) == lines
  {
    if lines != [] {
      var n := |lines| - 1;
      UnfoldKeeps(lines[..n]);
      assert lines == lines[..n] + [lines[n]];
    }
  }

  lemma LinesComeBack(lines: seq<string>)
    requires lines != [] && AreLines(lines) && forall k :: 0 < k < |lines| ==> !Folded(lines[k])
    ensures Lines(Joined(lines)) == lines
  {
    assert forall k :: 0 <= k < |lines| ==> IsLine(lines[k]);
    UnixJoined(lines);
    SplitJoined(lines);
    UnfoldKeeps(lines);
  }

  // ----- each line is read back -----

  lemma HeaderIsLine(h: Header)
    requires WellFormedHeader(h)
    ensures IsLine(HeaderText(h)) && !Folded(HeaderText(h))
  {
    var line := HeaderText(h);
    assert line[0] == if h.name == "" then ':' else h.name[0];
    WithoutConcat(h.name, ": ", '\n');
    WithoutConcat(h.name + ": ", h.value, '\n');
  }

  lemma WithoutConcat(a: string, b: string, c: char)
    requires Without(a, c) && Without(b, c)
    ensures Without(a + b, c)
  {
  }

  lemma {:induction false} HeaderComesBack(h: Header)
    requires WellFormedHeader(h)
    ensures HeaderOf(HeaderText(h)) == Some(h)
  {
    var line := HeaderText(h);
    assert line == h.name + [':'] + (" " + h.value);
    IndexByteAt(h.name, ':', " " + h.value);
    assert line[..|h.name|] == h.name;
    assert line[|h.name| + 1..] == " " + h.value;
    TrimTrimmed(h.value);
  }

  lemma OneHeaderMore(lines: seq<string>, line: string)
    ensures HeadersOf(lines + [line])
            == HeadersOf(lines) + (if HeaderOf(line).Some? then [HeaderOf(line).value] else [])
  {
    assert (lines + [line])[..|lines|] == lines;
  }

  lemma HeaderTextsGrow(hs: seq<Header>, h: Header)
    ensures HeaderTexts(hs + [h]) == HeaderTexts(hs) + [HeaderText(h)]
  {
  }

  lemma {:induction false} CollectComesBack(hs: seq<Header>, read: string -> Option<Header>)
    requires forall k :: 0 <= k < |hs| ==> read(HeaderText(hs[k])) == Some(hs[k])
    ensures Collect(HeaderTexts(hs), read) == hs
  {
    if hs != [] {
      var front, last := hs[..|hs| - 1], hs[|hs| - 1];
      CollectComesBack(front, read);
      assert hs == front + [last];
      HeaderTextsGrow(front, last);
      assert HeaderTexts(hs)[..|front|] == HeaderTexts(front);
    }
  }

  lemma HeadersComeBack(hs: seq<Header>)
    requires AllWellFormed(hs)
    ensures HeadersOf(HeaderTexts(hs)) == hs
  {
    forall k | 0 <= k < |hs|
      ensures HeaderOf(HeaderText(hs[k])) == Some(hs[k])
    {
      HeaderComesBack(hs[k]);
    }
    CollectComesBack(hs, HeaderOf);
  }

  lemma RequestRead(verb: string, uri: string, more: string)
    requires Without(verb, ' ') && Without(uri, ' ')
    ensures ParseRequestLine(verb + " " + uri + " " + VERSION + more) == Ok(Request(Upper(verb), uri))
  {
    var line, tail := verb + " " + uri + " " + VERSION + more, uri + [' '] + (VERSION + more);
    assert line == verb + [' '] + tail;
    IndexByteAt(verb, ' ', tail);
    IndexByteAt(uri, ' ', VERSION + more);
    assert line[..|verb|] == verb && line[|verb| + 1..] == tail;
    assert tail[..|uri|] == uri && tail[|uri| + 1..] == VERSION + more;
  }

  /** A method, a target and the version, perhaps with more behind it. */
  predicate IsRequestLine(line: string, verb: string, uri: string, more: string) {
    Without(verb, ' ') && Without(uri, ' ') && line == verb + " " + uri + " " + VERSION + more
  }

  /** These are the request lines that are accepted; the method is read in upper case. */
  lemma RequestLinesAccepted(line: string)
    ensures forall verb, uri, more :: IsRequestLine(line, verb, uri, more) ==>
      ParseRequestLine(line) == Ok(Request(Upper(verb), uri))
    ensures ParseRequestLine(line).Ok? ==> exists verb, uri, more :: IsRequestLine(line, verb, uri, more)
  {
    forall verb, uri, more | IsRequestLine(line, verb, uri, more)
      ensures ParseRequestLine(line) == Ok(Request(Upper(verb), uri))
    {
      RequestRead(verb, uri, more);
    }
    if ParseRequestLine(line).Ok? {
      var i := IndexByte(line, ' ');
      var tail := line[i + 1..];
      var j := IndexByte(tail, ' ');
      IndexByteIsFirst(line, ' ');
      IndexByteIsFirst(tail, ' ');
      ThreeParts(line, i, j);
      assert IsRequestLine(line, line[..i], tail[..j], tail[j + 1 + |VERSION|..]);
    }
  }

  lemma ThreeParts(line: string, i: nat, j: nat)
    requires i < |line| && line[i] == ' ' && j < |line[i + 1..]| && line[i + 1..][j] == ' '
    requires HasPrefix(line[i + 1..][j + 1..], VERSION)
    ensures var tail := line[i + 1..];
      line == line[..i] + " " + tail[..j] + " " + VERSION + tail[j + 1 + |VERSION|..]
  {
    var tail := line[i + 1..];
    var rest := tail[j + 1..];
    assert rest == VERSION + rest[|VERSION|..];
    assert tail == tail[..j] + " " + rest;
    assert line == line[..i] + " " + tail;
  }

  /** A status line is accepted exactly when a 64-bit number follows the version, up to a space. */
  lemma StatusLinesAccepted(code: string, reason: string)
    requires code != "" && Without(code, ' ') && Trimmed(code + " " + reason)
    ensures ParseStart(VERSION + " " + code + " " + reason)
         == if Atoi(code).Some? then Ok(Response(Atoi(code).value, TrimSpace(reason))) else Err(BadStatus)
  {
    var line, rest := VERSION + " " + code + " " + reason, code + " " + reason;
    assert line[|VERSION|..] == " " + rest;
    TrimTrimmed(rest);
    assert rest == code + [' '] + reason;
    IndexByteAt(code, ' ', reason);
    assert rest[..|code|] == code && rest[|code| + 1..] == reason;
    assert line[..|VERSION|] == VERSION;
  }

  /** What stands before the first colon is the name, in any spelling, and what follows the value. */
  lemma HeaderLineReads(name: string, value: string)
    requires Without(name, ':')
    ensures HeaderOf(name + ":" + value) == Some(Header(CanonName(name), TrimSpace(value)))
  {
    var line := name + [':'] + value;
    assert name + ":" + value == line;
    IndexByteAt(name, ':', value);
    assert line[..|name|] == name && line[|name| + 1..] == value;
  }

  lemma {:induction false} RequestComesBack(verb: string, uri: string)
    requires WellFormedStart(Request(verb, uri)) && !HasPrefix(verb, VERSION)
    ensures ParseStart(StartText(Request(verb, uri))) == Ok(Request(verb, uri))
  {
    RequestRead(verb, uri, "");
    assert verb + " " + uri + " " + VERSION + "" == verb + " " + uri + " " + VERSION;
    NotVersion(verb, uri + " " + VERSION);
    assert StartText(Request(verb, uri)) == verb + [' '] + (uri + " " + VERSION);
  }

  lemma NotVersion(verb: string, tail: string)
    requires !HasPrefix(verb, VERSION)
    ensures !HasPrefix(verb + [' '] + tail, VERSION)
  {
    var line := verb + [' '] + tail;
    assert Without(VERSION, ' ');
    if |verb| < |VERSION| {
      assert |line| >= |VERSION| ==> line[..|VERSION|][|verb|] == ' ';
    } else {
      assert line[..|VERSION|] == verb[..|VERSION|];
    }
  }

  lemma {:induction false} StatusRest(code: string, reason: string)
    requires code != "" && !IsSpace(code[0]) && Without(code, ' ') && IsPhrase(reason)
    ensures TrimSpace(" " + (code + [' '] + reason)) == code + [' '] + reason
    ensures IndexByte(code + [' '] + reason, ' ') == |code|
    ensures (code + [' '] + reason)[..|code|] == code && (code + [' '] + reason)[|code| + 1..] == reason
  {
    TrimTrimmed(code + [' '] + reason);
    IndexByteAt(code, ' ', reason);
  }

  lemma CodeIsWord(status: int)
    ensures !IsSpace(Itoa(status)[0]) && Without(Itoa(status), ' ') && Without(Itoa(status), '\n')
  {
  }

  lemma {:induction false} StatusComesBack(status: int, reason: string)
    requires FitsInt64(status) && IsPhrase(reason)
    ensures ParseStart(VERSION + " " + Itoa(status) + " " + reason) == Ok(Response(status, reason))
  {
    var rest := Itoa(status) + [' '] + reason;
    var line := VERSION + " " + Itoa(status) + " " + reason;
    assert line == VERSION + (" " + rest);
    assert line[..|VERSION|] == VERSION;
    assert line[|VERSION|..] == " " + rest;
    CodeIsWord(status);
    StatusRest(Itoa(status), reason);
    TrimTrimmed(reason);
    ItoaAtoi(status);
  }

  lemma StatusIsLine(status: int, reason: string)
    requires IsPhrase(reason)
    ensures IsLine(VERSION + " " + Itoa(status) + " " + reason)
  {
    CodeIsWord(status);
    WithoutConcat(VERSION + " ", Itoa(status), '\n');
    WithoutConcat(VERSION + " " + Itoa(status), " ", '\n');
    WithoutConcat(VERSION + " " + Itoa(status) + " ", reason, '\n');
  }

  lemma RequestIsLine(verb: string, uri: string)
    requires Without(verb, '\n') && Without(uri, '\n')
    ensures IsLine(StartText(Request(verb, uri)))
  {
    WithoutConcat(verb, " ", '\n');
    WithoutConcat(verb + " ", uri, '\n');
    WithoutConcat(verb + " " + uri, " ", '\n');
    WithoutConcat(verb + " " + uri + " ", VERSION, '\n');
  }

  lemma StartIsLine(start: StartLine)
    requires WellFormedStart(start)
    ensures IsLine(StartText(start))
  {
    match start
    case Request(verb, uri) =>
      RequestIsLine(verb, uri);
    case Response(status, reason) =>
      ReasonTextIsPhrase(status);
      StatusIsLine(status, if reason == "" then ReasonText(status) else reason);
  }

  lemma DisguiseWorks(verb: string, uri: string)
    requires HasPrefix(verb, VERSION)
    ensures ParseStart(StartText(Request(verb, uri))) != Ok(Request(verb, uri))
  {
    var line := StartText(Request(verb, uri));
    assert line[..|VERSION|] == verb[..|VERSION|];
  }

  /** The start line is read back exactly when it does not look like a response's. */
  lemma StartComesBack(start: StartLine)
    requires WellFormedStart(start)
    ensures ParseStart(StartText(start)) == Ok(Shown(start)) <==> !Disguised(start)
  {
    match start
    case Request(verb, uri) =>
      if HasPrefix(verb, VERSION) {
        DisguiseWorks(verb, uri);
      } else {
        RequestComesBack(verb, uri);
      }
    case Response(status, reason) =>
      ReasonTextIsPhrase(status);
      StatusComesBack(status, if reason == "" then ReasonText(status) else reason);
  }

  lemma {:induction false} LengthWellFormed(n: nat)
    ensures WellFormedHeader(Header(CONTENT_LENGTH, Itoa(n)))
  {
    MoreNamesStand();
  }

  lemma {:induction false} FixedWellFormed(hs: seq<Header>, n: nat)
    requires AllWellFormed(hs)
    ensures AllWellFormed(Fixed(hs, n))
  {
    LengthWellFormed(n);
  }

  lemma {:induction false} HeadIsLines(m: Msg)
    requires WellFormed(m)
    ensures AreLines(HeadLines(m)) && forall k :: 0 < k < |HeadLines(m)| ==> !Folded(HeadLines(m)[k])
  {
    var hs := Fixed(m.headers, |m.body|);
    FixedWellFormed(m.headers, |m.body|);
    StartIsLine(m.start);
    forall k | 0 <= k < |hs|
      ensures IsLine(HeaderTexts(hs)[k]) && !Folded(HeaderTexts(hs)[k])
    {
      HeaderIsLine(hs[k]);
    }
  }

  lemma LinesAreParsed(lines: seq<string>, body: string)
    requires lines != [] && AreLines(lines) && forall k :: 0 < k < |lines| ==> !Folded(lines[k])
    ensures
      var data := Terminated(lines) + CRLF + body;
      Parse(data) == if |data| > MAX_UDP_PAYLOAD then Err(BadLength) else ParseLines(lines, body)
  {
    CutAtBlank(lines, body);
    LinesComeBack(lines);
  }

  /** What is printed is read back: the same start line, the same headers in order with
      Content-Length set to the body's length, the same body. It fails exactly for a message too
      long for a datagram and for a request whose method begins with the version. */
  lemma {:induction false} ParseReadsBack(m: Msg)
    requires WellFormed(m)
    ensures Parse(Wire(m)) == Ok(Normalized(m)) <==> |Wire(m)| <= 65535 && !Disguised(m.start)
    ensures |Wire(m)| > MAX_UDP_PAYLOAD ==> Parse(Wire(m)) == Err(BadLength)
  {
    var lines, hs := HeadLines(m), Fixed(m.headers, |m.body|);
    HeadIsLines(m);
    LinesAreParsed(lines, m.body);
    StartComesBack(m.start);
    FixedWellFormed(m.headers, |m.body|);
    HeadersComeBack(hs);
    assert lines[1..] == HeaderTexts(hs);
  }

  lemma FixedOnce(hs: seq<Header>, n: nat)
    ensures HasLength(Fixed(hs, n)) && Fixed(Fixed(hs, n), n) == Fixed(hs, n)
  {
    var fs := Fixed(hs, n);
    if HasLength(hs) {
      var k :| 0 <= k < |hs| && hs[k].name == CONTENT_LENGTH;
      assert fs[k].name == CONTENT_LENGTH;
    } else {
      assert fs[|hs|].name == CONTENT_LENGTH;
    }
    forall k | 0 <= k < |fs|
      ensures WithLength(fs[k], n) == fs[k]
    {
    }
  }

  /** The headers that are not Content-Length. */
  function OtherThanLength(hs: seq<Header>): seq<Header> {
    if hs == [] then []
    else
      var h := hs[|hs| - 1];
      OtherThanLength(hs[..|hs| - 1]) + (if h.name == "Content-Length" then [] else [h])
  }

  lemma {:induction false} OthersStay(hs: seq<Header>, fs: seq<Header>, n: nat)
    requires |fs| == |hs| && forall k :: 0 <= k < |hs| ==> fs[k] == WithLength(hs[k], n)
    ensures OtherThanLength(fs) == OtherThanLength(hs)
  {
    if hs != [] {
      OthersStay(hs[..|hs| - 1], fs[..|hs| - 1], n);
    }
  }

  /** The length is all that is refused before the lines are looked at: nothing, or more than fits a
      datagram. */
  lemma LengthsRefused(data: string)
    ensures Parse(data) == Err(BadLength) <==> |data| == 0 || |data| > 65535
  {
  }

  /** A response without a reason is received with the standard phrase. */
  lemma ReasonIsFilledIn(m: Msg)
    requires WellFormed(m) && m.start.Response? && m.start.reason == "" && |Wire(m)| <= 65535
    ensures Parse(Wire(m)).Ok? && Parse(Wire(m)).value.start.Response?
    ensures var code, said := m.start.status, Parse(Wire(m)).value.start.reason;
      && (code == 100 ==> said == "Trying") && (code == 180 ==> said == "Ringing")
      && (code == 400 ==> said == "Bad Request") && (code == 401 ==> said == "Unauthorized")
      && (code == 403 ==> said == "Forbidden") && (code == 404 ==> said == "Not Found")
      && (code == 405 ==> said == "Method Not Allowed") && (code == 408 ==> said == "Request Timeout")
      && (code == 481 ==> said == "Call/Transaction Does Not Exist")
      && (code == 500 ==> said == "Server Internal Error")
      && (code !in {100, 180, 400, 401, 403, 404, 405, 408, 481, 500} ==> said == "OK")
  {
    ParseReadsBack(m);
  }

  lemma OneLength(hs: seq<Header>, n: nat)
    ensures var fs := Fixed(hs, n);
      && (exists k :: 0 <= k < |fs| && fs[k].name == "Content-Length")
      && (forall k :: 0 <= k < |fs| && fs[k].name == "Content-Length" ==> fs[k].value == Itoa(n))
      && OtherThanLength(fs) == OtherThanLength(hs)
  {
    FixedOnce(hs, n);
    var fs := Fixed(hs, n);
    OthersStay(hs, fs[..|hs|], n);
    if HasLength(hs) {
      assert fs[..|hs|] == fs;
    } else {
      assert fs == fs[..|hs|] + [Header(CONTENT_LENGTH, Itoa(n))];
    }
  }

  /** What is sent has a Content-Length, every one of them gives the length of the body, and all
      other headers are the message's own, in order. */
  lemma {:induction false} LengthIsSet(m: Msg)
    requires WellFormed(m) && !Disguised(m.start) && |Wire(m)| <= MAX_UDP_PAYLOAD
    ensures Parse(Wire(m)).Ok?
    ensures var r := Parse(Wire(m)).value;
      && (exists k :: 0 <= k < |r.headers| && r.headers[k].name == "Content-Length")
      && (forall k :: 0 <= k < |r.headers| && r.headers[k].name == "Content-Length" ==>
            r.headers[k].value == Itoa(|m.body|))
      && OtherThanLength(r.headers) == OtherThanLength(m.headers)
      && r.body == m.body && (m.start.Request? ==> r.start == m.start)
      && (m.start.Response? ==>
            && r.start.Response? && r.start.status == m.start.status
            && (m.start.reason != "" ==> r.start.reason == m.start.reason))
  {
    ParseReadsBack(m);
    OneLength(m.headers, |m.body|);
  }

  /** Printing what was read back prints the same text. */
  lemma {:induction false} ReprintIsFixed(m: Msg)
    requires WellFormed(m) && !Disguised(m.start) && |Wire(m)| <= MAX_UDP_PAYLOAD
    ensures Parse(Wire(m)).Ok? && Wire(Parse(Wire(m)).value) == Wire(m)
  {
    ParseReadsBack(m);
    FixedOnce(m.headers, |m.body|);
    if m.start.Response? {
      ReasonTextIsPhrase(m.start.status);
    }
    assert HeadLines(Normalized(m)) == HeadLines(m);
  }

  // ----- whatever is read is well formed -----

  predicate AllWithoutLf(lines: seq<string>) {
    forall k :: 0 <= k < |lines| ==> Without(lines[k], '\n')
  }

  lemma {:induction false} UnfoldedWithoutLf(raw: seq<string>)
    requires AllWithoutLf(raw)
    ensures AllWithoutLf(Unfold(raw))
  {
    if raw != [] {
      var n := |raw| - 1;
      UnfoldedWithoutLf(raw[..n]);
      var out, line := Unfold(raw[..n]), raw[n];
      TrimSpaceTrims(line);
      if Folded(line) && out != [] {
        WithoutConcat(out[|out| - 1], " ", '\n');
        WithoutConcat(out[|out| - 1] + " ", TrimSpace(line), '\n');
      }
    }
  }

  lemma LinesWithoutLf(head: string)
    ensures AllWithoutLf(Lines(head))
  {
    SplitPieces(Unix(head), '\n');
    UnfoldedWithoutLf(Split(Unix(head), '\n'));
  }

  lemma WithoutPart(s: string, i: nat, j: nat, c: char)
    requires Without(s, c) && i <= j <= |s|
    ensures Without(s[i..j], c)
  {
  }

  lemma PartsAreWellFormed(name: string, value: string)
    requires Without(name, ':') && Without(name, '\n') && Without(value, '\n')
    ensures WellFormedHeader(Header(CanonName(name), TrimSpace(value)))
  {
    CanonNameIsPlain(name);
    CanonNameIsIdempotent(name);
    TrimSpaceTrims(value);
  }

  lemma {:induction false} HeaderReadIsWellFormed(line: string)
    requires Without(line, '\n')
    ensures HeaderOf(line).Some? ==> WellFormedHeader(HeaderOf(line).value)
  {
    var colon := IndexByte(line, ':');
    if colon < |line| {
      var name, value := line[..colon], line[colon + 1..];
      IndexByteIsFirst(line, ':');
      WithoutPart(line, 0, colon, '\n');
      WithoutPart(line, colon + 1, |line|, '\n');
      assert line[0..colon] == name && line[colon + 1..|line|] == value;
      PartsAreWellFormed(name, value);
      assert HeaderOf(line) == Some(Header(CanonName(name), TrimSpace(value)));
    }
  }

  lemma {:induction false} CollectedHold(lines: seq<string>, read: string -> Option<Header>, holds: Header -> bool)
    requires forall k :: 0 <= k < |lines| && read(lines[k]).Some? ==> holds(read(lines[k]).value)
    ensures forall k :: 0 <= k < |Collect(lines, read)| ==> holds(Collect(lines, read)[k])
  {
    if lines != [] {
      CollectedHold(lines[..|lines| - 1], read, holds);
    }
  }

  lemma HeadersReadAreWellFormed(lines: seq<string>)
    requires AllWithoutLf(lines)
    ensures AllWellFormed(HeadersOf(lines))
  {
    forall k | 0 <= k < |lines| && HeaderOf(lines[k]).Some?
      ensures WellFormedHeader(HeaderOf(lines[k]).value)
    {
      HeaderReadIsWellFormed(lines[k]);
    }
    CollectedHold(lines, HeaderOf, h => WellFormedHeader(h));
  }

  lemma StatusReadIsWellFormed(line: string)
    requires HasPrefix(line, VERSION) && Without(line, '\n')
    ensures ParseStatusLine(line).Ok? ==> WellFormedStart(ParseStatusLine(line).value)
  {
    var rest := TrimSpace(line[|VERSION|..]);
    TrimSpaceTrims(line[|VERSION|..]);
    assert Without(line[|VERSION|..], '\n');
    assert Without(rest, '\n');
    var sp := IndexByte(rest, ' ');
    if sp < |rest| {
      TrimSpaceTrims(rest[sp + 1..]);
      assert Without(rest[sp + 1..], '\n');
    }
  }

  lemma UpperKeeps(s: string)
    ensures Upper(Upper(s)) == Upper(s)
    ensures Without(s, ' ') ==> Without(Upper(s), ' ')
    ensures Without(s, '\n') ==> Without(Upper(s), '\n')
  {
  }

  lemma RequestReadIsWellFormed(line: string)
    requires Without(line, '\n')
    ensures ParseRequestLine(line).Ok? ==> WellFormedStart(ParseRequestLine(line).value)
  {
    var i := IndexByte(line, ' ');
    IndexByteIsFirst(line, ' ');
    UpperKeeps(line[..i]);
    if i < |line| {
      IndexByteIsFirst(line[i + 1..], ' ');
    }
  }

  /** Every message read from the network, whatever the bytes, is well formed: so it can be printed
      and read again, unless its method begins with the version or it has become too long. */
  lemma ReadIsWellFormed(data: string)
    requires Parse(data).Ok?
    ensures WellFormed(Parse(data).value)
  {
    var lines := Lines(Cut(data).0);
    LinesWithoutLf(Cut(data).0);
    HeadersReadAreWellFormed(lines[1..]);
    if HasPrefix(lines[0], VERSION) {
      StatusReadIsWellFormed(lines[0]);
    } else {
      RequestReadIsWellFormed(lines[0]);
    }
  }

  const LOWER_VERSION: string := "sip/2.0"

  lemma LowerVersion()
    ensures Upper(LOWER_VERSION) == VERSION && Without(LOWER_VERSION, ' ') && IsLine(LOWER_VERSION)
    ensures LOWER_VERSION[0] != VERSION[0]
  {
  }

  lemma DisguisedLine(uri: string)
    requires Without(uri, ' ') && Without(uri, '\n')
    ensures
      var line := LOWER_VERSION + " " + uri + " " + VERSION;
      IsLine(line) && ParseStart(line) == Ok(Request(VERSION, uri))
  {
    var line := LOWER_VERSION + " " + uri + " " + VERSION;
    LowerVersion();
    WithoutConcat(LOWER_VERSION, " ", '\n');
    WithoutConcat(LOWER_VERSION + " ", uri, '\n');
    WithoutConcat(LOWER_VERSION + " " + uri, " ", '\n');
    WithoutConcat(LOWER_VERSION + " " + uri + " ", VERSION, '\n');
    RequestRead(LOWER_VERSION, uri, "");
    assert line + "" == line;
    assert line[..|VERSION|][0] != VERSION[0];
  }

  /** The failing case does arise: a request whose method is the version in lower case is accepted,
      and printing what was read gives a text that is not read back. */
  lemma {:induction false} DisguisedRequestIsAccepted(uri: string)
    requires Without(uri, ' ') && Without(uri, '\n') && |uri| < 60000
    ensures
      var m := Msg(Request(VERSION, uri), [], "");
      Parse(Terminated([LOWER_VERSION + " " + uri + " " + VERSION]) + CRLF + "") == Ok(m)
        && Parse(Wire(m)) != Ok(Normalized(m))
  {
    var line := LOWER_VERSION + " " + uri + " " + VERSION;
    DisguisedLine(uri);
    LinesAreParsed([line], "");
    TerminatedIsJoined([line]);
    var m := Msg(Request(VERSION, uri), [], "");
    LowerVersion();
    UpperKeeps(LOWER_VERSION);
    ParseReadsBack(m);
  }
}
