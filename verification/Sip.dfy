/** SIP messages as objects: reading them from a datagram, looking up and changing headers, and
    printing them. */
module Sip {
  import opened Text
  import opened SipNames
  import opened SipSyntax

  // ----- canonical names, part by part -----

  function TitlePart(p: string): string {
    if p == "" then p else Upper(p[..1]) + p[1..]
  }

  function TitleParts(parts: seq<string>): (r: seq<string>)
    ensures |r| == |parts| && forall k :: 0 <= k < |parts| ==> r[k] == TitlePart(parts[k])
  {
    seq(|parts|, k requires 0 <= k < |parts| => TitlePart(parts[k]))
  }

  lemma TitleWord(s: string)
    requires Without(s, '-')
    ensures Title(s) == TitlePart(s)
  {
  }

  lemma TitleSplits(a: string, rest: string)
    requires Without(a, '-')
    ensures Title(a + ['-'] + rest) == TitlePart(a) + ['-'] + Title(rest)
  {
    TitleWord(a);
    var s, t := a + ['-'] + rest, Title(a) + ['-'] + Title(rest);
    assert |Title(s)| == |t|;
    forall k | 0 <= k < |s|
      ensures Title(s)[k] == t[k]
    {
      if k > |a| + 1 {
        assert s[k] == rest[k - |a| - 1] && s[k - 1] == rest[k - |a| - 2];
      }
    }
  }

  lemma JoinFirst(p: string, rest: seq<string>)
    requires rest != []
    ensures Join(TitleParts([p] + rest), '-') == TitlePart(p) + ['-'] + Join(TitleParts(rest), '-')
  {
    assert TitleParts([p] + rest)[1..] == TitleParts(rest);
  }

  /** Capitalising the dash-separated parts is capitalising after each dash. */
  lemma {:induction false} JoinTitled(s: string)
    ensures Join(TitleParts(Split(s, '-')), '-') == Title(s)
    decreases |s|
  {
    var i := IndexByte(s, '-');
    IndexByteIsFirst(s, '-');
    if i == |s| {
      assert s[..i] == s;
      TitleWord(s);
    } else {
      JoinTitled(s[i + 1..]);
      TitleSplits(s[..i], s[i + 1..]);
      assert s == s[..i] + ['-'] + s[i + 1..];
      JoinFirst(s[..i], Split(s[i + 1..], '-'));
    }
  }

  method Canonicalize(name: string) returns (r: string)
    ensures r == CanonName(name)
  {
    var lower := Lower(TrimSpace(name));
    var long := CompactForm(lower);
    if long.Some? {
      return long.value;
    }
    var known := KnownForm(lower);
    if known.Some? {
      return known.value;
    }
    var parts := Split(lower, '-');
    for i := 0 to |parts|
      invariant |parts| == |Split(lower, '-')|
      invariant forall k :: 0 <= k < |parts| ==>
        parts[k] == if k < i then TitlePart(Split(lower, '-')[k]) else Split(lower, '-')[k]
    {
      var p := parts[i];
      if p != "" {
        parts := parts[i := Upper(p[..1]) + p[1..]];
      }
    }
    assert parts == TitleParts(Split(lower, '-'));
    JoinTitled(lower);
    r := Join(parts, '-');
  }

  method SplitLines(s: string) returns (out: seq<string>)
    ensures out == Lines(s)
  {
    var raw := Split(Unix(s), '\n');
    out := [];
    for i := 0 to |raw|
      invariant out == Unfold(raw[..i])
    {
      var line := raw[i];
      assert raw[..i + 1][..i] == raw[..i];
      if line == "" {
        out := out + [line];
        continue;
      }
      if (line[0] == ' ' || line[0] == '\t') && |out| > 0 {
        out := out[..|out| - 1] + [out[|out| - 1] + " " + TrimSpace(line)];
        continue;
      }
      out := out + [line];
    }
    assert raw[..|raw|] == raw;
  }

  // ----- header lists -----

  /** The values of a header, in order. */
  function Values(hs: seq<Header>, name: string): seq<string> {
    if hs == [] then []
    else
      var rest, h := Values(hs[..|hs| - 1], name), hs[|hs| - 1];
      if h.name == name then rest + [h.value] else rest
  }

  function Others(hs: seq<Header>, name: string): seq<Header> {
    if hs == [] then []
    else
      var rest, h := Others(hs[..|hs| - 1], name), hs[|hs| - 1];
      if h.name == name then rest else rest + [h]
  }

  lemma ValuesAfterAdd(hs: seq<Header>, h: Header, name: string)
    ensures Values(hs + [h], name) == Values(hs, name) + (if h.name == name then [h.value] else [])
  {
    assert (hs + [h])[..|hs|] == hs;
  }

  lemma {:induction false} ValuesOfOthers(hs: seq<Header>, name: string, other: string)
    ensures Values(Others(hs, name), other) == if other == name then [] else Values(hs, other)
  {
    if hs != [] {
      ValuesOfOthers(hs[..|hs| - 1], name, other);
      ValuesAfterAdd(Others(hs[..|hs| - 1], name), hs[|hs| - 1], other);
    }
  }

  /** Setting a header leaves it with that one value and every other header with its values. */
  lemma ValuesAfterSet(hs: seq<Header>, h: Header, name: string)
    ensures Values(Others(hs, h.name) + [h], name) == if name == h.name then [h.value] else Values(hs, name)
  {
    ValuesAfterAdd(Others(hs, h.name), h, name);
    ValuesOfOthers(hs, h.name, name);
  }

  predicate Canonical(hs: seq<Header>) {
    forall k :: 0 <= k < |hs| ==> CanonName(hs[k].name) == hs[k].name
  }

  lemma {:induction false} OthersAreCanonical(hs: seq<Header>, name: string)
    requires Canonical(hs)
    ensures Canonical(Others(hs, name))
  {
    if hs != [] {
      OthersAreCanonical(hs[..|hs| - 1], name);
    }
  }

  // ----- messages -----

  class Message {
    var isResponse: bool
    var verb: string
    var requestURI: string
    var status: int
    var reason: string
    var headers: seq<Header>
    var body: string

    constructor (body: string)
      ensures View() == Msg(Request("", ""), [], body)
      ensures headers == [] && this.body == body && reason == ""
    {
      isResponse, verb, requestURI, status, reason, headers := false, "", "", 0, "", [];
      this.body := body;
    }

    /** What the message says. */
    function View(): Msg
      reads this
    {
      Msg(if isResponse then Response(status, reason) else Request(verb, requestURI), headers, body)
    }

    method ParseStartLine(line: string) returns (r: Result<StartLine>)
      requires !isResponse && reason == ""
      modifies this`isResponse, this`verb, this`requestURI, this`status, this`reason
      ensures r == ParseStart(line)
      ensures r.Ok? ==> View() == Msg(r.value, headers, body)
    {
      if HasPrefix(line, VERSION) {
        isResponse := true;
        var rest := TrimSpace(line[|VERSION|..]);
        var code := rest;
        var sp := IndexByte(rest, ' ');
        assert rest[..|rest|] == rest;
        if sp < |rest| {
          code := rest[..sp];
          reason := TrimSpace(rest[sp + 1..]);
        }
        var n := Atoi(code);
        if n.None? {
          return Err(BadStatus);
        }
        status := n.value;
        return Ok(Response(status, reason));
      }
      var i := IndexByte(line, ' ');
      if i == |line| {
        return Err(BadRequestLine);
      }
      var tail := line[i + 1..];
      var j := IndexByte(tail, ' ');
      if j == |tail| || !HasPrefix(tail[j + 1..], VERSION) {
        return Err(BadRequestLine);
      }
      verb := Upper(line[..i]);
      requestURI := tail[..j];
      r := Ok(Request(verb, requestURI));
    }

    method ReadHeaders(lines: seq<string>)
      requires headers == []
      modifies this`headers
      ensures headers == HeadersOf(lines)
    {
      for i := 0 to |lines|
        invariant headers == HeadersOf(lines[..i])
        modifies this`headers
      {
        var ln := lines[i];
        OneHeaderMore(lines[..i], ln);
        assert lines[..i + 1] == lines[..i] + [ln];
        var colon := IndexByte(ln, ':');
        if colon == |ln| {
          continue;
        }
        var name := Canonicalize(ln[..colon]);
        headers := headers + [Header(name, TrimSpace(ln[colon + 1..]))];
      }
      assert lines[..|lines|] == lines;
    }

    /** The first value of a header under any spelling of its name, or nothing. */
    method Get(name: string) returns (v: string)
      ensures v == if Values(headers, CanonName(name)) == [] then "" else Values(headers, CanonName(name))[0]
    {
      var c := Canonicalize(name);
      for i := 0 to |headers|
        invariant Values(headers[..i], c) == []
      {
        ValuesAfterAdd(headers[..i], headers[i], c);
        assert headers[..i + 1] == headers[..i] + [headers[i]];
        if headers[i].name == c {
          FirstStays(headers, i + 1, c);
          return headers[i].value;
        }
      }
      assert headers[..|headers|] == headers;
      v := "";
    }

    method GetAll(name: string) returns (out: seq<string>)
      ensures out == Values(headers, CanonName(name))
    {
      var c := Canonicalize(name);
      out := [];
      for i := 0 to |headers|
        invariant out == Values(headers[..i], c)
      {
        ValuesAfterAdd(headers[..i], headers[i], c);
        assert headers[..i + 1] == headers[..i] + [headers[i]];
        if headers[i].name == c {
          out := out + [headers[i].value];
        }
      }
      assert headers[..|headers|] == headers;
    }

    /** Replaces every value of the header by one, at the end; lookups of others do not change. */
    method Set(name: string, value: string)
      modifies this`headers
      ensures headers == Others(old(headers), CanonName(name)) + [Header(CanonName(name), value)]
      ensures forall n :: Values(headers, n) == if n == CanonName(name) then [value] else Values(old(headers), n)
      ensures Canonical(old(headers)) ==> Canonical(headers)
    {
      var c := Canonicalize(name);
      var filtered := [];
      for i := 0 to |headers|
        invariant filtered == Others(headers[..i], c)
      {
        assert headers[..i + 1][..i] == headers[..i];
        if headers[i].name != c {
          filtered := filtered + [headers[i]];
        }
      }
      assert headers[..|headers|] == headers;
      forall n {
        ValuesAfterSet(headers, Header(c, value), n);
      }
      if Canonical(headers) {
        OthersAreCanonical(headers, c);
      }
      CanonNameIsIdempotent(name);
      headers := filtered + [Header(c, value)];
    }

    /** Appends a value; the values already there stay before it. */
    method Add(name: string, value: string)
      modifies this`headers
      ensures headers == old(headers) + [Header(CanonName(name), value)]
      ensures forall n :: Values(headers, n) == Values(old(headers), n) + (if n == CanonName(name) then [value] else [])
      ensures Canonical(old(headers)) ==> Canonical(headers)
    {
      var c := Canonicalize(name);
      forall n {
        ValuesAfterAdd(headers, Header(c, value), n);
      }
      CanonNameIsIdempotent(name);
      headers := headers + [Header(c, value)];
    }

    method Encode() returns (out: string)
      ensures out == Wire(View())
    {
      var b;
      if isResponse {
        var shown := if reason == "" then ReasonText(status) else reason;
        b := VERSION + " " + Itoa(status) + " " + shown + CRLF;
      } else {
        b := verb + " " + requestURI + " " + VERSION + CRLF;
      }
      ghost var first := StartText(View().start);
      assert Terminated([first]) == first + CRLF + "" == b;
      var hasCL := false;
      for i := 0 to |headers|
        invariant hasCL == HasLength(headers[..i])
        invariant b == Terminated([first] + HeaderTexts(Lengthened(headers[..i], |body|)))
      {
        var h := headers[i];
        LengthenOne(headers[..i], h, first, |body|);
        assert headers[..i + 1] == headers[..i] + [h];
        if h.name == CONTENT_LENGTH {
          hasCL := true;
          b := b + (CONTENT_LENGTH + ": " + Itoa(|body|)) + CRLF;
          continue;
        }
        b := b + (h.name + ": " + h.value) + CRLF;
      }
      assert headers[..|headers|] == headers;
      LengthenAll(headers, first, |body|);
      if !hasCL {
        b := b + (CONTENT_LENGTH + ": " + Itoa(|body|)) + CRLF;
      }
      out := b + CRLF + body;
    }
  }

  lemma {:induction false} FirstStays(hs: seq<Header>, n: nat, name: string)
    requires n <= |hs| && Values(hs[..n], name) != []
    ensures Values(hs, name) != [] && Values(hs, name)[0] == Values(hs[..n], name)[0]
  {
    if n < |hs| {
      var m := |hs| - 1;
      assert hs[..m][..n] == hs[..n];
      FirstStays(hs[..m], n, name);
    } else {
      assert hs[..n] == hs;
    }
  }

  // ----- printing the headers one by one -----

  function Lengthened(hs: seq<Header>, length: nat): (r: seq<Header>)
    ensures |r| == |hs| && forall k :: 0 <= k < |hs| ==> r[k] == WithLength(hs[k], length)
  {
    seq(|hs|, k requires 0 <= k < |hs| => WithLength(hs[k], length))
  }

  lemma {:induction false} TerminatedAppend(lines: seq<string>, line: string)
    ensures Terminated(lines + [line]) == Terminated(lines) + line + CRLF
  {
    if lines == [] {
      assert [] + [line] == [line];
      assert Terminated([line][1..]) == "";
    } else {
      TerminatedAppend(lines[1..], line);
      assert (lines + [line])[1..] == lines[1..] + [line];
    }
  }

  lemma LengthenOne(hs: seq<Header>, h: Header, first: string, length: nat)
    ensures Terminated([first] + HeaderTexts(Lengthened(hs + [h], length)))
            == Terminated([first] + HeaderTexts(Lengthened(hs, length))) + HeaderText(WithLength(h, length)) + CRLF
    ensures HasLength(hs + [h]) == (HasLength(hs) || h.name == CONTENT_LENGTH)
  {
    var texts := HeaderTexts(Lengthened(hs, length));
    assert HeaderTexts(Lengthened(hs + [h], length)) == texts + [HeaderText(WithLength(h, length))];
    assert [first] + (texts + [HeaderText(WithLength(h, length))])
      == ([first] + texts) + [HeaderText(WithLength(h, length))];
    TerminatedAppend([first] + texts, HeaderText(WithLength(h, length)));
    assert (hs + [h])[|hs|] == h;
    if HasLength(hs) {
      var k :| 0 <= k < |hs| && hs[k].name == CONTENT_LENGTH;
      assert (hs + [h])[k] == hs[k];
    }
  }

  lemma LengthenAll(hs: seq<Header>, first: string, length: nat)
    ensures Terminated([first] + HeaderTexts(Fixed(hs, length)))
            == if HasLength(hs) then Terminated([first] + HeaderTexts(Lengthened(hs, length)))
               else
                 Terminated([first] + HeaderTexts(Lengthened(hs, length)))
                 + (CONTENT_LENGTH + ": " + Itoa(length)) + CRLF
  {
    var texts, extra := HeaderTexts(Lengthened(hs, length)), Header(CONTENT_LENGTH, Itoa(length));
    if HasLength(hs) {
      assert Fixed(hs, length) == Lengthened(hs, length);
    } else {
      assert HeaderTexts(Fixed(hs, length)) == texts + [HeaderText(extra)];
      assert [first] + (texts + [HeaderText(extra)]) == ([first] + texts) + [HeaderText(extra)];
      TerminatedAppend([first] + texts, HeaderText(extra));
    }
  }

  /** Reads one datagram. */
  method ParseMessage(data: string) returns (r: Result<Message>)
    ensures match r { case Ok(m) => fresh(m) && Parse(data) == Ok(m.View()) case Err(e) => Parse(data) == Err(e) }
    ensures r.Ok? ==> Canonical(r.value.headers)
  {
    if |data| == 0 || |data| > MAX_UDP_PAYLOAD {
      return Err(BadLength);
    }
    var cut := Cut(data);
    var lines := SplitLines(cut.0);
    var m := new Message(cut.1);
    var start := m.ParseStartLine(lines[0]);
    if start.Err? {
      return Err(start.error);
    }
    m.ReadHeaders(lines[1..]);
    ReadIsWellFormed(data);
    r := Ok(m);
  }

  /** A message sent and received: the receiver's object says what the sender's said, with the
      length filled in. */
  method SendAndReceive(m: Message) returns (received: Message)
    requires WellFormed(m.View()) && !Disguised(m.View().start) && |Wire(m.View())| <= MAX_UDP_PAYLOAD
    ensures received.View() == Normalized(m.View())
  {
    var data := m.Encode();
    ParseReadsBack(m.View());
    var r := ParseMessage(data);
    received := r.value;
  }
}
