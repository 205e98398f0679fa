/** The other ways a SIP message may be written: headers folded over several lines (section 7.3.1 of
    RFC 3261), lines that are no headers, and bare line feeds. */
module SipFolding {
  import opened Basics
  import opened Text
  import opened SipNames
  import opened SipSyntax

  /** A continuation line: spaces and tabs, then text. */
  datatype Fold = Fold(space: string, text: string)

  /** A header as it is written, over one line or more, or a line that is no header. */
  datatype Piece =
    | Field(name: string, first: string, folds: seq<Fold>)
    | Noise(line: string)

  predicate GoodFold(f: Fold) {
    && f.space != "" && (forall k :: 0 <= k < |f.space| ==> f.space[k] == ' ' || f.space[k] == '\t')
    && f.text != "" && Trimmed(f.text) && Without(f.text, '\n')
  }

  predicate GoodFolds(folds: seq<Fold>) {
    forall k :: 0 <= k < |folds| ==> GoodFold(folds[k])
  }

  /** The value on one line: the pieces with one space between them. */
  function OneLine(first: string, folds: seq<Fold>): string {
    if folds == [] then first else OneLine(first, folds[..|folds| - 1]) + " " + folds[|folds| - 1].text
  }

  predicate GoodPiece(p: Piece) {
    match p
    case Field(name, first, folds) => GoodFolds(folds) && WellFormedHeader(Header(name, OneLine(first, folds)))
    case Noise(line) => IsLine(line) && !Folded(line) && Without(line, ':')
  }

  predicate GoodPieces(ps: seq<Piece>) {
    forall k :: 0 <= k < |ps| ==> GoodPiece(ps[k])
  }

  /** The lines a piece is written on, and the one it stands for. */
  function Continuations(folds: seq<Fold>): (r: seq<string>)
    ensures |r| == |folds|
  {
    seq(|folds|, k requires 0 <= k < |folds| => folds[k].space + folds[k].text)
  }

  function PieceLines(p: Piece): seq<string> {
    match p
    case Field(name, first, folds) => [name + ": " + first] + Continuations(folds)
    case Noise(line) => [line]
  }

  function PieceText(p: Piece): string {
    match p
    case Field(name, first, folds) => name + ": " + OneLine(first, folds)
    case Noise(line) => line
  }

  function AllPieceLines(ps: seq<Piece>): seq<string> {
    if ps == [] then [] else AllPieceLines(ps[..|ps| - 1]) + PieceLines(ps[|ps| - 1])
  }

  function PieceTexts(ps: seq<Piece>): seq<string> {
    if ps == [] then [] else PieceTexts(ps[..|ps| - 1]) + [PieceText(ps[|ps| - 1])]
  }

  /** The headers a message written so has. */
  function PieceHeaders(ps: seq<Piece>): seq<Header> {
    if ps == [] then []
    else
      var p := ps[|ps| - 1];
      PieceHeaders(ps[..|ps| - 1]) + (if p.Field? then [Header(p.name, OneLine(p.first, p.folds))] else [])
  }

  // ----- unfolding -----

  lemma {:induction false} TrimIndented(space: string, text: string)
    requires (forall k :: 0 <= k < |space| ==> space[k] == ' ' || space[k] == '\t') && Trimmed(text)
    ensures TrimSpace(space + text) == text
  {
    if space == "" {
      assert space + text == text;
      TrimTrimmed(text);
    } else {
      assert (space + text)[1..] == space[1..] + text;
      TrimIndented(space[1..], text);
    }
  }

  lemma UnfoldOne(raw: seq<string>, line: string)
    requires raw != []
    ensures Unfold(raw) != []
    ensures var out := Unfold(raw);
      Unfold(raw + [line])
      == if Folded(line) then out[..|out| - 1] + [out[|out| - 1] + " " + TrimSpace(line)] else out + [line]
  {
    assert (raw + [line])[..|raw|] == raw;
  }

  /** A header's lines are read as the one line it stands for. */
  lemma {:induction false} UnfoldField(raw: seq<string>, name: string, first: string, folds: seq<Fold>)
    requires raw != [] && GoodFolds(folds) && !Folded(name + ": " + first)
    ensures Unfold(raw + PieceLines(Field(name, first, folds))) == Unfold(raw) + [name + ": " + OneLine(first, folds)]
  {
    if folds == [] {
      assert PieceLines(Field(name, first, folds)) == [name + ": " + first];
      UnfoldOne(raw, name + ": " + first);
    } else {
      var n := |folds| - 1;
      UnfoldField(raw, name, first, folds[..n]);
      OneFoldMore(raw, name, first, folds);
      FoldAppended(raw + PieceLines(Field(name, first, folds[..n])), Unfold(raw),
                   name + ": " + OneLine(first, folds[..n]), folds[n]);
      Append(name + ": ", OneLine(first, folds[..n]), " ", folds[n].text);
    }
  }

  lemma Append(a: string, b: string, c: string, d: string)
    ensures a + b + c + d == a + (b + c + d)
  {
  }

  lemma OneFoldMore(raw: seq<string>, name: string, first: string, folds: seq<Fold>)
    requires folds != []
    ensures var n := |folds| - 1;
      raw + PieceLines(Field(name, first, folds))
      == (raw + PieceLines(Field(name, first, folds[..n]))) + [folds[n].space + folds[n].text]
  {
    var n := |folds| - 1;
    assert Continuations(folds) == Continuations(folds[..n]) + [folds[n].space + folds[n].text];
  }

  /** A continuation line is appended to the line before it, after one space. */
  lemma FoldAppended(raw: seq<string>, out: seq<string>, line: string, f: Fold)
    requires raw != [] && Unfold(raw) == out + [line] && GoodFold(f)
    ensures Unfold(raw + [f.space + f.text]) == out + [line + " " + f.text]
  {
    TrimIndented(f.space, f.text);
    UnfoldOne(raw, f.space + f.text);
    assert Folded(f.space + f.text);
  }

  lemma FieldIsNotFolded(p: Piece)
    requires GoodPiece(p) && p.Field?
    ensures !Folded(p.name + ": " + p.first)
  {
    var line := p.name + ": " + p.first;
    assert line[0] == if p.name == "" then ':' else p.name[0];
  }

  lemma OnePieceMore(start: string, ps: seq<Piece>)
    requires ps != []
    ensures var front, p := ps[..|ps| - 1], ps[|ps| - 1];
      && [start] + AllPieceLines(ps) == [start] + AllPieceLines(front) + PieceLines(p)
      && PieceTexts(ps) == PieceTexts(front) + [PieceText(p)]
  {
    Assoc([start], AllPieceLines(ps[..|ps| - 1]), PieceLines(ps[|ps| - 1]));
  }

  lemma Assoc<T>(a: seq<T>, b: seq<T>, c: seq<T>)
    ensures a + b + c == a + (b + c)
  {
  }

  lemma {:induction false} UnfoldPieces(start: string, ps: seq<Piece>)
    requires GoodPieces(ps)
    ensures Unfold([start] + AllPieceLines(ps)) == [start] + PieceTexts(ps)
  {
    if ps == [] {
      assert [start] + AllPieceLines(ps) == [start] && [start][..0] == [];
    } else {
      var front, p := ps[..|ps| - 1], ps[|ps| - 1];
      UnfoldPieces(start, front);
      assert GoodPiece(p);
      UnfoldNext(start, AllPieceLines(front), PieceTexts(front), p);
      OnePieceMore(start, ps);
    }
  }

  lemma UnfoldNext(start: string, lines: seq<string>, texts: seq<string>, p: Piece)
    requires Unfold([start] + lines) == [start] + texts && GoodPiece(p)
    ensures Unfold([start] + lines + PieceLines(p)) == [start] + (texts + [PieceText(p)])
  {
    if p.Field? {
      FieldIsNotFolded(p);
      UnfoldField([start] + lines, p.name, p.first, p.folds);
    } else {
      UnfoldOne([start] + lines, p.line);
    }
  }

  // ----- the lines are lines -----

  lemma OneLineHolds(first: string, folds: seq<Fold>)
    requires Without(OneLine(first, folds), '\n')
    ensures Without(first, '\n')
    decreases |folds|
  {
    if folds != [] {
      var front := OneLine(first, folds[..|folds| - 1]);
      var all := OneLine(first, folds);
      forall k | 0 <= k < |front|
        ensures front[k] != '\n'
      {
        assert all[k] == front[k];
      }
      OneLineHolds(first, folds[..|folds| - 1]);
    }
  }

  lemma PieceLinesAreLines(p: Piece)
    requires GoodPiece(p)
    ensures AreLines(PieceLines(p))
  {
    if p.Field? {
      var lines := PieceLines(p);
      OneLineHolds(p.first, p.folds);
      forall k | 0 <= k < |lines|
        ensures IsLine(lines[k])
      {
        if k == 0 {
          WithoutConcat(p.name, ": ", '\n');
          WithoutConcat(p.name + ": ", p.first, '\n');
        } else {
          assert GoodFold(p.folds[k - 1]);
          WithoutConcat(p.folds[k - 1].space, p.folds[k - 1].text, '\n');
        }
      }
    }
  }

  lemma {:induction false} AllAreLines(ps: seq<Piece>)
    requires GoodPieces(ps)
    ensures AreLines(AllPieceLines(ps))
  {
    if ps != [] {
      AllAreLines(ps[..|ps| - 1]);
      PieceLinesAreLines(ps[|ps| - 1]);
    }
  }

  // ----- the headers -----

  lemma NoiseIsNoHeader(line: string)
    requires Without(line, ':')
    ensures HeaderOf(line) == None
  {
    IndexByteNone(line, ':');
  }

  lemma {:induction false} PiecesAreRead(ps: seq<Piece>)
    requires GoodPieces(ps)
    ensures HeadersOf(PieceTexts(ps)) == PieceHeaders(ps)
  {
    if ps != [] {
      var front, p := ps[..|ps| - 1], ps[|ps| - 1];
      PiecesAreRead(front);
      assert GoodPiece(p);
      OneHeaderMore(PieceTexts(front), PieceText(p));
      if p.Field? {
        HeaderComesBack(Header(p.name, OneLine(p.first, p.folds)));
      } else {
        NoiseIsNoHeader(p.line);
      }
    }
  }

  lemma RawLinesAreParsed(raw: seq<string>, body: string)
    requires raw != [] && AreLines(raw)
    ensures var data := Terminated(raw) + CRLF + body;
      Parse(data) == if |data| > MAX_UDP_PAYLOAD then Err(BadLength) else ParseLines(Unfold(raw), body)
  {
    CutAtBlank(raw, body);
    assert forall k :: 0 <= k < |raw| ==> IsLine(raw[k]);
    UnixJoined(raw);
    SplitJoined(raw);
  }

  /** The text of a message written in pieces. */
  function Written(start: StartLine, ps: seq<Piece>): (lines: seq<string>)
    ensures lines != []
  {
    [StartText(start)] + AllPieceLines(ps)
  }

  lemma WrittenIsLines(start: StartLine, ps: seq<Piece>)
    requires WellFormedStart(start) && GoodPieces(ps)
    ensures AreLines(Written(start, ps))
  {
    StartIsLine(start);
    AllAreLines(ps);
  }

  lemma PiecesParsed(start: StartLine, ps: seq<Piece>, body: string)
    requires WellFormedStart(start) && GoodPieces(ps)
    ensures ParseLines(Unfold(Written(start, ps)), body)
         == match ParseStart(StartText(start)) case Err(e) => Err(e) case Ok(s) => Ok(Msg(s, PieceHeaders(ps), body))
  {
    UnfoldPieces(StartText(start), ps);
    PiecesAreRead(ps);
    assert ([StartText(start)] + PieceTexts(ps))[1..] == PieceTexts(ps);
  }

  /** However its headers are folded, with spaces or tabs, once or many times, and whatever lines
      without a colon stand between them, a message is read with every header whole: exactly when
      the text is short enough and the method does not look like a status line. */
  lemma FoldedReadsBack(start: StartLine, ps: seq<Piece>, body: string)
    requires WellFormedStart(start) && GoodPieces(ps)
    ensures var text := Terminated(Written(start, ps)) + CRLF + body;
      Parse(text) == Ok(Msg(Shown(start), PieceHeaders(ps), body)) <==> |text| <= MAX_UDP_PAYLOAD && !Disguised(start)
  {
    WrittenIsLines(start, ps);
    RawLinesAreParsed(Written(start, ps), body);
    PiecesParsed(start, ps, body);
    StartComesBack(start);
  }

  // ----- bare line feeds -----

  predicate NoCrAtEnd(lines: seq<string>) {
    forall k :: 0 <= k < |lines| ==> lines[k] == "" || lines[k][|lines[k]| - 1] != '\r'
  }

  /** No line feed has a carriage return before it. */
  predicate BareLf(s: string) {
    forall k :: 0 < k < |s| && s[k] == '\n' ==> s[k - 1] != '\r'
  }

  /** Then there is nothing to replace. */
  lemma {:induction false} UnixIsUnix(s: string)
    requires BareLf(s)
    ensures Unix(s) == s
  {
    if s != "" {
      if |s| >= 2 {
        assert s[..2][0] == s[1 - 1] && s[..2][1] == s[1] && CRLF[0] == '\r' && CRLF[1] == '\n';
      }
      assert !HasPrefix(s, CRLF);
      forall k | 0 < k < |s[1..]| && s[1..][k] == '\n'
        ensures s[1..][k - 1] != '\r'
      {
        assert s[1..][k] == s[k + 1] && s[1..][k - 1] == s[k + 1 - 1];
      }
      UnixIsUnix(s[1..]);
      assert s == [s[0]] + s[1..];
    }
  }

  lemma {:induction false} JoinedHasNoCrlf(lines: seq<string>)
    requires AreLines(lines) && NoCrAtEnd(lines)
    ensures BareLf(Join(lines, '\n'))
  {
    if |lines| > 1 {
      assert IsLine(lines[0]) && IsLine(lines[1]);
      JoinedHasNoCrlf(lines[1..]);
      LinesAreBare(lines[0], Join(lines[1..], '\n'));
      assert Join(lines, '\n') == lines[0] + "\n" + Join(lines[1..], '\n');
    } else if |lines| == 1 {
      assert IsLine(lines[0]);
    }
  }

  lemma LinesAreBare(line: string, rest: string)
    requires IsLine(line) && line[|line| - 1] != '\r' && BareLf(rest)
    ensures BareLf(line + "\n" + rest)
  {
    var s := line + "\n" + rest;
    assert forall k :: 0 <= k < |line| ==> s[k] == line[k];
    forall k | 0 < k < |s| && s[k] == '\n'
      ensures s[k - 1] != '\r'
    {
      if k > |line| + 1 {
        var i := k - |line| - 1;
        assert s[k] == rest[i] && s[k - 1] == rest[i - 1];
      } else if k == |line| + 1 {
        assert s[k - 1] == '\n';
      } else if k == |line| {
        assert s[k - 1] == line[k - 1];
      }
    }
  }

  /** Two line feeds end the headers. */
  lemma {:induction false} LfLineSkipped(line: string, rest: string)
    requires IsLine(line) && (rest == "\n" || (|rest| > 1 && rest[0] == '\n'))
    ensures Index(line + rest, "\n\n") == |line| + Index(rest, "\n\n")
  {
    var s := line + rest;
    assert s[0] != '\n';
    assert !HasPrefix(s, "\n\n") by {
      assert "\n\n"[0] == '\n';
    }
    if |line| > 1 {
      assert s[1..] == line[1..] + rest;
      LfLineSkipped(line[1..], rest);
    } else {
      assert s[1..] == rest;
    }
  }

  lemma {:induction false} LfBlankFound(lines: seq<string>, body: string)
    requires lines != [] && AreLines(lines)
    ensures Index(Join(lines, '\n') + ("\n\n" + body), "\n\n") == |Join(lines, '\n')|
  {
    assert IsLine(lines[0]);
    if |lines| == 1 {
      var rest := "\n\n" + body;
      assert rest[..2] == "\n\n";
      LfLineSkipped(lines[0], rest);
    } else {
      assert IsLine(lines[1]);
      var inner := Join(lines[1..], '\n') + ("\n\n" + body);
      var rest := "\n" + inner;
      assert Join(lines, '\n') + ("\n\n" + body) == lines[0] + rest;
      LfLineSkipped(lines[0], rest);
      assert inner[0] == lines[1][0];
      assert rest[1..] == inner;
      assert !HasPrefix(rest, "\n\n") by {
        assert rest[..2][1] == rest[1] == inner[0];
      }
      LfBlankFound(lines[1..], body);
    }
  }

  lemma LfLinesAreParsed(raw: seq<string>, body: string)
    requires raw != [] && AreLines(raw) && NoCrAtEnd(raw)
    requires var data := Join(raw, '\n') + ("\n\n" + body); Index(data, BLANK) == |data|
    ensures var data := Join(raw, '\n') + ("\n\n" + body);
      Parse(data) == if |data| > MAX_UDP_PAYLOAD then Err(BadLength) else ParseLines(Unfold(raw), body)
  {
    var head := Join(raw, '\n');
    var data := head + ("\n\n" + body);
    LfBlankFound(raw, body);
    assert data[..|head|] == head && data[|head| + 2..] == body;
    JoinedHasNoCrlf(raw);
    UnixIsUnix(head);
    assert forall k :: 0 <= k < |raw| ==> IsLine(raw[k]);
    SplitJoined(raw);
  }

  /** A message written with bare line feeds is read alike, as long as no blank CRLF line stands
      anywhere in the text, body included. */
  lemma LfReadsBack(start: StartLine, ps: seq<Piece>, body: string)
    requires WellFormedStart(start) && GoodPieces(ps) && NoCrAtEnd(Written(start, ps))
    requires var text := Join(Written(start, ps), '\n') + ("\n\n" + body); Index(text, BLANK) == |text|
    ensures var text := Join(Written(start, ps), '\n') + ("\n\n" + body);
      Parse(text) == Ok(Msg(Shown(start), PieceHeaders(ps), body)) <==> |text| <= MAX_UDP_PAYLOAD && !Disguised(start)
  {
    WrittenIsLines(start, ps);
    LfLinesAreParsed(Written(start, ps), body);
    PiecesParsed(start, ps, body);
    StartComesBack(start);
  }

  /** The failing case: a body with a blank CRLF line draws the cut to itself, and what stands
      before it is taken for headers. */
  lemma LfBodyIsCut(head: string, a: string, b: string)
    requires Index(head + "\n\n" + a + BLANK + b, BLANK) == |head + "\n\n" + a|
    ensures Cut(head + "\n\n" + a + BLANK + b) == (head + "\n\n" + a, b)
  {
    var text, i := head + "\n\n" + a + BLANK + b, |head + "\n\n" + a|;
    assert text[..i] == head + "\n\n" + a && text[i + 4..] == b;
  }
}
