/**
 * One SMTP hop of a message: the client's dot-stuffed wire form, the server's
 * DATA reader, and the relaxed body form that signatures digest.
 */
module DataTransfer {
  import opened Text

  // ----- Client ---------------------------------------------------------------

  /** One line as dotStuff rewrites it. */
  function Stuffed(line: string): string {
    var l := DropCr(line);
    if HasPrefix(l, ".") then "." + l else l
  }

  function StuffAll(lines: seq<string>): (r: seq<string>)
    ensures |r| == |lines| && forall i :: 0 <= i < |r| ==> r[i] == Stuffed(lines[i])
  {
    if lines == [] then [] else [Stuffed(lines[0])] + StuffAll(lines[1..])
  }

  function DotStuff(payload: string): string { Join(StuffAll(Split(payload, LF)), CRLF) }

  function Wire(payload: string): string { DotStuff(payload) + "\r\n.\r\n" }

  method DotStuffLines(payload: string) returns (data: string)
    ensures data == DotStuff(payload)
  {
    var lines := Split(payload, LF);
    ghost var was := lines;
    for i := 0 to |lines|
      invariant |lines| == |was|
      invariant forall j :: 0 <= j < i ==> lines[j] == Stuffed(was[j])
      invariant forall j :: i <= j < |was| ==> lines[j] == was[j]
    {
      var line := DropCr(lines[i]);
      if HasPrefix(line, ".") { line := "." + line; }
      lines := lines[i := line];
    }
    assert lines == StuffAll(was);
    data := Join(lines, CRLF);
  }

  // ----- Server ---------------------------------------------------------------

  datatype Reading = Done(data: string, rest: string) | LineTooLong | TooLarge | ConnectionLost

  /** Length of the next line with its line feed; 0 if the stream ends first. */
  function LineEnd(s: string): (n: nat)
    ensures n <= |s| && (n > 0 ==> s[n - 1] == LF)
  {
    if s == [] then 0 else if s[0] == LF then 1
    else
      var n := LineEnd(s[1..]);
      if n == 0 then 0 else n + 1
  }

  function Unstuffed(line: string): string { if HasPrefix(line, "..") then line[1..] else line }

  function ReadFrom(s: string, max: int, out: string): Reading
    decreases |s|
  {
    var n := LineEnd(s);
    if n == 0 then if ByteLen(s) > 1000 then LineTooLong else ConnectionLost
    else if ByteLen(s[..n]) > 1000 then LineTooLong
    else
      var line := TrimRightSet(s[..n], CRLF);
      if line == "." then Done(out, s[n..])
      else
        var more := out + Unstuffed(line) + CRLF;
        if ByteLen(more) > max then TooLarge else ReadFrom(s[n..], max, more)
  }

  method ReadData(s: string, max: int) returns (r: Reading)
    ensures r == ReadFrom(s, max, "")
  {
    var out, pos := "", s;
    while true
      invariant ReadFrom(pos, max, out) == ReadFrom(s, max, "")
      decreases |pos|
    {
      var n := LineEnd(pos);
      if ByteLen(if n == 0 then pos else pos[..n]) > 1000 { return LineTooLong; }
      if n == 0 { return ConnectionLost; }
      var line := TrimRightSet(pos[..n], CRLF);
      if line == "." { return Done(out, pos[n..]); }
      if HasPrefix(line, "..") { line := line[1..]; }
      out := out + line + CRLF;
      if ByteLen(out) > max { return TooLarge; }
      pos := pos[n..];
    }
  }

  // ----- What one hop does to a message -----------------------------------------

  function TrimCrs(line: string): string { TrimRightSet(line, CRLF) }

  function TrimAll(lines: seq<string>): seq<string> {
    if lines == [] then [] else [TrimCrs(lines[0])] + TrimAll(lines[1..])
  }

  /** The payload's lines without trailing carriage returns, each ended by CRLF. */
  function Received(payload: string): string { Unlines(TrimAll(Split(payload, LF))) }

  predicate LinesFit(lines: seq<string>) {
    forall i :: 0 <= i < |lines| ==> ByteLen(Stuffed(lines[i])) + 2 <= 1000
  }

  lemma {:induction false} LineEndOf(line: string, rest: string)
    requires LF !in line
    ensures LineEnd(line + CRLF + rest) == |line| + 2
    ensures (line + CRLF + rest)[..|line| + 2] == line + CRLF && (line + CRLF + rest)[|line| + 2..] == rest
  {
    var s := line + CRLF + rest;
    if line != [] {
      LineEndOf(line[1..], rest);
      assert s[1..] == line[1..] + CRLF + rest;
    } else {
      assert s[0] == CR && s[1] == LF;
      assert s[1..][0] == LF;
    }
  }

  lemma TrimSnoc(line: string, c: char)
    requires c in CRLF
    ensures TrimRightSet(line + [c], CRLF) == TrimRightSet(line, CRLF)
  {
    assert (line + [c])[..|line|] == line;
  }

  lemma {:induction false} TrimStuffing(line: string)
    ensures TrimRightSet("." + line, CRLF) == "." + TrimRightSet(line, CRLF)
  {
    if line == [] {
      assert "." + line == ".";
      assert "."[..0] == "";
    } else if line[|line| - 1] in CRLF {
      var init := line[..|line| - 1];
      TrimStuffing(init);
      assert "." + line == ("." + init) + [line[|line| - 1]];
      TrimSnoc("." + init, line[|line| - 1]);
    }
  }

  lemma {:induction false} TrimKeepsHead(line: string)
    ensures line != [] && line[0] == '.' ==> TrimCrs(line) != [] && TrimCrs(line)[0] == '.'
    ensures TrimCrs(line) != [] ==> line != [] && TrimCrs(line)[0] == line[0]
  {
    if line != [] && line[|line| - 1] in CRLF { TrimKeepsHead(line[..|line| - 1]); }
  }

  lemma TrimLineEnd(x: string)
    ensures TrimRightSet(x + CRLF, CRLF) == TrimCrs(x)
  {
    assert x + CRLF == (x + [CR]) + [LF];
    TrimSnoc(x + [CR], LF);
    TrimSnoc(x, CR);
  }

  lemma TrimDropped(line: string)
    ensures TrimCrs(DropCr(line)) == TrimCrs(line)
  {
    if line != [] && line[|line| - 1] == CR {
      TrimSnoc(DropCr(line), CR);
      assert line == DropCr(line) + [CR];
    }
  }

  /** Stuffed or not, a line starting with a dot comes back as it was. */
  lemma UnstuffTrimmed(l: string)
    ensures
      var x := if HasPrefix(l, ".") then "." + l else l;
      TrimCrs(x) != "." && Unstuffed(TrimCrs(x)) == TrimCrs(l)
  {
    TrimKeepsHead(l);
    if HasPrefix(l, ".") {
      TrimStuffing(l);
      assert l[0] == '.';
    } else if l != [] {
      assert l[..1] == [l[0]];
    }
  }

  /** The reader gets back each stuffed line, and never takes one for the terminator. */
  lemma StuffedLineReadsBack(line: string)
    ensures
      var got := TrimRightSet(Stuffed(line) + CRLF, CRLF);
      got != "." && Unstuffed(got) == TrimCrs(line)
  {
    TrimLineEnd(Stuffed(line));
    TrimDropped(line);
    UnstuffTrimmed(DropCr(line));
  }

  /** What the reader answers for stuffed lines followed by the terminator. */
  function Expected(lines: seq<string>, max: int, out: string, rest: string): Reading {
    if lines == [] then Done(out, rest)
    else if ByteLen(Stuffed(lines[0])) + 2 > 1000 then LineTooLong
    else
      var more := out + TrimCrs(lines[0]) + CRLF;
      if ByteLen(more) > max then TooLarge else Expected(lines[1..], max, more, rest)
  }

  lemma ReadTerminator(max: int, out: string, rest: string)
    ensures ReadFrom("." + CRLF + rest, max, out) == Done(out, rest)
  {
    LineEndOf(".", rest);
    TrimLineEnd(".");
    assert TrimCrs(".") == ".";
    assert ByteLen(".") == 1 && ByteLen(CRLF) == 2;
    ByteLenAppend(".", CRLF);
  }

  lemma StuffedIsLine(line: string)
    requires LF !in line
    ensures LF !in Stuffed(line) && ByteLen(Stuffed(line) + CRLF) == ByteLen(Stuffed(line)) + 2
  {
    ByteLenAppend(Stuffed(line), CRLF);
    assert ByteLen(CRLF) == 2;
  }

  lemma {:induction false} ReadStuffed(lines: seq<string>, max: int, out: string, rest: string)
    requires forall i :: 0 <= i < |lines| ==> LF !in lines[i]
    ensures ReadFrom(Unlines(StuffAll(lines)) + "." + CRLF + rest, max, out) == Expected(lines, max, out, rest)
    decreases |lines|
  {
    var s := Unlines(StuffAll(lines)) + "." + CRLF + rest;
    if lines == [] {
      ReadTerminator(max, out, rest);
      assert s == "." + CRLF + rest;
    } else {
      var x, tail := Stuffed(lines[0]), Unlines(StuffAll(lines[1..])) + "." + CRLF + rest;
      assert s == x + CRLF + tail;
      StuffedIsLine(lines[0]);
      LineEndOf(x, tail);
      StuffedLineReadsBack(lines[0]);
      ReadStuffed(lines[1..], max, out + TrimCrs(lines[0]) + CRLF, rest);
    }
  }

  lemma {:induction false} ExpectedWhenFits(lines: seq<string>, max: int, out: string, rest: string)
    ensures
      var all := out + Unlines(TrimAll(lines));
      if LinesFit(lines) && (lines == [] || ByteLen(all) <= max) then Expected(lines, max, out, rest) == Done(all, rest)
      else Expected(lines, max, out, rest).LineTooLong? || Expected(lines, max, out, rest).TooLarge?
    decreases |lines|
  {
    if lines == [] {
      assert out + Unlines(TrimAll(lines)) == out;
    } else {
      var more := out + TrimCrs(lines[0]) + CRLF;
      var after := Unlines(TrimAll(lines[1..]));
      assert out + Unlines(TrimAll(lines)) == more + after;
      ByteLenAppend(more, after);
      ExpectedWhenFits(lines[1..], max, more, rest);
      if lines[1..] == [] { assert more + after == more; }
    }
  }

  /**
   * The reader stops only at the client's own terminator, leaves what follows it in the stream and returns the
   * payload's lines; it does so exactly when every stuffed line and the whole message are within the limits.
   */
  lemma HopDelivers(payload: string, max: int, rest: string)
    ensures
      var r := ReadFrom(Wire(payload) + rest, max, "");
      if LinesFit(Split(payload, LF)) && ByteLen(Received(payload)) <= max then r == Done(Received(payload), rest)
      else r.LineTooLong? || r.TooLarge?
  {
    var lines := Split(payload, LF);
    SplitPartsAreFree(payload, LF);
    JoinIsUnlines(StuffAll(lines));
    assert Wire(payload) + rest == Unlines(StuffAll(lines)) + "." + CRLF + rest;
    ReadStuffed(lines, max, "", rest);
    ExpectedWhenFits(lines, max, "", rest);
    assert "" + Received(payload) == Received(payload);
  }

  // ----- The body form that signatures digest -----------------------------------------

  function CollapseAll(lines: seq<string>): (r: seq<string>)
    ensures |r| == |lines| && forall i :: 0 <= i < |r| ==> r[i] == Collapse(lines[i])
  {
    if lines == [] then [] else [Collapse(lines[0])] + CollapseAll(lines[1..])
  }

  function DropEmptyTail(lines: seq<string>): seq<string> {
    if lines != [] && lines[|lines| - 1] == [] then DropEmptyTail(lines[..|lines| - 1]) else lines
  }

  function Finish(lines: seq<string>): string {
    var kept := DropEmptyTail(lines);
    if kept == [] then CRLF else Join(kept, CRLF) + CRLF
  }

  /** The signer's line: trailing blanks cut, then white space collapsed. */
  function SignerLine(line: string): string { Collapse(TrimRightSet(line, " \t")) }

  function SignerLines(lines: seq<string>): (r: seq<string>)
    ensures |r| == |lines| && forall i :: 0 <= i < |r| ==> r[i] == SignerLine(lines[i])
  {
    if lines == [] then [] else [SignerLine(lines[0])] + SignerLines(lines[1..])
  }

  /** What bodyHash digests. */
  function SignerBody(body: string): string { Finish(SignerLines(Split(ReplaceCrlf(body), LF))) }

  function VerifierLines(lines: seq<string>): (r: seq<string>)
    ensures |r| == |lines| && forall i :: 0 <= i < |r| ==> r[i] == SignerLine(DropCr(lines[i]))
  {
    if lines == [] then [] else [SignerLine(DropCr(lines[0]))] + VerifierLines(lines[1..])
  }

  /** The verifier's relaxed form without a length tag. */
  function VerifierBody(body: string): string { Finish(VerifierLines(Split(ReplaceCrlf(ReplaceCrlf(body)), LF))) }

  /** Both forms in one: split at line feeds and collapse every line. */
  function RelaxedBody(body: string): string { Finish(CollapseAll(Split(body, LF))) }

  lemma SignerLineCollapses(line: string)
    ensures SignerLine(line) == Collapse(line)
  {
    CollapseTrims(line, " \t");
  }

  lemma SignerBodyIsRelaxed(body: string)
    ensures SignerBody(body) == RelaxedBody(body)
  {
    var xs, ys := Split(body, LF), Split(ReplaceCrlf(body), LF);
    ReplaceCrlfLines(body);
    forall i | 0 <= i < |xs| ensures SignerLine(ys[i]) == Collapse(xs[i]) {
      SignerLineCollapses(ys[i]);
      CollapseUpToCr(xs[i], ys[i]);
    }
    assert SignerLines(ys) == CollapseAll(xs);
  }

  /** The signer and the verifier digest the same text, for every body. */
  lemma VerifierAgreesWithSigner(body: string)
    ensures VerifierBody(body) == SignerBody(body)
  {
    var xs, ys, zs := Split(body, LF), Split(ReplaceCrlf(body), LF), Split(ReplaceCrlf(ReplaceCrlf(body)), LF);
    ReplaceCrlfLines(body);
    ReplaceCrlfLines(ReplaceCrlf(body));
    forall i | 0 <= i < |xs| ensures SignerLine(DropCr(zs[i])) == Collapse(xs[i]) {
      SignerLineCollapses(DropCr(zs[i]));
      CollapseDropsCr(zs[i]);
      CollapseUpToCr(ys[i], zs[i]);
      CollapseUpToCr(xs[i], ys[i]);
    }
    assert VerifierLines(zs) == CollapseAll(xs);
    SignerBodyIsRelaxed(body);
  }

  function WithCr(lines: seq<string>): (r: seq<string>)
    ensures |r| == |lines| && forall i :: 0 <= i < |r| ==> r[i] == lines[i] + [CR]
  {
    if lines == [] then [] else [lines[0] + [CR]] + WithCr(lines[1..])
  }

  lemma {:induction false} SplitUnlines(lines: seq<string>)
    requires forall i :: 0 <= i < |lines| ==> LF !in lines[i]
    ensures Split(Unlines(lines), LF) == WithCr(lines) + [[]]
    decreases |lines|
  {
    if lines != [] {
      var a, rest := lines[0] + [CR], Unlines(lines[1..]);
      SplitUnlines(lines[1..]);
      SplitFirst(a, rest, LF);
      assert Unlines(lines) == a + [LF] + rest;
    }
  }

  lemma {:induction false} TrimAllPointwise(lines: seq<string>)
    ensures |TrimAll(lines)| == |lines| && forall i :: 0 <= i < |lines| ==> TrimAll(lines)[i] == TrimCrs(lines[i])
  {
    if lines != [] { TrimAllPointwise(lines[1..]); }
  }

  lemma {:induction false} TrimIsPrefix(line: string)
    ensures TrimCrs(line) <= line
  {
    if line != [] && line[|line| - 1] in CRLF { TrimIsPrefix(line[..|line| - 1]); }
  }

  lemma SentLinesAreLines(body: string)
    ensures forall i :: 0 <= i < |TrimAll(Split(body, LF))| ==> LF !in TrimAll(Split(body, LF))[i]
  {
    var lines := Split(body, LF);
    TrimAllPointwise(lines);
    SplitPartsAreFree(body, LF);
    forall i | 0 <= i < |lines| ensures LF !in TrimCrs(lines[i]) { TrimIsPrefix(lines[i]); }
  }

  lemma CollapseReceived(body: string)
    ensures CollapseAll(Split(Received(body), LF)) == CollapseAll(Split(body, LF)) + [[]]
  {
    var lines := Split(body, LF);
    var sent, got := TrimAll(lines), Split(Received(body), LF);
    TrimAllPointwise(lines);
    SentLinesAreLines(body);
    SplitUnlines(sent);
    forall i | 0 <= i < |lines| ensures Collapse(got[i]) == Collapse(lines[i]) {
      CollapseUpToCr(got[i], sent[i]);
      CollapseTrims(lines[i], CRLF);
    }
    assert Collapse([]) == [];
  }

  /** The relaxed body does not notice the hop. */
  lemma BodySurvivesHop(body: string)
    ensures SignerBody(Received(body)) == SignerBody(body)
  {
    var was := CollapseAll(Split(body, LF));
    CollapseReceived(body);
    assert (was + [[]])[..|was|] == was;
    SignerBodyIsRelaxed(body);
    SignerBodyIsRelaxed(Received(body));
  }

  // ----- Where the body starts ----------------------------------------------------------

  /** strings.Index. */
  function Find(s: string, sep: string): (r: int)
    ensures -1 <= r && (r >= 0 ==> r + |sep| <= |s| && s[r..r + |sep|] == sep)
    decreases |s|
  {
    if HasPrefix(s, sep) then 0
    else if s == [] then -1
    else
      var r := Find(s[1..], sep);
      if r < 0 then -1 else assert s[1..][r..r + |sep|] == s[r + 1..r + 1 + |sep|]; r + 1
  }

  datatype Parts = Whole | Parts(header: string, body: string)

  const BlankLine: string := "\r\n\r\n"

  function SplitMessage(raw: string): Parts {
    var i, j := Find(raw, BlankLine), Find(raw, "\n\n");
    if i >= 0 then Parts(raw[..i], raw[i + 4..])
    else if j >= 0 then Parts(raw[..j], raw[j + 2..]) else Whole
  }

  /** The first line after the first one that is empty, or 0. */
  function FirstBlank(lines: seq<string>): (j: nat)
    ensures j < |lines| || j == 0
    ensures j > 0 ==> lines[j] == [] && forall k :: 0 < k < j ==> lines[k] != []
    ensures j == 0 ==> forall k :: 0 < k < |lines| ==> lines[k] != []
  {
    if |lines| <= 1 then 0
    else if lines[1] == [] then 1
    else
      var j := FirstBlank(lines[1..]);
      assert forall k :: 1 < k < |lines| ==> lines[k] == lines[1..][k - 1];
      if j == 0 then 0 else j + 1
  }

  lemma PrefixChars(s: string)
    ensures HasPrefix(s, BlankLine) <==> |s| >= 4 && s[0] == CR && s[1] == LF && s[2] == CR && s[3] == LF
    ensures HasPrefix(s, CRLF) <==> |s| >= 2 && s[0] == CR && s[1] == LF
  {
    if |s| >= 4 { assert s[..4] == [s[0], s[1], s[2], s[3]]; }
    if |s| >= 2 { assert s[..2] == [s[0], s[1]]; }
  }

  lemma BlankAtLineEnd(t: string, y: string)
    requires LF !in t
    ensures HasPrefix(t + CRLF + y, BlankLine) <==> t == [] && HasPrefix(y, CRLF)
    ensures HasPrefix(t + CRLF + y, CRLF) <==> t == []
  {
    var s := t + CRLF + y;
    PrefixChars(s);
    PrefixChars(y);
    assert |t| >= 2 ==> s[1] == t[1];
    assert |t| == 1 ==> s[1] == CR;
  }

  lemma {:induction false} FindPastLine(t: string, y: string)
    requires LF !in t
    ensures Find(t + CRLF + y, BlankLine) ==
      if HasPrefix(y, CRLF) then |t| else if Find(y, BlankLine) < 0 then -1 else |t| + 2 + Find(y, BlankLine)
  {
    var s := t + CRLF + y;
    BlankAtLineEnd(t, y);
    if t == [] {
      assert s[1..] == [LF] + y && ([LF] + y)[1..] == y;
      PrefixChars([LF] + y);
    } else {
      assert s[1..] == t[1..] + CRLF + y;
      FindPastLine(t[1..], y);
    }
  }

  /** The text before line j, the blank line, and the text after it. */
  ghost predicate CutAt(lines: seq<string>, j: nat)
    requires j < |lines|
  {
    Find(Unlines(lines), BlankLine) == |Join(lines[..j], CRLF)| &&
    Unlines(lines) == Join(lines[..j], CRLF) + BlankLine + Unlines(lines[j + 1..])
  }

  lemma CutOneLater(lines: seq<string>, k: nat)
    requires 0 < k < |lines| - 1 && LF !in lines[0] && !HasPrefix(Unlines(lines[1..]), CRLF) && CutAt(lines[1..], k)
    ensures CutAt(lines, k + 1)
  {
    FindPastLine(lines[0], Unlines(lines[1..]));
    JoinOneLater(lines, k);
    assert lines[1..][k + 1..] == lines[k + 2..];
    Regroup(lines[0], Join(lines[1..][..k], CRLF), Unlines(lines[k + 2..]));
  }

  lemma Regroup(first: string, mid: string, rest: string)
    ensures first + CRLF + (mid + BlankLine + rest) == (first + CRLF + mid) + BlankLine + rest
  {
  }

  lemma JoinOneLater(lines: seq<string>, k: nat)
    requires 0 < k < |lines|
    ensures Join(lines[..k + 1], CRLF) == lines[0] + CRLF + Join(lines[1..][..k], CRLF)
  {
    assert lines[..k + 1][1..] == lines[1..][..k];
  }

  lemma CutHere(lines: seq<string>)
    requires |lines| >= 2 && LF !in lines[0] && lines[1] == []
    ensures CutAt(lines, 1)
  {
    var y := Unlines(lines[1..]);
    assert lines[1..][1..] == lines[2..] && lines[..1] == [lines[0]];
    assert y == [] + CRLF + Unlines(lines[2..]);
    BlankAtLineEnd([], Unlines(lines[2..]));
    FindPastLine(lines[0], y);
  }

  lemma {:induction false} FindInUnlines(lines: seq<string>)
    requires |lines| >= 1 && forall i :: 0 <= i < |lines| ==> LF !in lines[i]
    ensures FirstBlank(lines) == 0 ==> Find(Unlines(lines), BlankLine) < 0
    ensures FirstBlank(lines) > 0 ==> CutAt(lines, FirstBlank(lines))
    decreases |lines|
  {
    var y := Unlines(lines[1..]);
    if |lines| == 1 {
      FindPastLine(lines[0], y);
      assert Find("", BlankLine) == -1;
    } else if lines[1] == [] {
      CutHere(lines);
    } else {
      var tail := lines[1..];
      FindInUnlines(tail);
      BlankAtLineEnd(tail[0], Unlines(tail[1..]));
      if FirstBlank(tail) > 0 {
        CutOneLater(lines, FirstBlank(tail));
      } else {
        FindPastLine(lines[0], y);
      }
    }
  }

  /** No line of the header but the first is blank once carriage returns are cut. */
  ghost predicate NoBlankInside(header: string) {
    forall i :: 0 < i < |Split(header, LF)| ==> TrimCrs(Split(header, LF)[i]) != []
  }

  lemma {:induction false} TrimAllAppend(a: seq<string>, b: seq<string>)
    ensures TrimAll(a + b) == TrimAll(a) + TrimAll(b)
  {
    if a == [] {
      assert a + b == b;
    } else {
      TrimAllAppend(a[1..], b);
      assert (a + b)[1..] == a[1..] + b;
    }
  }

  lemma {:induction false} TrimAllWithCr(header: string)
    ensures TrimAll(Split(header + [CR], LF)) == TrimAll(Split(header, LF))
    decreases |header|
  {
    if header == [] {
      assert header + [CR] == [CR] && Split([CR], LF) == [[CR]] by { SplitNone([CR], LF); }
      assert TrimCrs([CR]) == [] by { TrimSnoc([], CR); }
    } else {
      var s := header + [CR];
      assert s[1..] == header[1..] + [CR] && s[0] == header[0];
      TrimAllWithCr(header[1..]);
      var xs, ys := Split(header[1..] + [CR], LF), Split(header[1..], LF);
      if s[0] != LF {
        TrimOnto(s[0], xs, ys);
      }
    }
  }

  lemma TrimOnto(c: char, xs: seq<string>, ys: seq<string>)
    requires c != LF && |xs| >= 1 && |ys| >= 1 && TrimAll(xs) == TrimAll(ys)
    ensures TrimAll(Onto(c, xs)) == TrimAll(Onto(c, ys))
  {
    TrimAllPointwise(xs);
    TrimAllPointwise(ys);
    TrimAllPointwise(Onto(c, xs));
    TrimAllPointwise(Onto(c, ys));
    TrimCons(c, xs[0]);
    TrimCons(c, ys[0]);
    assert |xs| == |ys|;
  }

  lemma {:induction false} TrimCons(c: char, x: string)
    ensures TrimCrs([c] + x) == if TrimCrs(x) == [] && c in CRLF then [] else [c] + TrimCrs(x)
  {
    if x == [] {
      assert [c] + x == [c] && [c][..0] == [];
    } else if x[|x| - 1] in CRLF {
      var init := x[..|x| - 1];
      TrimCons(c, init);
      assert [c] + x == ([c] + init) + [x[|x| - 1]];
      TrimSnoc([c] + init, x[|x| - 1]);
    }
  }

  /**
   * A hop turns a message with a separator after `header` into the trimmed
   * header lines, a blank line and the received body.
   */
  lemma ReceivedLines(header: string, body: string, sep: string)
    requires sep == BlankLine || sep == "\n\n"
    ensures TrimAll(Split(header + sep + body, LF)) == TrimAll(Split(header, LF)) + [[]] + TrimAll(Split(body, LF))
  {
    var cr := if sep == BlankLine then [CR] else [];
    var rest := cr + [LF] + body;
    assert header + sep + body == (header + cr) + [LF] + rest;
    SplitAppend(header + cr, rest, LF);
    SplitAppend(cr, body, LF);
    SplitNone(cr, LF);
    TrimAllAppend(Split(header + cr, LF), [cr] + Split(body, LF));
    TrimAllAppend([cr], Split(body, LF));
    TrimSnoc([], CR);
    assert TrimCrs(cr) == [];
    if cr == [] { assert header + cr == header; } else { TrimAllWithCr(header); }
  }

  /** The part before the body, as the next hop sees it. */
  function ReceivedHeader(header: string): string { Join(TrimAll(Split(header, LF)), CRLF) }

  /** The next hop finds the same header and body exactly when the header holds no blank line of its own. */
  lemma SplitSurvivesHop(raw: string)
    requires SplitMessage(raw).Parts?
    ensures
      var m := SplitMessage(raw);
      SplitMessage(Received(raw)) == Parts(ReceivedHeader(m.header), Received(m.body)) <==> NoBlankInside(m.header)
  {
    var m := SplitMessage(raw);
    var sep := if Find(raw, BlankLine) >= 0 then BlankLine else "\n\n";
    assert raw == m.header + sep + m.body;
    ReceivedLines(m.header, m.body, sep);
    var hs, lines := TrimAll(Split(m.header, LF)), TrimAll(Split(raw, LF));
    var bs := TrimAll(Split(m.body, LF));
    TrimAllPointwise(Split(m.header, LF));
    SentLinesAreLines(raw);
    LinesSplit(hs, bs);
  }

  /** Header lines, a blank line and body lines are split there exactly when no header line after the first is blank. */
  lemma LinesSplit(hs: seq<string>, bs: seq<string>)
    requires |hs| >= 1
    requires
      var lines := hs + [[]] + bs;
      forall i :: 0 <= i < |lines| ==> LF !in lines[i]
    ensures SplitMessage(Unlines(hs + [[]] + bs)) == Parts(Join(hs, CRLF), Unlines(bs)) <==>
      forall i :: 0 < i < |hs| ==> hs[i] != []
  {
    var lines := hs + [[]] + bs;
    FindInUnlines(lines);
    CutIsHeaderEnd(hs, bs);
    CutGivesParts(lines, FirstBlank(lines));
  }

  lemma CutGivesParts(lines: seq<string>, j: nat)
    requires j < |lines| && CutAt(lines, j)
    ensures SplitMessage(Unlines(lines)) == Parts(Join(lines[..j], CRLF), Unlines(lines[j + 1..]))
  {
    var s, h := Unlines(lines), Join(lines[..j], CRLF);
    assert s[..|h|] == h && s[|h| + 4..] == Unlines(lines[j + 1..]);
  }

  lemma CutIsHeaderEnd(hs: seq<string>, bs: seq<string>)
    requires |hs| >= 1
    ensures
      var lines := hs + [[]] + bs;
      var j := FirstBlank(lines);
      && 0 < j <= |hs|
      && (j == |hs| <==> forall i :: 0 < i < |hs| ==> hs[i] != [])
      && (j == |hs| ==> lines[..j] == hs && lines[j + 1..] == bs)
      && (j < |hs| ==> |Join(lines[..j], CRLF)| < |Join(hs, CRLF)|)
  {
    var lines := hs + [[]] + bs;
    var j := FirstBlank(lines);
    assert lines[|hs|] == [] && forall i :: 0 <= i < |hs| ==> lines[i] == hs[i];
    if j < |hs| {
      assert lines[..j] == hs[..j];
      JoinPrefixShorter(hs, j);
    }
  }

  lemma {:induction false} JoinPrefixShorter(lines: seq<string>, j: nat)
    requires 0 < j < |lines|
    ensures |Join(lines[..j], CRLF)| < |Join(lines, CRLF)|
    decreases |lines|
  {
    if j > 1 {
      JoinPrefixShorter(lines[1..], j - 1);
      assert lines[..j][1..] == lines[1..][..j - 1];
    }
  }

  /** So a signature's body digest still matches after the hop. */
  lemma SignedBodySurvivesHop(raw: string)
    requires SplitMessage(raw).Parts? && NoBlankInside(SplitMessage(raw).header)
    ensures SplitMessage(Received(raw)).Parts?
    ensures SignerBody(SplitMessage(Received(raw)).body) == SignerBody(SplitMessage(raw).body)
    ensures VerifierBody(SplitMessage(Received(raw)).body) == SignerBody(SplitMessage(raw).body)
  {
    SplitSurvivesHop(raw);
    BodySurvivesHop(SplitMessage(raw).body);
    VerifierAgreesWithSigner(SplitMessage(Received(raw)).body);
  }

  // ----- Messages that came in through the DATA reader -----------------------------------

  /** Lines without line feeds and without trailing carriage returns. */
  ghost predicate CleanLines(lines: seq<string>) {
    forall i :: 0 <= i < |lines| ==> LF !in lines[i] && TrimCrs(lines[i]) == lines[i]
  }

  ghost predicate IsStored(data: string) { exists lines :: CleanLines(lines) && data == Unlines(lines) }

  lemma {:induction false} TrimCrsLast(line: string)
    ensures TrimCrs(line) == [] || TrimCrs(line)[|TrimCrs(line)| - 1] !in CRLF
    ensures |TrimCrs(line)| <= |line| && TrimCrs(line) == line[..|TrimCrs(line)|]
  {
    if line != [] && line[|line| - 1] in CRLF { TrimCrsLast(line[..|line| - 1]); }
  }

  /** A line of the stream, cut and unstuffed. */
  lemma ReadLineIsClean(s: string)
    requires LineEnd(s) > 0
    ensures CleanLines([Unstuffed(TrimCrs(s[..LineEnd(s)]))])
  {
    var n := LineEnd(s);
    var line := TrimCrs(s[..n]);
    TrimCrsLast(s[..n]);
    LineEndIsFirst(s);
    assert forall i :: 0 <= i < |line| ==> line[i] == s[i];
    assert |line| < n;
  }

  lemma {:induction false} LineEndIsFirst(s: string)
    ensures forall i :: 0 <= i < LineEnd(s) - 1 ==> s[i] != LF
  {
    if s != [] && s[0] != LF { LineEndIsFirst(s[1..]); }
  }

  lemma {:induction false} UnlinesSnoc(lines: seq<string>, line: string)
    ensures Unlines(lines + [line]) == Unlines(lines) + line + CRLF
  {
    if lines == [] {
      assert lines + [line] == [line] && [line][1..] == [];
    } else {
      UnlinesSnoc(lines[1..], line);
      assert (lines + [line])[1..] == lines[1..] + [line];
    }
  }

  lemma {:induction false} ReaderStoresLines(s: string, max: int, out: string, lines: seq<string>)
    requires CleanLines(lines) && out == Unlines(lines) && ReadFrom(s, max, out).Done?
    ensures IsStored(ReadFrom(s, max, out).data)
    decreases |s|
  {
    var n := LineEnd(s);
    var line := TrimRightSet(s[..n], CRLF);
    if line != "." {
      ReadLineIsClean(s);
      var got := Unstuffed(line);
      assert [got][0] == got;
      UnlinesSnoc(lines, got);
      ReaderStoresLines(s[n..], max, out + got + CRLF, lines + [got]);
    }
  }

  /** In stored text every line feed follows a carriage return, so a bare blank line does not occur. */
  lemma {:induction false} NoBareBlank(lines: seq<string>)
    requires forall i :: 0 <= i < |lines| ==> LF !in lines[i]
    ensures
      var s := Unlines(lines);
      (s != [] ==> s[0] != LF) && forall p :: 0 < p < |s| && s[p] == LF ==> s[p - 1] == CR
  {
    if lines != [] {
      NoBareBlank(lines[1..]);
      AfterLine(lines[0], Unlines(lines[1..]));
    }
  }

  lemma AfterLine(t: string, y: string)
    requires LF !in t && (y != [] ==> y[0] != LF) && forall p :: 0 < p < |y| && y[p] == LF ==> y[p - 1] == CR
    ensures
      var s := t + CRLF + y;
      s[0] != LF && forall p :: 0 < p < |s| && s[p] == LF ==> s[p - 1] == CR
  {
    var s := t + CRLF + y;
    assert forall p :: 0 <= p < |t| ==> s[p] == t[p];
    forall p | |t| <= p < |s| && s[p] == LF ensures p > 0 && s[p - 1] == CR {
      if p >= |t| + 2 {
        assert s[p] == y[p - |t| - 2];
        assert p > |t| + 2 ==> s[p - 1] == y[p - |t| - 3];
      }
    }
    assert t != [] ==> s[0] == t[0];
  }

  lemma {:induction false} FindNoBareBlank(s: string)
    requires forall p :: 0 < p < |s| && s[p] == LF ==> s[p - 1] == CR
    ensures Find(s, "\n\n") < 0
  {
    if s != [] {
      FindNoBareBlank(s[1..]);
      assert |s| >= 2 ==> s[..2] == [s[0], s[1]];
    }
  }

  /** A carriage return on every line but the last. */
  function Returned(lines: seq<string>): (r: seq<string>)
    ensures |r| == |lines| && forall i :: 0 <= i < |r| ==> r[i] == lines[i] || r[i] == lines[i] + [CR]
  {
    if |lines| <= 1 then lines else [lines[0] + [CR]] + Returned(lines[1..])
  }

  /** Joining and splitting again leaves them so. */
  lemma {:induction false} SplitJoined(lines: seq<string>)
    requires lines != [] && forall k :: 0 <= k < |lines| ==> LF !in lines[k]
    ensures Split(Join(lines, CRLF), LF) == Returned(lines)
    decreases |lines|
  {
    if |lines| == 1 {
      SplitNone(lines[0], LF);
    } else {
      var rest := Join(lines[1..], CRLF);
      LineThenRest(lines[0], rest);
      SplitFirst(lines[0] + [CR], rest, LF);
      SplitJoined(lines[1..]);
    }
  }

  lemma LineThenRest(line: string, rest: string)
    ensures line + CRLF + rest == (line + [CR]) + [LF] + rest
  {
  }

  /** The header of a stored message holds no blank line. */
  lemma StoredHeaderIsWhole(data: string)
    requires IsStored(data) && SplitMessage(data).Parts?
    ensures NoBlankInside(SplitMessage(data).header)
  {
    var lines :| CleanLines(lines) && data == Unlines(lines);
    NoBareBlank(lines);
    FindNoBareBlank(data);
    if lines != [] {
      FindInUnlines(lines);
      var j := FirstBlank(lines);
      CutGivesParts(lines, j);
      HeaderLines(lines[..j]);
    }
  }

  lemma HeaderLines(hs: seq<string>)
    requires hs != [] && CleanLines(hs) && forall i :: 0 < i < |hs| ==> hs[i] != []
    ensures NoBlankInside(Join(hs, CRLF))
  {
    SplitJoined(hs);
    forall i | 0 < i < |hs| ensures TrimCrs(Returned(hs)[i]) != [] {
      TrimSnoc(hs[i], CR);
    }
  }

  /**
   * Whatever a client sends, a message the server took in keeps its header, its
   * body and its body digest over every further hop.
   */
  lemma StoredMessageSurvivesHop(stream: string, max: int)
    requires ReadFrom(stream, max, "").Done? && SplitMessage(ReadFrom(stream, max, "").data).Parts?
    ensures
      var data := ReadFrom(stream, max, "").data;
      var m, next := SplitMessage(data), SplitMessage(Received(data));
      && next == Parts(ReceivedHeader(m.header), Received(m.body))
      && SignerBody(next.body) == SignerBody(m.body) && VerifierBody(next.body) == SignerBody(m.body)
  {
    var data := ReadFrom(stream, max, "").data;
    ReaderStoresLines(stream, max, "", []);
    StoredHeaderIsWhole(data);
    SplitSurvivesHop(data);
    SignedBodySurvivesHop(data);
  }

  /**
   * A payload handed over without passing the reader can fail: a lone carriage
   * return in its header becomes a blank line.
   */
  lemma RawHeaderCanBreak(first: string, second: string, body: string)
    requires LF !in first && LF !in second && CR !in first && CR !in second && second != []
    ensures
      var header := first + [LF] + (CRLF + second);
      var raw := header + BlankLine + body;
      && SplitMessage(raw) == Parts(header, body) && !NoBlankInside(header)
      && SplitMessage(Received(raw)) != Parts(ReceivedHeader(header), Received(body))
  {
    var header := first + [LF] + (CRLF + second);
    var raw := header + BlankLine + body;
    LoneReturn(first, second);
    FindThere(first, second, body);
    SplitThere(header, body);
    SplitSurvivesHop(raw);
  }

  lemma LoneReturn(first: string, second: string)
    requires LF !in first && LF !in second
    ensures !NoBlankInside(first + [LF] + (CRLF + second))
  {
    var rest := CRLF + second;
    SplitFirst(first, rest, LF);
    assert rest == [CR] + [LF] + second;
    SplitFirst([CR], second, LF);
    TrimSnoc([], CR);
    assert Split(first + [LF] + rest, LF)[1] == [CR];
  }

  lemma SplitThere(header: string, body: string)
    requires Find(header + BlankLine + body, BlankLine) == |header|
    ensures SplitMessage(header + BlankLine + body) == Parts(header, body)
  {
    var raw := header + BlankLine + body;
    assert raw[..|header|] == header && raw[|header| + 4..] == body;
  }

  lemma FindThere(first: string, second: string, body: string)
    requires CR !in first && CR !in second && LF !in second && second != []
    ensures
      var header := first + [LF] + (CRLF + second);
      Find(header + BlankLine + body, BlankLine) == |header|
  {
    var z := second + CRLF + (CRLF + body);
    var y := [] + CRLF + z;
    assert CRLF + body == [] + CRLF + body;
    BlankAtLineEnd([], body);
    FindPastLine(second, CRLF + body);
    BlankAtLineEnd(second, CRLF + body);
    FindPastLine([], z);
    FindAfter(first + [LF], y);
    SameText(first + [LF], second, body);
  }

  lemma SameText(a: string, second: string, body: string)
    ensures a + (CRLF + second) + BlankLine + body == a + ([] + CRLF + (second + CRLF + (CRLF + body)))
  {
    assert BlankLine == CRLF + CRLF;
  }

  /** Text without a carriage return holds no start of a blank line. */
  lemma {:induction false} FindAfter(t: string, y: string)
    requires CR !in t
    ensures Find(t + y, BlankLine) == if Find(y, BlankLine) < 0 then -1 else |t| + Find(y, BlankLine)
  {
    var s := t + y;
    if t == [] {
      assert s == y;
    } else {
      PrefixChars(s);
      assert s[0] == t[0] && s[1..] == t[1..] + y;
      FindAfter(t[1..], y);
    }
  }
}
