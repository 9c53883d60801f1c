/**
 * Text as the Go code sees it. A string is a sequence of symbols, each a code
 * point or a stray byte that belongs to none; the latter are represented in
 * U+10FF00..U+10FFFF. The code cuts and joins text only at ASCII characters, so
 * symbols never merge. White space is unicode.IsSpace; case folding is ASCII.
 */
module Text {

  const CR: char := '\r'
  const LF: char := '\n'
  const CRLF: string := "\r\n"

  predicate IsSpace(c: char) {
    var n := c as int;
    9 <= n <= 13 || n == 32 || n == 0x85 || n == 0xA0 || n == 0x1680 || 0x2000 <= n <= 0x200A ||
    n == 0x2028 || n == 0x2029 || n == 0x202F || n == 0x205F || n == 0x3000
  }

  /** Bytes a symbol takes in UTF-8; a stray byte takes one. */
  function Width(c: char): nat {
    var n := c as int;
    if n < 0x80 || n >= 0x10FF00 then 1 else if n < 0x800 then 2 else if n < 0x10000 then 3 else 4
  }

  function ByteLen(s: string): nat { if s == [] then 0 else Width(s[0]) + ByteLen(s[1..]) }

  lemma {:induction false} ByteLenAppend(a: string, b: string)
    ensures ByteLen(a + b) == ByteLen(a) + ByteLen(b)
    decreases |a|
  {
    if a == [] {
      assert a + b == b;
    } else {
      ByteLenAppend(a[1..], b);
      assert (a + b)[1..] == a[1..] + b;
    }
  }

  function TrimLeft(s: string): string {
    if s != [] && IsSpace(s[0]) then TrimLeft(s[1..]) else s
  }

  function TrimRight(s: string): string {
    if s != [] && IsSpace(s[|s| - 1]) then TrimRight(s[..|s| - 1]) else s
  }

  function TrimSpace(s: string): string { TrimRight(TrimLeft(s)) }

  /** strings.TrimRight with a cutset. */
  function TrimRightSet(s: string, cut: string): string {
    if s != [] && s[|s| - 1] in cut then TrimRightSet(s[..|s| - 1], cut) else s
  }

  /** strings.TrimSuffix with a single carriage return. */
  function DropCr(s: string): string { if s != [] && s[|s| - 1] == CR then s[..|s| - 1] else s }

  function LowerChar(c: char): char {
    if 'A' <= c <= 'Z' then (c as int + 32) as char else c
  }

  function Lower(s: string): string { seq(|s|, i requires 0 <= i < |s| => LowerChar(s[i])) }

  predicate HasPrefix(s: string, p: string) { |p| <= |s| && s[..|p|] == p }

  // ----- Splitting and joining -------------------------------------------------

  function Split(s: string, c: char): (parts: seq<string>)
    ensures |parts| >= 1
  {
    if s == [] then [[]]
    else
      var rest := Split(s[1..], c);
      if s[0] == c then [[]] + rest else Onto(s[0], rest)
  }

  /** The first part gets one more symbol in front. */
  function Onto(c: char, parts: seq<string>): (r: seq<string>)
    requires |parts| >= 1
    ensures |r| == |parts| && r[0] == [c] + parts[0] && forall i :: 1 <= i < |r| ==> r[i] == parts[i]
  {
    [[c] + parts[0]] + parts[1..]
  }

  lemma OntoAppend(c: char, xs: seq<string>, ys: seq<string>)
    requires |xs| >= 1
    ensures Onto(c, xs + ys) == Onto(c, xs) + ys
  {
  }

  function Join(parts: seq<string>, sep: string): string {
    if |parts| == 0 then [] else if |parts| == 1 then parts[0] else parts[0] + sep + Join(parts[1..], sep)
  }

  /** Every line followed by a line end. */
  function Unlines(lines: seq<string>): string {
    if lines == [] then [] else lines[0] + CRLF + Unlines(lines[1..])
  }

  lemma {:induction false} JoinIsUnlines(lines: seq<string>)
    requires lines != []
    ensures Join(lines, CRLF) + CRLF == Unlines(lines)
  {
    if |lines| > 1 {
      JoinIsUnlines(lines[1..]);
    } else {
      assert lines[1..] == [];
    }
  }

  lemma {:induction false} SplitPartsAreFree(s: string, c: char)
    ensures forall i :: 0 <= i < |Split(s, c)| ==> c !in Split(s, c)[i]
  {
    if s != [] { SplitPartsAreFree(s[1..], c); }
  }

  /** Cutting at the first separator. */
  lemma {:induction false} SplitFirst(a: string, b: string, c: char)
    requires c !in a
    ensures Split(a + [c] + b, c) == [a] + Split(b, c)
  {
    var s := a + [c] + b;
    if a == [] {
      assert s[1..] == b;
    } else {
      SplitFirst(a[1..], b, c);
      assert s[1..] == a[1..] + [c] + b && s[0] == a[0];
      OntoAppend(a[0], [a[1..]], Split(b, c));
      assert [a[0]] + a[1..] == a;
      assert Onto(a[0], [a[1..]]) == [a];
    }
  }

  lemma {:induction false} SplitNone(a: string, c: char)
    requires c !in a
    ensures Split(a, c) == [a]
  {
    if a != [] {
      SplitNone(a[1..], c);
      assert [a[0]] + a[1..] == a;
      assert Onto(a[0], [a[1..]]) == [a];
    }
  }

  // ----- White space -----------------------------------------------------------

  /** strings.Fields, with the word being read. */
  function FieldsFrom(s: string, word: string): seq<string> {
    if s == [] then if word == [] then [] else [word]
    else if IsSpace(s[0]) then (if word == [] then [] else [word]) + FieldsFrom(s[1..], [])
    else FieldsFrom(s[1..], word + [s[0]])
  }

  function Fields(s: string): seq<string> { FieldsFrom(s, []) }

  /** Runs of white space become one blank, none at the ends. */
  function Collapse(s: string): string { Join(Fields(s), " ") }

  lemma {:induction false} FieldsTrailingSpace(s: string, word: string, c: char)
    requires IsSpace(c)
    ensures FieldsFrom(s + [c], word) == FieldsFrom(s, word)
    decreases |s|
  {
    if s == [] {
      assert (s + [c])[1..] == [];
    } else {
      assert (s + [c])[1..] == s[1..] + [c];
      FieldsTrailingSpace(s[1..], if IsSpace(s[0]) then [] else word + [s[0]], c);
    }
  }

  lemma {:induction false} CollapseTrims(s: string, cut: string)
    requires forall c :: c in cut ==> IsSpace(c)
    ensures Collapse(TrimRightSet(s, cut)) == Collapse(s)
    decreases |s|
  {
    if s != [] && s[|s| - 1] in cut {
      var init := s[..|s| - 1];
      CollapseTrims(init, cut);
      FieldsTrailingSpace(init, [], s[|s| - 1]);
      assert s == init + [s[|s| - 1]];
    }
  }

  lemma CollapseDropsCr(s: string)
    ensures Collapse(DropCr(s)) == Collapse(s)
  {
    if s != [] && s[|s| - 1] == CR {
      FieldsTrailingSpace(s[..|s| - 1], [], CR);
      assert s == s[..|s| - 1] + [CR];
    }
  }

  // ----- Line ends -----------------------------------------------------------------

  /** strings.ReplaceAll(s, "\\r\\n", "\\n"). */
  function ReplaceCrlf(s: string): string {
    if s == [] then [] else if HasPrefix(s, CRLF) then [LF] + ReplaceCrlf(s[2..]) else [s[0]] + ReplaceCrlf(s[1..])
  }

  /** y is x, or x without one trailing carriage return. */
  predicate UpToCr(x: string, y: string) { x == y || x == y + [CR] }

  ghost predicate AllUpToCr(xs: seq<string>, ys: seq<string>) {
    |xs| == |ys| && forall i :: 0 <= i < |xs| ==> UpToCr(xs[i], ys[i])
  }

  /** Replacing CRLF costs each line at most one carriage return. */
  lemma {:induction false} ReplaceCrlfLines(s: string)
    ensures AllUpToCr(Split(s, LF), Split(ReplaceCrlf(s), LF))
    decreases |s|
  {
    if s != [] {
      if HasPrefix(s, CRLF) {
        ReplaceCrlfLines(s[2..]);
        SplitCrlf(s);
        assert ReplaceCrlf(s)[1..] == ReplaceCrlf(s[2..]);
      } else {
        ReplaceCrlfLines(s[1..]);
        assert ReplaceCrlf(s)[1..] == ReplaceCrlf(s[1..]);
        if s[0] != LF { OntoUpToCr(s[0], Split(s[1..], LF), Split(ReplaceCrlf(s[1..]), LF)); }
      }
    }
  }

  lemma SplitCrlf(s: string)
    requires HasPrefix(s, CRLF)
    ensures Split(s, LF) == [[CR]] + Split(s[2..], LF)
  {
    assert s[0] == CRLF[0] && s[1] == CRLF[1];
    assert s == [CR] + [LF] + s[2..];
    SplitFirst([CR], s[2..], LF);
  }

  lemma OntoUpToCr(c: char, xs: seq<string>, ys: seq<string>)
    requires |xs| >= 1 && AllUpToCr(xs, ys)
    ensures AllUpToCr(Onto(c, xs), Onto(c, ys))
  {
    assert UpToCr(xs[0], ys[0]);
  }

  lemma CollapseUpToCr(x: string, y: string)
    requires UpToCr(x, y)
    ensures Collapse(x) == Collapse(y)
  {
    FieldsTrailingSpace(y, [], CR);
  }

  /** Splitting a concatenation at one of its separators. */
  lemma {:induction false} SplitAppend(a: string, b: string, c: char)
    ensures Split(a + [c] + b, c) == Split(a, c) + Split(b, c)
    decreases |a|
  {
    var s := a + [c] + b;
    if a == [] {
      assert s[1..] == b;
    } else {
      SplitAppend(a[1..], b, c);
      assert s[1..] == a[1..] + [c] + b && s[0] == a[0];
      OntoAppend(a[0], Split(a[1..], c), Split(b, c));
    }
  }
}
