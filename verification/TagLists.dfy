/**
 * Tag lists of signature headers ("i=1; a=...; b=..."): how the signer writes
 * them, how it and the verifier read them, and decimal instance numbers.
 */
module TagLists {
  import opened Common
  import opened Text

  // ----- Tidy text --------------------------------------------------------------

  /** Only single blanks, none at the ends. */
  predicate Tidy(s: string) {
    forall i :: 0 <= i < |s| && IsSpace(s[i]) ==> s[i] == ' ' && 0 < i < |s| - 1 && !IsSpace(s[i + 1])
  }

  predicate Spaceless(s: string) { forall i :: 0 <= i < |s| ==> !IsSpace(s[i]) }

  /** Every blank is single and followed by more text. */
  predicate Separated(s: string) {
    forall i :: 0 <= i < |s| && IsSpace(s[i]) ==> s[i] == ' ' && i + 1 < |s| && !IsSpace(s[i + 1])
  }

  lemma {:induction false} JoinFieldsFrom(s: string, word: string)
    requires Separated(s) && (s != [] && IsSpace(s[0]) ==> word != [])
    ensures Join(FieldsFrom(s, word), " ") == word + s
    decreases |s|
  {
    if s != [] {
      var rest := s[1..];
      assert forall i :: 0 <= i < |rest| ==> rest[i] == s[i + 1];
      if IsSpace(s[0]) {
        JoinFieldsFrom(rest, []);
        assert rest != [] && FieldsFrom(rest, []) != [];
        assert FieldsFrom(s, word) == [word] + FieldsFrom(rest, []);
        assert ([word] + FieldsFrom(rest, []))[1..] == FieldsFrom(rest, []);
        assert word + " " + rest == word + s;
      } else {
        JoinFieldsFrom(rest, word + [s[0]]);
        assert word + [s[0]] + rest == word + s;
      }
    }
  }

  lemma TidyCollapses(s: string)
    requires Tidy(s)
    ensures Collapse(s) == s
  {
    JoinFieldsFrom(s, []);
  }

  predicate Words(ws: seq<string>) { forall i :: 0 <= i < |ws| ==> ws[i] != [] && Spaceless(ws[i]) }

  lemma {:induction false} FieldsAreWords(s: string, word: string)
    requires Spaceless(word)
    ensures Words(FieldsFrom(s, word))
    decreases |s|
  {
    if s != [] {
      FieldsAreWords(s[1..], if IsSpace(s[0]) then [] else word + [s[0]]);
    }
  }

  lemma {:induction false} JoinedWordsAreTidy(ws: seq<string>)
    requires Words(ws)
    ensures Tidy(Join(ws, " ")) && (ws != [] ==> Join(ws, " ") != [])
    decreases |ws|
  {
    if |ws| > 1 {
      JoinedWordsAreTidy(ws[1..]);
      TidyAppend(ws[0], " ", Join(ws[1..], " "));
    }
  }

  lemma TidyAppend(a: string, sep: string, b: string)
    requires Tidy(a) && Tidy(b) && a != [] && b != [] && (sep == " " || sep == "; ")
    ensures Tidy(a + sep + b)
  {
    var s := a + sep + b;
    forall i | 0 <= i < |s| && IsSpace(s[i]) ensures s[i] == ' ' && 0 < i < |s| - 1 && !IsSpace(s[i + 1]) {
      if i < |a| {
        assert s[i] == a[i] && s[i + 1] == a[i + 1];
      } else if i >= |a| + |sep| {
        var j := i - |a| - |sep|;
        assert s[i] == b[j] && s[i + 1] == b[j + 1];
      } else {
        assert s[i] == sep[i - |a|];
        assert s[|a| + |sep|] == b[0];
      }
    }
  }

  lemma CollapseIsTidy(s: string)
    ensures Tidy(Collapse(s))
  {
    FieldsAreWords(s, []);
    JoinedWordsAreTidy(Fields(s));
  }

  lemma CollapseTwice(s: string)
    ensures Collapse(Collapse(s)) == Collapse(s)
  {
    CollapseIsTidy(s);
    TidyCollapses(Collapse(s));
  }

  lemma {:induction false} FieldsTrimLeft(s: string)
    ensures Fields(TrimLeft(s)) == Fields(s)
    decreases |s|
  {
    if s != [] && IsSpace(s[0]) { FieldsTrimLeft(s[1..]); }
  }

  lemma {:induction false} FieldsTrimRight(s: string)
    ensures Fields(TrimRight(s)) == Fields(s)
    decreases |s|
  {
    if s != [] && IsSpace(s[|s| - 1]) {
      FieldsTrimRight(s[..|s| - 1]);
      FieldsTrailingSpace(s[..|s| - 1], [], s[|s| - 1]);
      assert s == s[..|s| - 1] + [s[|s| - 1]];
    }
  }

  lemma CollapseTrimmed(s: string)
    ensures Collapse(TrimSpace(s)) == Collapse(s)
  {
    FieldsTrimLeft(s);
    FieldsTrimRight(TrimLeft(s));
  }

  /** Text without blanks at its ends is its own trimmed form, and one blank before it is cut. */
  lemma TrimNothing(s: string)
    requires s == [] || (!IsSpace(s[0]) && !IsSpace(s[|s| - 1]))
    ensures TrimSpace(s) == s && TrimSpace(" " + s) == s
  {
    assert TrimLeft(s) == s && TrimRight(s) == s;
    assert (" " + s)[1..] == s;
    assert TrimLeft(" " + s) == TrimLeft(s);
  }

  lemma TidyEnds(s: string)
    requires Tidy(s) && s != []
    ensures !IsSpace(s[0]) && !IsSpace(s[|s| - 1])
  {
  }

  // ----- Decimal numbers ------------------------------------------------------------

  predicate IsDigit(c: char) { '0' <= c <= '9' }

  predicate AllDigits(s: string) { s != [] && forall i :: 0 <= i < |s| ==> IsDigit(s[i]) }

  function ParseNat(s: string): nat
    requires forall i :: 0 <= i < |s| ==> IsDigit(s[i])
  {
    if s == [] then 0
    else
      assert IsDigit(s[|s| - 1]);
      10 * ParseNat(s[..|s| - 1]) + (s[|s| - 1] as int - '0' as int)
  }

  /** strconv.Atoi, without its overflow error. */
  function Atoi(s: string): Option<int> {
    if AllDigits(s) then Some(ParseNat(s))
    else if s != [] && (s[0] == '+' || s[0] == '-') && AllDigits(s[1..])
    then
      var n: int := ParseNat(s[1..]);
      Some(if s[0] == '-' then -n else n)
    else None
  }

  function Itoa(n: nat): (s: string)
    ensures AllDigits(s)
  {
    if n < 10 then [(('0' as int) + n) as char] else Itoa(n / 10) + [(('0' as int) + n % 10) as char]
  }

  lemma {:induction false} ParseItoa(n: nat)
    ensures ParseNat(Itoa(n)) == n
  {
    var s := Itoa(n);
    if n < 10 {
      assert s[..0] == [];
    } else {
      ParseItoa(n / 10);
      assert s[..|s| - 1] == Itoa(n / 10);
    }
  }

  lemma AtoiItoa(n: nat)
    ensures Atoi(Itoa(n)) == Some(n) && Spaceless(Itoa(n)) && ';' !in Itoa(n)
  {
    ParseItoa(n);
  }

  // ----- Reading tags ------------------------------------------------------------------

  function IndexOf(s: string, c: char): (i: int)
    ensures -1 <= i < |s| && (i >= 0 ==> s[i] == c)
    ensures forall j :: 0 <= j < |s| && (i < 0 || j < i) ==> s[j] != c
  {
    if s == [] then -1 else if s[0] == c then 0
    else
      var i := IndexOf(s[1..], c);
      assert forall j :: 1 <= j < |s| ==> s[j] == s[1..][j - 1];
      if i < 0 then -1 else i + 1
  }

  datatype Tag = Tag(key: string, value: string)

  /** The verifier's reading of one part; keys are folded to lower case. */
  function VerifierTag(part: string): Option<Tag> {
    var t := TrimSpace(part);
    var i := IndexOf(t, '=');
    if i <= 0 then None else Some(Tag(Lower(TrimSpace(t[..i])), TrimSpace(t[i + 1..])))
  }

  /** A later tag replaces an earlier one; an absent one is empty. */
  function LastTag(parts: seq<string>, key: string): string {
    if parts == [] then []
    else
      var t := VerifierTag(parts[|parts| - 1]);
      if t.Some? && t.value.key == key then t.value.value else LastTag(parts[..|parts| - 1], key)
  }

  function TagOf(v: string, key: string): string { LastTag(Split(v, ';'), key) }

  /** The signer's reading of one part; the key must match exactly. */
  function SignerTag(part: string): Option<Tag> {
    var t := TrimSpace(part);
    var i := IndexOf(t, '=');
    if i < 0 then None else Some(Tag(t[..i], TrimSpace(t[i + 1..])))
  }

  function FirstTag(parts: seq<string>, key: string): string {
    if parts == [] then []
    else
      var t := SignerTag(parts[0]);
      if t.Some? && t.value.key == key then t.value.value else FirstTag(parts[1..], key)
  }

  function ArcTag(v: string, key: string): string { FirstTag(Split(v, ';'), key) }

  // ----- Writing tags --------------------------------------------------------------------

  predicate CleanValue(v: string) { Spaceless(v) && ';' !in v }

  predicate CleanKey(k: string) { k != [] && forall i :: 0 <= i < |k| ==> 'a' <= k[i] <= 'z' }

  predicate CleanTags(tags: seq<Tag>) {
    && (forall i :: 0 <= i < |tags| ==> CleanKey(tags[i].key) && CleanValue(tags[i].value))
    && (forall i, j :: 0 <= i < j < |tags| ==> tags[i].key != tags[j].key)
  }

  function Show(t: Tag): string { t.key + "=" + t.value }

  function ShowAll(tags: seq<Tag>): (r: seq<string>)
    ensures |r| == |tags| && forall i :: 0 <= i < |r| ==> r[i] == Show(tags[i])
  {
    seq(|tags|, i requires 0 <= i < |tags| => Show(tags[i]))
  }

  function Render(tags: seq<Tag>): string { Join(ShowAll(tags), "; ") }

  function Spaced(parts: seq<string>): (r: seq<string>)
    ensures |r| == |parts| && forall i :: 0 <= i < |r| ==> r[i] == " " + parts[i]
  {
    if parts == [] then [] else [" " + parts[0]] + Spaced(parts[1..])
  }

  /** The parts as splitting at semicolons gives them back. */
  function Cut(parts: seq<string>): (r: seq<string>)
    requires parts != []
    ensures |r| == |parts| && r[0] == parts[0] && forall i :: 1 <= i < |r| ==> r[i] == " " + parts[i]
  {
    [parts[0]] + Spaced(parts[1..])
  }

  predicate Parts(parts: seq<string>) {
    parts != [] && forall i :: 0 <= i < |parts| ==> parts[i] != [] && ';' !in parts[i] && Tidy(parts[i])
  }

  lemma {:induction false} SplitRendered(lead: string, parts: seq<string>)
    requires parts != [] && (lead == "" || lead == " ") && forall i :: 0 <= i < |parts| ==> ';' !in parts[i]
    ensures Split(lead + Join(parts, "; "), ';') == [lead + parts[0]] + Spaced(parts[1..])
    decreases |parts|
  {
    if |parts| == 1 {
      SplitNone(lead + parts[0], ';');
      assert Spaced(parts[1..]) == [];
    } else {
      var rest := Join(parts[1..], "; ");
      SplitRendered(" ", parts[1..]);
      SplitFirst(lead + parts[0], " " + rest, ';');
      assert lead + Join(parts, "; ") == lead + parts[0] + [';'] + (" " + rest);
    }
  }

  lemma SplitParts(parts: seq<string>)
    requires Parts(parts)
    ensures Split(Join(parts, "; "), ';') == Cut(parts)
  {
    SplitRendered("", parts);
    assert "" + Join(parts, "; ") == Join(parts, "; ") && "" + parts[0] == parts[0];
  }

  lemma {:induction false} PartsAreTidy(parts: seq<string>)
    requires Parts(parts)
    ensures Tidy(Join(parts, "; ")) && Join(parts, "; ") != []
    decreases |parts|
  {
    if |parts| > 1 {
      PartsAreTidy(parts[1..]);
      TidyAppend(parts[0], "; ", Join(parts[1..], "; "));
    }
  }

  /** A part is read the same with the blank that the separator leaves before it. */
  lemma ReadSpaced(part: string)
    requires part != [] && Tidy(part)
    ensures VerifierTag(" " + part) == VerifierTag(part) && SignerTag(" " + part) == SignerTag(part)
    ensures TrimSpace(part) == part && TrimSpace(" " + part) == part
  {
    TidyEnds(part);
    TrimNothing(part);
  }

  lemma ShownIsPart(t: Tag)
    requires CleanKey(t.key) && CleanValue(t.value)
    ensures Show(t) != [] && ';' !in Show(t) && Tidy(Show(t)) && Spaceless(Show(t))
  {
    var s := Show(t);
    forall i | 0 <= i < |s| ensures !IsSpace(s[i]) && s[i] != ';' {
      if i < |t.key| {
        assert s[i] == t.key[i];
      } else if i > |t.key| {
        assert s[i] == t.value[i - |t.key| - 1];
      }
    }
  }

  lemma ReadShown(t: Tag)
    requires CleanKey(t.key) && CleanValue(t.value)
    ensures VerifierTag(Show(t)) == Some(t) && SignerTag(Show(t)) == Some(t)
  {
    var s := Show(t);
    ShownIsPart(t);
    TidyEnds(s);
    TrimNothing(s);
    KeyEnds(t);
    assert s[..|t.key|] == t.key && s[|t.key| + 1..] == t.value;
    SpacelessTrim(t.value);
    KeyIsPlain(t.key);
    TagOfPieces(s, |t.key|, t.key, t.value);
  }

  lemma KeyIsPlain(k: string)
    requires CleanKey(k)
    ensures TrimSpace(k) == k && Lower(k) == k
  {
    SpacelessTrim(k);
  }

  lemma TagOfPieces(s: string, i: nat, k: string, v: string)
    requires TrimSpace(s) == s && 0 < i < |s| && IndexOf(s, '=') == i && s[..i] == k && s[i + 1..] == v
    requires TrimSpace(k) == k && TrimSpace(v) == v && Lower(k) == k
    ensures VerifierTag(s) == Some(Tag(k, v)) && SignerTag(s) == Some(Tag(k, v))
  {
  }

  lemma KeyEnds(t: Tag)
    requires CleanKey(t.key)
    ensures IndexOf(Show(t), '=') == |t.key|
  {
    var s := Show(t);
    assert s[|t.key|] == '=';
    assert forall i :: 0 <= i < |t.key| ==> s[i] == t.key[i];
  }

  lemma SpacelessTrim(s: string)
    requires Spaceless(s)
    ensures TrimSpace(s) == s
  {
    TrimNothing(s);
  }

  lemma ShownParts(tags: seq<Tag>)
    requires tags != [] && CleanTags(tags)
    ensures Parts(ShowAll(tags))
  {
    forall i | 0 <= i < |tags| ensures Show(tags[i]) != [] && ';' !in Show(tags[i]) && Tidy(Show(tags[i])) {
      ShownIsPart(tags[i]);
    }
  }

  /** The verifier finds the last part with the key. */
  lemma {:induction false} LastTagAt(parts: seq<string>, j: nat, t: Tag)
    requires j < |parts| && VerifierTag(parts[j]) == Some(t)
    requires forall i :: j < i < |parts| ==> VerifierTag(parts[i]).None? || VerifierTag(parts[i]).value.key != t.key
    ensures LastTag(parts, t.key) == t.value
    decreases |parts|
  {
    if j < |parts| - 1 { LastTagAt(parts[..|parts| - 1], j, t); }
  }

  lemma {:induction false} LastTagNone(parts: seq<string>, key: string)
    requires forall i :: 0 <= i < |parts| ==> VerifierTag(parts[i]).None? || VerifierTag(parts[i]).value.key != key
    ensures LastTag(parts, key) == []
  {
    if parts != [] { LastTagNone(parts[..|parts| - 1], key); }
  }

  predicate HasKey(part: string, key: string) { VerifierTag(part).Some? && VerifierTag(part).value.key == key }

  /** The value of the last part with the key, if any part has it. */
  function LastValue(parts: seq<string>, key: string): Option<string> {
    if parts == [] then None
    else
      var n := |parts| - 1;
      if HasKey(parts[n], key) then Some(VerifierTag(parts[n]).value.value) else LastValue(parts[..n], key)
  }

  lemma {:induction false} LastTagIsLastValue(parts: seq<string>, key: string)
    ensures LastTag(parts, key) == if LastValue(parts, key).Some? then LastValue(parts, key).value else []
  {
    if parts != [] { LastTagIsLastValue(parts[..|parts| - 1], key); }
  }

  lemma {:induction false} LastValueAppend(a: seq<string>, b: seq<string>, key: string)
    ensures LastValue(a + b, key) == if LastValue(b, key).Some? then LastValue(b, key) else LastValue(a, key)
    decreases |b|
  {
    if b == [] {
      assert a + b == a;
    } else {
      var n := |b| - 1;
      assert (a + b)[..|a + b| - 1] == a + b[..n] && (a + b)[|a + b| - 1] == b[n];
      LastValueAppend(a, b[..n], key);
    }
  }

  lemma LastValueOne(part: string, key: string)
    ensures LastValue([part], key) == if HasKey(part, key) then Some(VerifierTag(part).value.value) else None
  {
    assert [part][..0] == [];
  }

  lemma {:induction false} SameLastValue(a: seq<string>, b: seq<string>, key: string)
    requires |a| == |b| && forall i :: 0 <= i < |a| ==> VerifierTag(a[i]) == VerifierTag(b[i])
    ensures LastValue(a, key) == LastValue(b, key)
  {
    if a != [] { SameLastValue(a[..|a| - 1], b[..|b| - 1], key); }
  }

  /** The verifier's reading of a joined list of parts. */
  lemma TagOfJoined(parts: seq<string>, key: string)
    requires Parts(parts)
    ensures TagOf(Join(parts, "; "), key) == if LastValue(parts, key).Some? then LastValue(parts, key).value else []
  {
    SplitParts(parts);
    forall i | 0 <= i < |parts| ensures VerifierTag(Cut(parts)[i]) == VerifierTag(parts[i]) { CutReads(parts, i); }
    SameLastValue(Cut(parts), parts, key);
    LastTagIsLastValue(Cut(parts), key);
  }

  lemma {:induction false} FirstTagAt(parts: seq<string>, j: nat, t: Tag)
    requires j < |parts| && SignerTag(parts[j]) == Some(t)
    requires forall i :: 0 <= i < j ==> SignerTag(parts[i]).None? || SignerTag(parts[i]).value.key != t.key
    ensures FirstTag(parts, t.key) == t.value
    decreases |parts|
  {
    if j > 0 { FirstTagAt(parts[1..], j - 1, t); }
  }

  lemma CutReads(parts: seq<string>, i: nat)
    requires Parts(parts) && i < |parts|
    ensures VerifierTag(Cut(parts)[i]) == VerifierTag(parts[i]) && SignerTag(Cut(parts)[i]) == SignerTag(parts[i])
    ensures TrimSpace(Cut(parts)[i]) == parts[i]
  {
    var part, cut := parts[i], Cut(parts)[i];
    ReadSpaced(part);
    CutAt(parts, i);
    assert cut == part || cut == " " + part;
  }

  lemma CutAt(parts: seq<string>, i: nat)
    requires i < |parts|
    ensures Cut(parts)[i] == if i == 0 then parts[0] else " " + parts[i]
  {
  }

  lemma CutReadsTag(tags: seq<Tag>, i: nat)
    requires tags != [] && CleanTags(tags) && i < |tags|
    ensures VerifierTag(Cut(ShowAll(tags))[i]) == Some(tags[i]) && SignerTag(Cut(ShowAll(tags))[i]) == Some(tags[i])
  {
    ShownParts(tags);
    CutReads(ShowAll(tags), i);
    ReadShown(tags[i]);
  }

  /** Both sides read back what was written. */
  lemma ReadRendered(tags: seq<Tag>, j: nat)
    requires CleanTags(tags) && j < |tags|
    ensures TagOf(Render(tags), tags[j].key) == tags[j].value && ArcTag(Render(tags), tags[j].key) == tags[j].value
  {
    ShownParts(tags);
    SplitParts(ShowAll(tags));
    var parts := Cut(ShowAll(tags));
    forall i | 0 <= i < |parts| ensures VerifierTag(parts[i]) == Some(tags[i]) && SignerTag(parts[i]) == Some(tags[i]) {
      CutReadsTag(tags, i);
    }
    LastTagAt(parts, j, tags[j]);
    FirstTagAt(parts, j, tags[j]);
  }

  lemma ReadAbsent(tags: seq<Tag>, key: string)
    requires tags != [] && CleanTags(tags) && forall i :: 0 <= i < |tags| ==> tags[i].key != key
    ensures TagOf(Render(tags), key) == []
  {
    ShownParts(tags);
    SplitParts(ShowAll(tags));
    var parts := Cut(ShowAll(tags));
    forall i | 0 <= i < |parts| ensures VerifierTag(parts[i]) == Some(tags[i]) {
      CutReadsTag(tags, i);
    }
    LastTagNone(parts, key);
  }

  lemma RenderedIsTidy(tags: seq<Tag>)
    requires tags != [] && CleanTags(tags)
    ensures Tidy(Render(tags)) && Collapse(Render(tags)) == Render(tags)
  {
    ShownParts(tags);
    PartsAreTidy(ShowAll(tags));
    TidyCollapses(Render(tags));
  }

  // ----- The signature tag ------------------------------------------------------------------

  function BlankB(part: string): string { if HasPrefix(Lower(TrimSpace(part)), "b=") then " b=" else part }

  function BlankAll(parts: seq<string>): (r: seq<string>)
    ensures |r| == |parts| && forall i :: 0 <= i < |r| ==> r[i] == BlankB(parts[i])
  {
    seq(|parts|, i requires 0 <= i < |parts| => BlankB(parts[i]))
  }

  /** The header value as it was before the signature was put in. */
  function StripB(v: string): string { TrimSpace(Join(BlankAll(Split(v, ';')), ";")) }

  lemma {:induction false} JoinCut(parts: seq<string>)
    requires parts != []
    ensures Join(Cut(parts), ";") == Join(parts, "; ")
    decreases |parts|
  {
    if |parts| > 1 {
      JoinSpaced(parts[1..]);
      assert Cut(parts)[1..] == Spaced(parts[1..]);
    } else {
      assert Cut(parts) == parts;
    }
  }

  lemma {:induction false} JoinSpaced(parts: seq<string>)
    requires parts != []
    ensures Join(Spaced(parts), ";") == " " + Join(parts, "; ")
    decreases |parts|
  {
    if |parts| > 1 {
      JoinSpaced(parts[1..]);
      assert Spaced(parts)[1..] == Spaced(parts[1..]);
    }
  }

  lemma BlankOther(t: Tag, part: string)
    requires CleanKey(t.key) && CleanValue(t.value) && TrimSpace(part) == Show(t)
    ensures BlankB(part) == if t.key == "b" then " b=" else part
  {
    var s := Lower(Show(t));
    assert |s| >= 2 && s[..2] == [s[0], s[1]];
    assert forall i :: 0 <= i < |t.key| ==> Show(t)[i] == t.key[i];
    assert Show(t)[|t.key|] == '=';
    if t.key == "b" {
      assert s[..2] == "b=";
    } else if |t.key| == 1 {
      assert t.key[0] != 'b' by { assert t.key == [t.key[0]]; }
      assert s[0] == t.key[0];
    } else {
      assert s[1] == t.key[1];
    }
  }

  /** The tags as they were signed, with an empty signature. */
  function Unsigned(tags: seq<Tag>): seq<Tag>
    requires tags != []
  {
    tags[|tags| - 1 := Tag("b", "")]
  }

  lemma UnsignedIsClean(tags: seq<Tag>)
    requires tags != [] && CleanTags(tags) && tags[|tags| - 1].key == "b"
    ensures CleanTags(Unsigned(tags))
  {
  }

  function Prefixed(i: nat, part: string): string { if i == 0 then part else " " + part }

  lemma ShownAt(tags: seq<Tag>, i: nat)
    requires i < |tags|
    ensures Cut(ShowAll(tags))[i] == Prefixed(i, Show(tags[i]))
  {
  }

  lemma BlankPrefixed(t: Tag, i: nat)
    requires CleanKey(t.key) && CleanValue(t.value)
    ensures BlankB(Prefixed(i, Show(t))) == if t.key == "b" then " b=" else Prefixed(i, Show(t))
  {
    ShownIsPart(t);
    ReadSpaced(Show(t));
    BlankOther(t, Prefixed(i, Show(t)));
  }

  predicate Blanks(part: string, out: string) { BlankB(part) == out }

  lemma BlankIsUnsigned(tags: seq<Tag>, i: nat)
    requires |tags| >= 2 && CleanTags(tags) && tags[|tags| - 1].key == "b" && i < |tags|
    ensures Prefixed(i, Show(Unsigned(tags)[i])) == if tags[i].key == "b" then " b=" else Prefixed(i, Show(tags[i]))
  {
    if i < |tags| - 1 {
      assert tags[i].key != "b";
    } else {
      assert " " + Show(Tag("b", "")) == " b=";
    }
  }

  lemma BlankOne(tags: seq<Tag>, i: nat)
    requires |tags| >= 2 && CleanTags(tags) && tags[|tags| - 1].key == "b" && i < |tags|
    ensures Blanks(Prefixed(i, Show(tags[i])), Prefixed(i, Show(Unsigned(tags)[i])))
  {
    BlankPrefixed(tags[i], i);
    BlankIsUnsigned(tags, i);
  }

  lemma BlankEach(tags: seq<Tag>, parts: seq<string>, want: seq<string>)
    requires |tags| >= 2 && CleanTags(tags) && tags[|tags| - 1].key == "b" && |parts| == |want| == |tags|
    requires forall i :: 0 <= i < |parts| ==> parts[i] == Prefixed(i, Show(tags[i]))
    requires forall i :: 0 <= i < |want| ==> want[i] == Prefixed(i, Show(Unsigned(tags)[i]))
    ensures BlankAll(parts) == want
  {
    forall i | 0 <= i < |parts| ensures Blanks(parts[i], want[i]) { BlankOne(tags, i); }
    BlankAllIs(parts, want);
  }

  lemma BlankAllShown(tags: seq<Tag>)
    requires |tags| >= 2 && CleanTags(tags) && tags[|tags| - 1].key == "b"
    ensures BlankAll(Cut(ShowAll(tags))) == Cut(ShowAll(Unsigned(tags)))
  {
    var parts, want := Cut(ShowAll(tags)), Cut(ShowAll(Unsigned(tags)));
    forall i | 0 <= i < |parts| ensures parts[i] == Prefixed(i, Show(tags[i])) { ShownAt(tags, i); }
    forall i | 0 <= i < |want| ensures want[i] == Prefixed(i, Show(Unsigned(tags)[i])) { ShownAt(Unsigned(tags), i); }
    BlankEach(tags, parts, want);
  }

  lemma BlankAllIs(parts: seq<string>, want: seq<string>)
    requires |parts| == |want| && forall i :: 0 <= i < |parts| ==> Blanks(parts[i], want[i])
    ensures BlankAll(parts) == want
  {
  }

  lemma TrimRendered(tags: seq<Tag>)
    requires tags != [] && CleanTags(tags)
    ensures TrimSpace(Render(tags)) == Render(tags)
  {
    ShownParts(tags);
    PartsAreTidy(ShowAll(tags));
    TidyEnds(Render(tags));
    TrimNothing(Render(tags));
  }

  /** Stripping the signature gives back the text that was signed. */
  lemma StripRendered(tags: seq<Tag>)
    requires |tags| >= 2 && CleanTags(tags) && tags[|tags| - 1].key == "b"
    ensures StripB(Render(tags)) == Render(Unsigned(tags))
  {
    ShownParts(tags);
    SplitParts(ShowAll(tags));
    BlankAllShown(tags);
    UnsignedIsClean(tags);
    StripFound(Render(tags), Unsigned(tags));
  }

  lemma StripFound(v: string, base: seq<Tag>)
    requires base != [] && CleanTags(base) && BlankAll(Split(v, ';')) == Cut(ShowAll(base))
    ensures StripB(v) == Render(base)
  {
    JoinCut(ShowAll(base));
    TrimRendered(base);
  }

  // ----- Parts of tidy text ------------------------------------------------------------------

  /** No two blanks in a row, and no other white space. */
  predicate Single(s: string) {
    forall i :: 0 <= i < |s| && IsSpace(s[i]) ==> s[i] == ' ' && (i + 1 < |s| ==> !IsSpace(s[i + 1]))
  }

  lemma {:induction false} SplitSingle(s: string, c: char)
    requires Single(s)
    ensures forall j :: 0 <= j < |Split(s, c)| ==> Single(Split(s, c)[j])
    ensures Split(s, c)[0] <= s
    decreases |s|
  {
    if s != [] {
      var tail := s[1..];
      assert forall i :: 0 <= i < |tail| ==> tail[i] == s[i + 1];
      SplitSingle(tail, c);
      var rest := Split(tail, c);
      if s[0] != c {
        var head := [s[0]] + rest[0];
        assert forall i :: 0 <= i < |rest[0]| ==> rest[0][i] == tail[i];
        assert Onto(s[0], rest)[0] == head;
        assert forall i :: 0 <= i < |head| ==> head[i] == s[i];
      }
    }
  }

  lemma {:induction false} TrimLeftSingle(s: string)
    requires Single(s)
    ensures Single(TrimLeft(s)) && (TrimLeft(s) != [] ==> !IsSpace(TrimLeft(s)[0]))
    ensures forall i :: 0 <= i < |TrimLeft(s)| ==> TrimLeft(s)[i] in s
    decreases |s|
  {
    if s != [] && IsSpace(s[0]) {
      assert forall i :: 0 <= i < |s[1..]| ==> s[1..][i] == s[i + 1];
      TrimLeftSingle(s[1..]);
    }
  }

  lemma {:induction false} TrimRightTidy(s: string)
    requires Single(s) && (s != [] ==> !IsSpace(s[0]))
    ensures Tidy(TrimRight(s)) && TrimRight(s) <= s
    decreases |s|
  {
    if s != [] && IsSpace(s[|s| - 1]) {
      TrimRightTidy(s[..|s| - 1]);
    }
  }

  lemma TrimSingle(s: string)
    requires Single(s)
    ensures Tidy(TrimSpace(s)) && forall i :: 0 <= i < |TrimSpace(s)| ==> TrimSpace(s)[i] in s
  {
    TrimLeftSingle(s);
    TrimRightTidy(TrimLeft(s));
    assert forall i :: 0 <= i < |TrimSpace(s)| ==> TrimSpace(s)[i] == TrimLeft(s)[i];
  }
}
