/**
 * DKIM2 recipes: going back from a message to the one an earlier instance
 * signed. Header recipes sit in a Go map, whose iteration order is arbitrary;
 * here the order is an explicit argument.
 */
module Dkim2Recipes {
  import opened Common
  import opened Ordering
  import opened Text

  datatype Field = Field(name: string, value: string)

  /** A step with exactly one operation; Broken stands for none, several or undecodable ones. */
  datatype Step = Copy(range: seq<int>) | Literal(values: seq<string>) | Broken

  datatype Recipe = Recipe(headers: map<string, seq<Step>>, body: Option<seq<Step>>)

  // ----- Steps --------------------------------------------------------------------

  predicate ValidRange(range: seq<int>, available: nat, previous: int) {
    |range| == 2 && range[0] >= 1 && range[1] >= range[0] && range[0] > previous && range[1] <= available
  }

  predicate ValidLiteral(values: seq<string>) {
    forall i :: 0 <= i < |values| ==> CR !in values[i] && LF !in values[i]
  }

  function Literals(name: string, values: seq<string>): (r: seq<Field>)
    ensures |r| == |values| && forall i :: 0 <= i < |r| ==> r[i] == Field(name, values[i])
  {
    if values == [] then [] else [Field(name, values[0])] + Literals(name, values[1..])
  }

  /** What one header step emits, or None on error. */
  function Emitted(name: string, existing: seq<Field>, step: Step, last: nat): Option<seq<Field>> {
    match step
    case Copy(range) => if ValidRange(range, |existing|, last) then Some(existing[range[0] - 1..range[1]]) else None
    case Literal(values) => if ValidLiteral(values) then Some(Literals(name, values)) else None
    case Broken => None
  }

  function LastAfter(step: Step, available: nat, last: nat): nat {
    if step.Copy? && ValidRange(step.range, available, last) then step.range[1] else last
  }

  /** Each step's fields go in front of those before it. */
  function HeaderSteps(name: string, existing: seq<Field>, steps: seq<Step>, last: nat,
                       out: seq<Field>): Option<seq<Field>>
    decreases |steps|
  {
    if steps == [] then Some(out)
    else
      var e := Emitted(name, existing, steps[0], last);
      if e.None? then None
      else HeaderSteps(name, existing, steps[1..], LastAfter(steps[0], |existing|, last), e.value + out)
  }

  method ApplyHeaderSteps(name: string, existing: seq<Field>, steps: seq<Step>) returns (r: Option<seq<Field>>)
    ensures r == HeaderSteps(name, existing, steps, 0, [])
  {
    var output: seq<Field>, lastCopy := [], 0;
    for i := 0 to |steps|
      invariant lastCopy >= 0
      invariant HeaderSteps(name, existing, steps[i..], lastCopy, output) == HeaderSteps(name, existing, steps, 0, [])
    {
      assert steps[i..][0] == steps[i] && steps[i..][1..] == steps[i + 1..];
      match steps[i] {
        case Broken => return None;
        case Copy(range) =>
          if !ValidRange(range, |existing|, lastCopy) { return None; }
          output := existing[range[0] - 1..range[1]] + output;
          lastCopy := range[1];
        case Literal(values) =>
          if !ValidLiteral(values) { return None; }
          output := Literals(name, values) + output;
      }
    }
    return Some(output);
  }

  // ----- Groups of fields -------------------------------------------------------------

  /** The fields with this lower-case name, in order. */
  function Group(headers: seq<Field>, name: string): seq<Field> {
    if headers == [] then []
    else (if Lower(headers[0].name) == name then [headers[0]] else []) + Group(headers[1..], name)
  }

  function Without(headers: seq<Field>, name: string): seq<Field> {
    if headers == [] then []
    else (if Lower(headers[0].name) == name then [] else [headers[0]]) + Without(headers[1..], name)
  }

  function Reverse(s: seq<Field>): (r: seq<Field>)
    ensures |r| == |s| && forall i :: 0 <= i < |r| ==> r[i] == s[|s| - 1 - i]
  {
    if s == [] then [] else Reverse(s[1..]) + [s[0]]
  }

  predicate AllNamed(fields: seq<Field>, name: string) {
    forall i :: 0 <= i < |fields| ==> Lower(fields[i].name) == name
  }

  lemma {:induction false} GroupAppend(a: seq<Field>, b: seq<Field>, name: string)
    ensures Group(a + b, name) == Group(a, name) + Group(b, name)
    decreases |a|
  {
    if a == [] {
      assert a + b == b;
    } else {
      GroupAppend(a[1..], b, name);
      assert (a + b)[1..] == a[1..] + b;
    }
  }

  lemma {:induction false} GroupNamed(headers: seq<Field>, name: string)
    ensures AllNamed(Group(headers, name), name)
  {
    if headers != [] { GroupNamed(headers[1..], name); }
  }

  lemma {:induction false} GroupOfNamed(fields: seq<Field>, name: string, other: string)
    requires AllNamed(fields, name)
    ensures Group(fields, other) == if other == name then fields else []
  {
    if fields != [] { GroupOfNamed(fields[1..], name, other); }
  }

  lemma {:induction false} GroupWithout(headers: seq<Field>, name: string, other: string)
    ensures Group(Without(headers, name), other) == if other == name then [] else Group(headers, other)
    decreases |headers|
  {
    if headers != [] {
      GroupWithout(headers[1..], name, other);
      var head := if Lower(headers[0].name) == name then [] else [headers[0]];
      GroupAppend(head, Without(headers[1..], name), other);
    }
  }

  // ----- One recipe, header names taken in a given order -----------------------------------

  predicate ValidName(name: string) {
    name != "" && forall i :: 0 <= i < |name| ==> 'a' <= name[i] <= 'z' || '0' <= name[i] <= '9' || name[i] == '-'
  }

  /** The new fields of one name. */
  function Rebuilt(name: string, group: seq<Field>, steps: seq<Step>): Option<seq<Field>> {
    if !ValidName(name) then None else HeaderSteps(name, Reverse(group), steps, 0, [])
  }

  function Rewrite(headers: seq<Field>, name: string, steps: seq<Step>): Option<seq<Field>> {
    var values := Rebuilt(name, Group(headers, name), steps);
    if values.None? then None else Some(Without(headers, name) + values.value)
  }

  function RewriteAll(headers: seq<Field>, recipes: map<string, seq<Step>>, order: seq<string>): Option<seq<Field>>
    requires forall i :: 0 <= i < |order| ==> order[i] in recipes
    decreases |order|
  {
    if order == [] then Some(headers)
    else
      var h := Rewrite(headers, order[0], recipes[order[0]]);
      if h.None? then None else RewriteAll(h.value, recipes, order[1..])
  }

  lemma LowerOfValid(name: string)
    requires ValidName(name)
    ensures Lower(name) == name
  {
  }

  lemma {:induction false} StepsNamed(name: string, existing: seq<Field>, steps: seq<Step>, last: nat, out: seq<Field>)
    requires AllNamed(existing, name) && AllNamed(out, name) && Lower(name) == name
    ensures
      var r := HeaderSteps(name, existing, steps, last, out);
      r.Some? ==> AllNamed(r.value, name)
    decreases |steps|
  {
    if steps != [] {
      var e := Emitted(name, existing, steps[0], last);
      if e.Some? {
        assert AllNamed(e.value, name);
        StepsNamed(name, existing, steps[1..], LastAfter(steps[0], |existing|, last), e.value + out);
      }
    }
  }

  lemma RebuiltNamed(headers: seq<Field>, name: string, steps: seq<Step>)
    ensures
      var r := Rebuilt(name, Group(headers, name), steps);
      r.Some? ==> AllNamed(r.value, name)
  {
    if ValidName(name) {
      LowerOfValid(name);
      GroupNamed(headers, name);
      StepsNamed(name, Reverse(Group(headers, name)), steps, 0, []);
    }
  }

  /** Rewriting one name changes that group only. */
  lemma RewriteGroups(headers: seq<Field>, name: string, steps: seq<Step>, other: string)
    requires Rewrite(headers, name, steps).Some?
    ensures Group(Rewrite(headers, name, steps).value, other) ==
      if other == name then Rebuilt(name, Group(headers, name), steps).value else Group(headers, other)
  {
    var values := Rebuilt(name, Group(headers, name), steps).value;
    RebuiltNamed(headers, name, steps);
    GroupAppend(Without(headers, name), values, other);
    GroupWithout(headers, name, other);
    GroupOfNamed(values, name, other);
  }

  predicate Distinct(order: seq<string>) { forall i, j :: 0 <= i < j < |order| ==> order[i] != order[j] }

  /** A complete pass over the recipe's names in some order. */
  predicate IsOrder(recipes: map<string, seq<Step>>, order: seq<string>) {
    Distinct(order) && (forall i :: 0 <= i < |order| ==> order[i] in recipes) && forall n :: n in recipes ==> n in order
  }

  /** Whether a name's recipe applies, and its outcome, decided on the original message. */
  ghost predicate Applies(headers: seq<Field>, recipes: map<string, seq<Step>>, names: seq<string>)
    requires forall i :: 0 <= i < |names| ==> names[i] in recipes
  {
    forall i :: 0 <= i < |names| ==> Rebuilt(names[i], Group(headers, names[i]), recipes[names[i]]).Some?
  }

  /** After one name is rewritten the other names' recipes see the groups they saw before. */
  lemma AppliesStep(headers: seq<Field>, next: seq<Field>, recipes: map<string, seq<Step>>, order: seq<string>)
    requires order != [] && forall i :: 0 <= i < |order| ==> order[i] in recipes
    requires forall i :: 1 <= i < |order| ==> Group(next, order[i]) == Group(headers, order[i])
    ensures Applies(headers, recipes, order) <==>
      Rebuilt(order[0], Group(headers, order[0]), recipes[order[0]]).Some? && Applies(next, recipes, order[1..])
  {
    var rest := order[1..];
    assert forall i :: 0 <= i < |rest| ==> rest[i] == order[i + 1];
    if Applies(next, recipes, rest) {
      forall i | 1 <= i < |order| ensures Rebuilt(order[i], Group(headers, order[i]), recipes[order[i]]).Some? {
        assert rest[i - 1] == order[i];
      }
    }
  }

  lemma OthersKeepGroups(headers: seq<Field>, recipes: map<string, seq<Step>>, order: seq<string>)
    requires order != [] && Distinct(order) && order[0] in recipes
    requires Rewrite(headers, order[0], recipes[order[0]]).Some?
    ensures forall i :: 1 <= i < |order| ==>
      Group(Rewrite(headers, order[0], recipes[order[0]]).value, order[i]) == Group(headers, order[i])
  {
    forall i | 1 <= i < |order|
      ensures Group(Rewrite(headers, order[0], recipes[order[0]]).value, order[i]) == Group(headers, order[i])
    {
      RewriteGroups(headers, order[0], recipes[order[0]], order[i]);
    }
  }

  /** The group a pass leaves under a name. */
  function Outcome(headers: seq<Field>, recipes: map<string, seq<Step>>, order: seq<string>,
                   n: string): Option<seq<Field>> {
    if n in order && n in recipes then Rebuilt(n, Group(headers, n), recipes[n]) else Some(Group(headers, n))
  }

  lemma {:induction false} PassSucceeds(headers: seq<Field>, recipes: map<string, seq<Step>>, order: seq<string>)
    requires Distinct(order) && forall i :: 0 <= i < |order| ==> order[i] in recipes
    ensures RewriteAll(headers, recipes, order).Some? <==> Applies(headers, recipes, order)
    decreases |order|
  {
    if order != [] {
      var h := Rewrite(headers, order[0], recipes[order[0]]);
      if h.Some? {
        OthersKeepGroups(headers, recipes, order);
        AppliesStep(headers, h.value, recipes, order);
        PassSucceeds(h.value, recipes, order[1..]);
      }
    }
  }

  lemma FirstOrLater(order: seq<string>, n: string)
    requires order != [] && Distinct(order)
    ensures (n in order <==> n == order[0] || n in order[1..]) && order[0] !in order[1..]
  {
    assert order == [order[0]] + order[1..];
  }

  /** A rewrite of one name, seen from a name's outcome. */
  lemma OutcomeStep(headers: seq<Field>, recipes: map<string, seq<Step>>, order: seq<string>, n: string)
    requires order != [] && Distinct(order) && order[0] in recipes
    requires Rewrite(headers, order[0], recipes[order[0]]).Some?
    ensures Outcome(Rewrite(headers, order[0], recipes[order[0]]).value, recipes, order[1..], n) ==
      Outcome(headers, recipes, order, n)
  {
    FirstOrLater(order, n);
    RewriteGroups(headers, order[0], recipes[order[0]], n);
  }

  /** The outcome of a pass, group by group, in terms of the message before it. */
  lemma {:induction false} PassIsGroupwise(headers: seq<Field>, recipes: map<string, seq<Step>>, order: seq<string>,
                                           n: string)
    requires Distinct(order) && forall i :: 0 <= i < |order| ==> order[i] in recipes
    requires RewriteAll(headers, recipes, order).Some?
    ensures Some(Group(RewriteAll(headers, recipes, order).value, n)) == Outcome(headers, recipes, order, n)
    decreases |order|
  {
    if order != [] {
      OutcomeStep(headers, recipes, order, n);
      PassIsGroupwise(Rewrite(headers, order[0], recipes[order[0]]).value, recipes, order[1..], n);
    }
  }

  /** Two messages with the same fields under every name, however the names are interleaved. */
  ghost predicate SameGroups(a: seq<Field>, b: seq<Field>) {
    forall n :: Group(a, n) == Group(b, n)
  }

  /** Neither success nor the groups depend on the order in which the map is walked. */
  lemma OrderDoesNotMatter(a: seq<Field>, b: seq<Field>, recipes: map<string, seq<Step>>, order: seq<string>,
                           other: seq<string>)
    requires SameGroups(a, b) && IsOrder(recipes, order) && IsOrder(recipes, other)
    ensures
      var x, y := RewriteAll(a, recipes, order), RewriteAll(b, recipes, other);
      (x.Some? <==> y.Some?) && (x.Some? ==> SameGroups(x.value, y.value))
  {
    SameApplies(a, b, recipes, order, other);
    PassSucceeds(a, recipes, order);
    PassSucceeds(b, recipes, other);
    var x, y := RewriteAll(a, recipes, order), RewriteAll(b, recipes, other);
    if x.Some? {
      forall n ensures Group(x.value, n) == Group(y.value, n) {
        PassIsGroupwise(a, recipes, order, n);
        PassIsGroupwise(b, recipes, other, n);
        assert Group(a, n) == Group(b, n);
        assert n in order <==> n in other;
      }
    }
  }

  lemma SameApplies(a: seq<Field>, b: seq<Field>, recipes: map<string, seq<Step>>, order: seq<string>,
                    other: seq<string>)
    requires SameGroups(a, b) && IsOrder(recipes, order) && IsOrder(recipes, other)
    ensures Applies(a, recipes, order) <==> Applies(b, recipes, other)
  {
    AppliesToAll(a, recipes, order);
    AppliesToAll(b, recipes, other);
    assert forall n :: Group(a, n) == Group(b, n);
  }

  lemma AppliesToAll(h: seq<Field>, recipes: map<string, seq<Step>>, order: seq<string>)
    requires IsOrder(recipes, order)
    ensures Applies(h, recipes, order) <==> forall n :: n in recipes ==> Rebuilt(n, Group(h, n), recipes[n]).Some?
  {
    if Applies(h, recipes, order) {
      forall n | n in recipes ensures Rebuilt(n, Group(h, n), recipes[n]).Some? {
        var i :| 0 <= i < |order| && order[i] == n;
      }
    }
  }

  // ----- Body ------------------------------------------------------------------------------

  function LinesOf(s: string): seq<string> {
    if s == [] then [[]]
    else if HasPrefix(s, CRLF) then [[]] + LinesOf(s[2..])
    else
      var rest := LinesOf(s[1..]);
      if rest == [] then [[s[0]]] else Onto(s[0], rest)
  }

  function DropCrlf(s: string): string {
    if |s| >= 2 && s[|s| - 2..] == CRLF then s[..|s| - 2] else s
  }

  function SplitBody(body: string): seq<string> {
    var value := DropCrlf(body);
    if value == [] then [] else LinesOf(value)
  }

  function LineSteps(existing: seq<string>, steps: seq<Step>, last: nat, out: seq<string>): Option<seq<string>>
    decreases |steps|
  {
    if steps == [] then Some(out)
    else
      match steps[0]
      case Broken => None
      case Copy(range) =>
        if ValidRange(range, |existing|, last) then LineSteps(existing, steps[1..], range[1],
                                                              out + existing[range[0] - 1..range[1]]) else None
      case Literal(values) => if ValidLiteral(values) then LineSteps(existing, steps[1..], last, out + values) else None
  }

  method ApplyLineSteps(existing: seq<string>, steps: seq<Step>) returns (r: Option<seq<string>>)
    ensures r == LineSteps(existing, steps, 0, [])
  {
    var output: seq<string>, lastCopy := [], 0;
    for i := 0 to |steps|
      invariant lastCopy >= 0
      invariant LineSteps(existing, steps[i..], lastCopy, output) == LineSteps(existing, steps, 0, [])
    {
      assert steps[i..][0] == steps[i] && steps[i..][1..] == steps[i + 1..];
      match steps[i] {
        case Broken => return None;
        case Copy(range) =>
          if !ValidRange(range, |existing|, lastCopy) { return None; }
          output := output + existing[range[0] - 1..range[1]];
          lastCopy := range[1];
        case Literal(values) =>
          if !ValidLiteral(values) { return None; }
          output := output + values;
      }
    }
    return Some(output);
  }

  /** Where an output line comes from: a line of the current body, or the recipe's own text. */
  datatype Origin = Line(index: nat) | Own

  function Span(from: nat, n: nat): (r: seq<Origin>)
    ensures |r| == n && forall i :: 0 <= i < n ==> r[i] == Line(from + i)
    decreases n
  {
    if n == 0 then [] else [Line(from)] + Span(from + 1, n - 1)
  }

  function Owns(n: nat): (r: seq<Origin>)
    ensures |r| == n && forall i :: 0 <= i < n ==> r[i] == Own
  {
    if n == 0 then [] else [Own] + Owns(n - 1)
  }

  /**
   * The origins explain the lines: copied ones are where they say, in strictly
   * increasing order, all before `limit`.
   */
  predicate Explains(existing: seq<string>, origins: seq<Origin>, out: seq<string>, limit: nat) {
    && |origins| == |out| && limit <= |existing|
    && (forall i :: 0 <= i < |out| && origins[i].Line? ==>
        origins[i].index < limit && out[i] == existing[origins[i].index])
    && (forall i, j :: 0 <= i < j < |out| && origins[i].Line? && origins[j].Line? ==>
        origins[i].index < origins[j].index)
  }

  lemma CopyExplained(existing: seq<string>, origins: seq<Origin>, out: seq<string>, last: nat, range: seq<int>)
    requires Explains(existing, origins, out, last) && ValidRange(range, |existing|, last)
    ensures Explains(existing, origins + Span(range[0] - 1, range[1] - range[0] + 1),
                     out + existing[range[0] - 1..range[1]], range[1])
  {
    var lines, from := existing[range[0] - 1..range[1]], range[0] - 1;
    var more, all := origins + Span(from, |lines|), out + lines;
    assert forall i :: 0 <= i < |out| ==> more[i] == origins[i] && all[i] == out[i];
    assert forall i :: |out| <= i < |all| ==>
      more[i] == Line(from + (i - |out|)) && all[i] == existing[from + (i - |out|)];
  }

  lemma OwnExplained(existing: seq<string>, origins: seq<Origin>, out: seq<string>, last: nat, values: seq<string>)
    requires Explains(existing, origins, out, last)
    ensures Explains(existing, origins + Owns(|values|), out + values, last)
  {
    var more, all := origins + Owns(|values|), out + values;
    assert forall i :: 0 <= i < |out| ==> more[i] == origins[i] && all[i] == out[i];
    assert forall i :: |out| <= i < |all| ==> more[i] == Own;
  }

  /** Copied body lines keep their order and none is copied twice, for every recipe that applies. */
  lemma {:induction false} CopiedLinesKeepOrder(existing: seq<string>, steps: seq<Step>, last: nat, out: seq<string>,
                                                origins: seq<Origin>)
    returns (all: seq<Origin>)
    requires Explains(existing, origins, out, last) && LineSteps(existing, steps, last, out).Some?
    ensures Explains(existing, all, LineSteps(existing, steps, last, out).value, |existing|) && origins <= all
    decreases |steps|
  {
    if steps == [] {
      all := origins;
    } else {
      match steps[0]
      case Copy(range) =>
        CopyExplained(existing, origins, out, last, range);
        all := CopiedLinesKeepOrder(existing, steps[1..], range[1], out + existing[range[0] - 1..range[1]],
                                    origins + Span(range[0] - 1, range[1] - range[0] + 1));
      case Literal(values) =>
        OwnExplained(existing, origins, out, last, values);
        all := CopiedLinesKeepOrder(existing, steps[1..], last, out + values, origins + Owns(|values|));
    }
  }

  function PreviousBody(body: string, steps: Option<seq<Step>>): Option<string> {
    if steps.None? then Some(body)
    else
      var r := LineSteps(SplitBody(body), steps.value, 0, []);
      if r.None? then None else Some(Join(r.value, CRLF) + CRLF)
  }

  lemma {:induction false} JoinLines(s: string)
    ensures LinesOf(s) != [] && Join(LinesOf(s), CRLF) == s
    decreases |s|
  {
    if s != [] {
      if HasPrefix(s, CRLF) {
        JoinLines(s[2..]);
        assert LinesOf(s)[1..] == LinesOf(s[2..]);
        assert s == CRLF + s[2..];
      } else {
        JoinLines(s[1..]);
        JoinOnto(s[0], LinesOf(s[1..]));
      }
    }
  }

  lemma JoinOnto(c: char, parts: seq<string>)
    requires parts != []
    ensures Join(Onto(c, parts), CRLF) == [c] + Join(parts, CRLF)
  {
    assert Onto(c, parts)[1..] == parts[1..];
  }

  /** A recipe that copies every line gives the body back. */
  lemma CopyingEveryLineIsIdentity(body: string)
    requires |body| > 2 && body[|body| - 2..] == CRLF
    ensures PreviousBody(body, Some([Copy([1, |SplitBody(body)|])])) == Some(body)
  {
    var lines := SplitBody(body);
    var steps := [Copy([1, |lines|])];
    JoinLines(DropCrlf(body));
    assert steps[1..] == [] && [] + lines[0..|lines|] == lines;
    assert LineSteps(lines, steps, 0, []) == LineSteps(lines, [], |lines|, lines);
    assert DropCrlf(body) + CRLF == body;
  }

  // ----- Canonical headers ---------------------------------------------------------------

  predicate Ignored(name: string) {
    HasPrefix(name, "received-") || HasPrefix(name, "x-") ||
    name in {"apparently-to", "arc-authentication-results", "arc-message-signature", "arc-seal",
             "authentication-results", "auto-submitted", "delivered-to", "dkim-signature", "dl-expansion-history",
             "original-recipient", "received", "return-path", "sio-label-history", "vbr-info", "x400-received", "x400-trace"}
  }

  predicate Signed(name: string) { !Ignored(name) && name != "message-instance" && name != "dkim2-signature" }

  function Rendered(f: Field): string { Lower(f.name) + ":" + TrimRightSet(Collapse(f.value), " \t") + CRLF }

  /** The fields of one name, last one first. */
  function GroupText(group: seq<Field>): string {
    if group == [] then [] else GroupText(group[1..]) + Rendered(group[0])
  }

  function SignedNames(headers: seq<Field>): set<string> {
    set i | 0 <= i < |headers| && Signed(Lower(headers[i].name)) :: Lower(headers[i].name)
  }

  function TextOf(headers: seq<Field>, names: seq<string>): string {
    if names == [] then [] else GroupText(Group(headers, names[0])) + TextOf(headers, names[1..])
  }

  ghost function Canonical(headers: seq<Field>): string { TextOf(headers, Sorted(SignedNames(headers))) }

  lemma {:induction false} NamedIffGrouped(headers: seq<Field>, n: string)
    ensures n in SignedNames(headers) <==> Signed(n) && Group(headers, n) != []
    decreases |headers|
  {
    if headers != [] {
      var tail := headers[1..];
      NamedIffGrouped(tail, n);
      if n in SignedNames(headers) {
        var i :| 0 <= i < |headers| && Signed(Lower(headers[i].name)) && Lower(headers[i].name) == n;
        if i > 0 { assert tail[i - 1] == headers[i]; }
      }
      if n in SignedNames(tail) {
        var i :| 0 <= i < |tail| && Signed(Lower(tail[i].name)) && Lower(tail[i].name) == n;
        assert headers[i + 1] == tail[i];
      }
      if Signed(n) && Lower(headers[0].name) == n { assert n in SignedNames(headers); }
    }
  }

  lemma {:induction false} TextOfGroups(a: seq<Field>, b: seq<Field>, names: seq<string>)
    requires SameGroups(a, b)
    ensures TextOf(a, names) == TextOf(b, names)
    decreases |names|
  {
    if names != [] {
      assert Group(a, names[0]) == Group(b, names[0]);
      TextOfGroups(a, b, names[1..]);
    }
  }

  /** The canonical form depends on the groups alone. */
  lemma CanonicalOfGroups(a: seq<Field>, b: seq<Field>)
    requires SameGroups(a, b)
    ensures Canonical(a) == Canonical(b)
  {
    forall n ensures n in SignedNames(a) <==> n in SignedNames(b) {
      NamedIffGrouped(a, n);
      NamedIffGrouped(b, n);
      assert Group(a, n) == Group(b, n);
    }
    assert SignedNames(a) == SignedNames(b);
    TextOfGroups(a, b, Sorted(SignedNames(a)));
  }

  // ----- Several instances back --------------------------------------------------------------

  datatype Message = Message(headers: seq<Field>, body: string)

  function Previous(m: Message, r: Recipe, order: seq<string>): Option<Message>
    requires IsOrder(r.headers, order)
  {
    var h, b := RewriteAll(m.headers, r.headers, order), PreviousBody(m.body, r.body);
    if h.None? || b.None? then None else Some(Message(h.value, b.value))
  }

  ghost predicate AreOrders(recipes: seq<Recipe>, orders: seq<seq<string>>) {
    |orders| == |recipes| && forall i :: 0 <= i < |recipes| ==> IsOrder(recipes[i].headers, orders[i])
  }

  /** The message that many instances earlier; each recipe's map is walked in its own order. */
  function Earlier(m: Message, recipes: seq<Recipe>, orders: seq<seq<string>>): Option<Message>
    requires AreOrders(recipes, orders)
    decreases |recipes|
  {
    if recipes == [] then Some(m)
    else
      var p := Previous(m, recipes[0], orders[0]);
      if p.None? then None else Earlier(p.value, recipes[1..], orders[1..])
  }

  /**
   * However the maps are walked, every number of instances back gives the same
   * canonical headers and body, or fails alike.
   */
  lemma {:induction false} EarlierIsDeterministic(m: Message, m': Message, recipes: seq<Recipe>,
                                                  orders: seq<seq<string>>, others: seq<seq<string>>)
    requires SameGroups(m.headers, m'.headers) && m.body == m'.body && AreOrders(recipes, orders)
    requires AreOrders(recipes, others)
    ensures
      var x, y := Earlier(m, recipes, orders), Earlier(m', recipes, others);
      (x.Some? <==> y.Some?) &&
        (x.Some? ==> x.value.body == y.value.body && Canonical(x.value.headers) == Canonical(y.value.headers))
    decreases |recipes|
  {
    if recipes == [] {
      CanonicalOfGroups(m.headers, m'.headers);
    } else {
      OrderDoesNotMatter(m.headers, m'.headers, recipes[0].headers, orders[0], others[0]);
      var p, p' := Previous(m, recipes[0], orders[0]), Previous(m', recipes[0], others[0]);
      if p.Some? {
        EarlierIsDeterministic(p.value, p'.value, recipes[1..], orders[1..], others[1..]);
      }
    }
  }

  // ----- The loops ------------------------------------------------------------------------------

  lemma OneMore(a: seq<Field>, x: Field, b: seq<Field>)
    ensures a + [x] + b == a + ([x] + b)
  {
  }

  lemma GroupHead(headers: seq<Field>, i: nat, name: string)
    requires i < |headers|
    ensures Group(headers[i..], name) ==
      (if Lower(headers[i].name) == name then [headers[i]] else []) + Group(headers[i + 1..], name)
    ensures Without(headers[i..], name) ==
      (if Lower(headers[i].name) == name then [] else [headers[i]]) + Without(headers[i + 1..], name)
  {
    assert headers[i..][0] == headers[i] && headers[i..][1..] == headers[i + 1..];
  }

  method Partition(headers: seq<Field>, name: string) returns (existing: seq<Field>, retained: seq<Field>)
    ensures existing == Group(headers, name) && retained == Without(headers, name)
  {
    existing, retained := [], [];
    for i := 0 to |headers|
      invariant existing + Group(headers[i..], name) == Group(headers, name)
      invariant retained + Without(headers[i..], name) == Without(headers, name)
    {
      GroupHead(headers, i, name);
      if Lower(headers[i].name) == name {
        OneMore(existing, headers[i], Group(headers[i + 1..], name));
        existing := existing + [headers[i]];
      } else {
        OneMore(retained, headers[i], Without(headers[i + 1..], name));
        retained := retained + [headers[i]];
      }
    }
  }

  method RewriteOne(headers: seq<Field>, name: string, steps: seq<Step>) returns (r: Option<seq<Field>>)
    ensures r == Rewrite(headers, name, steps)
  {
    if !ValidName(name) { return None; }
    var existing, retained := Partition(headers, name);
    var values := ApplyHeaderSteps(name, Reverse(existing), steps);
    return if values.None? then None else Some(retained + values.value);
  }

  /** The names done so far, each once, and those still to do. */
  ghost predicate Walk(recipes: map<string, seq<Step>>, done: seq<string>, todo: set<string>) {
    && todo <= recipes.Keys && Distinct(done)
    && (forall i :: 0 <= i < |done| ==> done[i] in recipes && done[i] !in todo)
    && (forall n :: n in recipes && n !in todo ==> n in done)
  }

  lemma WalkOn(recipes: map<string, seq<Step>>, done: seq<string>, todo: set<string>, name: string)
    requires Walk(recipes, done, todo) && name in todo
    ensures Walk(recipes, done + [name], todo - {name})
  {
    var more := done + [name];
    assert more[|done|] == name && forall i :: 0 <= i < |done| ==> more[i] == done[i];
    assert forall n :: n in done ==> n in more;
  }

  /** Any walk can be completed to an order. */
  lemma {:induction false} WalkEnds(recipes: map<string, seq<Step>>, done: seq<string>, todo: set<string>)
    returns (order: seq<string>)
    requires Walk(recipes, done, todo)
    ensures IsOrder(recipes, order) && done <= order
    decreases todo
  {
    if todo == {} {
      order := done;
    } else {
      var n :| n in todo;
      WalkOn(recipes, done, todo, n);
      order := WalkEnds(recipes, done + [n], todo - {n});
    }
  }

  /** The header recipes of one instance: success and every group, whatever the map's iteration order. */
  method ReconstructHeaders(headers: seq<Field>, recipes: map<string, seq<Step>>) returns (r: Option<seq<Field>>)
    ensures r.Some? <==> forall n :: n in recipes ==> Rebuilt(n, Group(headers, n), recipes[n]).Some?
    ensures r.Some? ==> forall n :: n in recipes ==>
      Group(r.value, n) == Rebuilt(n, Group(headers, n), recipes[n]).value
    ensures r.Some? ==> forall n :: n !in recipes ==> Group(r.value, n) == Group(headers, n)
  {
    ghost var order;
    r, order := WalkRecipes(headers, recipes);
    PassSucceeds(headers, recipes, order);
    AppliesToAll(headers, recipes, order);
    if r.Some? {
      forall n ensures Some(Group(r.value, n)) == Outcome(headers, recipes, order, n) {
        PassIsGroupwise(headers, recipes, order, n);
      }
    }
  }

  /** The map is walked in an order that only the run time knows. */
  method WalkRecipes(headers: seq<Field>, recipes: map<string, seq<Step>>)
    returns (r: Option<seq<Field>>, ghost order: seq<string>)
    ensures IsOrder(recipes, order) && r == RewriteAll(headers, recipes, order)
  {
    var current, todo := headers, recipes.Keys;
    ghost var done: seq<string> := [];
    while todo != {}
      invariant Walk(recipes, done, todo) && RewriteAll(headers, recipes, done) == Some(current)
      decreases todo
    {
      var name :| name in todo;
      var next := RewriteOne(current, name, recipes[name]);
      WalkOn(recipes, done, todo, name);
      if next.None? {
        order := WalkEnds(recipes, done + [name], todo - {name});
        Failing(headers, recipes, order, done, name, current);
        return None, order;
      }
      RewriteSnoc(headers, recipes, done, name, current);
      current := next.value;
      todo := todo - {name};
      done := done + [name];
    }
    return Some(current), done;
  }

  lemma Failing(headers: seq<Field>, recipes: map<string, seq<Step>>, order: seq<string>, done: seq<string>,
                name: string, current: seq<Field>)
    requires IsOrder(recipes, order) && done + [name] <= order && name in recipes
    requires (forall i :: 0 <= i < |done| ==> done[i] in recipes) && RewriteAll(headers, recipes, done) == Some(current)
    requires Rewrite(current, name, recipes[name]).None?
    ensures RewriteAll(headers, recipes, order).None?
  {
    assert order[|done|] == (done + [name])[|done|] == name;
    assert order[..|done|] == done;
    FailsAt(headers, recipes, order, |done|, current);
  }

  lemma {:induction false} RewriteSnoc(headers: seq<Field>, recipes: map<string, seq<Step>>, done: seq<string>,
                                       name: string, current: seq<Field>)
    requires name in recipes && forall i :: 0 <= i < |done| ==> done[i] in recipes
    requires RewriteAll(headers, recipes, done) == Some(current)
    ensures RewriteAll(headers, recipes, done + [name]) == Rewrite(current, name, recipes[name])
    decreases |done|
  {
    var all := done + [name];
    if done == [] {
      assert all == [name] && all[1..] == [];
    } else {
      RewriteSnoc(Rewrite(headers, done[0], recipes[done[0]]).value, recipes, done[1..], name, current);
      assert all[1..] == done[1..] + [name];
    }
  }

  /** A step that fails makes the whole pass fail. */
  lemma {:induction false} FailsAt(headers: seq<Field>, recipes: map<string, seq<Step>>, order: seq<string>, k: nat,
                                   current: seq<Field>)
    requires k < |order| && forall i :: 0 <= i < |order| ==> order[i] in recipes
    requires RewriteAll(headers, recipes, order[..k]) == Some(current)
    requires Rewrite(current, order[k], recipes[order[k]]).None?
    ensures RewriteAll(headers, recipes, order).None?
    decreases k
  {
    if k > 0 {
      assert order[..k][1..] == order[1..][..k - 1];
      FailsAt(Rewrite(headers, order[0], recipes[order[0]]).value, recipes, order[1..], k - 1, current);
    }
  }

  method CanonicalMessageHeaders(headers: seq<Field>) returns (out: string)
    ensures out == Canonical(headers)
  {
    var present := CollectNames(headers);
    var names := SortNames(present);
    AscendingUnique(names, Sorted(present));
    out := WriteGroups(headers, names);
  }

  method CollectNames(headers: seq<Field>) returns (present: set<string>)
    ensures present == SignedNames(headers)
  {
    present := {};
    for i := 0 to |headers|
      invariant present == SignedNames(headers[..i])
    {
      NamesSnocField(headers, i);
      var name := Lower(headers[i].name);
      if Signed(name) { present := present + {name}; }
    }
    assert headers[..|headers|] == headers;
  }

  lemma TextOfHead(headers: seq<Field>, names: seq<string>)
    requires names != []
    ensures TextOf(headers, names) == GroupText(Group(headers, names[0])) + TextOf(headers, names[1..])
  {
  }

  method WriteGroups(headers: seq<Field>, names: seq<string>) returns (out: string)
    ensures out == TextOf(headers, names)
  {
    out := "";
    for k := 0 to |names|
      invariant out + TextOf(headers, names[k..]) == TextOf(headers, names)
    {
      var rest := names[k..];
      assert rest[0] == names[k] && rest[1..] == names[k + 1..];
      var group, others := Partition(headers, names[k]);
      var text := Backwards(group);
      TextOfHead(headers, rest);
      Reassociate(out, text, TextOf(headers, rest[1..]));
      out := out + text;
    }
  }

  lemma NamesSnocField(headers: seq<Field>, i: nat)
    requires i < |headers|
    ensures SignedNames(headers[..i + 1]) ==
      SignedNames(headers[..i]) + if Signed(Lower(headers[i].name)) then {Lower(headers[i].name)} else {}
  {
    var a, b := headers[..i], headers[..i + 1];
    assert b[i] == headers[i] && forall j :: 0 <= j < i ==> b[j] == a[j];
    forall n | n in SignedNames(a) ensures n in SignedNames(b) {
      var j :| 0 <= j < |a| && Signed(Lower(a[j].name)) && Lower(a[j].name) == n;
      assert b[j] == a[j];
    }
    forall n | n in SignedNames(b) && n != Lower(headers[i].name) ensures n in SignedNames(a) {
      var j :| 0 <= j < |b| && Signed(Lower(b[j].name)) && Lower(b[j].name) == n;
      assert a[j] == b[j];
    }
  }

  method Backwards(group: seq<Field>) returns (text: string)
    ensures text == GroupText(group)
  {
    text := "";
    var i := |group|;
    assert group[..|group|] == group;
    while i > 0
      invariant 0 <= i <= |group|
      invariant text + GroupText(group[..i]) == GroupText(group)
    {
      i := i - 1;
      GroupTextSnoc(group[..i], group[i]);
      assert group[..i] + [group[i]] == group[..i + 1];
      assert text + (Rendered(group[i]) + GroupText(group[..i])) == text + Rendered(group[i]) + GroupText(group[..i]);
      text := text + Rendered(group[i]);
    }
  }

  lemma Reassociate(a: string, b: string, c: string)
    ensures a + b + c == a + (b + c)
  {
  }

  lemma {:induction false} GroupTextSnoc(group: seq<Field>, f: Field)
    ensures GroupText(group + [f]) == Rendered(f) + GroupText(group)
  {
    var all := group + [f];
    if group == [] {
      assert all[1..] == [];
    } else {
      var tail := group[1..];
      GroupTextSnoc(tail, f);
      assert all[1..] == tail + [f] && all[0] == group[0];
      Reassociate(Rendered(f), GroupText(tail), Rendered(group[0]));
    }
  }
}
