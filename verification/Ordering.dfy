/** Names in byte order, as sort.Strings arranges them. */
module Ordering {

  predicate Less(a: string, b: string) {
    b != [] && (a == [] || a[0] < b[0] || (a[0] == b[0] && Less(a[1..], b[1..])))
  }

  lemma {:induction false} LessTotal(a: string, b: string)
    ensures Less(a, b) || a == b || Less(b, a)
    decreases |a|
  {
    if a != [] && b != [] && a[0] == b[0] {
      LessTotal(a[1..], b[1..]);
      if a[1..] == b[1..] { assert a == [a[0]] + a[1..] == b; }
    }
  }

  lemma {:induction false} LessTransitive(a: string, b: string, c: string)
    requires Less(a, b) && Less(b, c)
    ensures Less(a, c)
    decreases |a|
  {
    if a != [] && a[0] == b[0] && b[0] == c[0] { LessTransitive(a[1..], b[1..], c[1..]); }
  }

  lemma {:induction false} LessIrreflexive(a: string)
    ensures !Less(a, a)
    decreases |a|
  {
    if a != [] { LessIrreflexive(a[1..]); }
  }

  predicate Ascending(names: seq<string>) {
    forall i, j :: 0 <= i < j < |names| ==> Less(names[i], names[j])
  }

  function NamesOf(names: seq<string>): set<string> { set x | x in names }

  lemma NamesSnoc(names: seq<string>, x: string)
    ensures NamesOf(names + [x]) == NamesOf(names) + {x}
  {
  }

  lemma {:induction false} DistinctSize(names: seq<string>)
    requires Ascending(names)
    ensures |NamesOf(names)| == |names|
  {
    if names != [] {
      var n := |names| - 1;
      var init := names[..n];
      DistinctSize(init);
      NamesSnoc(init, names[n]);
      assert init + [names[n]] == names;
      if names[n] in init {
        var j :| 0 <= j < n && init[j] == names[n];
        LessIrreflexive(names[n]);
      }
    }
  }

  method LeastName(names: set<string>) returns (least: string)
    requires names != {}
    ensures least in names && forall x :: x in names ==> x == least || Less(least, x)
  {
    least :| least in names;
    var todo := names - {least};
    while todo != {}
      invariant todo <= names && least in names
      invariant forall x :: x in names - todo ==> x == least || Less(least, x)
      decreases todo
    {
      var x :| x in todo;
      LessTotal(least, x);
      if Less(x, least) {
        forall y | y in names - todo ensures y == x || Less(x, y) {
          if y != least { LessTransitive(x, least, y); }
        }
        least := x;
      }
      todo := todo - {x};
    }
  }

  predicate Separates(low: set<string>, high: set<string>) { forall x, y :: x in low && y in high ==> Less(x, y) }

  lemma SeparatesOneMore(names: set<string>, todo: set<string>, x: string)
    requires todo <= names && Separates(names - todo, todo) && x in todo && forall y :: y in todo ==>
      y == x || Less(x, y)
    ensures Separates(names - (todo - {x}), todo - {x})
  {
  }

  lemma AscendingSnoc(sorted: seq<string>, x: string)
    requires Ascending(sorted) && Separates(NamesOf(sorted), {x})
    ensures Ascending(sorted + [x])
  {
    forall i | 0 <= i < |sorted| ensures Less(sorted[i], x) { assert sorted[i] in NamesOf(sorted); }
  }

  method SortNames(names: set<string>) returns (sorted: seq<string>)
    ensures Ascending(sorted) && NamesOf(sorted) == names && |sorted| == |names|
  {
    sorted := [];
    var todo := names;
    while todo != {}
      invariant todo <= names && Ascending(sorted) && NamesOf(sorted) == names - todo
      invariant Separates(names - todo, todo)
      decreases todo
    {
      var x := LeastName(todo);
      NamesSnoc(sorted, x);
      AscendingSnoc(sorted, x);
      SeparatesOneMore(names, todo, x);
      sorted := sorted + [x];
      todo := todo - {x};
    }
    DistinctSize(sorted);
  }

  predicate IsLeast(m: string, s: set<string>) { m in s && forall x :: x in s ==> x == m || Less(m, x) }

  lemma {:induction false} LeastExists(s: set<string>)
    requires s != {}
    ensures exists m :: IsLeast(m, s)
  {
    var y :| y in s;
    var rest := s - {y};
    if rest == {} {
      forall x | x in s ensures x == y { assert x !in rest; }
      assert IsLeast(y, s);
    } else {
      LeastExists(rest);
      var m :| IsLeast(m, rest);
      LeastOfMore(m, y, s);
    }
  }

  lemma LeastOfMore(m: string, y: string, s: set<string>)
    requires y in s && IsLeast(m, s - {y})
    ensures IsLeast(m, s) || IsLeast(y, s)
  {
    LessTotal(m, y);
    if Less(y, m) {
      forall x | x in s ensures x == y || Less(y, x) {
        if x != y {
          assert x in s - {y};
          if x != m { LessTransitive(y, m, x); }
        }
      }
    } else {
      forall x | x in s ensures x == m || Less(m, x) {
        if x != y { assert x in s - {y}; }
      }
    }
  }

  /** The names of a set in ascending order. */
  ghost function Sorted(s: set<string>): (r: seq<string>)
    ensures Ascending(r) && NamesOf(r) == s
  {
    if s == {} then []
    else
      LeastExists(s);
      var m :| IsLeast(m, s);
      var rest := Sorted(s - {m});
      NamesCons(m, rest);
      [m] + rest
  }

  lemma NamesCons(x: string, names: seq<string>)
    ensures NamesOf([x] + names) == {x} + NamesOf(names)
    ensures forall i :: 0 <= i < |names| ==> names[i] in NamesOf(names)
  {
  }

  lemma {:induction false} AscendingUnique(a: seq<string>, b: seq<string>)
    requires Ascending(a) && Ascending(b) && NamesOf(a) == NamesOf(b)
    ensures a == b
    decreases |a|
  {
    if a == [] || b == [] {
      assert forall x :: x in a <==> x in NamesOf(a);
      assert forall x :: x in b <==> x in NamesOf(b);
      NoneNamed(a);
      NoneNamed(b);
    } else {
      assert a[0] in NamesOf(a) && b[0] in NamesOf(b);
      FirstIsLeast(a, b[0]);
      FirstIsLeast(b, a[0]);
      if Less(a[0], b[0]) && Less(b[0], a[0]) {
        LessTransitive(a[0], b[0], a[0]);
        LessIrreflexive(a[0]);
      }
      TailNames(a);
      TailNames(b);
      AscendingUnique(a[1..], b[1..]);
    }
  }

  lemma NoneNamed(a: seq<string>)
    ensures NamesOf(a) == {} <==> a == []
  {
    if a != [] { assert a[0] in NamesOf(a); }
  }

  lemma FirstIsLeast(a: seq<string>, x: string)
    requires Ascending(a) && x in a
    ensures x == a[0] || Less(a[0], x)
  {
  }

  lemma TailNames(a: seq<string>)
    requires a != [] && Ascending(a)
    ensures Ascending(a[1..]) && NamesOf(a[1..]) == NamesOf(a) - {a[0]}
  {
    LessIrreflexive(a[0]);
    assert a[0] !in a[1..];
    assert a == [a[0]] + a[1..];
  }
}
