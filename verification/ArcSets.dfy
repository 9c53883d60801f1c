/**
 * ARC sets as numbered slots: what a reader makes of each header, namely its
 * kind, its instance number and its text. The signer and the verifier read
 * headers differently, but both arrange them this way.
 */
module ArcSets {
  import opened Common

  datatype Kind = Aar | Ams | Seal

  datatype Slot = Slot(kind: Option<Kind>, number: Option<int>, text: string)

  predicate At(s: Slot, k: Kind, i: int) { s.kind == Some(k) && s.number == Some(i) }

  function Count(slots: seq<Slot>, k: Kind): nat {
    if slots == [] then 0 else (if slots[0].kind == Some(k) then 1 else 0) + Count(slots[1..], k)
  }

  ghost predicate AllPositive(slots: seq<Slot>, k: Kind) {
    forall j :: 0 <= j < |slots| && slots[j].kind == Some(k) ==> slots[j].number.Some? && slots[j].number.value >= 1
  }

  ghost predicate Unique(slots: seq<Slot>, k: Kind) {
    forall j, l :: 0 <= j < l < |slots| && slots[j].kind == Some(k) && slots[l].kind == Some(k) ==>
      slots[j].number != slots[l].number
  }

  predicate Has(slots: seq<Slot>, k: Kind, i: int) { exists j :: 0 <= j < |slots| && At(slots[j], k, i) }

  /** Slots of one kind carry positive numbers, each at most once, and all from 1 to their count. */
  ghost predicate Numbered(slots: seq<Slot>, k: Kind) {
    AllPositive(slots, k) && Unique(slots, k) && forall i :: 1 <= i <= Count(slots, k) ==> Has(slots, k, i)
  }

  /** The first slot of the kind with the number. */
  function Find(slots: seq<Slot>, k: Kind, i: int): Option<string> {
    if slots == [] then None else if At(slots[0], k, i) then Some(slots[0].text) else Find(slots[1..], k, i)
  }

  /** The last slot of the kind with the number. */
  function FindLast(slots: seq<Slot>, k: Kind, i: int): Option<string> {
    if slots == [] then None
    else if At(slots[|slots| - 1], k, i) then Some(slots[|slots| - 1].text) else FindLast(slots[..|slots| - 1], k, i)
  }

  // ----- Building the map -----------------------------------------------------------

  /** The loop over the values: None for a bad or repeated number. */
  function Collect(slots: seq<Slot>, k: Kind): Option<map<int, string>> {
    if slots == [] then Some(map[])
    else
      var n := |slots| - 1;
      var before, s := Collect(slots[..n], k), slots[n];
      if before.None? || s.kind != Some(k) then before
      else if s.number.None? || s.number.value <= 0 || s.number.value in before.value then None
      else Some(before.value[s.number.value := s.text])
  }

  ghost predicate Maps(m: map<int, string>, slots: seq<Slot>, k: Kind) {
    forall i :: (i in m <==> Find(slots, k, i).Some?) && (i in m ==> Find(slots, k, i) == Some(m[i]))
  }

  lemma {:induction false} CollectMeans(slots: seq<Slot>, k: Kind)
    ensures Collect(slots, k).Some? <==> AllPositive(slots, k) && Unique(slots, k)
    ensures Collect(slots, k).Some? ==> Maps(Collect(slots, k).value, slots, k)
    decreases |slots|
  {
    if slots != [] {
      var n := |slots| - 1;
      var init, s := slots[..n], slots[n];
      CollectMeans(init, k);
      assert slots == init + [s];
      if Collect(init, k).Some? { CollectSnoc(init, s, k); }
    }
  }

  lemma CollectSnoc(slots: seq<Slot>, s: Slot, k: Kind)
    requires Collect(slots, k).Some? && AllPositive(slots, k) && Unique(slots, k)
    requires Maps(Collect(slots, k).value, slots, k)
    ensures Collect(slots + [s], k).Some? <==> AllPositive(slots + [s], k) && Unique(slots + [s], k)
    ensures Collect(slots + [s], k).Some? ==> Maps(Collect(slots + [s], k).value, slots + [s], k)
  {
    var all := slots + [s];
    assert all[..|slots|] == slots && all[|slots|] == s;
    UniqueSnoc(slots, s, k);
    MapsSnoc(Collect(slots, k).value, slots, s, k);
  }

  lemma UniqueSnoc(slots: seq<Slot>, s: Slot, k: Kind)
    requires AllPositive(slots, k) && Unique(slots, k)
    ensures AllPositive(slots + [s], k) && Unique(slots + [s], k) <==>
      (s.kind == Some(k) ==> s.number.Some? && s.number.value >= 1 && Find(slots, k, s.number.value).None?)
  {
    var all := slots + [s];
    assert all[|slots|] == s && forall j :: 0 <= j < |slots| ==> all[j] == slots[j];
    if s.kind == Some(k) && s.number.Some? {
      HasFound(slots, k, s.number.value);
      assert forall j :: 0 <= j < |slots| && slots[j].kind == Some(k) && slots[j].number == s.number ==>
        At(slots[j], k, s.number.value);
    }
  }

  lemma MapsSnoc(m: map<int, string>, slots: seq<Slot>, s: Slot, k: Kind)
    requires Maps(m, slots, k)
    ensures s.kind != Some(k) ==> Maps(m, slots + [s], k)
    ensures s.kind == Some(k) && s.number.Some? && s.number.value !in m ==>
      Maps(m[s.number.value := s.text], slots + [s], k)
  {
    forall i ensures Find(slots + [s], k, i) == if Find(slots, k, i).Some? then Find(slots, k, i)
      else if At(s, k, i) then Some(s.text) else None {
      FindSnoc(slots, s, k, i);
    }
  }

  /** buildARCInstanceMap: it succeeds exactly on properly numbered slots, and maps each number to its text. */
  method InstanceMap(slots: seq<Slot>, k: Kind) returns (r: Option<map<int, string>>)
    ensures r.Some? <==> Numbered(slots, k)
    ensures r.Some? ==> Maps(r.value, slots, k)
  {
    CollectMeans(slots, k);
    var out, count := CollectAll(slots, k);
    if out.None? { return None; }
    for i := 1 to count + 1
      invariant forall l :: 1 <= l < i ==> Has(slots, k, l)
    {
      HasFound(slots, k, i);
      if i !in out.value { return None; }
    }
    return out;
  }

  method CollectAll(slots: seq<Slot>, k: Kind) returns (r: Option<map<int, string>>, count: nat)
    ensures r == Collect(slots, k) && (r.Some? ==> count == Count(slots, k))
  {
    var out: map<int, string> := map[];
    count := 0;
    for j := 0 to |slots|
      invariant Collect(slots[..j], k) == Some(out) && count == Count(slots[..j], k)
    {
      var s := slots[j];
      CountSnoc(slots[..j], s, k);
      assert slots[..j] + [s] == slots[..j + 1] && slots[..j + 1][..j] == slots[..j];
      if s.kind == Some(k) {
        if s.number.None? || s.number.value <= 0 || s.number.value in out {
          CollectStops(slots, j + 1, k);
          return None, 0;
        }
        out := out[s.number.value := s.text];
        count := count + 1;
      }
    }
    assert slots[..|slots|] == slots;
    return Some(out), count;
  }

  lemma {:induction false} CollectStops(slots: seq<Slot>, j: nat, k: Kind)
    requires j <= |slots| && Collect(slots[..j], k).None?
    ensures Collect(slots, k).None?
    decreases |slots|
  {
    if j == |slots| {
      assert slots[..j] == slots;
    } else {
      var init := slots[..|slots| - 1];
      assert init[..j] == slots[..j];
      CollectStops(init, j, k);
    }
  }

  lemma {:induction false} CountSnoc(slots: seq<Slot>, s: Slot, k: Kind)
    ensures Count(slots + [s], k) == Count(slots, k) + if s.kind == Some(k) then 1 else 0
  {
    if slots == [] {
      assert (slots + [s])[1..] == [];
    } else {
      CountSnoc(slots[1..], s, k);
      assert (slots + [s])[1..] == slots[1..] + [s];
    }
  }

  lemma {:induction false} FindSnoc(slots: seq<Slot>, s: Slot, k: Kind, i: int)
    ensures Find(slots + [s], k, i) ==
      if Find(slots, k, i).Some? then Find(slots, k, i) else if At(s, k, i) then Some(s.text) else None
  {
    if slots == [] {
      assert (slots + [s])[1..] == [];
    } else {
      FindSnoc(slots[1..], s, k, i);
      assert (slots + [s])[1..] == slots[1..] + [s];
    }
  }

  lemma {:induction false} HasFound(slots: seq<Slot>, k: Kind, i: int)
    ensures Has(slots, k, i) <==> Find(slots, k, i).Some?
  {
    if slots != [] {
      var tail := slots[1..];
      HasFound(tail, k, i);
      if Has(slots, k, i) && !At(slots[0], k, i) {
        var j :| 0 <= j < |slots| && At(slots[j], k, i);
        assert At(tail[j - 1], k, i);
      }
      if Has(tail, k, i) {
        var j :| 0 <= j < |tail| && At(tail[j], k, i);
        assert At(slots[j + 1], k, i);
      }
    }
  }

  // ----- Complete sets -----------------------------------------------------------------

  /** Exactly the numbers 1 to n of every kind. */
  ghost predicate Complete(slots: seq<Slot>, n: nat) {
    forall k :: Count(slots, k) == n && Numbered(slots, k)
  }

  lemma CompleteKinds(slots: seq<Slot>, n: nat)
    ensures Complete(slots, n) <==>
      Count(slots, Seal) == n && Count(slots, Ams) == n && Count(slots, Aar) == n &&
      Numbered(slots, Seal) && Numbered(slots, Ams) && Numbered(slots, Aar)
  {
    if Complete(slots, n) {
      assert Numbered(slots, Seal) && Numbered(slots, Ams) && Numbered(slots, Aar);
    } else {
      var k :| !(Count(slots, k) == n && Numbered(slots, k));
      assert k == Seal || k == Ams || k == Aar;
    }
  }

  function Numbers(slots: seq<Slot>, k: Kind): set<int> {
    if slots == [] then {}
    else (if slots[0].kind == Some(k) && slots[0].number.Some? then {slots[0].number.value} else {}) +
         Numbers(slots[1..], k)
  }

  lemma {:induction false} NumbersBounded(slots: seq<Slot>, k: Kind)
    ensures |Numbers(slots, k)| <= Count(slots, k)
    ensures forall j :: 0 <= j < |slots| && slots[j].kind == Some(k) && slots[j].number.Some? ==>
      slots[j].number.value in Numbers(slots, k)
    decreases |slots|
  {
    if slots != [] {
      NumbersBounded(slots[1..], k);
      assert forall j :: 1 <= j < |slots| ==> slots[j] == slots[1..][j - 1];
    }
  }

  lemma {:induction false} UpTo(n: nat, s: set<int>)
    requires forall i :: 1 <= i <= n ==> i in s
    requires |s| <= n
    ensures forall i :: i in s ==> 1 <= i <= n
    decreases n
  {
    if n == 0 {
      assert s == {};
    } else {
      UpTo(n - 1, s - {n});
      forall i | i in s ensures 1 <= i <= n { if i != n { assert i in s - {n}; } }
    }
  }

  /** With n slots covering 1 to n there is no number beyond n. */
  lemma NumbersWithin(slots: seq<Slot>, k: Kind, j: nat)
    requires Numbered(slots, k) && j < |slots| && slots[j].kind == Some(k)
    ensures slots[j].number.Some? && 1 <= slots[j].number.value <= Count(slots, k)
  {
    NumbersBounded(slots, k);
    var s := Numbers(slots, k);
    forall i | 1 <= i <= Count(slots, k) ensures i in s {
      assert Has(slots, k, i);
      var l :| 0 <= l < |slots| && At(slots[l], k, i);
      assert slots[l].number.value in s;
    }
    UpTo(Count(slots, k), s);
    assert slots[j].number.value in s;
  }

  lemma CountCons(s: Slot, slots: seq<Slot>, k: Kind)
    ensures Count([s] + slots, k) == Count(slots, k) + if s.kind == Some(k) then 1 else 0
    ensures forall i :: Find([s] + slots, k, i) == if At(s, k, i) then Some(s.text) else Find(slots, k, i)
  {
    assert ([s] + slots)[1..] == slots;
  }

  /** A slot that is of no ARC kind changes nothing. */
  lemma NumberedOther(s: Slot, slots: seq<Slot>, k: Kind)
    requires Numbered(slots, k) && s.kind != Some(k)
    ensures Numbered([s] + slots, k)
  {
    var all := [s] + slots;
    CountCons(s, slots, k);
    assert forall j :: 1 <= j < |all| ==> all[j] == slots[j - 1];
    forall i | 1 <= i <= Count(slots, k) ensures Has(all, k, i) {
      assert Has(slots, k, i);
      var j :| 0 <= j < |slots| && At(slots[j], k, i);
      assert At(all[j + 1], k, i);
    }
  }

  /** One more slot with the next number keeps the numbering. */
  lemma NumberedNext(s: Slot, slots: seq<Slot>, k: Kind)
    requires Numbered(slots, k) && At(s, k, Count(slots, k) + 1)
    ensures Numbered([s] + slots, k)
  {
    var all, n := [s] + slots, Count(slots, k);
    CountCons(s, slots, k);
    assert forall j :: 1 <= j < |all| ==> all[j] == slots[j - 1];
    forall j | 0 <= j < |slots| && slots[j].kind == Some(k) ensures slots[j].number != s.number {
      NumbersWithin(slots, k, j);
    }
    forall i | 1 <= i <= n + 1 ensures Has(all, k, i) {
      if i == n + 1 {
        assert At(all[0], k, i);
      } else {
        assert Has(slots, k, i);
        var j :| 0 <= j < |slots| && At(slots[j], k, i);
        assert At(all[j + 1], k, i);
      }
    }
  }

  /** Two readings of the same headers that agree on kinds and numbers find the same slot. */
  lemma {:induction false} SameSlot(a: seq<Slot>, b: seq<Slot>, k: Kind, i: int, j: nat)
    requires |a| == |b| && j < |a| && At(a[j], k, i)
    requires forall l :: 0 <= l < |a| ==> (At(a[l], k, i) <==> l == j) && (At(b[l], k, i) <==> l == j)
    ensures Find(a, k, i) == Some(a[j].text) && FindLast(b, k, i) == Some(b[j].text)
  {
    FindAt(a, k, i, j);
    FindLastAt(b, k, i, j);
  }

  lemma {:induction false} FindAt(a: seq<Slot>, k: Kind, i: int, j: nat)
    requires j < |a| && At(a[j], k, i) && forall l :: 0 <= l < j ==> !At(a[l], k, i)
    ensures Find(a, k, i) == Some(a[j].text)
    decreases |a|
  {
    if j > 0 { FindAt(a[1..], k, i, j - 1); }
  }

  lemma {:induction false} FindLastAt(a: seq<Slot>, k: Kind, i: int, j: nat)
    requires j < |a| && At(a[j], k, i) && forall l :: j < l < |a| ==> !At(a[l], k, i)
    ensures FindLast(a, k, i) == Some(a[j].text)
    decreases |a|
  {
    if j < |a| - 1 { FindLastAt(a[..|a| - 1], k, i, j); }
  }

  // ----- A second reading of the same headers ------------------------------------------------

  predicate Usable(s: Slot) { s.kind.Some? ==> s.number.Some? && 1 <= s.number.value < 50 }

  predicate AllUsable(slots: seq<Slot>) { forall j :: 0 <= j < |slots| ==> Usable(slots[j]) }

  function MaxNumber(slots: seq<Slot>): int {
    if slots == [] then 0
    else
      var rest := MaxNumber(slots[1..]);
      if slots[0].kind.Some? && slots[0].number.Some? then Max(slots[0].number.value, rest) else rest
  }

  predicate NoRepeats(slots: seq<Slot>) {
    forall j, l :: 0 <= j < l < |slots| && slots[j].kind.Some? ==>
      !(slots[l].kind == slots[j].kind && slots[l].number == slots[j].number)
  }

  /** The two readings see the same kinds and, on ARC headers, the same numbers. */
  ghost predicate Alike(a: seq<Slot>, b: seq<Slot>) {
    |a| == |b| && forall j :: 0 <= j < |a| ==>
      a[j].kind == b[j].kind && (a[j].kind.Some? ==> a[j].number == b[j].number)
  }

  /** A number within a complete chain names one slot, the same in both readings. */
  lemma UniqueSlot(a: seq<Slot>, b: seq<Slot>, n: nat, k: Kind, i: int) returns (j: nat)
    requires Complete(a, n) && Alike(a, b) && 1 <= i <= n
    ensures j < |a| && At(a[j], k, i) && At(b[j], k, i)
    ensures Find(a, k, i) == Some(a[j].text) && FindLast(b, k, i) == Some(b[j].text)
  {
    assert Count(a, k) == n && Numbered(a, k);
    assert Has(a, k, i);
    j :| 0 <= j < |a| && At(a[j], k, i);
    forall l | 0 <= l < |a| ensures (At(a[l], k, i) <==> l == j) && (At(b[l], k, i) <==> l == j) {
      assert At(a[l], k, i) <==> At(b[l], k, i);
      if l < j { assert a[l].kind == Some(k) ==> a[l].number != a[j].number; }
      if l > j { assert a[l].kind == Some(k) ==> a[l].number != a[j].number; }
    }
    SameSlot(a, b, k, i, j);
  }

  lemma CompleteWithin(a: seq<Slot>, n: nat, j: nat)
    requires Complete(a, n) && j < |a| && a[j].kind.Some?
    ensures a[j].number.Some? && 1 <= a[j].number.value <= n
  {
    var k := a[j].kind.value;
    assert Count(a, k) == n && Numbered(a, k);
    NumbersWithin(a, k, j);
  }

  lemma {:induction false} MaxWithin(b: seq<Slot>, n: nat)
    requires forall j :: 0 <= j < |b| && b[j].kind.Some? ==> b[j].number.Some? && 1 <= b[j].number.value <= n
    ensures 0 <= MaxNumber(b) <= n
    ensures forall j :: 0 <= j < |b| && b[j].kind.Some? ==> b[j].number.value <= MaxNumber(b)
    decreases |b|
  {
    if b != [] {
      assert forall j :: 1 <= j < |b| ==> b[j] == b[1..][j - 1];
      MaxWithin(b[1..], n);
    }
  }

  /** The other reader finds the chain complete too. */
  lemma SecondReading(a: seq<Slot>, b: seq<Slot>, n: nat)
    requires Complete(a, n) && Alike(a, b) && n < 50
    ensures AllUsable(b) && MaxNumber(b) == n && NoRepeats(b)
    ensures forall k, i :: 1 <= i <= n ==> Has(b, k, i)
  {
    forall j | 0 <= j < |b| && b[j].kind.Some? ensures b[j].number.Some? && 1 <= b[j].number.value <= n {
      CompleteWithin(a, n, j);
    }
    MaxWithin(b, n);
    forall k, i | 1 <= i <= n ensures Has(b, k, i) {
      var j := UniqueSlot(a, b, n, k, i);
      assert At(b[j], k, i);
    }
    if n > 0 {
      var j := UniqueSlot(a, b, n, Seal, n);
      assert b[j].number.value <= MaxNumber(b);
    }
    NoRepeatsOf(a, b, n);
  }

  lemma NoRepeatsOf(a: seq<Slot>, b: seq<Slot>, n: nat)
    requires Complete(a, n) && Alike(a, b)
    ensures NoRepeats(b)
  {
    forall j, l | 0 <= j < l < |b| && b[j].kind.Some? ensures !(b[l].kind == b[j].kind && b[l].number == b[j].number) {
      assert Count(a, b[j].kind.value) == n && Unique(a, b[j].kind.value);
    }
  }

  lemma {:induction false} CountZero(slots: seq<Slot>, k: Kind)
    requires Count(slots, k) == 0
    ensures Numbered(slots, k) && forall j :: 0 <= j < |slots| ==> slots[j].kind != Some(k)
    decreases |slots|
  {
    if slots != [] {
      CountZero(slots[1..], k);
      assert forall j :: 1 <= j < |slots| ==> slots[j] == slots[1..][j - 1];
    }
  }

  // ----- One more set on top ---------------------------------------------------------------------

  /** The three new slots, in the order in which they are written. */
  ghost predicate NextSet(s: Slot, m: Slot, r: Slot, n: nat) {
    At(s, Seal, n + 1) && At(m, Ams, n + 1) && At(r, Aar, n + 1)
  }

  lemma NextComplete(s: Slot, m: Slot, r: Slot, slots: seq<Slot>, n: nat)
    requires Complete(slots, n) && NextSet(s, m, r, n)
    ensures Complete([s] + ([m] + ([r] + slots)), n + 1)
  {
    var a := [r] + slots;
    var b := [m] + a;
    var c := [s] + b;
    forall k ensures Count(c, k) == n + 1 && Numbered(c, k) {
      assert Count(slots, k) == n && Numbered(slots, k);
      CountCons(r, slots, k);
      CountCons(m, a, k);
      CountCons(s, b, k);
      if k == Aar { NumberedNext(r, slots, k); } else { NumberedOther(r, slots, k); }
      if k == Ams { NumberedNext(m, a, k); } else { NumberedOther(m, a, k); }
      if k == Seal { NumberedNext(s, b, k); } else { NumberedOther(s, b, k); }
    }
  }

  lemma NextFind(s: Slot, m: Slot, r: Slot, slots: seq<Slot>, n: nat, k: Kind, i: int)
    requires NextSet(s, m, r, n)
    ensures Find([s] + ([m] + ([r] + slots)), k, i) ==
      if i == n + 1 then Some(if k == Seal then s.text else if k == Ams then m.text else r.text) else Find(slots, k, i)
  {
    CountCons(r, slots, k);
    CountCons(m, [r] + slots, k);
    CountCons(s, [m] + ([r] + slots), k);
  }

  /** Without a new slot of the next number there is none at all. */
  lemma NoNext(s: Slot, m: Slot, r: Slot, slots: seq<Slot>, n: nat, sets: nat)
    requires Complete(slots, n) && s.kind != Some(Aar) && m.kind != Some(Aar) && r.kind == Some(Aar)
    requires !At(r, Aar, n + 1)
    ensures !Complete([s] + ([m] + ([r] + slots)), sets)
  {
    var all := [s] + ([m] + ([r] + slots));
    assert all[0] == s && all[1] == m && all[2] == r && forall j :: 3 <= j < |all| ==> all[j] == slots[j - 3];
    forall j | 0 <= j < |slots| ensures !At(slots[j], Aar, n + 1) {
      if slots[j].kind == Some(Aar) { CompleteWithin(slots, n, j); }
    }
    assert !Has(all, Aar, n + 1);
    CountCons(r, slots, Aar);
    CountCons(m, [r] + slots, Aar);
    CountCons(s, [m] + ([r] + slots), Aar);
    assert Count(slots, Aar) == n;
    assert Count(all, Aar) == n + 1;
    assert Numbered(all, Aar) ==> Has(all, Aar, n + 1);
  }

  // ----- The sealer's inspection ---------------------------------------------------------------------

  type Sets = map<int, map<Kind, string>>

  function Entry(sets: Sets, k: Kind, i: int): Option<string> {
    if i in sets && k in sets[i] then Some(sets[i][k]) else None
  }

  function Enter(sets: Sets, k: Kind, i: int, text: string): Sets {
    sets[i := (if i in sets then sets[i] else map[])[k := text]]
  }

  /** The sets hold the last slot of every kind and number. */
  ghost predicate HoldsLast(sets: Sets, slots: seq<Slot>) {
    forall k, i :: Entry(sets, k, i) == FindLast(slots, k, i)
  }

  lemma EnterHolds(sets: Sets, slots: seq<Slot>, s: Slot)
    requires HoldsLast(sets, slots)
    ensures s.kind.None? ==> HoldsLast(sets, slots + [s])
    ensures s.kind.Some? && s.number.Some? ==> HoldsLast(Enter(sets, s.kind.value, s.number.value, s.text), slots + [s])
  {
    var all := slots + [s];
    assert all[..|slots|] == slots && all[|slots|] == s;
    forall k, i ensures FindLast(all, k, i) == if At(s, k, i) then Some(s.text) else FindLast(slots, k, i) { }
  }

  lemma {:induction false} MaxSnoc(slots: seq<Slot>, s: Slot)
    ensures MaxNumber(slots + [s]) == if s.kind.Some? && s.number.Some? then Max(MaxNumber(slots), s.number.value)
      else MaxNumber(slots)
    decreases |slots|
  {
    var all := slots + [s];
    if slots == [] {
      assert all[1..] == [];
    } else {
      assert all[1..] == slots[1..] + [s];
      MaxSnoc(slots[1..], s);
    }
  }

  lemma RepeatSnoc(slots: seq<Slot>, s: Slot)
    requires s.kind.Some? ==> s.number.Some?
    requires forall j :: 0 <= j < |slots| && slots[j].kind.Some? ==> slots[j].number.Some?
    ensures NoRepeats(slots + [s]) <==>
      NoRepeats(slots) && (s.kind.Some? ==> FindLast(slots, s.kind.value, s.number.value).None?)
  {
    var all := slots + [s];
    assert all[|slots|] == s && forall j :: 0 <= j < |slots| ==> all[j] == slots[j];
    if s.kind.Some? { LastFound(slots, s.kind.value, s.number.value); }
  }

  lemma {:induction false} LastFound(slots: seq<Slot>, k: Kind, i: int)
    ensures FindLast(slots, k, i).Some? <==> exists j :: 0 <= j < |slots| && At(slots[j], k, i)
    decreases |slots|
  {
    if slots != [] {
      var init := slots[..|slots| - 1];
      LastFound(init, k, i);
      if j :| 0 <= j < |init| && At(init[j], k, i) { assert At(slots[j], k, i); }
      if j :| 0 <= j < |slots| && At(slots[j], k, i) { if j < |init| { assert At(init[j], k, i); } }
    }
  }

  /** The loop over the headers: it stops at an unusable instance, and otherwise sorts the headers into sets. */
  method SortIntoSets(slots: seq<Slot>) returns (usable: bool, max: int, repeats: bool, sets: Sets)
    ensures usable <==> AllUsable(slots)
    ensures usable ==> max == MaxNumber(slots) && repeats == !NoRepeats(slots) && HoldsLast(sets, slots)
  {
    max, repeats, sets := 0, false, map[];
    for j := 0 to |slots|
      invariant AllUsable(slots[..j]) && max == MaxNumber(slots[..j]) && repeats == !NoRepeats(slots[..j])
      invariant HoldsLast(sets, slots[..j])
    {
      var s := slots[j];
      assert slots[..j] + [s] == slots[..j + 1];
      if s.kind.Some? && (s.number.None? || s.number.value < 1 || s.number.value >= 50) {
        return false, 0, false, map[];
      }
      MaxSnoc(slots[..j], s);
      RepeatSnoc(slots[..j], s);
      EnterHolds(sets, slots[..j], s);
      if s.kind.Some? {
        var k, i := s.kind.value, s.number.value;
        if i > max { max := i; }
        if Entry(sets, k, i).Some? { repeats := true; }
        sets := Enter(sets, k, i, s.text);
      }
    }
    assert slots[..|slots|] == slots;
    return true, max, repeats, sets;
  }
}
