/**
 * Weighted fair scheduling of due messages: traffic classes take turns along a
 * weighted cycle, tenants take turns inside a class, and per-batch caps hold
 * back classes and tenants that have had their share.
 */
module FairQueue {
  import opened Common
  import opened Ordering
  import Text

  datatype Msg = Msg(id: string, tenant: string, trafficClass: string, nextAttempt: int)

  datatype Config = Config(prefetchFactor: nat, maxTenants: nat, tenantMax: nat,
                           weights: map<string, nat>, classMax: map<string, nat>, tenantClasses: map<string, string>)

  type Buffer = map<string, Msg>

  function Lookup(m: map<string, nat>, k: string): nat { if k in m then m[k] else 0 }

  function CountClass(out: seq<Msg>, c: string): nat {
    if out == [] then 0
    else CountClass(out[..|out| - 1], c) + if out[|out| - 1].trafficClass == c then 1 else 0
  }

  function CountTenant(out: seq<Msg>, t: string): nat {
    if out == [] then 0
    else CountTenant(out[..|out| - 1], t) + if out[|out| - 1].tenant == t then 1 else 0
  }

  /** The per-batch cap of class c is not used up by the batch so far; 0 means no cap. */
  predicate ClassOpen(cfg: Config, out: seq<Msg>, c: string) {
    Lookup(cfg.classMax, c) == 0 || CountClass(out, c) < Lookup(cfg.classMax, c)
  }

  predicate TenantOpen(cfg: Config, out: seq<Msg>, t: string) {
    cfg.tenantMax == 0 || CountTenant(out, t) < cfg.tenantMax
  }

  predicate MayTake(cfg: Config, out: seq<Msg>, m: Msg) {
    ClassOpen(cfg, out, m.trafficClass) && TenantOpen(cfg, out, m.tenant)
  }

  /** The classes that could be served now. */
  function OpenClasses(cfg: Config, buffer: Buffer, out: seq<Msg>): set<string> {
    set id | id in buffer && MayTake(cfg, out, buffer[id]) :: buffer[id].trafficClass
  }

  function Candidates(cfg: Config, buffer: Buffer, out: seq<Msg>, c: string): set<string> {
    set id | id in buffer && buffer[id].trafficClass == c && MayTake(cfg, out, buffer[id])
  }

  function TenantsOf(cfg: Config, buffer: Buffer, out: seq<Msg>, c: string): set<string> {
    set id | id in Candidates(cfg, buffer, out, c) :: buffer[id].tenant
  }

  // ----- Order on tenants and messages --------------------------------------

  /** How many names of the set come before this one. */
  function Rank(name: string, names: set<string>): nat { |set x | x in names && Less(x, name)| }

  /** The earliest attempt first, the smaller id between equals. */
  predicate Before(a: Msg, b: Msg) {
    a.nextAttempt < b.nextAttempt || (a.nextAttempt == b.nextAttempt && Less(a.id, b.id))
  }

  lemma BeforeTotal(a: Msg, b: Msg)
    ensures Before(a, b) || Before(b, a) || (a.id == b.id && a.nextAttempt == b.nextAttempt)
  {
    LessTotal(a.id, b.id);
  }

  lemma BeforeTransitive(a: Msg, b: Msg, c: Msg)
    requires Before(a, b) && Before(b, c)
    ensures Before(a, c)
  {
    if Less(a.id, b.id) && Less(b.id, c.id) { LessTransitive(a.id, b.id, c.id); }
  }

  // ----- The class cycle ----------------------------------------------------

  function Occurrences(cycle: seq<string>, c: string): nat {
    if cycle == [] then 0
    else Occurrences(cycle[..|cycle| - 1], c) + if cycle[|cycle| - 1] == c then 1 else 0
  }

  /** The cursor after the first of the next n positions whose class is open. */
  function Scan(cycle: seq<string>, cursor: nat, open: set<string>, n: nat): Option<nat>
    requires cycle != []
    decreases n
  {
    if n == 0 then None
    else if cycle[cursor % |cycle|] in open then Some(cursor + 1)
    else Scan(cycle, cursor + 1, open, n - 1)
  }

  lemma {:induction false} ScanFindsFirst(cycle: seq<string>, cursor: nat, open: set<string>, n: nat)
    requires cycle != []
    ensures
      var r := Scan(cycle, cursor, open, n);
      match r
      case Some(k) =>
        cursor < k <= cursor + n && cycle[(k - 1) % |cycle|] in open &&
        forall p {:trigger cycle[p % |cycle|]} :: cursor <= p < k - 1 ==> cycle[p % |cycle|] !in open
      case None => forall p {:trigger cycle[p % |cycle|]} :: cursor <= p < cursor + n ==> cycle[p % |cycle|] !in open
    decreases n
  {
    if n > 0 && cycle[cursor % |cycle|] !in open { ScanFindsFirst(cycle, cursor + 1, open, n - 1); }
  }

  /** A whole turn of the cycle meets every class on it. */
  lemma FullTurn(cycle: seq<string>, cursor: nat, c: string)
    requires c in cycle
    ensures exists p :: cursor <= p < cursor + |cycle| && cycle[p % |cycle|] == c
  {
    var i, n := Index(cycle, c), |cycle|;
    var d := (i - cursor) % n;
    Congruent(cursor, i, n);
    assert cycle[(cursor + d) % n] == c;
  }

  ghost function Index(cycle: seq<string>, c: string): (i: nat)
    requires c in cycle
    ensures i < |cycle| && cycle[i] == c
  {
    var i :| 0 <= i < |cycle| && cycle[i] == c;
    i
  }

  lemma Congruent(a: nat, i: nat, n: nat)
    requires 0 <= i < n
    ensures (a + (i - a) % n) % n == i
  {
    var q := (i - a) / n;
    assert i - a == n * q + (i - a) % n;
    assert a + (i - a) % n == (-q) * n + i;
    Remainder(a + (i - a) % n, n, -q, i);
  }

  /** The remainder is the only one in range. */
  lemma Remainder(x: int, n: int, q: int, r: int)
    requires n > 0 && x == q * n + r && 0 <= r < n
    ensures x % n == r
  {
    var q', r' := x / n, x % n;
    assert x == n * q' + r';
    assert (q' - q) * n == r - r';
    if q' > q { Multiple(q' - q, n); }
    if q' < q { Multiple(q - q', n); }
  }

  lemma Multiple(k: int, n: int)
    requires k >= 1 && n > 0
    ensures k * n >= n
  {
  }

  // ----- Shares over consecutive selections --------------------------------

  /** One answer of `next`: the classes open at the time, the cursor before and after, and the class served. */
  datatype Selection = Selection(open: set<string>, before: nat, after: nat, served: string)

  predicate GoodSelection(cycle: seq<string>, s: Selection) {
    cycle != [] && Scan(cycle, s.before, s.open, |cycle|) == Some(s.after) && s.after > 0 &&
    s.served == cycle[(s.after - 1) % |cycle|]
  }

  /** Consecutive selections; a scan that finds nothing turns the cursor by a whole cycle. */
  ghost predicate Chained(cycle: seq<string>, log: seq<Selection>) {
    && (forall i :: 0 <= i < |log| ==> GoodSelection(cycle, log[i]))
    && (forall i :: 0 < i < |log| ==> log[i].before % |cycle| == log[i - 1].after % |cycle|)
  }

  function Served(log: seq<Selection>, c: string): nat {
    if log == [] then 0
    else Served(log[..|log| - 1], c) + if log[|log| - 1].served == c then 1 else 0
  }

  /** Positions of class c among the n cycle positions from `from`. */
  function Hits(cycle: seq<string>, c: string, from: nat, n: nat): nat
    requires cycle != []
  {
    if n == 0 then 0 else Hits(cycle, c, from, n - 1) + if cycle[(from + n - 1) % |cycle|] == c then 1 else 0
  }

  lemma {:induction false} HitsAppend(cycle: seq<string>, c: string, from: nat, n: nat, m: nat)
    requires cycle != []
    ensures Hits(cycle, c, from, n + m) == Hits(cycle, c, from, n) + Hits(cycle, c, from + n, m)
    decreases m
  {
    if m > 0 { HitsAppend(cycle, c, from, n, m - 1); }
  }

  lemma {:induction false} HitsByResidue(cycle: seq<string>, c: string, a: nat, b: nat, n: nat)
    requires cycle != [] && a % |cycle| == b % |cycle|
    ensures Hits(cycle, c, a, n) == Hits(cycle, c, b, n)
    decreases n
  {
    if n > 0 {
      HitsByResidue(cycle, c, a, b, n - 1);
      SameResidue(a, b, n - 1, |cycle|);
    }
  }

  lemma SameResidue(a: nat, b: nat, d: nat, n: nat)
    requires n > 0 && a % n == b % n
    ensures (a + d) % n == (b + d) % n
  {
    var r, qa, qb := a % n, a / n, b / n;
    var s, q := (r + d) % n, (r + d) / n;
    assert r + d == q * n + s && a == qa * n + r && b == qb * n + r;
    assert a + d == (qa + q) * n + s;
    assert b + d == (qb + q) * n + s;
    Remainder(a + d, n, qa + q, s);
    Remainder(b + d, n, qb + q, s);
  }

  lemma AddModulus(a: nat, n: nat)
    requires n > 0
    ensures (a + n) % n == a % n
  {
    var q, r := a / n, a % n;
    assert a + n == (q + 1) * n + r;
    Remainder(a + n, n, q + 1, r);
  }

  /** Any full turn meets a class exactly as often as the cycle lists it. */
  lemma {:induction false} HitsOfATurn(cycle: seq<string>, c: string, from: nat)
    requires cycle != []
    ensures Hits(cycle, c, from, |cycle|) == Occurrences(cycle, c)
    decreases from
  {
    var n := |cycle|;
    if from == 0 {
      HitsFromStart(cycle, c, n);
      assert cycle[..n] == cycle;
    } else {
      HitsOfATurn(cycle, c, from - 1);
      HitsAppend(cycle, c, from - 1, 1, n - 1);
      HitsAppend(cycle, c, from, n - 1, 1);
      AddModulus(from - 1, n);
      assert Hits(cycle, c, from - 1, 1) == Hits(cycle, c, from + n - 1, 1) by {
        HitsByResidue(cycle, c, from - 1, from + n - 1, 1);
      }
    }
  }

  lemma {:induction false} HitsFromStart(cycle: seq<string>, c: string, n: nat)
    requires cycle != [] && n <= |cycle|
    ensures Hits(cycle, c, 0, n) == Occurrences(cycle[..n], c)
  {
    if n > 0 {
      HitsFromStart(cycle, c, n - 1);
      Remainder(n - 1, |cycle|, 0, n - 1);
      assert cycle[..n][..n - 1] == cycle[..n - 1];
    }
  }

  /** While a class is open, a selection passes one of its positions exactly when it serves it. */
  lemma HitsOfASelection(cycle: seq<string>, s: Selection, c: string)
    requires GoodSelection(cycle, s) && c in s.open
    ensures s.before < s.after
    ensures Hits(cycle, c, s.before, s.after - s.before) == if s.served == c then 1 else 0
  {
    ScanFindsFirst(cycle, s.before, s.open, |cycle|);
    NoHits(cycle, c, s.before, s.after - s.before - 1);
    HitsAppend(cycle, c, s.before, s.after - s.before - 1, 1);
  }

  lemma {:induction false} NoHits(cycle: seq<string>, c: string, from: nat, n: nat)
    requires cycle != [] && forall p {:trigger cycle[p % |cycle|]} :: from <= p < from + n ==> cycle[p % |cycle|] != c
    ensures Hits(cycle, c, from, n) == 0
  {
    if n > 0 {
      NoHits(cycle, c, from, n - 1);
      assert cycle[(from + n - 1) % |cycle|] != c;
    }
  }

  function Travelled(log: seq<Selection>): int {
    if log == [] then 0 else Travelled(log[..|log| - 1]) + log[|log| - 1].after - log[|log| - 1].before
  }

  ghost predicate AlwaysOpen(log: seq<Selection>, c: string) {
    forall i :: 0 <= i < |log| ==> c in log[i].open
  }

  /** Walk d further positions from a place that is `before` up to whole turns. */
  lemma HitsExtend(cycle: seq<string>, c: string, from: nat, n: nat, before: nat, d: nat)
    requires cycle != [] && (from + n) % |cycle| == before % |cycle|
    ensures Hits(cycle, c, from, n + d) == Hits(cycle, c, from, n) + Hits(cycle, c, before, d)
    ensures (from + n + d) % |cycle| == (before + d) % |cycle|
  {
    HitsAppend(cycle, c, from, n, d);
    HitsByResidue(cycle, c, from + n, before, d);
    SameResidue(from + n, before, d, |cycle|);
  }

  lemma ChainedInit(cycle: seq<string>, log: seq<Selection>)
    requires |log| > 1 && Chained(cycle, log)
    ensures
      var n := |log| - 1;
      Chained(cycle, log[..n]) && GoodSelection(cycle, log[n]) && log[..n][n - 1] == log[n - 1] &&
      log[n].before % |cycle| == log[n - 1].after % |cycle|
  {
  }

  /** A class that stays open is served once for every one of its positions passed. */
  lemma {:induction false} ServedIsHits(cycle: seq<string>, log: seq<Selection>, c: string)
    requires log != [] && Chained(cycle, log) && AlwaysOpen(log, c)
    ensures cycle != [] && Travelled(log) >= |log|
    ensures Served(log, c) == Hits(cycle, c, log[0].before, Travelled(log))
    ensures (log[0].before + Travelled(log)) % |cycle| == log[|log| - 1].after % |cycle|
  {
    var n, last := |log| - 1, log[|log| - 1];
    assert GoodSelection(cycle, last) && c in last.open;
    HitsOfASelection(cycle, last, c);
    var init := log[..n];
    if n > 0 {
      ChainedInit(cycle, log);
      ServedIsHits(cycle, init, c);
      HitsExtend(cycle, c, log[0].before, Travelled(init), last.before, last.after - last.before);
    } else {
      assert init == [];
    }
  }

  /** In as many consecutive selections as the cycle is long, a class that stays open is served at least its weight. */
  lemma ClassGetsItsShare(cycle: seq<string>, log: seq<Selection>, c: string)
    requires cycle != [] && |log| == |cycle| && Chained(cycle, log) && AlwaysOpen(log, c)
    ensures Served(log, c) >= Occurrences(cycle, c)
  {
    ServedIsHits(cycle, log, c);
    AtLeastATurn(cycle, c, log[0].before, Travelled(log));
  }

  lemma AtLeastATurn(cycle: seq<string>, c: string, from: nat, n: nat)
    requires cycle != [] && n >= |cycle|
    ensures Hits(cycle, c, from, n) >= Occurrences(cycle, c)
  {
    HitsOfATurn(cycle, c, from);
    HitsAppend(cycle, c, from, |cycle|, n - |cycle|);
  }

  lemma ShareInAnyWindow(cycle: seq<string>, log: seq<Selection>, i: nat, c: string)
    requires cycle != [] && i + |cycle| <= |log| && Chained(cycle, log)
    requires forall j :: i <= j < i + |cycle| ==> c in log[j].open
    ensures Served(log[i..i + |cycle|], c) >= Occurrences(cycle, c)
  {
    var window := log[i..i + |cycle|];
    forall j | 0 < j < |window| ensures window[j].before % |cycle| == window[j - 1].after % |cycle| {
      assert window[j] == log[i + j] && window[j - 1] == log[i + j - 1];
    }
    ClassGetsItsShare(cycle, window, c);
  }

  /** Without caps a class is open exactly when one of its messages is buffered. */
  lemma WithoutCapsBufferedIsOpen(cfg: Config, buffer: Buffer, out: seq<Msg>, c: string)
    requires cfg.tenantMax == 0 && Lookup(cfg.classMax, c) == 0
    ensures c in OpenClasses(cfg, buffer, out) <==> exists id :: id in buffer && buffer[id].trafficClass == c
  {
    if id :| id in buffer && buffer[id].trafficClass == c { assert MayTake(cfg, out, buffer[id]); }
  }

  // ----- Admission to the buffer --------------------------------------------

  function TenantName(cfg: Config, tenants: set<string>, raw: string): string {
    var t := Text.Lower(Text.TrimSpace(raw));
    if t == "" then "default" else if t !in tenants && |tenants| >= cfg.maxTenants then "default" else t
  }

  function ClassName(cfg: Config, cycle: seq<string>, tenant: string, raw: string): string
    requires cycle != []
  {
    var mapped := if tenant in cfg.tenantClasses then cfg.tenantClasses[tenant] else "";
    var c := if mapped != "" then mapped else Text.Lower(Text.TrimSpace(raw));
    if Lookup(cfg.weights, c) > 0 then c
    else if Lookup(cfg.weights, "default") > 0 then "default" else cycle[0]
  }

  /** The buffer and the tenants known, after a sequence of fetched messages. */
  datatype Intake = Intake(buffer: Buffer, tenants: set<string>)

  function Absorb(cfg: Config, cycle: seq<string>, at: Intake, m: Msg): Intake
    requires cycle != []
  {
    if m.id in at.buffer then at
    else
      var tenant := TenantName(cfg, at.tenants, m.tenant);
      Intake(at.buffer[m.id := m.(tenant := tenant, trafficClass := ClassName(cfg, cycle, tenant, m.trafficClass))],
             at.tenants + {tenant})
  }

  function AbsorbAll(cfg: Config, cycle: seq<string>, at: Intake, msgs: seq<Msg>): Intake
    requires cycle != []
  {
    if msgs == [] then at
    else Absorb(cfg, cycle, AbsorbAll(cfg, cycle, at, msgs[..|msgs| - 1]), msgs[|msgs| - 1])
  }

  predicate CycleOk(cfg: Config, cycle: seq<string>) {
    cycle != [] && forall c :: c in cfg.weights && cfg.weights[c] > 0 ==> c in cycle
  }

  predicate BufferOk(cycle: seq<string>, buffer: Buffer) {
    forall id :: id in buffer ==> buffer[id].id == id && buffer[id].trafficClass in cycle
  }

  predicate TenantsOk(cfg: Config, tenants: set<string>) {
    "default" in tenants && |tenants| <= Max(2, cfg.maxTenants)
  }

  function IdsOf(msgs: seq<Msg>): set<string> { set i | 0 <= i < |msgs| :: msgs[i].id }

  /** The intake r keeps what `at` held and adds exactly the given ids. */
  predicate Extends(at: Intake, r: Intake, ids: set<string>) {
    r.buffer.Keys == at.buffer.Keys + ids && forall id :: id in at.buffer ==> r.buffer[id] == at.buffer[id]
  }

  predicate IntakeOk(cfg: Config, cycle: seq<string>, at: Intake) {
    BufferOk(cycle, at.buffer) && TenantsOk(cfg, at.tenants)
  }

  lemma AbsorbOne(cfg: Config, cycle: seq<string>, at: Intake, m: Msg)
    requires CycleOk(cfg, cycle) && IntakeOk(cfg, cycle, at)
    ensures IntakeOk(cfg, cycle, Absorb(cfg, cycle, at, m)) && Extends(at, Absorb(cfg, cycle, at, m), {m.id})
  {
    var tenant := TenantName(cfg, at.tenants, m.tenant);
    if tenant in at.tenants { assert at.tenants + {tenant} == at.tenants; }
  }

  lemma ExtendsTwice(a: Intake, b: Intake, c: Intake, ids: set<string>, more: set<string>)
    requires Extends(a, b, ids) && Extends(b, c, more)
    ensures Extends(a, c, ids + more)
  {
  }

  /**
   * Nothing buffered is replaced, everything fetched gets in under its own id
   * and with a class on the cycle, and tenants stay bounded.
   */
  lemma {:induction false} IntakeKeepsEverything(cfg: Config, cycle: seq<string>, at: Intake, msgs: seq<Msg>)
    requires CycleOk(cfg, cycle) && IntakeOk(cfg, cycle, at)
    ensures
      var r := AbsorbAll(cfg, cycle, at, msgs);
      IntakeOk(cfg, cycle, r) && Extends(at, r, IdsOf(msgs))
    decreases |msgs|
  {
    if msgs == [] {
      assert IdsOf(msgs) == {};
    } else {
      var n := |msgs| - 1;
      var mid := AbsorbAll(cfg, cycle, at, msgs[..n]);
      IntakeKeepsEverything(cfg, cycle, at, msgs[..n]);
      AbsorbOne(cfg, cycle, mid, msgs[n]);
      assert msgs[..n] + [msgs[n]] == msgs;
      IdsSnoc(msgs[..n], msgs[n]);
      ExtendsTwice(at, mid, Absorb(cfg, cycle, mid, msgs[n]), IdsOf(msgs[..n]), {msgs[n].id});
    }
  }

  lemma IdsSnoc(msgs: seq<Msg>, m: Msg)
    ensures IdsOf(msgs + [m]) == IdsOf(msgs) + {m.id}
  {
    var all := msgs + [m];
    assert all[|msgs|] == m;
    forall id | id in IdsOf(msgs) ensures id in IdsOf(all) {
      var i :| 0 <= i < |msgs| && msgs[i].id == id;
      assert all[i] == msgs[i];
    }
  }

  // ----- Choosing inside a class --------------------------------------------

  lemma {:induction false} RankInOrder(names: seq<string>, i: nat)
    requires Ascending(names) && i < |names|
    ensures Rank(names[i], NamesOf(names)) == i
  {
    var below := set x | x in NamesOf(names) && Less(x, names[i]);
    var first := NamesOf(names[..i]);
    forall x | x in below ensures x in first {
      var j :| 0 <= j < |names| && names[j] == x;
      if j >= i {
        LessIrreflexive(names[i]);
        if j > i { LessTransitive(names[i], x, names[i]); }
        assert false;
      }
      assert names[..i][j] == x;
    }
    assert below == first;
    DistinctSize(names[..i]);
  }

  method Earliest(buffer: Buffer, ids: set<string>) returns (least: Msg)
    requires ids != {} && ids <= buffer.Keys && forall id :: id in ids ==> buffer[id].id == id
    ensures least.id in ids && buffer[least.id] == least
    ensures forall id :: id in ids && id != least.id ==> Before(least, buffer[id])
  {
    var first :| first in ids;
    least := buffer[first];
    var todo := ids - {first};
    while todo != {}
      invariant todo <= ids && least.id in ids && buffer[least.id] == least
      invariant forall id :: id in ids - todo && id != least.id ==> Before(least, buffer[id])
      decreases todo
    {
      var id :| id in todo;
      var m := buffer[id];
      BeforeTotal(least, m);
      if Before(m, least) {
        forall y | y in ids - todo && y != m.id ensures Before(m, buffer[y]) {
          if y != least.id { BeforeTransitive(m, least, buffer[y]); }
        }
        least := m;
      }
      todo := todo - {id};
    }
  }

  // ----- The scheduler -------------------------------------------------------

  /** The message a class serves: the tenant whose turn it is, and that tenant's earliest message. */
  ghost predicate ServesClass(cfg: Config, buffer: Buffer, out: seq<Msg>, c: string, turn: nat, m: Msg) {
    var tenants := TenantsOf(cfg, buffer, out, c);
    && m.id in Candidates(cfg, buffer, out, c) && buffer[m.id] == m
    && tenants != {} && Rank(m.tenant, tenants) == turn % |tenants|
    && forall id :: id in Candidates(cfg, buffer, out, c) && buffer[id].tenant == m.tenant && id != m.id ==>
      Before(m, buffer[id])
  }

  // ----- Rotation over tenants ---------------------------------------------------

  /**
   * Consecutive services of one class: the eligible tenants at each, and the
   * one served. The cursor starts somewhere and then stands after the one
   * served last.
   */
  ghost predicate Rotation(sets: seq<set<string>>, start: nat, served: seq<string>) {
    |served| == |sets| && forall k :: 0 <= k < |sets| ==> TurnOf(sets, start, served, k)
  }

  ghost predicate TurnOf(sets: seq<set<string>>, start: nat, served: seq<string>, k: nat)
    requires k < |sets| == |served|
  {
    sets[k] != {} && served[k] in sets[k] && Rank(served[k], sets[k]) == CursorAt(sets, start, served, k) % |sets[k]|
  }

  ghost function CursorAt(sets: seq<set<string>>, start: nat, served: seq<string>, k: nat): nat
    requires k <= |sets| == |served|
  {
    if k == 0 then start else Rank(served[k - 1], sets[k - 1]) + 1
  }

  /** What the scheduler serves is a rotation: one more service continues it. */
  lemma ServingRotates(cfg: Config, buffer: Buffer, out: seq<Msg>, c: string, m: Msg, sets: seq<set<string>>,
                       start: nat, served: seq<string>)
    requires Rotation(sets, start, served) && ServesClass(cfg, buffer, out, c, CursorAt(sets, start, served, |sets|), m)
    ensures Rotation(sets + [TenantsOf(cfg, buffer, out, c)], start, served + [m.tenant])
  {
    var more, names := sets + [TenantsOf(cfg, buffer, out, c)], served + [m.tenant];
    assert m.tenant in TenantsOf(cfg, buffer, out, c);
    forall k | 0 <= k < |more| ensures TurnOf(more, start, names, k) {
      if k < |sets| { assert TurnOf(sets, start, served, k); }
      assert k > 0 ==> more[k - 1] == sets[k - 1] && names[k - 1] == served[k - 1];
    }
  }

  lemma RankBelow(x: string, y: string, names: set<string>)
    requires x in names && Less(x, y)
    ensures Rank(x, names) < Rank(y, names)
  {
    var a, b := set z | z in names && Less(z, x), set z | z in names && Less(z, y);
    forall z | z in a ensures z in b { LessTransitive(z, x, y); }
    LessIrreflexive(x);
    assert x in b - a;
    assert |b| == |a| + |b - a|;
  }

  lemma RankFits(x: string, names: set<string>)
    requires x in names
    ensures Rank(x, names) < |names|
  {
    var a := set z | z in names && Less(z, x);
    LessIrreflexive(x);
    assert a <= names - {x};
    assert names - {x} == a + (names - {x} - a);
  }

  lemma RankTells(x: string, y: string, names: set<string>)
    requires x in names && y in names && Rank(x, names) == Rank(y, names)
    ensures x == y
  {
    LessTotal(x, y);
    if Less(x, y) { RankBelow(x, y, names); }
    if Less(y, x) { RankBelow(y, x, names); }
  }

  /** The tenants do not change during the services from i up to j. */
  ghost predicate Constant(sets: seq<set<string>>, i: nat, j: nat, names: set<string>)
    requires i <= j <= |sets|
  {
    forall k :: i <= k < j ==> sets[k] == names
  }

  /** The rank `step` places on, wrapping around once. */
  function Onward(first: nat, step: nat, n: nat): int { if first + step < n then first + step else first + step - n }

  /** While they do not change, ranks count up and wrap around. */
  lemma {:induction false} RanksCount(sets: seq<set<string>>, start: nat, served: seq<string>, names: set<string>,
                                      i: nat, j: nat)
    requires Rotation(sets, start, served) && i <= j < |sets| && j - i < |names| && Constant(sets, i, j + 1, names)
    ensures Rank(served[j], names) == Onward(Rank(served[i], names), j - i, |names|)
    decreases j
  {
    assert TurnOf(sets, start, served, i);
    RankFits(served[i], names);
    if j > i {
      RanksCount(sets, start, served, names, i, j - 1);
      assert TurnOf(sets, start, served, j);
      OneOn(Rank(served[j - 1], names), |names|);
    }
  }

  lemma OneOn(rank: nat, n: nat)
    requires rank < n
    ensures (rank + 1) % n == if rank + 1 < n then rank + 1 else 0
  {
  }

  /**
   * With the same n tenants eligible throughout, each of them is served exactly
   * once in any n services of the class.
   */
  lemma EachTenantOnce(sets: seq<set<string>>, start: nat, served: seq<string>, names: set<string>, i: nat, t: string)
    returns (k: nat)
    requires Rotation(sets, start, served) && t in names && i + |names| <= |sets|
    requires Constant(sets, i, i + |names|, names)
    ensures i <= k < i + |names| && served[k] == t
    ensures forall j :: i <= j < i + |names| && served[j] == t ==> j == k
  {
    var n := |names|;
    RankFits(t, names);
    assert TurnOf(sets, start, served, i);
    RankFits(served[i], names);
    var first, mine := Rank(served[i], names), Rank(t, names);
    k := i + if mine >= first then mine - first else mine + n - first;
    RanksCount(sets, start, served, names, i, k);
    assert TurnOf(sets, start, served, k);
    RankTells(served[k], t, names);
    forall j | i <= j < i + n && served[j] == t ensures j == k {
      RanksCount(sets, start, served, names, i, j);
    }
  }

  /** The eligible tenants take turns too: all three at every other service, and without the middle one in between. */
  function Alternating(a: string, b: string, c: string, n: nat): (sets: seq<set<string>>)
    ensures |sets| == n && forall k :: 0 <= k < n ==> sets[k] == if k % 2 == 0 then {a, b, c} else {a, c}
  {
    seq(n, k requires 0 <= k < n => if k % 2 == 0 then {a, b, c} else {a, c})
  }

  function FirstTwo(a: string, b: string, n: nat): (served: seq<string>)
    ensures |served| == n && forall k :: 0 <= k < n ==> served[k] == if k % 2 == 0 then b else a
  {
    seq(n, k requires 0 <= k < n => if k % 2 == 0 then b else a)
  }

  /** With a changing set a tenant can be eligible at every service, for as long as one likes, and never be served. */
  lemma ChangingTenantsStarveOne(a: string, b: string, c: string, n: nat)
    requires Less(a, b) && Less(b, c)
    ensures
      var sets, served := Alternating(a, b, c, n), FirstTwo(a, b, n);
      && Rotation(sets, 1, served)
      && forall k :: 0 <= k < n ==> c in sets[k] && served[k] != c
  {
    var sets, served := Alternating(a, b, c, n), FirstTwo(a, b, n);
    RanksOfThree(a, b, c);
    forall k | 0 <= k < n ensures TurnOf(sets, 1, served, k) && c in sets[k] && served[k] != c {
      if k > 0 { assert (k - 1) % 2 != k % 2; }
    }
  }

  lemma RankIs(x: string, names: set<string>, below: set<string>)
    requires forall z :: z in below <==> z in names && Less(z, x)
    ensures Rank(x, names) == |below|
  {
    assert below == set z | z in names && Less(z, x);
  }

  lemma RanksOfThree(a: string, b: string, c: string)
    requires Less(a, b) && Less(b, c)
    ensures a != b && b != c && a != c && |{a, b, c}| == 3 && |{a, c}| == 2
    ensures Rank(b, {a, b, c}) == 1 && Rank(a, {a, c}) == 0
  {
    LessTransitive(a, b, c);
    LessIrreflexive(a);
    LessIrreflexive(b);
    LessIrreflexive(c);
    if Less(c, b) { LessTransitive(b, c, b); }
    if Less(c, a) { LessTransitive(a, c, a); }
    RankIs(b, {a, b, c}, {a});
    RankIs(a, {a, c}, {});
  }

  // ----- Serving -------------------------------------------------------------------

  lemma OpenMeansCandidates(cfg: Config, buffer: Buffer, out: seq<Msg>, c: string)
    ensures c in OpenClasses(cfg, buffer, out) <==> Candidates(cfg, buffer, out, c) != {}
    ensures TenantsOf(cfg, buffer, out, c) == {} <==> Candidates(cfg, buffer, out, c) == {}
    ensures !ClassOpen(cfg, out, c) ==> Candidates(cfg, buffer, out, c) == {}
  {
    if id :| id in Candidates(cfg, buffer, out, c) {
      assert buffer[id].tenant in TenantsOf(cfg, buffer, out, c);
      assert buffer[id].trafficClass in OpenClasses(cfg, buffer, out);
    }
    if c in OpenClasses(cfg, buffer, out) {
      var id :| id in buffer && MayTake(cfg, out, buffer[id]) && buffer[id].trafficClass == c;
      assert id in Candidates(cfg, buffer, out, c);
    }
  }

  /** A full turn without a find means that nothing at all could be taken. */
  lemma NothingFoundMeansNothingOpen(cfg: Config, cycle: seq<string>, buffer: Buffer, out: seq<Msg>, cursor: nat)
    requires cycle != [] && BufferOk(cycle, buffer)
    requires Scan(cycle, cursor, OpenClasses(cfg, buffer, out), |cycle|).None?
    ensures OpenClasses(cfg, buffer, out) == {}
  {
    var open := OpenClasses(cfg, buffer, out);
    ScanFindsFirst(cycle, cursor, open, |cycle|);
    if c :| c in open {
      assert c in cycle;
      FullTurn(cycle, cursor, c);
      assert false;
    }
  }

  // ----- Batches ----------------------------------------------------------------

  /** The batch takes distinct messages out of the buffer, unchanged, and the rest stays. */
  ghost predicate Taken(full: Buffer, out: seq<Msg>, rest: Buffer) {
    && (forall i :: 0 <= i < |out| ==> out[i].id in full && full[out[i].id] == out[i])
    && (forall i, j :: 0 <= i < j < |out| ==> out[i].id != out[j].id)
    && rest == full - IdsOf(out)
  }

  ghost predicate CapsHold(cfg: Config, out: seq<Msg>) {
    && (forall c :: Lookup(cfg.classMax, c) > 0 ==> CountClass(out, c) <= Lookup(cfg.classMax, c))
    && (forall t :: cfg.tenantMax > 0 ==> CountTenant(out, t) <= cfg.tenantMax)
  }

  /** What the i-th selection saw: the buffer and the counts after the messages before it. */
  ghost predicate SelectionAt(cfg: Config, full: Buffer, out: seq<Msg>, s: Selection, i: nat)
    requires i < |out|
  {
    s.open == OpenClasses(cfg, full - IdsOf(out[..i]), out[..i]) && s.served == out[i].trafficClass
  }

  ghost predicate SelectionsMatch(cfg: Config, full: Buffer, out: seq<Msg>, picks: seq<Selection>) {
    |picks| == |out| && forall i :: 0 <= i < |out| ==> SelectionAt(cfg, full, out, picks[i], i)
  }

  ghost predicate BatchOk(cfg: Config, full: Buffer, out: seq<Msg>, rest: Buffer, limit: nat) {
    && |out| <= limit && Taken(full, out, rest) && CapsHold(cfg, out)
    && (|out| < limit ==> OpenClasses(cfg, rest, out) == {})
  }

  lemma TakenSnoc(full: Buffer, out: seq<Msg>, rest: Buffer, m: Msg)
    requires Taken(full, out, rest) && m.id in rest && rest[m.id] == m
    ensures Taken(full, out + [m], rest - {m.id})
  {
    IdsSnoc(out, m);
    forall i | 0 <= i < |out| ensures out[i].id != m.id { assert out[i].id in IdsOf(out); }
    assert full - IdsOf(out) - {m.id} == full - (IdsOf(out) + {m.id});
  }

  lemma CapsSnoc(cfg: Config, out: seq<Msg>, m: Msg)
    requires CapsHold(cfg, out) && MayTake(cfg, out, m)
    ensures CapsHold(cfg, out + [m])
  {
    assert (out + [m])[..|out|] == out;
  }

  lemma CountsSnoc(out: seq<Msg>, m: Msg, classCounts: map<string, nat>, tenantCounts: map<string, nat>)
    requires CountsAgree(out, classCounts, tenantCounts)
    ensures CountsAgree(out + [m], classCounts[m.trafficClass := Lookup(classCounts, m.trafficClass) + 1],
                        tenantCounts[m.tenant := Lookup(tenantCounts, m.tenant) + 1])
  {
    var all := out + [m];
    assert all[..|out|] == out;
    forall c ensures CountClass(all, c) == CountClass(out, c) + if m.trafficClass == c then 1 else 0 { }
    forall t ensures CountTenant(all, t) == CountTenant(out, t) + if m.tenant == t then 1 else 0 { }
  }

  lemma SelectionsSnoc(cfg: Config, full: Buffer, out: seq<Msg>, picks: seq<Selection>, m: Msg, s: Selection)
    requires SelectionsMatch(cfg, full, out, picks)
    requires s.open == OpenClasses(cfg, full - IdsOf(out), out) && s.served == m.trafficClass
    ensures SelectionsMatch(cfg, full, out + [m], picks + [s])
  {
    var all := out + [m];
    forall i | 0 <= i < |all| ensures SelectionAt(cfg, full, all, (picks + [s])[i], i) {
      assert all[..i] == out[..i];
      if i == |out| { assert out[..i] == out; } else { assert SelectionAt(cfg, full, out, picks[i], i); }
    }
  }

  ghost predicate LogOk(cycle: seq<string>, log: seq<Selection>, cursor: nat)
    requires cycle != []
  {
    Chained(cycle, log) && (log != [] ==> log[|log| - 1].after % |cycle| == cursor % |cycle|)
  }

  lemma LogSnoc(cycle: seq<string>, log: seq<Selection>, picks: seq<Selection>, s: Selection)
    requires cycle != [] && LogOk(cycle, log + picks, s.before) && GoodSelection(cycle, s)
    ensures LogOk(cycle, log + (picks + [s]), s.after)
  {
    assert log + (picks + [s]) == (log + picks) + [s];
  }

  lemma LogTurn(cycle: seq<string>, log: seq<Selection>, cursor: nat)
    requires cycle != [] && LogOk(cycle, log, cursor)
    ensures LogOk(cycle, log, cursor + |cycle|)
  {
    AddModulus(cursor, |cycle|);
  }

  /** The batch under construction. */
  ghost predicate Building(cfg: Config, full: Buffer, rest: Buffer, out: seq<Msg>, picks: seq<Selection>) {
    Taken(full, out, rest) && CapsHold(cfg, out) && SelectionsMatch(cfg, full, out, picks)
  }

  lemma BuildingStarts(cfg: Config, full: Buffer)
    ensures Building(cfg, full, full, [], [])
  {
    assert IdsOf([]) == {};
  }

  lemma BuildingSnoc(cfg: Config, full: Buffer, rest: Buffer, out: seq<Msg>, picks: seq<Selection>, m: Msg,
                     s: Selection, turn: nat)
    requires Building(cfg, full, rest, out, picks) && ServesClass(cfg, rest, out, m.trafficClass, turn, m)
    requires s.open == OpenClasses(cfg, rest, out) && s.served == m.trafficClass
    ensures Building(cfg, full, rest - {m.id}, out + [m], picks + [s])
    ensures forall cycle :: BufferOk(cycle, rest) ==> BufferOk(cycle, rest - {m.id})
  {
    TakenSnoc(full, out, rest, m);
    CapsSnoc(cfg, out, m);
    SelectionsSnoc(cfg, full, out, picks, m, s);
  }

  // ----- Building the cycle --------------------------------------------------

  function Repeat(c: string, n: nat): seq<string> { if n == 0 then [] else Repeat(c, n - 1) + [c] }

  function Expand(weights: map<string, nat>, classes: seq<string>): seq<string> {
    if classes == [] then []
    else Expand(weights, classes[..|classes| - 1]) +
         Repeat(classes[|classes| - 1], Lookup(weights, classes[|classes| - 1]))
  }

  lemma {:induction false} OccurrencesOfRepeat(before: seq<string>, d: string, n: nat, c: string)
    ensures Occurrences(before + Repeat(d, n), c) == Occurrences(before, c) + if c == d then n else 0
  {
    if n == 0 {
      assert before + Repeat(d, 0) == before;
    } else {
      var all := before + Repeat(d, n);
      OccurrencesOfRepeat(before, d, n - 1, c);
      assert all[..|all| - 1] == before + Repeat(d, n - 1);
    }
  }

  lemma {:induction false} OccurrencesOfExpand(weights: map<string, nat>, classes: seq<string>, c: string)
    requires Ascending(classes)
    ensures Occurrences(Expand(weights, classes), c) == if c in classes then Lookup(weights, c) else 0
    decreases |classes|
  {
    if classes != [] {
      var n := |classes| - 1;
      var init := classes[..n];
      OccurrencesOfExpand(weights, init, c);
      OccurrencesOfRepeat(Expand(weights, init), classes[n], Lookup(weights, classes[n]), c);
      LessIrreflexive(classes[n]);
      assert classes == init + [classes[n]];
      assert classes[n] !in init;
    }
  }

  lemma {:induction false} OccursIn(cycle: seq<string>, c: string)
    requires Occurrences(cycle, c) > 0
    ensures c in cycle
  {
    var n := |cycle| - 1;
    if cycle[n] != c { OccursIn(cycle[..n], c); }
  }

  /** The counters agree with the batch so far. */
  ghost predicate CountsAgree(out: seq<Msg>, classCounts: map<string, nat>, tenantCounts: map<string, nat>) {
    && (forall c :: Lookup(classCounts, c) == CountClass(out, c))
    && (forall t :: Lookup(tenantCounts, t) == CountTenant(out, t))
  }

  class FairQueue {
    const cfg: Config
    const cycle: seq<string>
    var buffer: Buffer
    var classCursor: nat
    var tenantCursor: map<string, nat>
    var tenants: set<string>
    ghost var log: seq<Selection>

    ghost predicate Valid()
      reads this
    {
      && CycleOk(cfg, cycle) && IntakeOk(cfg, cycle, Intake(buffer, tenants))
      && LogOk(cycle, log, classCursor)
    }

    /** The cycle lists every class exactly as often as its weight says. */
    constructor (cfg: Config)
      requires exists c :: c in cfg.weights && cfg.weights[c] > 0
      ensures Valid() && this.cfg == cfg && buffer == map[] && log == []
      ensures forall c :: Occurrences(cycle, c) == Lookup(cfg.weights, c)
    {
      var classes := SortNames(cfg.weights.Keys);
      var built: seq<string>, i := [], 0;
      while i < |classes|
        invariant 0 <= i <= |classes| && built == Expand(cfg.weights, classes[..i])
      {
        assert classes[..i + 1][..i] == classes[..i];
        built := built + Repeat(classes[i], Lookup(cfg.weights, classes[i]));
        i := i + 1;
      }
      assert classes[..i] == classes;
      forall c ensures Occurrences(built, c) == Lookup(cfg.weights, c) {
        OccurrencesOfExpand(cfg.weights, classes, c);
        assert c in classes <==> c in NamesOf(classes);
      }
      forall c | c in cfg.weights && cfg.weights[c] > 0 ensures c in built { OccursIn(built, c); }
      this.cfg, cycle := cfg, built;
      buffer, classCursor, tenantCursor, tenants, log := map[], 0, map[], {"default", "system"}, [];
    }

    /** Serve one class: rotate its tenants and take the earliest message of the one whose turn it is. */
    method Serve(c: string, tenantCounts: map<string, nat>, ghost out: seq<Msg>) returns (r: Option<Msg>)
      requires BufferOk(cycle, buffer) && ClassOpen(cfg, out, c)
      requires forall t :: Lookup(tenantCounts, t) == CountTenant(out, t)
      modifies this`tenantCursor
      ensures r.None? <==> Candidates(cfg, buffer, out, c) == {}
      ensures r.None? ==> tenantCursor == old(tenantCursor)
      ensures r.Some? ==>
        ServesClass(cfg, buffer, out, c, Lookup(old(tenantCursor), c), r.value) &&
        tenantCursor == old(tenantCursor)[c := Rank(r.value.tenant, TenantsOf(cfg, buffer, out, c)) + 1]
    {
      var ids := set id | id in buffer && buffer[id].trafficClass == c &&
        (cfg.tenantMax == 0 || Lookup(tenantCounts, buffer[id].tenant) < cfg.tenantMax);
      assert ids == Candidates(cfg, buffer, out, c);
      var present := set id | id in ids :: buffer[id].tenant;
      assert present == TenantsOf(cfg, buffer, out, c);
      if present == {} {
        OpenMeansCandidates(cfg, buffer, out, c);
        return None;
      }
      var names := SortNames(present);
      var idx := Lookup(tenantCursor, c) % |names|;
      tenantCursor := tenantCursor[c := idx + 1];
      RankInOrder(names, idx);
      assert names[idx] in NamesOf(names);
      var mine := set id | id in ids && buffer[id].tenant == names[idx];
      var witness_ :| witness_ in ids && buffer[witness_].tenant == names[idx];
      assert witness_ in mine;
      var m := Earliest(buffer, mine);
      r := Some(m);
    }
  
    /** One class of the cycle: passed over when it is at its cap or has nothing to serve. */
    method Offer(c: string, classCounts: map<string, nat>, tenantCounts: map<string, nat>, ghost out: seq<Msg>)
      returns (r: Option<Msg>)
      requires BufferOk(cycle, buffer) && CountsAgree(out, classCounts, tenantCounts)
      modifies this`tenantCursor
      ensures r.None? <==> c !in OpenClasses(cfg, buffer, out)
      ensures r.None? ==> tenantCursor == old(tenantCursor)
      ensures r.Some? ==>
        && r.value.trafficClass == c && ServesClass(cfg, buffer, out, c, Lookup(old(tenantCursor), c), r.value)
        && tenantCursor == old(tenantCursor)[c := Rank(r.value.tenant, TenantsOf(cfg, buffer, out, c)) + 1]
    {
      OpenMeansCandidates(cfg, buffer, out, c);
      if Lookup(cfg.classMax, c) > 0 && Lookup(classCounts, c) >= Lookup(cfg.classMax, c) { return None; }
      r := Serve(c, tenantCounts, out);
    }

    method Next(classCounts: map<string, nat>, tenantCounts: map<string, nat>, ghost out: seq<Msg>)
      returns (r: Option<Msg>)
      requires CycleOk(cfg, cycle) && BufferOk(cycle, buffer) && CountsAgree(out, classCounts, tenantCounts)
      modifies this`classCursor, this`tenantCursor
      ensures r.None? ==>
        OpenClasses(cfg, buffer, out) == {} && classCursor == old(classCursor) + |cycle| &&
          tenantCursor == old(tenantCursor)
      ensures r.Some? ==>
        && GoodSelection(cycle,
                         Selection(OpenClasses(cfg, buffer, out), old(classCursor), classCursor, r.value.trafficClass))
        && ServesClass(cfg, buffer, out, r.value.trafficClass, Lookup(old(tenantCursor), r.value.trafficClass), r.value)
        && tenantCursor == old(tenantCursor)[r.value.trafficClass :=
             Rank(r.value.tenant, TenantsOf(cfg, buffer, out, r.value.trafficClass)) + 1]
    {
      ghost var open := OpenClasses(cfg, buffer, out);
      for i := 0 to |cycle|
        invariant classCursor == old(classCursor) + i && tenantCursor == old(tenantCursor)
        invariant Scan(cycle, classCursor, open, |cycle| - i) == Scan(cycle, old(classCursor), open, |cycle|)
      {
        var c := cycle[classCursor % |cycle|];
        classCursor := classCursor + 1;
        r := Offer(c, classCounts, tenantCounts, out);
        if r.Some? { return; }
      }
      NothingFoundMeansNothingOpen(cfg, cycle, buffer, out, old(classCursor));
      return None;
    }
  
    /** The buffer once the fetched messages are in; with enough buffered nothing is fetched. */
    ghost function Filled(limit: nat, fetched: Option<seq<Msg>>): Intake
      requires cycle != []
      reads this
    {
      if limit * cfg.prefetchFactor > |buffer| && fetched.Some?
      then AbsorbAll(cfg, cycle, Intake(buffer, tenants), fetched.value) else Intake(buffer, tenants)
    }

    method Fetch(msgs: seq<Msg>)
      requires Valid()
      modifies this`buffer, this`tenants
      ensures Valid() && Intake(buffer, tenants) == AbsorbAll(cfg, cycle, Intake(old(buffer), old(tenants)), msgs)
    {
      for i := 0 to |msgs|
        invariant Intake(buffer, tenants) == AbsorbAll(cfg, cycle, Intake(old(buffer), old(tenants)), msgs[..i])
      {
        assert msgs[..i + 1][..i] == msgs[..i];
        if msgs[i].id in buffer { continue; }
        var m := Normalize(msgs[i]);
        buffer := buffer[m.id := m];
      }
      assert msgs[..|msgs|] == msgs;
      IntakeKeepsEverything(cfg, cycle, Intake(old(buffer), old(tenants)), msgs);
    }

    method Normalize(msg: Msg) returns (m: Msg)
      requires cycle != []
      modifies this`tenants
      ensures
        var tenant := TenantName(cfg, old(tenants), msg.tenant);
        tenants == old(tenants) + {tenant} &&
        m == msg.(tenant := tenant, trafficClass := ClassName(cfg, cycle, tenant, msg.trafficClass))
    {
      var tenant := Text.Lower(Text.TrimSpace(msg.tenant));
      var c := Text.Lower(Text.TrimSpace(msg.trafficClass));
      if tenant == "" { tenant := "default"; }
      if tenant !in tenants && |tenants| >= cfg.maxTenants { tenant := "default"; }
      tenants := tenants + {tenant};
      if tenant in cfg.tenantClasses && cfg.tenantClasses[tenant] != "" { c := cfg.tenantClasses[tenant]; }
      if Lookup(cfg.weights, c) == 0 { c := "default"; }
      if Lookup(cfg.weights, c) == 0 { c := cycle[0]; }
      m := msg.(tenant := tenant, trafficClass := c);
    }

    /** Take a batch; `fetched` is what the backend answers when asked. */
    method Due(limit: nat, fetched: Option<seq<Msg>>) returns (res: Option<seq<Msg>>)
      requires Valid()
      modifies this
      ensures Valid()
      ensures res.None? <==> fetched.None? && limit * cfg.prefetchFactor > |old(buffer)|
      ensures res.None? ==> buffer == old(buffer) && log == old(log) && classCursor == old(classCursor)
      ensures res.Some? ==> BatchOk(cfg, old(Filled(limit, fetched)).buffer, res.value, buffer, limit)
      ensures |log| >= |old(log)| && log[..|old(log)|] == old(log)
      ensures res.Some? ==> SelectionsMatch(cfg, old(Filled(limit, fetched)).buffer, res.value, log[|old(log)|..])
    {
      if limit * cfg.prefetchFactor > |buffer| {
        if fetched.None? { return None; }
        Fetch(fetched.value);
      }
      var out := Batch(limit);
      return Some(out);
    }

    method Batch(limit: nat) returns (out: seq<Msg>)
      requires Valid()
      modifies this`buffer, this`classCursor, this`tenantCursor, this`log
      ensures Valid() && BatchOk(cfg, old(buffer), out, buffer, limit)
      ensures |log| >= |old(log)| && log[..|old(log)|] == old(log)
      ensures SelectionsMatch(cfg, old(buffer), out, log[|old(log)|..])
    {
      ghost var picks;
      out, picks := Fill(limit);
      log := log + picks;
      assert log[|old(log)|..] == picks;
    }

    method Fill(limit: nat) returns (out: seq<Msg>, ghost picks: seq<Selection>)
      requires CycleOk(cfg, cycle) && BufferOk(cycle, buffer) && LogOk(cycle, log, classCursor)
      modifies this`buffer, this`classCursor, this`tenantCursor
      ensures BufferOk(cycle, buffer) && LogOk(cycle, log + picks, classCursor)
      ensures |out| <= limit && Building(cfg, old(buffer), buffer, out, picks)
      ensures |out| < limit ==> OpenClasses(cfg, buffer, out) == {}
    {
      out, picks := [], [];
      var classCounts: map<string, nat>, tenantCounts: map<string, nat> := map[], map[];
      BuildingStarts(cfg, buffer);
      assert log + picks == log;
      while |out| < limit && |buffer| > 0
        invariant |out| <= limit && BufferOk(cycle, buffer) && LogOk(cycle, log + picks, classCursor)
        invariant Building(cfg, old(buffer), buffer, out, picks)
        invariant CountsAgree(out, classCounts, tenantCounts)
        decreases limit - |out|
      {
        var selected;
        ghost var pick;
        selected, pick := TakeLogged(classCounts, tenantCounts, old(buffer), out, picks);
        if selected.None? { return; }
        var m := selected.value;
        CountsSnoc(out, m, classCounts, tenantCounts);
        out := out + [m];
        picks := picks + [pick];
        classCounts := classCounts[m.trafficClass := Lookup(classCounts, m.trafficClass) + 1];
        tenantCounts := tenantCounts[m.tenant := Lookup(tenantCounts, m.tenant) + 1];
      }
    }

    method TakeLogged(classCounts: map<string, nat>, tenantCounts: map<string, nat>, ghost full: Buffer,
                      ghost out: seq<Msg>,
                      ghost picks: seq<Selection>) returns (selected: Option<Msg>, ghost pick: Selection)
      requires CycleOk(cfg, cycle) && BufferOk(cycle, buffer) && LogOk(cycle, log + picks, classCursor)
      requires Building(cfg, full, buffer, out, picks) && CountsAgree(out, classCounts, tenantCounts)
      modifies this`buffer, this`classCursor, this`tenantCursor
      ensures BufferOk(cycle, buffer)
      ensures selected.None? ==>
        buffer == old(buffer) && LogOk(cycle, log + picks, classCursor) && OpenClasses(cfg, buffer, out) == {}
      ensures selected.Some? ==> LogOk(cycle, log + (picks + [pick]), classCursor)
      ensures selected.Some? ==> Building(cfg, full, buffer, out + [selected.value], picks + [pick])
    {
      ghost var from := classCursor;
      selected, pick := TakeOne(classCounts, tenantCounts, full, out, picks);
      if selected.None? {
        LogTurn(cycle, log + picks, from);
      } else {
        LogSnoc(cycle, log, picks, pick);
      }
    }

    /** One selection, moved from the buffer towards the batch. */
    method TakeOne(classCounts: map<string, nat>, tenantCounts: map<string, nat>, ghost full: Buffer,
                   ghost out: seq<Msg>,
                   ghost picks: seq<Selection>) returns (selected: Option<Msg>, ghost pick: Selection)
      requires CycleOk(cfg, cycle) && BufferOk(cycle, buffer)
      requires Building(cfg, full, buffer, out, picks) && CountsAgree(out, classCounts, tenantCounts)
      modifies this`buffer, this`classCursor, this`tenantCursor
      ensures BufferOk(cycle, buffer)
      ensures selected.None? ==>
        buffer == old(buffer) && classCursor == old(classCursor) + |cycle| && OpenClasses(cfg, buffer, out) == {}
      ensures selected.Some? ==>
        GoodSelection(cycle, pick) && pick.before == old(classCursor) && pick.after == classCursor
      ensures selected.Some? ==> Building(cfg, full, buffer, out + [selected.value], picks + [pick])
    {
      ghost var open, from, turns := OpenClasses(cfg, buffer, out), classCursor, tenantCursor;
      pick := Selection(open, from, from, "");
      selected := Next(classCounts, tenantCounts, out);
      if selected.Some? {
        var m := selected.value;
        pick := Selection(open, from, classCursor, m.trafficClass);
        BuildingSnoc(cfg, full, buffer, out, picks, m, pick, Lookup(turns, m.trafficClass));
        buffer := buffer - {m.id};
      }
    }
  }
}
