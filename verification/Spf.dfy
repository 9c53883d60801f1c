/**
 * The recursive SPF evaluator (RFC 7208) over arbitrary DNS content. Each
 * query that is really issued takes the next answer of an arbitrary tape, so
 * the results hold whatever DNS says, consistent or not. Records are given
 * parsed and with macros expanded, which needs no DNS.
 */
module Spf {
  import Text

  const MaxLookups: nat := 10
  const MaxVoids: nat := 2

  datatype Code = NoRecord | Neutral | Pass | Fail | SoftFail | PermError | TempError

  datatype Reason =
    | NothingMatched | TermMatched | NoSuchRecord | ManyRecords | BadHeader | BadDomain | BadTarget | BadExpansion
    | TooDeep | Cyclic | QueryLimit | EmptyLimit | NoAnswer

  datatype Result = Result(code: Code, reason: Reason)

  /** A domain argument after macro expansion, or the expansion's error. */
  datatype Spec = Default | BadSpec | Domain(name: string)

  datatype Mechanism =
    | All
    | Ip(given: bool, valid: bool, contains: bool)
    | A(spec: Spec, prefix: int)
    | Mx(spec: Spec, prefix: int)
    | Include(spec: Spec)
    | Exists(spec: Spec)
    | Ptr(spec: Spec)
    | Unknown

  datatype Term = Term(qualifier: Code, mech: Mechanism)

  /** A TXT string that is or is not an SPF record. */
  datatype Txt = Plain | Record(header: bool, terms: seq<Term>, redirect: Spec)

  /** An address compared with the client's: equal, and how many leading bits agree (-1 for the other family). */
  datatype Addr = Addr(equal: bool, shared: int)

  datatype Answer = Unanswered | Answer(texts: seq<Txt>, addrs: seq<Addr>, names: seq<string>)

  datatype Query = TxtQuery(name: string) | IpQuery(name: string) | MxQuery(name: string) | PtrQuery

  /** A record being read: its domain, the domains open at the time, and the nesting depth. */
  datatype Visit = Visit(domain: string, open: set<string>, depth: nat)

  /**
   * The evaluation state. Beside the source's three fields it records the queries issued, the domains entered,
   * the errors that includes returned, the queries refused for the limit, the answers refused for being empty once
   * too often, and how many of either were address lookups for a mail host or a PTR name, whose errors are passed
   * over.
   */
  datatype State = State(lookups: nat, voids: nat, active: set<string>,
                         issued: seq<Query>, visits: seq<Visit>, surfaced: seq<Result>, refused: nat, passed: nat,
                         overrun: nat, ignored: nat)

  datatype Err = LookupLimit | VoidLimit | DnsError | BadAddress | FromInclude(result: Result) | BadMacro

  datatype Found = Found(answer: Answer) | NotFound(err: Err)

  datatype Match = Matched | Unmatched | Skipped | Error(err: Err)

  function ResultOf(e: Err): Result {
    match e
    case FromInclude(r) => r
    case LookupLimit => Result(PermError, QueryLimit)
    case VoidLimit => Result(PermError, EmptyLimit)
    case BadMacro => Result(PermError, BadExpansion)
    case _ => Result(TempError, NoAnswer)
  }

  predicate IsError(r: Result) { r.code == PermError || r.code == TempError }

  predicate Empty(q: Query, a: Answer)
    requires a.Answer?
  {
    match q
    case TxtQuery(_) => a.texts == []
    case IpQuery(_) => a.addrs == []
    case _ => a.names == []
  }

  /** One counted query: refused past the limit, otherwise issued; an empty answer counts as void. */
  function Lookup(tape: seq<Answer>, q: Query, st: State): (Found, State) {
    var s1 := st.(lookups := st.lookups + 1);
    if s1.lookups > MaxLookups then (NotFound(LookupLimit), s1.(refused := s1.refused + 1))
    else
      var a := if |s1.issued| < |tape| then tape[|s1.issued|] else Unanswered;
      var s2 := s1.(issued := s1.issued + [q]);
      if a.Unanswered? then (NotFound(DnsError), s2)
      else if Empty(q, a) then
        var s3 := s2.(voids := s2.voids + 1);
        if s3.voids > MaxVoids then (NotFound(VoidLimit), s3.(overrun := s3.overrun + 1)) else (Found(a), s3)
      else (Found(a), s2)
  }

  predicate AnyAddr(addrs: seq<Addr>, prefix: int, bits: int) {
    exists i :: 0 <= i < |addrs| && (addrs[i].equal || (0 <= prefix <= bits && prefix <= addrs[i].shared))
  }

  function MatchHost(tape: seq<Answer>, bits: int, host: string, prefix: int, st: State): (Match, State) {
    var (f, s) := Lookup(tape, IpQuery(host), st);
    if f.NotFound? then (Error(f.err), s)
    else (if AnyAddr(f.answer.addrs, prefix, bits) then Matched else Unmatched, s)
  }

  /** A lookup error that ends nothing. */
  function PassOver(s: State, e: Err): State {
    if e == LookupLimit then s.(passed := s.passed + 1)
    else if e == VoidLimit then s.(ignored := s.ignored + 1) else s
  }

  /** Errors of single mail hosts are passed over. */
  function MatchHosts(tape: seq<Answer>, bits: int, hosts: seq<string>, prefix: int, st: State): (Match, State)
    decreases |hosts|
  {
    if hosts == [] then (Unmatched, st)
    else
      var (m, s) := MatchHost(tape, bits, TrimDot(hosts[0]), prefix, st);
      if m.Matched? then (Matched, s)
      else MatchHosts(tape, bits, hosts[1..], prefix, if m.Error? then PassOver(s, m.err) else s)
  }

  function MatchMx(tape: seq<Answer>, bits: int, domain: string, prefix: int, st: State): (Match, State) {
    var (f, s) := Lookup(tape, MxQuery(domain), st);
    if f.NotFound? then (Error(f.err), s) else MatchHosts(tape, bits, f.answer.names, prefix, s)
  }

  function MatchExists(tape: seq<Answer>, host: string, st: State): (Match, State) {
    var (f, s) := Lookup(tape, IpQuery(host), st);
    if f.NotFound? then (Error(f.err), s) else (if f.answer.addrs != [] then Matched else Unmatched, s)
  }

  function TrimDot(s: string): string { if s != [] && s[|s| - 1] == '.' then s[..|s| - 1] else s }

  function HostName(s: string): string { Text.Lower(TrimDot(Text.TrimSpace(s))) }

  predicate DomainMatches(host: string, domain: string) {
    host != "" && domain != "" &&
    (host == domain || (|host| > |domain| && host[|host| - |domain| - 1] == '.' && host[|host| - |domain|..] == domain))
  }

  function MatchNames(tape: seq<Answer>, names: seq<string>, target: string, st: State): (Match, State)
    decreases |names|
  {
    if names == [] then (Unmatched, st)
    else if !DomainMatches(HostName(names[0]), target) then MatchNames(tape, names[1..], target, st)
    else
      var (f, s) := Lookup(tape, IpQuery(HostName(names[0])), st);
      if f.NotFound? then MatchNames(tape, names[1..], target, PassOver(s, f.err))
      else if AnyAddr(f.answer.addrs, -1, 0) then (Matched, s)
      else MatchNames(tape, names[1..], target, s)
  }

  function MatchPtr(tape: seq<Answer>, target: string, st: State): (Match, State) {
    var (f, s) := Lookup(tape, PtrQuery, st);
    if f.NotFound? then (Error(f.err), s) else MatchNames(tape, f.answer.names, HostName(target), s)
  }

  function OrDomain(spec: Spec, domain: string): string { if spec.Domain? then spec.name else domain }

  function SpecOf(m: Mechanism): Spec {
    match m
    case A(s, _) => s
    case Mx(s, _) => s
    case Include(s) => s
    case Exists(s) => s
    case Ptr(s) => s
    case _ => Default
  }

  function Mechanise(tape: seq<Answer>, bits: int, domain: string, m: Mechanism, depth: nat, st: State): (Match, State)
    requires depth <= 10
    decreases 12 - depth, 1, 0
  {
    match m
    case All => (Matched, st)
    case Ip(given, valid, contains) =>
      (if !given then Skipped else if !valid then Error(BadAddress) else if contains then Matched else Unmatched, st)
    case A(spec, prefix) => MatchHost(tape, bits, OrDomain(spec, domain), prefix, st)
    case Mx(spec, prefix) => MatchMx(tape, bits, OrDomain(spec, domain), prefix, st)
    case Include(spec) =>
      if !spec.Domain? then (Unmatched, st)
      else
        var (r, s) := Evaluate(tape, bits, spec.name, depth + 1, st);
        if r.code == Pass then (Matched, s)
        else if IsError(r) then (Error(FromInclude(r)), s.(surfaced := s.surfaced + [r]))
        else (Unmatched, s)
    case Exists(spec) => if !spec.Domain? then (Unmatched, st) else MatchExists(tape, spec.name, st)
    case Ptr(spec) => MatchPtr(tape, OrDomain(spec, domain), st)
    case Unknown => (Skipped, st)
  }

  function Terms(tape: seq<Answer>, bits: int, domain: string, terms: seq<Term>, redirect: Spec, depth: nat,
                 st: State): (Result, State)
    requires depth <= 10
    decreases 12 - depth, 2, |terms|
  {
    if terms == [] then
      if redirect.Default? then (Result(Neutral, NothingMatched), st)
      else if redirect.BadSpec? then (ResultOf(BadMacro), st)
      else
        var (r, s) := Evaluate(tape, bits, redirect.name, depth + 1, st);
        (if r.code == NoRecord then Result(PermError, BadTarget) else r, s)
    else if SpecOf(terms[0].mech).BadSpec? then (ResultOf(BadMacro), st)
    else
      var (m, s) := Mechanise(tape, bits, domain, terms[0].mech, depth, st);
      match m
      case Error(e) => (ResultOf(e), s)
      case Matched => (Result(terms[0].qualifier, TermMatched), s)
      case _ => Terms(tape, bits, domain, terms[1..], redirect, depth, s)
  }

  datatype Choice = NoSpf | OneSpf(record: Txt) | ManySpf

  function Choose(texts: seq<Txt>): (c: Choice)
    ensures c.OneSpf? ==> c.record.Record?
  {
    if texts == [] then NoSpf
    else
      var rest := Choose(texts[1..]);
      if texts[0].Plain? then rest else if rest.NoSpf? then OneSpf(texts[0]) else ManySpf
  }

  /** The record under the domain, with the domain open while it is read. */
  function Body(tape: seq<Answer>, bits: int, domain: string, depth: nat, st: State): (Result, State)
    requires depth <= 10
    decreases 12 - depth, 3, 0
  {
    var (f, s) := Lookup(tape, TxtQuery(domain), st);
    if f.NotFound? then (ResultOf(f.err), s)
    else
      match Choose(f.answer.texts)
      case ManySpf => (Result(PermError, ManyRecords), s)
      case NoSpf => (Result(NoRecord, NoSuchRecord), s)
      case OneSpf(record) =>
        if !record.header then (Result(PermError, BadHeader), s)
        else Terms(tape, bits, domain, record.terms, record.redirect, depth, s)
  }

  function Evaluate(tape: seq<Answer>, bits: int, raw: string, depth: nat, st: State): (Result, State)
    requires depth <= 11
    decreases 12 - depth, 4, 0
  {
    var domain := Text.Lower(Text.TrimSpace(raw));
    if depth > 10 then (Result(PermError, TooDeep), st)
    else if domain == "" then (Result(PermError, BadDomain), st)
    else if domain in st.active then (Result(PermError, Cyclic), st)
    else
      var entered := st.(active := st.active + {domain}, visits := st.visits + [Visit(domain, st.active, depth)]);
      var (r, s) := Body(tape, bits, domain, depth, entered);
      (r, s.(active := s.active - {domain}))
  }

  const Fresh: State := State(0, 0, {}, [], [], [], 0, 0, 0, 0)

  // ----- What every part of the evaluation keeps -------------------------------------

  /** Queries are issued or refused, and refused only once the limit is used up. */
  predicate Bounded(st: State) {
    && |st.issued| + st.refused == st.lookups && |st.issued| <= MaxLookups
    && (st.refused > 0 ==> |st.issued| == MaxLookups)
    && st.overrun == if st.voids > MaxVoids then st.voids - MaxVoids else 0
  }

  predicate GoodVisit(v: Visit) { v.domain !in v.open && |v.open| == v.depth && v.depth <= 10 }

  predicate GoodVisits(st: State) { forall i :: 0 <= i < |st.visits| ==> GoodVisit(st.visits[i]) }

  /** Counters only grow and open domains are as before. */
  predicate Keeps(a: State, b: State) {
    && b.active == a.active && a.lookups <= b.lookups
    && (Bounded(a) ==> Bounded(b)) && (GoodVisits(a) ==> GoodVisits(b))
  }

  /** Whatever an include reported in between is the answer. */
  predicate Surfaces(a: State, b: State, r: Result) {
    && a.surfaced <= b.surfaced && (a.surfaced == b.surfaced || IsError(r))
    && forall i :: |a.surfaced| <= i < |b.surfaced| ==> b.surfaced[i] == r
  }

  const LimitError: Result := Result(PermError, QueryLimit)

  const VoidError: Result := Result(PermError, EmptyLimit)

  /** The refusals that were not passed over. */
  function Unpassed(st: State): int { st.refused - st.passed }

  /** The same for empty answers. */
  function Unignored(st: State): int { st.overrun - st.ignored }

  /** A refusal that is not passed over is the answer, and neither limit error has another cause. */
  predicate Accounts(a: State, b: State, r: Result) {
    && Unpassed(b) == Unpassed(a) + (if r == LimitError then 1 else 0)
    && Unignored(b) == Unignored(a) + (if r == VoidError then 1 else 0)
  }

  /** What a step leaves, and how its answer accounts for errors. */
  predicate Sound(a: State, b: State, r: Result) { Keeps(a, b) && Surfaces(a, b, r) && Accounts(a, b, r) }

  /** The same for a mechanism, whose error becomes the answer. */
  predicate SoundMatch(a: State, b: State, m: Match) {
    && Keeps(a, b)
    && (if m.Error? then Surfaces(a, b, ResultOf(m.err)) && Accounts(a, b, ResultOf(m.err))
        else b.surfaced == a.surfaced && Unpassed(b) == Unpassed(a) && Unignored(b) == Unignored(a))
  }

  lemma LookupSound(tape: seq<Answer>, q: Query, st: State)
    ensures
      var (f, s) := Lookup(tape, q, st);
      SoundMatch(st, s, if f.NotFound? then Error(f.err) else Unmatched) && s.surfaced == st.surfaced &&
        (f.NotFound? ==> !f.err.FromInclude?)
  {
  }

  lemma Chain(a: State, b: State, c: State, m: Match, r: Result)
    requires SoundMatch(a, b, m) && !m.Error? && Sound(b, c, r)
    ensures Sound(a, c, r)
  {
  }

  lemma ChainMatch(a: State, b: State, c: State, m: Match, m': Match)
    requires SoundMatch(a, b, m) && !m.Error? && SoundMatch(b, c, m')
    ensures SoundMatch(a, c, m')
  {
  }

  /** A lookup error that is passed over. */
  lemma Dropping(a: State, b: State, e: Err)
    requires SoundMatch(a, b, Error(e)) && b.surfaced == a.surfaced && !e.FromInclude?
    ensures SoundMatch(a, PassOver(b, e), Unmatched)
  {
  }

  lemma MatchHostSound(tape: seq<Answer>, bits: int, host: string, prefix: int, st: State)
    ensures
      var (m, s) := MatchHost(tape, bits, host, prefix, st);
      SoundMatch(st, s, m) && s.surfaced == st.surfaced && (m.Error? ==> !m.err.FromInclude?)
  {
    LookupSound(tape, IpQuery(host), st);
  }

  lemma {:induction false} MatchHostsSound(tape: seq<Answer>, bits: int, hosts: seq<string>, prefix: int, st: State)
    ensures
      var (m, s) := MatchHosts(tape, bits, hosts, prefix, st);
      SoundMatch(st, s, m) && !m.Error?
    decreases |hosts|
  {
    if hosts != [] {
      MatchHostSound(tape, bits, TrimDot(hosts[0]), prefix, st);
      var (m, s) := MatchHost(tape, bits, TrimDot(hosts[0]), prefix, st);
      if !m.Matched? {
        var next := if m.Error? then PassOver(s, m.err) else s;
        if m.Error? { Dropping(st, s, m.err); }
        MatchHostsSound(tape, bits, hosts[1..], prefix, next);
        var (m', s') := MatchHosts(tape, bits, hosts[1..], prefix, next);
        ChainMatch(st, next, s', Unmatched, m');
      }
    }
  }

  lemma {:induction false} MatchNamesSound(tape: seq<Answer>, names: seq<string>, target: string, st: State)
    ensures
      var (m, s) := MatchNames(tape, names, target, st);
      SoundMatch(st, s, m) && !m.Error?
    decreases |names|
  {
    if names != [] {
      if !DomainMatches(HostName(names[0]), target) {
        MatchNamesSound(tape, names[1..], target, st);
      } else {
        var q := IpQuery(HostName(names[0]));
        LookupSound(tape, q, st);
        var (f, s) := Lookup(tape, q, st);
        if f.NotFound? { Dropping(st, s, f.err); }
        var next := if f.NotFound? then PassOver(s, f.err) else s;
        MatchNamesSound(tape, names[1..], target, next);
        var (m', s') := MatchNames(tape, names[1..], target, next);
        ChainMatch(st, next, s', Unmatched, m');
      }
    }
  }

  lemma MatchMxSound(tape: seq<Answer>, bits: int, domain: string, prefix: int, st: State)
    ensures
      var (m, s) := MatchMx(tape, bits, domain, prefix, st);
      SoundMatch(st, s, m)
  {
    LookupSound(tape, MxQuery(domain), st);
    var (f, s) := Lookup(tape, MxQuery(domain), st);
    if f.Found? {
      MatchHostsSound(tape, bits, f.answer.names, prefix, s);
      var (m', s') := MatchHosts(tape, bits, f.answer.names, prefix, s);
      ChainMatch(st, s, s', Unmatched, m');
    }
  }

  lemma MatchPtrSound(tape: seq<Answer>, target: string, st: State)
    ensures
      var (m, s) := MatchPtr(tape, target, st);
      SoundMatch(st, s, m)
  {
    LookupSound(tape, PtrQuery, st);
    var (f, s) := Lookup(tape, PtrQuery, st);
    if f.Found? {
      MatchNamesSound(tape, f.answer.names, HostName(target), s);
      var (m', s') := MatchNames(tape, f.answer.names, HostName(target), s);
      ChainMatch(st, s, s', Unmatched, m');
    }
  }

  lemma MatchExistsSound(tape: seq<Answer>, host: string, st: State)
    ensures
      var (m, s) := MatchExists(tape, host, st);
      SoundMatch(st, s, m)
  {
    LookupSound(tape, IpQuery(host), st);
  }

  /** An include turns the nested answer into a match, a non-match or that very error. */
  lemma IncludeSound(a: State, b: State, r: Result)
    requires Sound(a, b, r)
    ensures
      if r.code == Pass then SoundMatch(a, b, Matched)
      else if IsError(r) then SoundMatch(a, b.(surfaced := b.surfaced + [r]), Error(FromInclude(r)))
      else SoundMatch(a, b, Unmatched)
  {
  }

  lemma {:induction false} MechaniseSound(tape: seq<Answer>, bits: int, domain: string, m: Mechanism, depth: nat,
                                          st: State)
    requires depth <= 10 && |st.active| == depth + 1
    ensures
      var (r, s) := Mechanise(tape, bits, domain, m, depth, st);
      SoundMatch(st, s, r)
    decreases 12 - depth, 1, 0
  {
    match m
    case A(spec, prefix) => MatchHostSound(tape, bits, OrDomain(spec, domain), prefix, st);
    case Mx(spec, prefix) => MatchMxSound(tape, bits, OrDomain(spec, domain), prefix, st);
    case Include(spec) =>
      if spec.Domain? {
        EvaluateSound(tape, bits, spec.name, depth + 1, st);
        var (r, s) := Evaluate(tape, bits, spec.name, depth + 1, st);
        IncludeSound(st, s, r);
      }
    case Exists(spec) => if spec.Domain? { MatchExistsSound(tape, spec.name, st); }
    case Ptr(spec) => MatchPtrSound(tape, OrDomain(spec, domain), st);
    case _ =>
  }

  lemma {:induction false} TermsSound(tape: seq<Answer>, bits: int, domain: string, terms: seq<Term>, redirect: Spec,
                                      depth: nat, st: State)
    requires depth <= 10 && |st.active| == depth + 1
    ensures
      var (r, s) := Terms(tape, bits, domain, terms, redirect, depth, st);
      Sound(st, s, r)
    decreases 12 - depth, 2, |terms|
  {
    if terms == [] {
      if redirect.Domain? { EvaluateSound(tape, bits, redirect.name, depth + 1, st); }
    } else if !SpecOf(terms[0].mech).BadSpec? {
      MechaniseSound(tape, bits, domain, terms[0].mech, depth, st);
      var (m, s) := Mechanise(tape, bits, domain, terms[0].mech, depth, st);
      if m.Unmatched? || m.Skipped? {
        TermsSound(tape, bits, domain, terms[1..], redirect, depth, s);
        var (r', s') := Terms(tape, bits, domain, terms[1..], redirect, depth, s);
        Chain(st, s, s', m, r');
      }
    }
  }

  lemma {:induction false} BodySound(tape: seq<Answer>, bits: int, domain: string, depth: nat, st: State)
    requires depth <= 10 && |st.active| == depth + 1
    ensures
      var (r, s) := Body(tape, bits, domain, depth, st);
      Sound(st, s, r)
    decreases 12 - depth, 3, 0
  {
    LookupSound(tape, TxtQuery(domain), st);
    var (f, s) := Lookup(tape, TxtQuery(domain), st);
    if f.Found? && Choose(f.answer.texts).OneSpf? {
      var record := Choose(f.answer.texts).record;
      if record.header {
        TermsSound(tape, bits, domain, record.terms, record.redirect, depth, s);
        var (r', s') := Terms(tape, bits, domain, record.terms, record.redirect, depth, s);
        Chain(st, s, s', Unmatched, r');
      }
    }
  }

  /** The whole evaluation: for any DNS content, at any depth. */
  lemma {:induction false} EvaluateSound(tape: seq<Answer>, bits: int, raw: string, depth: nat, st: State)
    requires depth <= 11 && |st.active| == depth
    ensures
      var (r, s) := Evaluate(tape, bits, raw, depth, st);
      Sound(st, s, r)
    decreases 12 - depth, 4, 0
  {
    var domain := Text.Lower(Text.TrimSpace(raw));
    if depth <= 10 && domain != "" && domain !in st.active {
      var entered := st.(active := st.active + {domain}, visits := st.visits + [Visit(domain, st.active, depth)]);
      BodySound(tape, bits, domain, depth, entered);
      var (r, s) := Body(tape, bits, domain, depth, entered);
      Leaving(st, entered, s, domain, depth, r);
    }
  }

  lemma Leaving(st: State, entered: State, s: State, domain: string, depth: nat, r: Result)
    requires domain !in st.active && |st.active| == depth <= 10 && Sound(entered, s, r)
    requires entered == st.(active := st.active + {domain}, visits := st.visits + [Visit(domain, st.active, depth)])
    ensures Sound(st, s.(active := s.active - {domain}), r)
  {
    assert s.active - {domain} == st.active;
  }

  // ----- Top level ---------------------------------------------------------------------

  /** An evaluation may start here: nothing was refused or reported so far, and the open domains are the nesting. */
  predicate Starts(depth: nat, st: State) {
    && depth <= 11 && |st.active| == depth && Bounded(st) && GoodVisits(st)
    && st.surfaced == [] && st.refused == st.passed == 0 && st.overrun == st.ignored == 0
  }

  /** A complete evaluation is one of them. */
  lemma FreshStarts()
    ensures Starts(0, Fresh)
  {
    assert Bounded(Fresh);
    assert GoodVisits(Fresh);
  }

  /**
   * At most ten counted queries are issued, each domain is entered at most once
   * along any path, and none stays open.
   */
  lemma EvaluationIsBounded(tape: seq<Answer>, bits: int, raw: string, depth: nat, st: State)
    requires Starts(depth, st)
    ensures
      var (r, s) := Evaluate(tape, bits, raw, depth, st);
      |s.issued| <= MaxLookups && s.active == st.active && GoodVisits(s)
  {
    EvaluateSound(tape, bits, raw, depth, st);
  }

  /** An error that any include reported, however deep, is the evaluation's answer unchanged. */
  lemma IncludeErrorsSurface(tape: seq<Answer>, bits: int, raw: string, depth: nat, st: State, i: nat)
    requires Starts(depth, st) && i < |Evaluate(tape, bits, raw, depth, st).1.surfaced|
    ensures
      var (r, s) := Evaluate(tape, bits, raw, depth, st);
      r == s.surfaced[i] && IsError(r)
  {
    EvaluateSound(tape, bits, raw, depth, st);
  }

  /**
   * The limit of section 4.6.4. Queries are refused exactly when more than the
   * limit are counted, and the answer is the limit's permanent error exactly
   * when one of the refused queries is not an address lookup for a mail host
   * or a PTR name, in whichever include or redirect it was made.
   */
  lemma LimitIsPermError(tape: seq<Answer>, bits: int, raw: string, depth: nat, st: State)
    requires Starts(depth, st)
    ensures
      var (r, s) := Evaluate(tape, bits, raw, depth, st);
      && (s.lookups > MaxLookups <==> s.refused > 0)
      && (r == LimitError <==> s.refused > s.passed)
  {
    EvaluateSound(tape, bits, raw, depth, st);
  }

  /**
   * The void limit of the same section: the answer is its permanent error
   * exactly when an empty answer beyond the second does not belong to an address
   * lookup for a mail host or a PTR name.
   */
  lemma VoidsArePermError(tape: seq<Answer>, bits: int, raw: string, depth: nat, st: State)
    requires Starts(depth, st)
    ensures
      var (r, s) := Evaluate(tape, bits, raw, depth, st);
      && (s.voids > MaxVoids <==> s.overrun > 0)
      && (r == VoidError <==> s.overrun > s.ignored)
  {
    EvaluateSound(tape, bits, raw, depth, st);
  }

  predicate Looping(m: Mechanism) { m.Mx? || m.Ptr? }

  predicate LoopFree(terms: seq<Term>) { forall i :: 0 <= i < |terms| ==> !Looping(terms[i].mech) }

  predicate LoopFreeTexts(texts: seq<Txt>) {
    forall i :: 0 <= i < |texts| && texts[i].Record? ==> LoopFree(texts[i].terms)
  }

  /** No record that DNS can answer with has an mx or ptr term. */
  predicate LoopFreeTape(tape: seq<Answer>) {
    forall i :: 0 <= i < |tape| && tape[i].Answer? ==> LoopFreeTexts(tape[i].texts)
  }

  lemma {:induction false} ChoiceIsLoopFree(texts: seq<Txt>)
    requires LoopFreeTexts(texts)
    ensures Choose(texts).OneSpf? ==> LoopFree(Choose(texts).record.terms)
  {
    if texts != [] {
      assert LoopFreeTexts(texts[1..]);
      ChoiceIsLoopFree(texts[1..]);
    }
  }

  predicate PassesNothing(a: State, b: State) { b.passed == a.passed && b.ignored == a.ignored }

  lemma {:induction false} MechaniseLoopFree(tape: seq<Answer>, bits: int, domain: string, m: Mechanism, depth: nat,
                                             st: State)
    requires LoopFreeTape(tape) && depth <= 10 && !Looping(m)
    ensures PassesNothing(st, Mechanise(tape, bits, domain, m, depth, st).1)
    decreases 12 - depth, 1, 0
  {
    if m.Include? && m.spec.Domain? { EvaluateLoopFree(tape, bits, m.spec.name, depth + 1, st); }
  }

  lemma {:induction false} TermsLoopFree(tape: seq<Answer>, bits: int, domain: string, terms: seq<Term>,
                                         redirect: Spec, depth: nat, st: State)
    requires LoopFreeTape(tape) && depth <= 10 && LoopFree(terms)
    ensures PassesNothing(st, Terms(tape, bits, domain, terms, redirect, depth, st).1)
    decreases 12 - depth, 2, |terms|
  {
    if terms == [] {
      if redirect.Domain? { EvaluateLoopFree(tape, bits, redirect.name, depth + 1, st); }
    } else if !SpecOf(terms[0].mech).BadSpec? {
      MechaniseLoopFree(tape, bits, domain, terms[0].mech, depth, st);
      TermsLoopFree(tape, bits, domain, terms[1..], redirect, depth,
                    Mechanise(tape, bits, domain, terms[0].mech, depth, st).1);
    }
  }

  lemma {:induction false} BodyLoopFree(tape: seq<Answer>, bits: int, domain: string, depth: nat, st: State)
    requires LoopFreeTape(tape) && depth <= 10
    ensures PassesNothing(st, Body(tape, bits, domain, depth, st).1)
    decreases 12 - depth, 3, 0
  {
    var (f, s) := Lookup(tape, TxtQuery(domain), st);
    if f.Found? {
      ChoiceIsLoopFree(f.answer.texts);
      var c := Choose(f.answer.texts);
      if c.OneSpf? { TermsLoopFree(tape, bits, domain, c.record.terms, c.record.redirect, depth, s); }
    }
  }

  lemma {:induction false} EvaluateLoopFree(tape: seq<Answer>, bits: int, raw: string, depth: nat, st: State)
    requires LoopFreeTape(tape) && depth <= 11
    ensures PassesNothing(st, Evaluate(tape, bits, raw, depth, st).1)
    decreases 12 - depth, 4, 0
  {
    var domain := Text.Lower(Text.TrimSpace(raw));
    if depth <= 10 && domain != "" && domain !in st.active {
      BodyLoopFree(tape, bits, domain, depth,
                   st.(active := st.active + {domain}, visits := st.visits + [Visit(domain, st.active, depth)]));
    }
  }

  /** With no mx or ptr term in any record, going past the limit is always answered with the permanent error. */
  lemma LimitWithoutHostLoops(tape: seq<Answer>, bits: int, raw: string, depth: nat, st: State)
    requires LoopFreeTape(tape) && Starts(depth, st)
    ensures
      var (r, s) := Evaluate(tape, bits, raw, depth, st);
      s.lookups > MaxLookups <==> r == LimitError
  {
    EvaluateLoopFree(tape, bits, raw, depth, st);
    LimitIsPermError(tape, bits, raw, depth, st);
  }

  /** And the void limit with its own. */
  lemma VoidsWithoutHostLoops(tape: seq<Answer>, bits: int, raw: string, depth: nat, st: State)
    requires LoopFreeTape(tape) && Starts(depth, st)
    ensures
      var (r, s) := Evaluate(tape, bits, raw, depth, st);
      s.voids > MaxVoids <==> r == VoidError
  {
    EvaluateLoopFree(tape, bits, raw, depth, st);
    VoidsArePermError(tape, bits, raw, depth, st);
  }

  lemma {:induction false} UnansweredHosts(tape: seq<Answer>, bits: int, hosts: seq<string>, prefix: int, st: State)
    requires |st.issued| >= |tape|
    ensures
      var (m, s) := MatchHosts(tape, bits, hosts, prefix, st);
      m == Unmatched && s.lookups == st.lookups + |hosts| && s.active == st.active
    decreases |hosts|
  {
    if hosts != [] {
      var (m, s) := MatchHost(tape, bits, TrimDot(hosts[0]), prefix, st);
      UnansweredHosts(tape, bits, hosts[1..], prefix, PassOver(s, m.err));
    }
  }

  /** Such a case: nine or more mail hosts use up the limit without an answer, and the next mechanism still decides. */
  lemma LimitInsideMxIsPassedOver(hosts: seq<string>)
    requires |hosts| >= 9
    ensures
      var record := Record(true, [Term(Pass, Mx(Default, -1)), Term(Fail, All)], Default);
      var (r, s) := Evaluate([Answer([record], [], []), Answer([], [], hosts)], 32, "d", 0, Fresh);
      r.code == Fail && s.lookups > MaxLookups && |s.issued| <= MaxLookups
  {
    var record := Record(true, [Term(Pass, Mx(Default, -1)), Term(Fail, All)], Default);
    var tape := [Answer([record], [], []), Answer([], [], hosts)];
    LowerOfD();
    var entered := Fresh.(active := Fresh.active + {"d"}, visits := Fresh.visits + [Visit("d", Fresh.active, 0)]);
    var s1 := Lookup(tape, TxtQuery("d"), entered).1;
    assert Choose([record]) == OneSpf(record);
    var s2 := Lookup(tape, MxQuery("d"), s1).1;
    UnansweredHosts(tape, 32, hosts, -1, s2);
    var (m, s3) := MatchMx(tape, 32, "d", -1, s1);
    assert Terms(tape, 32, "d", record.terms[1..], Default, 0, s3) == (Result(Fail, TermMatched), s3);
    assert Terms(tape, 32, "d", record.terms, Default, 0, s1) == (Result(Fail, TermMatched), s3);
    assert Body(tape, 32, "d", 0, entered) == (Result(Fail, TermMatched), s3);
    FreshStarts();
    EvaluationIsBounded(tape, 32, "d", 0, Fresh);
  }

  const NoData: Answer := Answer([], [], [])

  lemma {:induction false} EmptyHosts(tape: seq<Answer>, bits: int, hosts: seq<string>, prefix: int, st: State)
    requires |st.issued| + |hosts| <= |tape| && st.lookups + |hosts| <= MaxLookups
    requires forall i :: |st.issued| <= i < |tape| ==> tape[i] == NoData
    ensures
      var (m, s) := MatchHosts(tape, bits, hosts, prefix, st);
      m == Unmatched && s.voids == st.voids + |hosts| && s.active == st.active
    decreases |hosts|
  {
    if hosts != [] {
      var (m, s) := MatchHost(tape, bits, TrimDot(hosts[0]), prefix, st);
      EmptyHosts(tape, bits, hosts[1..], prefix, if m.Error? then PassOver(s, m.err) else s);
    }
  }

  /** Three or more mail hosts without addresses exceed the void limit, and the next mechanism still decides. */
  lemma VoidsInsideMxArePassedOver(hosts: seq<string>, tape: seq<Answer>, record: Txt)
    requires 3 <= |hosts| <= 8 && record == Record(true, [Term(Pass, Mx(Default, -1)), Term(Fail, All)], Default)
    requires tape == [Answer([record], [], []), Answer([], [], hosts)] + seq(|hosts|, _ => NoData)
    ensures
      var (r, s) := Evaluate(tape, 32, "d", 0, Fresh);
      r.code == Fail && s.voids > MaxVoids
  {
    LowerOfD();
    var entered := Fresh.(active := Fresh.active + {"d"}, visits := Fresh.visits + [Visit("d", Fresh.active, 0)]);
    var s1 := Lookup(tape, TxtQuery("d"), entered).1;
    assert Choose([record]) == OneSpf(record);
    var s2 := Lookup(tape, MxQuery("d"), s1).1;
    EmptyHosts(tape, 32, hosts, -1, s2);
    var (m, s3) := MatchMx(tape, 32, "d", -1, s1);
    assert Terms(tape, 32, "d", record.terms[1..], Default, 0, s3) == (Result(Fail, TermMatched), s3);
    assert Terms(tape, 32, "d", record.terms, Default, 0, s1) == (Result(Fail, TermMatched), s3);
    assert Body(tape, 32, "d", 0, entered) == (Result(Fail, TermMatched), s3);
  }

  lemma LowerOfD()
    ensures Text.Lower(Text.TrimSpace("d")) == "d"
  {
    assert Text.TrimLeft("d") == "d" && Text.TrimRight("d") == "d";
  }

  // ----- The evaluator with its mutable state ---------------------------------------------

  class Evaluator {
    const tape: seq<Answer>
    const bits: int
    var lookups: nat
    var voids: nat
    var active: set<string>
    var issued: seq<Query>
    var visits: seq<Visit>
    var surfaced: seq<Result>
    var refused: nat
    var passed: nat
    var overrun: nat
    var ignored: nat

    function View(): State
      reads this
    {
      State(lookups, voids, active, issued, visits, surfaced, refused, passed, overrun, ignored)
    }

    constructor (tape: seq<Answer>, bits: int)
      ensures this.tape == tape && this.bits == bits && View() == Fresh
    {
      this.tape, this.bits := tape, bits;
      lookups, voids, active, issued, visits, surfaced := 0, 0, {}, [], [], [];
      refused, passed, overrun, ignored := 0, 0, 0, 0;
    }

    method Ask(q: Query) returns (f: Found)
      modifies this
      ensures (f, View()) == Lookup(tape, q, old(View()))
    {
      lookups := lookups + 1;
      if lookups > MaxLookups {
        refused := refused + 1;
        return NotFound(LookupLimit);
      }
      var a := if |issued| < |tape| then tape[|issued|] else Unanswered;
      issued := issued + [q];
      if a.Unanswered? { return NotFound(DnsError); }
      if Empty(q, a) {
        voids := voids + 1;
        if voids > MaxVoids {
          overrun := overrun + 1;
          return NotFound(VoidLimit);
        }
      }
      return Found(a);
    }

    /** The loop goes on after an error. */
    method Skip(e: Err)
      modifies this
      ensures View() == PassOver(old(View()), e)
    {
      if e == LookupLimit {
        passed := passed + 1;
      } else if e == VoidLimit {
        ignored := ignored + 1;
      }
    }

    method HostMatches(host: string, prefix: int) returns (m: Match)
      modifies this
      ensures (m, View()) == MatchHost(tape, bits, host, prefix, old(View()))
    {
      var f := Ask(IpQuery(host));
      if f.NotFound? { return Error(f.err); }
      return if AnyAddr(f.answer.addrs, prefix, bits) then Matched else Unmatched;
    }

    method MxMatches(domain: string, prefix: int) returns (m: Match)
      modifies this
      ensures (m, View()) == MatchMx(tape, bits, domain, prefix, old(View()))
    {
      var f := Ask(MxQuery(domain));
      if f.NotFound? { return Error(f.err); }
      var hosts := f.answer.names;
      ghost var from := View();
      for i := 0 to |hosts|
        invariant MatchHosts(tape, bits, hosts[i..], prefix, View()) == MatchHosts(tape, bits, hosts, prefix, from)
      {
        assert hosts[i..][0] == hosts[i] && hosts[i..][1..] == hosts[i + 1..];
        var one := HostMatches(TrimDot(hosts[i]), prefix);
        if one.Matched? { return Matched; }
        if one.Error? { Skip(one.err); }
      }
      return Unmatched;
    }

    method PtrMatches(target: string) returns (m: Match)
      modifies this
      ensures (m, View()) == MatchPtr(tape, target, old(View()))
    {
      var f := Ask(PtrQuery);
      if f.NotFound? { return Error(f.err); }
      var names := f.answer.names;
      ghost var from := View();
      for i := 0 to |names|
        invariant MatchNames(tape, names[i..], HostName(target), View()) ==
          MatchNames(tape, names, HostName(target), from)
      {
        var rest := names[i..];
        assert rest[0] == names[i] && rest[1..] == names[i + 1..];
        var hit := NameMatches(names[i], HostName(target), rest);
        if hit { return Matched; }
      }
      return Unmatched;
    }

    /** One name of the PTR answer; false means the search goes on with the rest. */
    method NameMatches(name: string, target: string, ghost names: seq<string>) returns (hit: bool)
      requires names != [] && names[0] == name
      modifies this
      ensures MatchNames(tape, names, target, old(View())) == if hit then (Matched, View())
        else MatchNames(tape, names[1..], target, View())
    {
      if !DomainMatches(HostName(name), target) { return false; }
      var g := Ask(IpQuery(HostName(name)));
      if g.NotFound? {
        Skip(g.err);
        return false;
      }
      return AnyAddr(g.answer.addrs, -1, 0);
    }

    method ExistsMatches(host: string) returns (m: Match)
      modifies this
      ensures (m, View()) == MatchExists(tape, host, old(View()))
    {
      var f := Ask(IpQuery(host));
      if f.NotFound? { return Error(f.err); }
      return if f.answer.addrs != [] then Matched else Unmatched;
    }

    method MechanismMatches(domain: string, mech: Mechanism, depth: nat) returns (m: Match)
      requires depth <= 10
      modifies this
      ensures (m, View()) == Mechanise(tape, bits, domain, mech, depth, old(View()))
      decreases 12 - depth, 1, 0
    {
      match mech {
        case All => return Matched;
        case Ip(given, valid, contains) =>
          return if !given then Skipped else if !valid then Error(BadAddress) else if contains then Matched
            else Unmatched;
        case A(spec, prefix) => m := HostMatches(OrDomain(spec, domain), prefix);
        case Mx(spec, prefix) => m := MxMatches(OrDomain(spec, domain), prefix);
        case Include(spec) =>
          if !spec.Domain? { return Unmatched; }
          var r := EvalDomain(spec.name, depth + 1);
          if r.code == Pass { return Matched; }
          if IsError(r) {
            surfaced := surfaced + [r];
            return Error(FromInclude(r));
          }
          return Unmatched;
        case Exists(spec) =>
          if !spec.Domain? { return Unmatched; }
          m := ExistsMatches(spec.name);
        case Ptr(spec) => m := PtrMatches(OrDomain(spec, domain));
        case Unknown => return Skipped;
      }
    }

    method EvalTerms(domain: string, terms: seq<Term>, redirect: Spec, depth: nat) returns (r: Result)
      requires depth <= 10
      modifies this
      ensures (r, View()) == Terms(tape, bits, domain, terms, redirect, depth, old(View()))
      decreases 12 - depth, 2, 0
    {
      for i := 0 to |terms|
        invariant Terms(tape, bits, domain, terms[i..], redirect, depth, View()) ==
                  Terms(tape, bits, domain, terms, redirect, depth, old(View()))
      {
        assert terms[i..][0] == terms[i] && terms[i..][1..] == terms[i + 1..];
        if SpecOf(terms[i].mech).BadSpec? { return ResultOf(BadMacro); }
        var m := MechanismMatches(domain, terms[i].mech, depth);
        if m.Error? { return ResultOf(m.err); }
        if m.Matched? { return Result(terms[i].qualifier, TermMatched); }
      }
      if redirect.Default? { return Result(Neutral, NothingMatched); }
      if redirect.BadSpec? { return ResultOf(BadMacro); }
      r := EvalDomain(redirect.name, depth + 1);
      if r.code == NoRecord { return Result(PermError, BadTarget); }
    }

    method EvalDomain(raw: string, depth: nat) returns (r: Result)
      requires depth <= 11
      modifies this
      ensures (r, View()) == Evaluate(tape, bits, raw, depth, old(View()))
      decreases 12 - depth, 4, 0
    {
      if depth > 10 { return Result(PermError, TooDeep); }
      var domain := Text.Lower(Text.TrimSpace(raw));
      if domain == "" { return Result(PermError, BadDomain); }
      if domain in active { return Result(PermError, Cyclic); }
      visits := visits + [Visit(domain, active, depth)];
      active := active + {domain};
      r := ReadRecord(domain, depth);
      active := active - {domain};
    }

    method ReadRecord(domain: string, depth: nat) returns (r: Result)
      requires depth <= 10
      modifies this
      ensures (r, View()) == Body(tape, bits, domain, depth, old(View()))
      decreases 12 - depth, 3, 0
    {
      var f := Ask(TxtQuery(domain));
      if f.NotFound? { return ResultOf(f.err); }
      match Choose(f.answer.texts) {
        case ManySpf => return Result(PermError, ManyRecords);
        case NoSpf => return Result(NoRecord, NoSuchRecord);
        case OneSpf(record) =>
          if !record.header { return Result(PermError, BadHeader); }
          r := EvalTerms(domain, record.terms, record.redirect, depth);
      }
    }
  }
}
