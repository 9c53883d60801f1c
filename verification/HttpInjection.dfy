/**
 * Idempotent message injection over HTTP: one request claims its key in a
 * record file, enqueues the message and commits the record. Any of the three
 * writes may fail, may take effect and still be reported as failed, or may be
 * the last thing before a crash. Digests are taken as collision free, so a
 * path or a message id is represented by the text that is digested.
 */
module HttpInjection {
  import Text

  type Payload = string

  // ----- Names ----------------------------------------------------------------

  const Nul: char := 0 as char

  /** What every user backend makes of the name a client presents; the principal it returns carries the result. */
  function NormalizeUsername(presented: string): Username {
    NormalizedOnce(presented);
    Text.Lower(Text.TrimSpace(presented))
  }

  type Username = u: string | Text.Lower(Text.TrimSpace(u)) == u witness []

  lemma {:induction false} TrimLeftStarts(s: string)
    ensures Text.TrimLeft(s) == [] || !Text.IsSpace(Text.TrimLeft(s)[0])
    decreases |s|
  {
    if s != [] && Text.IsSpace(s[0]) { TrimLeftStarts(s[1..]); }
  }

  lemma {:induction false} TrimRightEnds(s: string)
    ensures
      var t := Text.TrimRight(s);
      t == [] || (t[0] == s[0] && !Text.IsSpace(t[|t| - 1]))
    decreases |s|
  {
    if s != [] && Text.IsSpace(s[|s| - 1]) { TrimRightEnds(s[..|s| - 1]); }
  }

  /** Folding case and trimming commute. */
  lemma LowerTrim(s: string)
    ensures Text.Lower(Text.TrimSpace(s)) == Text.TrimSpace(Text.Lower(s))
  {
    LowerTrimLeft(s);
    LowerTrimRight(Text.TrimLeft(s));
  }

  /** Normalising a normalised name changes nothing. */
  lemma NormalizedOnce(presented: string)
    ensures
      var u := Text.Lower(Text.TrimSpace(presented));
      Text.Lower(Text.TrimSpace(u)) == u
  {
    var t := Text.TrimSpace(presented);
    TrimLeftStarts(presented);
    TrimRightEnds(Text.TrimLeft(presented));
    assert Text.TrimSpace(t) == t;
    LowerTrim(t);
    assert Text.Lower(Text.Lower(t)) == Text.Lower(t);
  }

  /** The record's file name. */
  function PathOf(principal: string, key: string): string { Text.Lower(Text.TrimSpace(principal)) + [Nul] + key }

  /** The message id; unlike the path it keeps white space around the principal. */
  function IdOf(principal: string, key: string): string { Text.Lower(principal) + [Nul] + key }

  predicate ValidKey(key: string) {
    1 <= |key| <= 200 && forall i :: 0 <= i < |key| ==> 0x21 <= key[i] as int <= 0x7e
  }

  /** Keys hold no NUL, so the last NUL tells where the key starts. */
  lemma LastNul(a: string, k: string)
    requires ValidKey(k)
    ensures
      var s := a + [Nul] + k;
      s[|a|] == Nul && s[..|a|] == a && s[|a| + 1..] == k && forall i :: |a| < i < |s| ==> s[i] != Nul
  {
  }

  lemma SplitAtNul(a: string, k: string, b: string, l: string)
    requires ValidKey(k) && ValidKey(l) && a + [Nul] + k == b + [Nul] + l
    ensures a == b && k == l
  {
    LastNul(a, k);
    LastNul(b, l);
    assert |a| == |b|;
  }

  lemma {:induction false} LowerTrimLeft(s: string)
    ensures Text.Lower(Text.TrimLeft(s)) == Text.TrimLeft(Text.Lower(s))
    decreases |s|
  {
    if s != [] {
      assert Text.Lower(s)[1..] == Text.Lower(s[1..]);
      LowerTrimLeft(s[1..]);
    }
  }

  lemma {:induction false} LowerTrimRight(s: string)
    ensures Text.Lower(Text.TrimRight(s)) == Text.TrimRight(Text.Lower(s))
    decreases |s|
  {
    if s != [] {
      var n := |s| - 1;
      assert Text.Lower(s)[..n] == Text.Lower(s[..n]);
      LowerTrimRight(s[..n]);
    }
  }

  /** A message id belongs to one record path only. */
  lemma IdFixesPath(p: string, k: string, q: string, l: string)
    requires ValidKey(k) && ValidKey(l) && IdOf(p, k) == IdOf(q, l)
    ensures PathOf(p, k) == PathOf(q, l)
  {
    SplitAtNul(Text.Lower(p), k, Text.Lower(q), l);
    LowerTrim(p);
    LowerTrim(q);
  }

  /** For a normalised principal the path and the message id are the same text. */
  lemma IdIsPath(p: Username, k: string)
    ensures IdOf(p, k) == PathOf(p, k) == p + [Nul] + k
  {
    var t := Text.TrimSpace(p);
    assert Text.Lower(Text.Lower(t)) == Text.Lower(t);
  }

  // ----- State and requests -------------------------------------------------------

  datatype Record = Record(principal: string, key: string, payload: Payload, messageId: string, committed: bool,
                           expiresAt: int)

  /** A queue record, with the request that created it. */
  datatype Stored = Stored(payload: Payload, principal: Username, key: string)

  datatype State = State(records: map<string, Record>, queue: map<string, Stored>)

  /** Unsure: the write took effect and was reported as failed. Lost: it did not take effect. */
  datatype Write = Written | Unsure | Lost

  datatype Fate = Fate(readOk: bool, removeOk: bool, prepare: Write, enqueue: Write, rereadOk: bool, commit: Write)

  datatype Request = Request(principal: Username, key: string, payload: Payload, lookupAt: int, prepareAt: int,
                             commitAt: int, fate: Fate)

  datatype Response = Accepted(id: string) | Replayed(id: string) | Conflict | BadKey | Unavailable

  datatype Found = Missing | Hit(record: Record) | Broken

  predicate Expired(s: State, path: string, now: int) { path in s.records && s.records[path].expiresAt <= now }

  function LookupResult(s: State, q: Request): Found {
    var path := PathOf(q.principal, q.key);
    if !q.fate.readOk then Broken
    else if path !in s.records then Missing
    else if Expired(s, path, q.lookupAt) then if q.fate.removeOk then Missing else Broken
    else if s.records[path].principal != Text.Lower(Text.TrimSpace(q.principal)) ||
         s.records[path].key != q.key then Broken
    else Hit(s.records[path])
  }

  function AfterLookup(s: State, q: Request): State {
    var path := PathOf(q.principal, q.key);
    if q.fate.readOk && Expired(s, path, q.lookupAt) && q.fate.removeOk then s.(records := s.records - {path}) else s
  }

  function Claim(q: Request, ttl: int): Record {
    Record(Text.Lower(Text.TrimSpace(q.principal)), q.key, q.payload, IdOf(q.principal, q.key), false,
           q.prepareAt + ttl)
  }

  function AfterPrepare(s: State, q: Request, ttl: int): State {
    if q.fate.prepare.Lost? then s else s.(records := s.records[PathOf(q.principal, q.key) := Claim(q, ttl)])
  }

  /** Enqueueing an id the queue knows in any directory changes nothing. */
  function AfterEnqueue(s: State, q: Request): State {
    var id := IdOf(q.principal, q.key);
    if q.fate.enqueue.Lost? || id in s.queue then s
      else s.(queue := s.queue[id := Stored(q.payload, q.principal, q.key)])
  }

  function AfterCommit(s: State, q: Request, ttl: int): State {
    var path := PathOf(q.principal, q.key);
    if !q.fate.rereadOk || path !in s.records || q.fate.commit.Lost? then s
    else s.(records := s.records[path := s.records[path].(committed := true, expiresAt := q.commitAt + ttl)])
  }

  /** One request, from the claim to the answer; stopping early covers failures and crashes alike. */
  function Handle(s: State, q: Request, ttl: int): (State, Response) {
    if !ValidKey(q.key) then (s, BadKey)
    else
      var found, s1 := LookupResult(s, q), AfterLookup(s, q);
      if found.Broken? then (s1, Unavailable)
      else if found.Hit? && found.record.payload != q.payload then (s1, Conflict)
      else if found.Hit? && found.record.committed then (s1, Replayed(found.record.messageId))
      else
        var s2 := AfterPrepare(s1, q, ttl);
        if !q.fate.prepare.Written? then (s2, Unavailable)
        else
          var s3 := AfterEnqueue(s2, q);
          if !q.fate.enqueue.Written? then (s3, Unavailable)
          else
            var s4 := AfterCommit(s3, q, ttl);
            (s4, if q.fate.rereadOk && q.fate.commit.Written? then Accepted(IdOf(q.principal, q.key)) else Unavailable)
  }

  ghost function RunAll(s: State, qs: seq<Request>, ttl: int): State
    decreases |qs|
  {
    if qs == [] then s else RunAll(Handle(s, qs[0], ttl).0, qs[1..], ttl)
  }

  /** No request of the run meets an expired record under this path. */
  ghost predicate WithinTtl(s: State, qs: seq<Request>, ttl: int, path: string)
    decreases |qs|
  {
    qs == [] ||
    (!(PathOf(qs[0].principal, qs[0].key) == path && Expired(s, path, qs[0].lookupAt)) &&
     WithinTtl(Handle(s, qs[0], ttl).0, qs[1..], ttl, path))
  }

  // ----- Invariant at one path --------------------------------------------------------

  predicate OwnedBy(x: Stored, path: string) { PathOf(x.principal, x.key) == path }

  ghost predicate Named(s: State) {
    forall id :: id in s.queue ==> ValidKey(s.queue[id].key) && id == IdOf(s.queue[id].principal, s.queue[id].key)
  }

  /** Every queue record of the path holds the claimed payload, and a committed claim names one of them. */
  ghost predicate Agrees(s: State, path: string) {
    && (forall id :: id in s.queue && OwnedBy(s.queue[id], path) ==>
        path in s.records && s.records[path].payload == s.queue[id].payload)
    && (path in s.records && s.records[path].committed ==>
          s.records[path].messageId in s.queue && OwnedBy(s.queue[s.records[path].messageId], path))
    && (path in s.records ==>
        ValidKey(s.records[path].key) && path == s.records[path].principal + [Nul] + s.records[path].key)
  }

  ghost predicate Inv(s: State, path: string) { Named(s) && Agrees(s, path) }

  lemma LookupIsScoped(s: State, q: Request)
    requires Inv(s, PathOf(q.principal, q.key)) && ValidKey(q.key)
    requires !Expired(s, PathOf(q.principal, q.key), q.lookupAt)
    ensures
      var path := PathOf(q.principal, q.key);
      AfterLookup(s, q) == s &&
      LookupResult(s, q) == if !q.fate.readOk then Broken else if path in s.records then Hit(s.records[path])
        else Missing
  {
    var path := PathOf(q.principal, q.key);
    if path in s.records {
      SplitAtNul(s.records[path].principal, s.records[path].key, Text.Lower(Text.TrimSpace(q.principal)), q.key);
    }
  }

  lemma PrepareKeeps(s: State, q: Request, ttl: int, path: string)
    requires Inv(s, path) && ValidKey(q.key)
    requires PathOf(q.principal, q.key) == path && path in s.records ==>
      s.records[path].payload == q.payload && !s.records[path].committed
    ensures Inv(AfterPrepare(s, q, ttl), path)
  {
  }

  lemma EnqueueKeeps(s: State, q: Request, path: string)
    requires Inv(s, path) && ValidKey(q.key)
    requires PathOf(q.principal, q.key) == path ==> path in s.records && s.records[path].payload == q.payload
    ensures Inv(AfterEnqueue(s, q), path)
    ensures PathOf(q.principal, q.key) == path && q.fate.enqueue.Written? ==>
      var id := IdOf(q.principal, q.key);
      id in AfterEnqueue(s, q).queue && OwnedBy(AfterEnqueue(s, q).queue[id], path)
  {
    var id := IdOf(q.principal, q.key);
    if id in s.queue { IdFixesPath(s.queue[id].principal, s.queue[id].key, q.principal, q.key); }
  }

  lemma CommitKeeps(s: State, q: Request, ttl: int, path: string)
    requires Inv(s, path)
    requires PathOf(q.principal, q.key) == path && path in s.records ==>
      s.records[path].messageId in s.queue && OwnedBy(s.queue[s.records[path].messageId], path)
    ensures Inv(AfterCommit(s, q, ttl), path)
  {
  }

  /** The queue only grows, and nothing in it is replaced. */
  predicate QueueGrows(s: State, n: State) {
    forall id :: id in s.queue ==> id in n.queue && n.queue[id] == s.queue[id]
  }

  /** What a request may add to the queue: one record under its own id, which the queue did not know. */
  ghost predicate Adds(s: State, n: State, q: Request) {
    n.queue == s.queue ||
    (ValidKey(q.key) && IdOf(q.principal, q.key) !in s.queue &&
     n.queue == s.queue[IdOf(q.principal, q.key) := Stored(q.payload, q.principal, q.key)])
  }

  lemma HandleAdds(s: State, q: Request, ttl: int)
    ensures Adds(s, Handle(s, q, ttl).0, q)
  {
    var s2 := AfterPrepare(AfterLookup(s, q), q, ttl);
    assert s2.queue == s.queue;
    assert ValidKey(q.key) ==> Adds(s2, AfterEnqueue(s2, q), q);
    assert AfterCommit(AfterEnqueue(s2, q), q, ttl).queue == AfterEnqueue(s2, q).queue;
  }

  lemma HandleGrows(s: State, q: Request, ttl: int)
    ensures QueueGrows(s, Handle(s, q, ttl).0)
  {
    HandleAdds(s, q, ttl);
  }

  /** The record under path is the same, and the queue got no record of that path. */
  ghost predicate Untouched(s: State, n: State, path: string) {
    && SameRecord(s, n, path)
    && QueueGrows(s, n)
    && (forall id :: id in n.queue && id !in s.queue ==> !OwnedBy(n.queue[id], path))
  }

  lemma UntouchedAgrees(s: State, n: State, path: string)
    requires Agrees(s, path) && Untouched(s, n, path)
    ensures Agrees(n, path)
  {
  }

  ghost predicate SameRecord(s: State, n: State, path: string) {
    (path in s.records <==> path in n.records) && (path in s.records ==> n.records[path] == s.records[path])
  }

  lemma OtherRecordsStay(s: State, q: Request, ttl: int, path: string)
    requires PathOf(q.principal, q.key) != path
    ensures SameRecord(s, Handle(s, q, ttl).0, path)
  {
    var s1 := AfterLookup(s, q);
    var s2 := AfterPrepare(s1, q, ttl);
    var s3 := AfterEnqueue(s2, q);
    assert SameRecord(s, s1, path) && SameRecord(s1, s2, path) && SameRecord(s2, s3, path);
    assert SameRecord(s3, AfterCommit(s3, q, ttl), path);
  }

  /** A request under another path. */
  lemma OthersLeave(s: State, q: Request, ttl: int, path: string)
    requires PathOf(q.principal, q.key) != path
    ensures Untouched(s, Handle(s, q, ttl).0, path)
  {
    OtherRecordsStay(s, q, ttl, path);
    HandleAdds(s, q, ttl);
  }

  lemma HandleNames(s: State, q: Request, ttl: int)
    requires Named(s)
    ensures Named(Handle(s, q, ttl).0)
  {
    HandleAdds(s, q, ttl);
  }

  /** A different payload under a claimed key is refused and changes nothing. */
  lemma DifferentPayloadConflicts(s: State, q: Request, ttl: int)
    requires Inv(s, PathOf(q.principal, q.key)) && !Expired(s, PathOf(q.principal, q.key), q.lookupAt)
    ensures
      var path := PathOf(q.principal, q.key);
      var (n, r) := Handle(s, q, ttl);
      && (r.Conflict? <==>
          ValidKey(q.key) && q.fate.readOk && path in s.records && s.records[path].payload != q.payload)
      && (path in s.records && s.records[path].payload != q.payload ==> n == s && !r.Accepted? && !r.Replayed?)
  {
    if ValidKey(q.key) { LookupIsScoped(s, q); }
  }

  /**
   * A request that claims the key, seen from its own path: the claim's payload
   * never changes, and success names a record with it.
   */
  lemma ClaimKeeps(s: State, q: Request, ttl: int)
    requires Inv(s, PathOf(q.principal, q.key)) && ValidKey(q.key)
    requires
      var path := PathOf(q.principal, q.key);
      path in s.records ==> s.records[path].payload == q.payload && !s.records[path].committed
    ensures
      var path := PathOf(q.principal, q.key);
      var s2 := AfterPrepare(s, q, ttl);
      var s3 := AfterEnqueue(s2, q);
      && Inv(s2, path) && (path in s.records ==> path in s2.records && s2.records[path].payload == q.payload)
      && (q.fate.prepare.Written? ==> Inv(s3, path) && s3.records == s2.records)
      && (q.fate.prepare.Written? && q.fate.enqueue.Written? ==>
            Inv(AfterCommit(s3, q, ttl), path) &&
            var id := IdOf(q.principal, q.key);
            id in s3.queue && OwnedBy(s3.queue[id], path))
  {
    var path := PathOf(q.principal, q.key);
    var s2 := AfterPrepare(s, q, ttl);
    PrepareKeeps(s, q, ttl, path);
    if q.fate.prepare.Written? {
      EnqueueKeeps(s2, q, path);
      if q.fate.enqueue.Written? { CommitKeeps(AfterEnqueue(s2, q), q, ttl, path); }
    }
  }

  /** What a request under its own, unexpired path gets and leaves. */
  lemma OwnKeeps(s: State, q: Request, ttl: int)
    requires Inv(s, PathOf(q.principal, q.key)) && !Expired(s, PathOf(q.principal, q.key), q.lookupAt)
    ensures
      var path := PathOf(q.principal, q.key);
      var (n, r) := Handle(s, q, ttl);
      && Inv(n, path)
      && (path in s.records ==> path in n.records && n.records[path].payload == s.records[path].payload)
      && (r.Accepted? || r.Replayed? ==>
          r.id in n.queue && OwnedBy(n.queue[r.id], path) && n.queue[r.id].payload == q.payload)
  {
    if ValidKey(q.key) {
      LookupIsScoped(s, q);
      var found := LookupResult(s, q);
      if !found.Broken? && !(found.Hit? && (found.record.payload != q.payload || found.record.committed)) {
        ClaimKeeps(s, q, ttl);
      }
    }
  }

  lemma HandleKeeps(s: State, q: Request, ttl: int, path: string)
    requires Inv(s, path) && !(PathOf(q.principal, q.key) == path && Expired(s, path, q.lookupAt))
    ensures
      var n := Handle(s, q, ttl).0;
      Inv(n, path) && (path in s.records ==> path in n.records && n.records[path].payload == s.records[path].payload)
  {
    if PathOf(q.principal, q.key) == path {
      OwnKeeps(s, q, ttl);
    } else {
      HandleNames(s, q, ttl);
      OthersLeave(s, q, ttl, path);
      UntouchedAgrees(s, Handle(s, q, ttl).0, path);
    }
  }

  // ----- Whole runs ---------------------------------------------------------------------

  const Blank: State := State(map[], map[])

  lemma {:induction false} RunKeeps(s: State, qs: seq<Request>, ttl: int, path: string)
    requires Inv(s, path) && WithinTtl(s, qs, ttl, path)
    ensures
      var n := RunAll(s, qs, ttl);
      Inv(n, path) && QueueGrows(s, n) &&
      (path in s.records ==> path in n.records && n.records[path].payload == s.records[path].payload)
    decreases |qs|
  {
    if qs != [] {
      HandleKeeps(s, qs[0], ttl, path);
      HandleGrows(s, qs[0], ttl);
      RunKeeps(Handle(s, qs[0], ttl).0, qs[1..], ttl, path);
    }
  }

  /** A request after any run, all within the lifetime of its record. */
  ghost predicate InTime(qs: seq<Request>, q: Request, ttl: int) {
    var path := PathOf(q.principal, q.key);
    WithinTtl(Blank, qs, ttl, path) && !Expired(RunAll(Blank, qs, ttl), path, q.lookupAt)
  }

  /**
   * Whatever failed before, a successful answer names a queue record of this
   * key that holds this request's payload, and later requests keep it.
   */
  lemma SuccessNamesThePayload(qs: seq<Request>, q: Request, later: seq<Request>, ttl: int)
    requires InTime(qs, q, ttl)
    requires WithinTtl(Handle(RunAll(Blank, qs, ttl), q, ttl).0, later, ttl, PathOf(q.principal, q.key))
    ensures
      var (n, r) := Handle(RunAll(Blank, qs, ttl), q, ttl);
      var end := RunAll(n, later, ttl);
      r.Accepted? || r.Replayed? ==>
        r.id in n.queue && n.queue[r.id].payload == q.payload && OwnedBy(n.queue[r.id], PathOf(q.principal, q.key)) &&
        r.id in end.queue && end.queue[r.id] == n.queue[r.id]
  {
    var path := PathOf(q.principal, q.key);
    RunKeeps(Blank, qs, ttl, path);
    OwnKeeps(RunAll(Blank, qs, ttl), q, ttl);
    RunKeeps(Handle(RunAll(Blank, qs, ttl), q, ttl).0, later, ttl, path);
  }

  /**
   * Once any request has left a claim, a different payload under the same key
   * gets the conflict answer, unless the record cannot be read.
   */
  lemma ReuseIsRefused(qs: seq<Request>, first: Request, between: seq<Request>, q: Request, ttl: int)
    requires
      var path := PathOf(q.principal, q.key);
      var s := RunAll(Blank, qs, ttl);
      var n := Handle(s, first, ttl).0;
      && PathOf(first.principal, first.key) == path && InTime(qs, first, ttl) && WithinTtl(n, between, ttl, path)
      && !Expired(RunAll(n, between, ttl), path, q.lookupAt)
      && path in n.records && n.records[path].payload == first.payload && q.payload != first.payload
    ensures
      var n := Handle(RunAll(Blank, qs, ttl), first, ttl).0;
      var end := RunAll(n, between, ttl);
      Handle(end, q, ttl) == (end, if !ValidKey(q.key) then BadKey else if q.fate.readOk then Conflict else Unavailable)
  {
    var path := PathOf(q.principal, q.key);
    RunKeeps(Blank, qs, ttl, path);
    OwnKeeps(RunAll(Blank, qs, ttl), first, ttl);
    var n := Handle(RunAll(Blank, qs, ttl), first, ttl).0;
    RunKeeps(n, between, ttl, path);
    if ValidKey(q.key) { LookupIsScoped(RunAll(n, between, ttl), q); }
  }

  // ----- One record per key ----------------------------------------------------------------

  lemma {:induction false} RunNames(s: State, qs: seq<Request>, ttl: int)
    requires Named(s)
    ensures Named(RunAll(s, qs, ttl))
    decreases |qs|
  {
    if qs != [] {
      HandleNames(s, qs[0], ttl);
      RunNames(Handle(s, qs[0], ttl).0, qs[1..], ttl);
    }
  }

  /**
   * However often and wherever requests failed, and whether or not records
   * expired in between, a principal's key has at most one queue record; its id
   * is the id every request of that principal and key computes.
   */
  lemma AtMostOneRecord(qs: seq<Request>, ttl: int, p: Username, key: string, id: string)
    requires ValidKey(key)
    requires
      var s := RunAll(Blank, qs, ttl);
      id in s.queue && OwnedBy(s.queue[id], PathOf(p, key))
    ensures
      var x := RunAll(Blank, qs, ttl).queue[id];
      id == IdOf(p, key) && x.principal == p && x.key == key
  {
    RunNames(Blank, qs, ttl);
    var x := RunAll(Blank, qs, ttl).queue[id];
    IdIsPath(p, key);
    IdIsPath(x.principal, x.key);
    SplitAtNul(x.principal, x.key, p, key);
  }

  /**
   * However a client spells a name, with other case or with blanks around it,
   * it claims the same record and the same id.
   */
  lemma SpellingsShareTheKey(a: string, b: string, k: string)
    requires ValidKey(k)
    ensures
      var p, q := NormalizeUsername(a), NormalizeUsername(b);
      && (IdOf(p, k) == IdOf(q, k) <==> Text.Lower(Text.TrimSpace(a)) == Text.Lower(Text.TrimSpace(b)))
      && (PathOf(p, k) == PathOf(q, k) <==> Text.Lower(Text.TrimSpace(a)) == Text.Lower(Text.TrimSpace(b)))
  {
    var p, q := NormalizeUsername(a), NormalizeUsername(b);
    IdIsPath(p, k);
    IdIsPath(q, k);
    if p + [Nul] + k == q + [Nul] + k { SplitAtNul(p, k, q, k); }
  }

  /** After the record has expired a different payload is accepted under the name of the old queue record. */
  lemma ExpiryNamesAnOldRecord()
    ensures
      var fine := Fate(true, true, Written, Written, true, Written);
      var q1, q2 := Request("u", "k", "a", 0, 0, 0, fine), Request("u", "k", "b", 20, 20, 20, fine);
      var (n, r) := Handle(Handle(Blank, q1, 10).0, q2, 10);
      r.Accepted? && r.id in n.queue && n.queue[r.id].payload == "a"
  {
  }

  // ----- The handler -------------------------------------------------------------------------

  class Api {
    const ttl: int
    var records: map<string, Record>
    var queue: map<string, Stored>

    constructor (ttl: int)
      ensures this.ttl == ttl && View() == Blank
    {
      this.ttl := ttl;
      records, queue := map[], map[];
    }

    function View(): State
      reads this
    {
      State(records, queue)
    }

    method Lookup(q: Request) returns (found: Found)
      modifies this`records
      ensures found == LookupResult(old(View()), q) && View() == AfterLookup(old(View()), q)
    {
      var path := PathOf(q.principal, q.key);
      if !q.fate.readOk { return Broken; }
      if path !in records { return Missing; }
      var record := records[path];
      if !(record.expiresAt > q.lookupAt) {
        if !q.fate.removeOk { return Broken; }
        records := records - {path};
        return Missing;
      }
      if record.principal != Text.Lower(Text.TrimSpace(q.principal)) || record.key != q.key { return Broken; }
      return Hit(record);
    }

    method Prepare(q: Request) returns (ok: bool)
      modifies this`records
      ensures ok == q.fate.prepare.Written? && View() == AfterPrepare(old(View()), q, ttl)
    {
      if !q.fate.prepare.Lost? {
        records := records[PathOf(q.principal, q.key) := Claim(q, ttl)];
      }
      return q.fate.prepare.Written?;
    }

    method Enqueue(q: Request) returns (ok: bool)
      modifies this`queue
      ensures ok == q.fate.enqueue.Written? && View() == AfterEnqueue(old(View()), q)
    {
      var id := IdOf(q.principal, q.key);
      if !q.fate.enqueue.Lost? && id !in queue {
        queue := queue[id := Stored(q.payload, q.principal, q.key)];
      }
      return q.fate.enqueue.Written?;
    }

    method Commit(q: Request) returns (ok: bool)
      modifies this`records
      ensures View() == AfterCommit(old(View()), q, ttl)
      ensures ok == (q.fate.rereadOk && PathOf(q.principal, q.key) in old(records) && q.fate.commit.Written?)
    {
      var path := PathOf(q.principal, q.key);
      if !q.fate.rereadOk || path !in records { return false; }
      if !q.fate.commit.Lost? {
        records := records[path := records[path].(committed := true, expiresAt := q.commitAt + ttl)];
      }
      return q.fate.commit.Written?;
    }

    method HandleInject(q: Request) returns (r: Response)
      modifies this
      ensures (View(), r) == Handle(old(View()), q, ttl)
    {
      if !ValidKey(q.key) { return BadKey; }
      var found := Lookup(q);
      if found.Broken? { return Unavailable; }
      if found.Hit? {
        if found.record.payload != q.payload { return Conflict; }
        if found.record.committed { return Replayed(found.record.messageId); }
      }
      var ok := Prepare(q);
      if !ok { return Unavailable; }
      ok := Enqueue(q);
      if !ok { return Unavailable; }
      ok := Commit(q);
      if !ok { return Unavailable; }
      return Accepted(IdOf(q.principal, q.key));
    }
  }
}
