/**
 * The ARC verifier (RFC 8617) on parsed headers. A header's value is the text
 * with folding replaced by blanks; the verifier sees it with white space
 * collapsed. Cryptography is a ledger of the signatures and digests that
 * check out.
 */
module ArcVerifier {
  import opened Common
  import opened Text
  import opened TagLists
  import opened ArcSets
  import DT = DataTransfer

  datatype Header = Header(name: string, value: string)

  datatype Signature = Signature(domain: string, selector: string, algorithm: string, data: string, text: string)

  /** A digest of a canonical body, with the length tag that limits it. */
  datatype Digest = Digest(body: string, length: string, text: string)

  datatype World = World(signatures: set<Signature>, digests: set<Digest>)

  function NameOf(k: Kind): string {
    match k
    case Aar => "arc-authentication-results"
    case Ams => "arc-message-signature"
    case Seal => "arc-seal"
  }

  function KindOf(name: string): (k: Option<Kind>)
    ensures k.Some? ==> Lower(name) == NameOf(k.value)
  {
    var n := Lower(name);
    if n == NameOf(Aar) then Some(Aar) else if n == NameOf(Ams) then Some(Ams)
      else if n == NameOf(Seal) then Some(Seal) else None
  }

  function Seen(h: Header): string { Collapse(h.value) }

  function Instance(v: string): Option<int> { Atoi(TagOf(v, "i")) }

  /** The verifier's reading of a header. */
  function Read(h: Header): Slot { Slot(KindOf(h.name), Instance(Seen(h)), Seen(h)) }

  function ReadAll(headers: seq<Header>): (r: seq<Slot>)
    ensures |r| == |headers|
  {
    if headers == [] then [] else [Read(headers[0])] + ReadAll(headers[1..])
  }

  lemma {:induction false} ReadAllAt(headers: seq<Header>, j: nat)
    requires j < |headers|
    ensures ReadAll(headers)[j] == Read(headers[j])
  {
    if j > 0 { ReadAllAt(headers[1..], j - 1); }
  }

  // ----- Canonical text ------------------------------------------------------------------

  function Canon(name: string, value: string): string {
    Lower(TrimSpace(name)) + ":" + Collapse(TrimSpace(value)) + CRLF
  }

  function CanonIn(mode: string, name: string, value: string): string {
    if mode == "relaxed" then Canon(name, value) else name + ":" + value + CRLF
  }

  function DropEnd(s: string): string { if |s| >= 2 && s[|s| - 2..] == CRLF then s[..|s| - 2] else s }

  function SetText(slots: seq<Slot>, i: int, last: bool): Option<string> {
    var aar, ams, seal := Find(slots, Aar, i), Find(slots, Ams, i), Find(slots, Seal, i);
    if aar.None? || ams.None? || seal.None? then None
    else Some(Canon(NameOf(Aar), aar.value) + Canon(NameOf(Ams), ams.value) +
              Canon(NameOf(Seal), if last then StripB(seal.value) else seal.value))
  }

  /** The sets from one number up to another; the last one of the chain is written without its signature. */
  function SetsText(slots: seq<Slot>, from: int, upto: int, last: int): Option<string>
    decreases upto - from
  {
    if from > upto then Some("")
    else
      var before, here := SetsText(slots, from, upto - 1, last), SetText(slots, upto, upto == last);
      if before.None? || here.None? then None else Some(before.value + here.value)
  }

  function SealData(slots: seq<Slot>, m: int): Option<string> {
    var seal := Find(slots, Seal, m);
    var from := if seal.Some? && TagOf(seal.value, "cv") == "fail" then m else 1;
    var text := SetsText(slots, from, m, m);
    if m <= 0 || text.None? then None else Some(DropEnd(text.value))
  }

  // ----- Signatures -----------------------------------------------------------------------

  predicate Supported(algorithm: string) { algorithm == "rsa-sha256" || algorithm == "ed25519-sha256" }

  predicate KeyNamed(v: string) {
    Lower(TagOf(v, "d")) != "" && TagOf(v, "s") != "" && Supported(Lower(TagOf(v, "a"))) && TagOf(v, "i") != ""
  }

  function Compact(s: string): string { Join(Fields(s), "") }

  predicate Verifies(w: World, v: string, data: string) {
    Signature(Lower(TagOf(v, "d")), TagOf(v, "s"), Lower(TagOf(v, "a")), data, Compact(TagOf(v, "b"))) in w.signatures
  }

  function Cv(v: string): string { Lower(TagOf(v, "cv")) }

  predicate ValidCv(cv: string, i: int) { if i <= 1 then cv == "none" else cv == "pass" || cv == "fail" }

  predicate SealOk(w: World, slots: seq<Slot>, v: string, i: int) {
    && Instance(v) == Some(i) && KeyNamed(v) && ValidCv(Cv(v), i)
    && SealData(slots, i).Some? && Verifies(w, v, SealData(slots, i).value)
  }

  // ----- The message signature ----------------------------------------------------------------

  /** The header at a height above the lowest one. */
  function FromBottom(headers: seq<Header>, height: nat): Header
    requires height < |headers|
  {
    headers[|headers| - 1 - height]
  }

  /** The lowest unused header of the name, searched upwards. */
  function Pick(headers: seq<Header>, used: set<nat>, name: string, height: nat): (r: Option<nat>)
    ensures r.Some? ==> height <= r.value < |headers|
    decreases |headers| - height
  {
    if height >= |headers| then None
    else if height !in used && Lower(FromBottom(headers, height).name) == name then Some(height)
    else Pick(headers, used, name, height + 1)
  }

  /** The text of the headers that a list of names selects, from the bottom up, each header once. */
  function Selected(headers: seq<Header>, names: seq<string>, used: set<nat>, mode: string): string
    decreases |names|
  {
    if names == [] then ""
    else
      var p := Pick(headers, used, names[0], 0);
      if p.None? then Selected(headers, names[1..], used, mode)
      else
        var h := FromBottom(headers, p.value);
        CanonIn(mode, h.name, Seen(h)) + Selected(headers, names[1..], used + {p.value}, mode)
  }

  function NonEmpty(parts: seq<string>): seq<string> {
    if parts == [] then []
    else (if TrimSpace(parts[0]) == "" then [] else [TrimSpace(parts[0])]) + NonEmpty(parts[1..])
  }

  function NamesIn(h: string): seq<string> { NonEmpty(Split(Lower(h), ':')) }

  function Modes(c: string): (string, string) {
    var l := Lower(c);
    var i := IndexOf(l, '/');
    if c == "" then ("simple", "simple") else if i < 0 then (l, "simple") else (l[..i], l[i + 1..])
  }

  function SimpleLines(lines: seq<string>): seq<string> {
    if lines == [] then [] else [DropCr(lines[0])] + SimpleLines(lines[1..])
  }

  function BodyIn(mode: string, body: string): string {
    if mode == "relaxed" then DT.VerifierBody(body)
    else DT.Finish(SimpleLines(Split(ReplaceCrlf(ReplaceCrlf(body)), LF)))
  }

  function MessageData(headers: seq<Header>, v: string): string {
    var mode := Modes(TagOf(v, "c")).0;
    Selected(headers, NamesIn(TagOf(v, "h")), {}, mode) + DropEnd(CanonIn(mode, "ARC-Message-Signature", StripB(v)))
  }

  predicate AmsOk(w: World, headers: seq<Header>, body: string, v: string) {
    && KeyNamed(v) && TrimSpace(TagOf(v, "h")) != "" && TrimSpace(TagOf(v, "bh")) != ""
    && Digest(BodyIn(Modes(TagOf(v, "c")).1, body), TrimSpace(TagOf(v, "l")), TrimSpace(TagOf(v, "bh"))) in w.digests
    && Verifies(w, v, MessageData(headers, v))
  }

  // ----- The verdict ------------------------------------------------------------------------------

  datatype Verdict = NoChain | Passed(n: nat) | Failed

  ghost predicate SetOk(w: World, headers: seq<Header>, body: string, i: int, n: int) {
    var slots := ReadAll(headers);
    var ams, seal := Find(slots, Ams, i), Find(slots, Seal, i);
    && ams.Some? && seal.Some? && Find(slots, Aar, i).Some? && Cv(seal.value) != "fail"
    && (i == n ==> AmsOk(w, headers, body, ams.value)) && SealOk(w, slots, seal.value, i)
  }

  ghost predicate ChainOk(w: World, headers: seq<Header>, body: string, n: nat) {
    forall i :: 1 <= i <= n ==> SetOk(w, headers, body, i, n)
  }

  ghost function EvalArc(w: World, headers: seq<Header>, body: string): Verdict {
    var slots := ReadAll(headers);
    var n := Count(slots, Seal);
    if n == 0 && Count(slots, Ams) == 0 && Count(slots, Aar) == 0 then NoChain
    else if Count(slots, Ams) != n || Count(slots, Aar) != n then Failed
    else if !Numbered(slots, Seal) || !Numbered(slots, Ams) || !Numbered(slots, Aar) || n > 50 then Failed
    else if ChainOk(w, headers, body, n) then Passed(n) else Failed
  }
}
