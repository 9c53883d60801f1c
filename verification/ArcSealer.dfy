/**
 * The ARC sealer: it inspects the chain it finds, and puts one more set of
 * three headers on top of the message.
 */
module ArcSealer {
  import opened Common
  import opened Text
  import opened TagLists
  import opened ArcSets
  import opened ArcVerifier

  datatype Sealer = Sealer(domain: string, selector: string, authserv: string, names: seq<string>, algorithm: string)

  /** What clock, digest and key contribute: the time, the body digest and the two signatures as text. */
  datatype Ink = Ink(time: nat, bodyHash: string, amsText: string, sealText: string)

  // ----- Inspecting the chain -----------------------------------------------------------

  /** The instance must stand in the first tag of the value. */
  function SignerInstance(v: string): Option<int> { Atoi(FirstTag([Split(v, ';')[0]], "i")) }

  function SignerRead(h: Header): Slot { Slot(KindOf(h.name), SignerInstance(h.value), h.value) }

  function SignerReadAll(headers: seq<Header>): (r: seq<Slot>)
    ensures |r| == |headers|
  {
    if headers == [] then [] else [SignerRead(headers[0])] + SignerReadAll(headers[1..])
  }

  lemma {:induction false} SignerReadAllAt(headers: seq<Header>, j: nat)
    requires j < |headers|
    ensures SignerReadAll(headers)[j] == SignerRead(headers[j])
  {
    if j > 0 { SignerReadAllAt(headers[1..], j - 1); }
  }

  function SignerCv(slots: seq<Slot>, i: int): string {
    var seal := FindLast(slots, Seal, i);
    ArcTag(if seal.Some? then seal.value else "", "cv")
  }

  predicate SoundSet(slots: seq<Slot>, i: int) {
    Has(slots, Aar, i) && Has(slots, Ams, i) && Has(slots, Seal, i) && SignerCv(slots, i) == if i == 1 then "none"
      else "pass"
  }

  predicate SoundChain(slots: seq<Slot>, m: int) { NoRepeats(slots) && forall i :: 1 <= i <= m ==> SoundSet(slots, i) }

  /** The earlier sets, in order, as the new seal covers them. */
  function ChainText(slots: seq<Slot>, n: nat): string {
    if n == 0 then "" else ChainText(slots, n - 1) + EntriesText(slots, n)
  }

  function EntriesText(slots: seq<Slot>, i: int): string {
    EntryText(slots, Aar, i) + EntryText(slots, Ams, i) + EntryText(slots, Seal, i)
  }

  function EntryText(slots: seq<Slot>, k: Kind, i: int): string {
    var v := FindLast(slots, k, i);
    Canon(NameOf(k), if v.Some? then v.value else "")
  }

  // ----- Authentication results -----------------------------------------------------------

  function Method(part: string): string {
    var i := IndexOf(part, '=');
    TrimSpace(if i < 0 then part else part[..i])
  }

  /** The copied results: blank ones and earlier ARC results are dropped. */
  function Kept(parts: seq<string>): seq<string> {
    if parts == [] then []
    else
      var p := TrimSpace(parts[0]);
      (if Method(p) != "arc" && p != "" then [p] else []) + Kept(parts[1..])
  }

  predicate OwnResults(h: Header, authserv: string) {
    Lower(h.name) == "authentication-results" && TrimSpace(Split(Collapse(TrimSpace(h.value)), ';')[0]) == authserv
  }

  /** The results this server wrote itself, if any. */
  function Results(headers: seq<Header>, authserv: string): seq<string> {
    if headers == [] then []
    else if OwnResults(headers[0], authserv) then Kept(Split(Collapse(TrimSpace(headers[0].value)), ';')[1..])
    else Results(headers[1..], authserv)
  }

  function AarParts(s: Sealer, headers: seq<Header>, i: nat, cv: string): seq<string> {
    ["i=" + Itoa(i), s.authserv] + Results(headers, s.authserv) + ["arc=" + cv]
  }

  function AarValue(s: Sealer, headers: seq<Header>, i: nat, cv: string): string {
    Join(AarParts(s, headers, i, cv), "; ")
  }

  // ----- The message signature ---------------------------------------------------------------

  function Coverable(names: seq<string>): seq<string> {
    if names == [] then []
    else (if names[0] != "authentication-results" && KindOf(names[0]).None? then [names[0]] else []) +
         Coverable(names[1..])
  }

  function DkimNames(headers: seq<Header>): seq<string> {
    if headers == [] then []
      else (if Lower(headers[0].name) == "dkim-signature" then ["dkim-signature"] else []) + DkimNames(headers[1..])
  }

  function Wanted(s: Sealer, headers: seq<Header>): seq<string> { Coverable(s.names) + DkimNames(headers) }

  /** The names that are there, each selecting one header from the bottom. */
  function Present(headers: seq<Header>, want: seq<string>, used: set<nat>): seq<string>
    decreases |want|
  {
    if want == [] then []
    else
      var p := Pick(headers, used, want[0], 0);
      if p.None? then Present(headers, want[1..], used) else [want[0]] + Present(headers, want[1..], used + {p.value})
  }

  function SignerText(headers: seq<Header>, want: seq<string>, used: set<nat>): string
    decreases |want|
  {
    if want == [] then ""
    else
      var p := Pick(headers, used, want[0], 0);
      if p.None? then SignerText(headers, want[1..], used)
      else
        var h := FromBottom(headers, p.value);
        Canon(h.name, h.value) + SignerText(headers, want[1..], used + {p.value})
  }

  function AmsTags(s: Sealer, i: nat, ink: Ink, names: seq<string>, b: string): seq<Tag> {
    [Tag("i", Itoa(i)), Tag("a", s.algorithm), Tag("c", "relaxed/relaxed"), Tag("d", s.domain), Tag("s", s.selector),
     Tag("t", Itoa(ink.time)), Tag("h", Join(names, ":")), Tag("bh", ink.bodyHash), Tag("b", b)]
  }

  function SealTags(s: Sealer, i: nat, cv: string, ink: Ink, b: string): seq<Tag> {
    [Tag("i", Itoa(i)), Tag("cv", cv), Tag("a", s.algorithm), Tag("d", s.domain), Tag("s", s.selector),
     Tag("t", Itoa(ink.time)), Tag("b", b)]
  }

  // ----- Sealing ---------------------------------------------------------------------------------

  datatype Outcome = Unchanged | Refused | Sealed(headers: seq<Header>)

  function CvFor(slots: seq<Slot>, validation: string): string {
    var m := MaxNumber(slots);
    if m <= 0 then "none" else if SoundChain(slots, m) && validation == "pass" then "pass" else "fail"
  }

  /** What the message signature is computed over. */
  function AmsInput(s: Sealer, headers: seq<Header>, i: nat, ink: Ink): string {
    var want := Wanted(s, headers);
    DropEnd(SignerText(headers, want, {}) +
            Canon("ARC-Message-Signature", Render(AmsTags(s, i, ink, Present(headers, want, {}), ""))))
  }

  function AmsValue(s: Sealer, headers: seq<Header>, i: nat, ink: Ink): string {
    Render(AmsTags(s, i, ink, Present(headers, Wanted(s, headers), {}), ink.amsText))
  }

  /** The new set, the seal without its signature. */
  function OwnSet(s: Sealer, headers: seq<Header>, i: nat, cv: string, ink: Ink): string {
    Canon("ARC-Authentication-Results", AarValue(s, headers, i, cv)) +
    Canon("ARC-Message-Signature", AmsValue(s, headers, i, ink)) +
      Canon("ARC-Seal", Render(SealTags(s, i, cv, ink, "")))
  }

  /** What the seal is computed over. */
  function SealInput(s: Sealer, headers: seq<Header>, i: nat, cv: string, ink: Ink): string
    requires i >= 1
  {
    var own := OwnSet(s, headers, i, cv, ink);
    DropEnd(if cv == "pass" then ChainText(SignerReadAll(headers), i - 1) + own else own)
  }

  function NewHeaders(s: Sealer, headers: seq<Header>, i: nat, cv: string, ink: Ink): seq<Header> {
    [Header("ARC-Seal", Render(SealTags(s, i, cv, ink, ink.sealText))),
     Header("ARC-Message-Signature", AmsValue(s, headers, i, ink)),
     Header("ARC-Authentication-Results", AarValue(s, headers, i, cv))]
  }

  function SealMessage(s: Sealer, headers: seq<Header>, validation: string, ink: Ink): Outcome {
    var slots := SignerReadAll(headers);
    var m := MaxNumber(slots);
    if headers == [] then Refused
    else if !AllUsable(slots) || m < 0 || (m > 0 && SignerCv(slots, m) == "fail") then Unchanged
    else if Present(headers, Wanted(s, headers), {}) == [] then Refused
    else Sealed(NewHeaders(s, headers, m + 1, CvFor(slots, validation), ink) + headers)
  }
}
