/**
 * Sealing against verifying: whatever this sealer adds to a chain that the
 * verifier accepts is accepted again with one more set.
 */
module ArcChain {
  import opened Common
  import opened Text
  import opened TagLists
  import opened ArcSets
  import opened ArcVerifier
  import opened ArcSealer
  import DT = DataTransfer

  // ----- What is asked of configuration and key material ----------------------------------

  predicate CleanName(n: string) { n != "" && CleanValue(n) && ':' !in n && Lower(n) == n }

  predicate CleanSealer(s: Sealer) {
    && CleanValue(s.domain) && s.domain != "" && CleanValue(s.selector) && s.selector != "" && Supported(s.algorithm)
    && CleanValue(s.authserv) && s.authserv != "" && '=' !in s.authserv
    && forall j :: 0 <= j < |s.names| ==> CleanName(s.names[j])
  }

  predicate CleanInk(ink: Ink) {
    CleanValue(ink.bodyHash) && ink.bodyHash != "" && CleanValue(ink.amsText) && CleanValue(ink.sealText)
  }

  /** If any copied result reads as an instance tag, the last that does names the next instance. */
  predicate CopiesRead(s: Sealer, headers: seq<Header>, n: nat) {
    var copied := LastValue(Results(headers, s.authserv), "i");
    copied.None? || Atoi(copied.value) == Some(n + 1)
  }

  // ----- Names ------------------------------------------------------------------------------

  lemma LowerOfSeal()
    ensures Lower("ARC-Seal") == "arc-seal"
  {
  }

  lemma LowerOfAms()
    ensures Lower("ARC-Message-Signature") == "arc-message-signature"
  {
  }

  lemma LowerOfAar()
    ensures Lower("ARC-Authentication-Results") == "arc-authentication-results"
  {
  }

  lemma LowerOfNames()
    ensures Lower("ARC-Seal") == "arc-seal" && Lower("ARC-Message-Signature") == "arc-message-signature"
    ensures Lower("ARC-Authentication-Results") == "arc-authentication-results"
  {
    LowerOfSeal();
    LowerOfAms();
    LowerOfAar();
  }

  lemma KindsOfNames()
    ensures KindOf("ARC-Seal") == Some(Seal) && KindOf("ARC-Message-Signature") == Some(Ams)
    ensures KindOf("ARC-Authentication-Results") == Some(Aar)
  {
    LowerOfNames();
    assert |NameOf(Seal)| == 8 && |NameOf(Ams)| == 21 && |NameOf(Aar)| == 26;
  }

  lemma SpacelessName(name: string, k: Kind)
    requires Lower(name) == NameOf(k)
    ensures Spaceless(name) && TrimSpace(name) == name
  {
    SpacelessNames(k);
    forall i | 0 <= i < |name| ensures !IsSpace(name[i]) { assert Lower(name)[i] == LowerChar(name[i]); }
    SpacelessTrim(name);
  }

  lemma SpacelessNames(k: Kind)
    ensures Spaceless(NameOf(k)) && Lower(NameOf(k)) == NameOf(k)
  {
  }

  /** The canonical form does not depend on the case of an ARC header's name. */
  lemma CanonOfKind(name: string, k: Kind, value: string)
    requires Lower(name) == NameOf(k)
    ensures Canon(name, value) == Canon(NameOf(k), value)
  {
    SpacelessName(name, k);
    SpacelessNames(k);
    SpacelessName(NameOf(k), k);
  }

  lemma CanonOfSeen(name: string, value: string)
    ensures Canon(name, Collapse(value)) == Canon(name, value)
  {
    CollapseTrimmed(value);
    CollapseTrimmed(Collapse(value));
    CollapseTwice(value);
  }

  // ----- Reading the new headers -----------------------------------------------------------------

  lemma InstanceTag(i: nat)
    ensures "i=" + Itoa(i) == Show(Tag("i", Itoa(i))) && CleanKey("i") && CleanValue(Itoa(i))
    ensures Atoi(Itoa(i)) == Some(i)
  {
    AtoiItoa(i);
  }

  /** A value whose first part is the instance: the signer reads it from there. */
  lemma SignerReadsFirst(parts: seq<string>, i: nat)
    requires Parts(parts) && parts[0] == "i=" + Itoa(i)
    ensures SignerInstance(Join(parts, "; ")) == Some(i)
  {
    SplitParts(parts);
    InstanceTag(i);
    ReadShown(Tag("i", Itoa(i)));
    FirstTagAt([parts[0]], 0, Tag("i", Itoa(i)));
  }

  /** Both sides read the same instance from a rendered tag list that starts with it. */
  lemma ReadersAgreeOnTags(tags: seq<Tag>, i: nat)
    requires tags != [] && CleanTags(tags) && tags[0] == Tag("i", Itoa(i))
    ensures SignerInstance(Render(tags)) == Some(i) && Instance(Render(tags)) == Some(i)
    ensures Collapse(Render(tags)) == Render(tags)
  {
    ShownParts(tags);
    InstanceTag(i);
    SignerReadsFirst(ShowAll(tags), i);
    ReadRendered(tags, 0);
    RenderedIsTidy(tags);
  }

  lemma CleanCons(t: Tag, rest: seq<Tag>)
    requires CleanKey(t.key) && CleanValue(t.value) && CleanTags(rest) && forall j :: 0 <= j < |rest| ==>
      rest[j].key != t.key
    ensures CleanTags([t] + rest)
  {
    var all := [t] + rest;
    assert forall j :: 1 <= j < |all| ==> all[j] == rest[j - 1];
  }

  lemma CleanConstants()
    ensures CleanValue("none") && CleanValue("pass") && CleanValue("relaxed/relaxed") && CleanValue("rsa-sha256")
    ensures CleanValue("ed25519-sha256")
  {
  }

  /** The tags that both headers end with. */
  lemma CleanKeyTags(s: Sealer, time: nat, rest: seq<Tag>)
    requires CleanSealer(s) && CleanTags(rest) && forall j :: 0 <= j < |rest| ==>
      rest[j].key == "h" || rest[j].key == "bh" || rest[j].key == "b"
    ensures CleanTags([Tag("d", s.domain)] + ([Tag("s", s.selector)] + ([Tag("t", Itoa(time))] + rest)))
  {
    AtoiItoa(time);
    CleanCons(Tag("t", Itoa(time)), rest);
    CleanCons(Tag("s", s.selector), [Tag("t", Itoa(time))] + rest);
    CleanCons(Tag("d", s.domain), [Tag("s", s.selector)] + ([Tag("t", Itoa(time))] + rest));
  }

  function SealTail(s: Sealer, ink: Ink, b: string): seq<Tag> {
    [Tag("d", s.domain)] + ([Tag("s", s.selector)] + ([Tag("t", Itoa(ink.time))] + [Tag("b", b)]))
  }

  lemma SealTagsAre(s: Sealer, i: nat, cv: string, ink: Ink, b: string)
    ensures SealTags(s, i, cv, ink, b) ==
      [Tag("i", Itoa(i))] + ([Tag("cv", cv)] + ([Tag("a", s.algorithm)] + SealTail(s, ink, b)))
  {
  }

  lemma SealTagsClean(s: Sealer, i: nat, cv: string, ink: Ink, b: string)
    requires CleanSealer(s) && CleanValue(b) && (cv == "none" || cv == "pass")
    ensures CleanTags(SealTags(s, i, cv, ink, b))
  {
    AtoiItoa(i);
    CleanConstants();
    CleanKeyTags(s, ink.time, [Tag("b", b)]);
    var tail := SealTail(s, ink, b);
    CleanCons(Tag("a", s.algorithm), tail);
    CleanCons(Tag("cv", cv), [Tag("a", s.algorithm)] + tail);
    CleanCons(Tag("i", Itoa(i)), [Tag("cv", cv)] + ([Tag("a", s.algorithm)] + tail));
    SealTagsAre(s, i, cv, ink, b);
  }

  /** The tags from the domain to the signature. */
  function AmsTail(s: Sealer, ink: Ink, names: seq<string>, b: string): seq<Tag> {
    [Tag("d", s.domain)] + ([Tag("s", s.selector)] + ([Tag("t", Itoa(ink.time))] +
    ([Tag("h", Join(names, ":"))] + ([Tag("bh", ink.bodyHash)] + [Tag("b", b)]))))
  }

  lemma AmsTailClean(s: Sealer, ink: Ink, names: seq<string>, b: string)
    requires CleanSealer(s) && CleanInk(ink) && CleanValue(b) && CleanValue(Join(names, ":"))
    ensures CleanTags(AmsTail(s, ink, names, b))
  {
    var h, bh, bt := Tag("h", Join(names, ":")), Tag("bh", ink.bodyHash), Tag("b", b);
    CleanCons(bh, [bt]);
    CleanCons(h, [bh] + [bt]);
    CleanKeyTags(s, ink.time, [h] + ([bh] + [bt]));
  }

  lemma AmsTagsAre(s: Sealer, i: nat, ink: Ink, names: seq<string>, b: string)
    ensures AmsTags(s, i, ink, names, b) ==
      [Tag("i", Itoa(i))] + ([Tag("a", s.algorithm)] + ([Tag("c", "relaxed/relaxed")] + AmsTail(s, ink, names, b)))
  {
  }

  lemma AmsTagsClean(s: Sealer, i: nat, ink: Ink, names: seq<string>, b: string)
    requires CleanSealer(s) && CleanInk(ink) && CleanValue(b) && CleanValue(Join(names, ":"))
    ensures CleanTags(AmsTags(s, i, ink, names, b))
  {
    AtoiItoa(i);
    CleanConstants();
    var tail := AmsTail(s, ink, names, b);
    var c, a, n := Tag("c", "relaxed/relaxed"), Tag("a", s.algorithm), Tag("i", Itoa(i));
    AmsTailClean(s, ink, names, b);
    CleanCons(c, tail);
    CleanCons(a, [c] + tail);
    CleanCons(n, [a] + ([c] + tail));
    AmsTagsAre(s, i, ink, names, b);
  }

  lemma LowerSupported(a: string)
    requires Supported(a)
    ensures Lower(a) == a
  {
  }

  /** The new seal, as both sides read it. */
  lemma NewSeal(s: Sealer, i: nat, cv: string, ink: Ink)
    requires CleanSealer(s) && CleanInk(ink) && (cv == "none" || cv == "pass")
    ensures
      var v := Render(SealTags(s, i, cv, ink, ink.sealText));
      Collapse(v) == v && SignerInstance(v) == Some(i) && Instance(v) == Some(i) && TagOf(v, "cv") == cv &&
        ArcTag(v, "cv") == cv
  {
    var tags := SealTags(s, i, cv, ink, ink.sealText);
    SealTagsClean(s, i, cv, ink, ink.sealText);
    ReadersAgreeOnTags(tags, i);
    ReadRendered(tags, 1);
  }

  lemma NewSealKey(s: Sealer, i: nat, cv: string, ink: Ink)
    requires CleanSealer(s) && CleanInk(ink) && (cv == "none" || cv == "pass")
    ensures
      var v := Render(SealTags(s, i, cv, ink, ink.sealText));
      TagOf(v, "d") == s.domain && TagOf(v, "s") == s.selector && TagOf(v, "a") == s.algorithm &&
        TagOf(v, "b") == ink.sealText && KeyNamed(v)
  {
    var tags := SealTags(s, i, cv, ink, ink.sealText);
    SealTagsClean(s, i, cv, ink, ink.sealText);
    ReadRendered(tags, 0);
    ReadRendered(tags, 2);
    ReadRendered(tags, 3);
    ReadRendered(tags, 4);
    ReadRendered(tags, 6);
    LowerSupported(s.algorithm);
    assert |Lower(s.domain)| == |s.domain|;
  }

  lemma NewSealStripped(s: Sealer, i: nat, cv: string, ink: Ink)
    requires CleanSealer(s) && CleanInk(ink) && (cv == "none" || cv == "pass")
    ensures StripB(Render(SealTags(s, i, cv, ink, ink.sealText))) == Render(SealTags(s, i, cv, ink, ""))
  {
    var tags := SealTags(s, i, cv, ink, ink.sealText);
    SealTagsClean(s, i, cv, ink, ink.sealText);
    StripRendered(tags);
    assert Unsigned(tags) == SealTags(s, i, cv, ink, "");
  }

  lemma NewAms(s: Sealer, i: nat, ink: Ink, names: seq<string>)
    requires CleanSealer(s) && CleanInk(ink) && CleanValue(Join(names, ":"))
    ensures
      var v := Render(AmsTags(s, i, ink, names, ink.amsText));
      Collapse(v) == v && SignerInstance(v) == Some(i) && Instance(v) == Some(i)
  {
    AmsTagsClean(s, i, ink, names, ink.amsText);
    ReadersAgreeOnTags(AmsTags(s, i, ink, names, ink.amsText), i);
  }

  lemma NewAmsKey(s: Sealer, i: nat, ink: Ink, names: seq<string>)
    requires CleanSealer(s) && CleanInk(ink) && CleanValue(Join(names, ":"))
    ensures
      var v := Render(AmsTags(s, i, ink, names, ink.amsText));
      TagOf(v, "d") == s.domain && TagOf(v, "s") == s.selector && TagOf(v, "a") == s.algorithm &&
        TagOf(v, "b") == ink.amsText && KeyNamed(v)
  {
    var tags := AmsTags(s, i, ink, names, ink.amsText);
    AmsTagsClean(s, i, ink, names, ink.amsText);
    ReadRendered(tags, 0);
    ReadRendered(tags, 1);
    ReadRendered(tags, 3);
    ReadRendered(tags, 4);
    ReadRendered(tags, 8);
    LowerSupported(s.algorithm);
    assert |Lower(s.domain)| == |s.domain|;
  }

  lemma NewAmsStripped(s: Sealer, i: nat, ink: Ink, names: seq<string>)
    requires CleanSealer(s) && CleanInk(ink) && CleanValue(Join(names, ":"))
    ensures StripB(Render(AmsTags(s, i, ink, names, ink.amsText))) == Render(AmsTags(s, i, ink, names, ""))
  {
    var tags := AmsTags(s, i, ink, names, ink.amsText);
    AmsTagsClean(s, i, ink, names, ink.amsText);
    StripRendered(tags);
    assert Unsigned(tags) == AmsTags(s, i, ink, names, "");
  }

  lemma NewAmsForm(s: Sealer, i: nat, ink: Ink, names: seq<string>)
    requires CleanSealer(s) && CleanInk(ink) && CleanValue(Join(names, ":"))
    ensures
      var v := Render(AmsTags(s, i, ink, names, ink.amsText));
      TagOf(v, "c") == "relaxed/relaxed" && TagOf(v, "l") == ""
  {
    var tags := AmsTags(s, i, ink, names, ink.amsText);
    AmsTagsClean(s, i, ink, names, ink.amsText);
    ReadRendered(tags, 2);
    NoLengthTag(s, i, ink, names);
    ReadAbsent(tags, "l");
  }

  lemma NoLengthTag(s: Sealer, i: nat, ink: Ink, names: seq<string>)
    ensures forall j :: 0 <= j < 9 ==> AmsTags(s, i, ink, names, ink.amsText)[j].key != "l"
  {
  }

  lemma NewAmsContent(s: Sealer, i: nat, ink: Ink, names: seq<string>)
    requires CleanSealer(s) && CleanInk(ink) && CleanValue(Join(names, ":"))
    ensures
      var v := Render(AmsTags(s, i, ink, names, ink.amsText));
      TagOf(v, "h") == Join(names, ":") && TagOf(v, "bh") == ink.bodyHash
  {
    var tags := AmsTags(s, i, ink, names, ink.amsText);
    AmsTagsClean(s, i, ink, names, ink.amsText);
    ReadRendered(tags, 6);
    ReadRendered(tags, 7);
  }

  // ----- Copied results ----------------------------------------------------------------------

  predicate PartOk(p: string) { p != [] && ';' !in p && Tidy(p) }

  lemma {:induction false} KeptParts(parts: seq<string>)
    requires forall j :: 0 <= j < |parts| ==> Single(parts[j]) && ';' !in parts[j]
    ensures forall j :: 0 <= j < |Kept(parts)| ==> PartOk(Kept(parts)[j])
    decreases |parts|
  {
    if parts != [] {
      TrimSingle(parts[0]);
      KeptParts(parts[1..]);
    }
  }

  lemma {:induction false} ResultsParts(headers: seq<Header>, authserv: string)
    ensures forall j :: 0 <= j < |Results(headers, authserv)| ==> PartOk(Results(headers, authserv)[j])
    decreases |headers|
  {
    if headers != [] {
      if OwnResults(headers[0], authserv) {
        var v := Collapse(TrimSpace(headers[0].value));
        CollapseIsTidy(TrimSpace(headers[0].value));
        SplitSingle(v, ';');
        SplitPartsAreFree(v, ';');
        KeptParts(Split(v, ';')[1..]);
      } else {
        ResultsParts(headers[1..], authserv);
      }
    }
  }

  lemma SpacelessIsTidy(v: string)
    requires Spaceless(v)
    ensures Tidy(v)
  {
  }

  /** The sealer's own parts are well formed, and beside the first none is an instance tag. */
  lemma OwnParts(s: Sealer, cv: string)
    requires CleanSealer(s) && (cv == "none" || cv == "pass")
    ensures PartOk(s.authserv) && !HasKey(s.authserv, "i") && PartOk("arc=" + cv) && !HasKey("arc=" + cv, "i")
  {
    CleanConstants();
    ShownIsPart(Tag("arc", cv));
    ReadShown(Tag("arc", cv));
    assert "arc=" + cv == Show(Tag("arc", cv));
    SpacelessIsTidy(s.authserv);
    NoTag(s.authserv);
  }

  lemma Around<T>(a: T, r: seq<T>, z: T, j: nat)
    requires j < |r| + 2
    ensures ([a] + r + [z])[j] == if j == 0 then a else if j <= |r| then r[j - 1] else z
  {
  }

  lemma FirstPart(first: string, rest: seq<string>, i: nat)
    requires first == "i=" + Itoa(i) && forall j :: 0 <= j < |rest| ==> PartOk(rest[j])
    ensures Parts([first] + rest)
  {
    var parts := [first] + rest;
    InstanceTag(i);
    ShownIsPart(Tag("i", Itoa(i)));
    forall j | 0 <= j < |parts| ensures PartOk(parts[j]) { if j > 0 { assert parts[j] == rest[j - 1]; } }
  }

  lemma TidyParts(first: string, rest: seq<string>, i: nat)
    requires first == "i=" + Itoa(i) && forall j :: 0 <= j < |rest| ==> PartOk(rest[j])
    ensures
      var v := Join([first] + rest, "; ");
      Collapse(v) == v && SignerInstance(v) == Some(i)
  {
    var parts := [first] + rest;
    FirstPart(first, rest, i);
    PartsAreTidy(parts);
    TidyCollapses(Join(parts, "; "));
    SignerReadsFirst(parts, i);
  }

  lemma ConsParts(first: string, a: string, r: seq<string>, z: string)
    ensures [first, a] + r + [z] == [first] + ([a] + r + [z])
  {
  }

  lemma PartsAround(a: string, r: seq<string>, z: string)
    requires PartOk(a) && PartOk(z) && forall j :: 0 <= j < |r| ==> PartOk(r[j])
    ensures forall j :: 0 <= j < |r| + 2 ==> PartOk(([a] + r + [z])[j])
  {
    forall j | 0 <= j < |r| + 2 ensures PartOk(([a] + r + [z])[j]) { Around(a, r, z, j); }
  }

  /** The new authentication results, as the signer reads them again later. */
  lemma NewAar(s: Sealer, headers: seq<Header>, i: nat, cv: string)
    requires CleanSealer(s) && (cv == "none" || cv == "pass")
    ensures
      var v := AarValue(s, headers, i, cv);
      Collapse(v) == v && SignerInstance(v) == Some(i)
  {
    var r := Results(headers, s.authserv);
    ResultsParts(headers, s.authserv);
    OwnParts(s, cv);
    PartsAround(s.authserv, r, "arc=" + cv);
    TidyParts("i=" + Itoa(i), [s.authserv] + r + ["arc=" + cv], i);
    ConsParts("i=" + Itoa(i), s.authserv, r, "arc=" + cv);
  }

  /** The verifier reads the new instance from the new authentication results. */
  predicate AarReads(s: Sealer, headers: seq<Header>, n: nat) {
    Instance(AarValue(s, headers, n + 1, CvOf(n))) == Some(n + 1)
  }

  /** Own parts around copied ones: the last copied instance tag wins over the sealer's own. */
  lemma LastAround(first: string, a: string, r: seq<string>, z: string, key: string)
    requires HasKey(first, key) && !HasKey(a, key) && !HasKey(z, key)
    ensures LastValue([first] + ([a] + r + [z]), key) ==
      if LastValue(r, key).Some? then LastValue(r, key) else Some(VerifierTag(first).value.value)
  {
    LastValueAppend([first], [a] + r + [z], key);
    LastValueAppend([a] + r, [z], key);
    LastValueAppend([a], r, key);
    LastValueOne(first, key);
    LastValueOne(a, key);
    LastValueOne(z, key);
  }

  lemma FirstIsInstance(first: string, i: nat)
    requires first == "i=" + Itoa(i)
    ensures HasKey(first, "i") && VerifierTag(first).value.value == Itoa(i)
  {
    InstanceTag(i);
    ReadShown(Tag("i", Itoa(i)));
  }

  /** The instance the verifier reads from the new authentication results. */
  lemma AarInstance(s: Sealer, headers: seq<Header>, i: nat, cv: string)
    requires CleanSealer(s) && (cv == "none" || cv == "pass")
    ensures
      var copied := LastValue(Results(headers, s.authserv), "i");
      Instance(AarValue(s, headers, i, cv)) == if copied.Some? then Atoi(copied.value) else Some(i)
  {
    var first, r, z := "i=" + Itoa(i), Results(headers, s.authserv), "arc=" + cv;
    ResultsParts(headers, s.authserv);
    OwnParts(s, cv);
    PartsAround(s.authserv, r, z);
    FirstPart(first, [s.authserv] + r + [z], i);
    FirstIsInstance(first, i);
    LastAround(first, s.authserv, r, z, "i");
    TagOfJoined([first] + ([s.authserv] + r + [z]), "i");
    ConsParts(first, s.authserv, r, z);
    AtoiItoa(i);
  }

  /** The verifier reads the new instance exactly when the copied results let it. */
  lemma ReadsIffCopiesRead(s: Sealer, headers: seq<Header>, n: nat)
    requires CleanSealer(s)
    ensures AarReads(s, headers, n) <==> CopiesRead(s, headers, n)
  {
    AarInstance(s, headers, n + 1, CvOf(n));
  }

  lemma NoTag(v: string)
    requires Spaceless(v) && '=' !in v
    ensures VerifierTag(v).None?
  {
    SpacelessTrim(v);
  }

  // ----- Which headers the message signature covers -----------------------------------------------

  /** Looking only for the names that are there gives the same selection. */
  lemma {:induction false} SelectPresent(headers: seq<Header>, want: seq<string>, used: set<nat>)
    ensures
      var names := Present(headers, want, used);
      Selected(headers, names, used, "relaxed") == SignerText(headers, want, used) &&
        Present(headers, names, used) == names
    decreases |want|
  {
    if want != [] {
      var p := Pick(headers, used, want[0], 0);
      if p.None? {
        SelectPresent(headers, want[1..], used);
      } else {
        var h := FromBottom(headers, p.value);
        SelectPresent(headers, want[1..], used + {p.value});
        CanonOfSeen(h.name, h.value);
        assert Present(headers, want, used)[1..] == Present(headers, want[1..], used + {p.value});
      }
    }
  }

  lemma {:induction false} PickUnder(pre: seq<Header>, headers: seq<Header>, used: set<nat>, name: string, height: nat)
    requires Pick(headers, used, name, height).Some?
    ensures Pick(pre + headers, used, name, height) == Pick(headers, used, name, height)
    decreases |headers| - height
  {
    assert FromBottom(pre + headers, height) == FromBottom(headers, height);
    if !(height !in used && Lower(FromBottom(headers, height).name) == name) {
      PickUnder(pre, headers, used, name, height + 1);
    }
  }

  /** Headers put on top do not change what a fully present list of names selects. */
  lemma {:induction false} SelectUnder(pre: seq<Header>, headers: seq<Header>, names: seq<string>, used: set<nat>,
                                       mode: string)
    requires Present(headers, names, used) == names
    ensures Selected(pre + headers, names, used, mode) == Selected(headers, names, used, mode)
    ensures Present(pre + headers, names, used) == names
    decreases |names|
  {
    if names != [] {
      var p := Pick(headers, used, names[0], 0);
      PresentShrinks(headers, names[1..], used);
      assert p.Some?;
      PickUnder(pre, headers, used, names[0], 0);
      assert FromBottom(pre + headers, p.value) == FromBottom(headers, p.value);
      assert names == [names[0]] + names[1..];
      SelectUnder(pre, headers, names[1..], used + {p.value}, mode);
    }
  }

  lemma {:induction false} PresentShrinks(headers: seq<Header>, want: seq<string>, used: set<nat>)
    ensures |Present(headers, want, used)| <= |want|
    decreases |want|
  {
    if want != [] {
      var p := Pick(headers, used, want[0], 0);
      PresentShrinks(headers, want[1..], if p.None? then used else used + {p.value});
    }
  }

  // ----- The list of covered names ---------------------------------------------------------------------

  predicate CleanNames(names: seq<string>) { forall j :: 0 <= j < |names| ==> CleanName(names[j]) }

  lemma {:induction false} JoinedClean(names: seq<string>)
    requires CleanNames(names)
    ensures CleanValue(Join(names, ":")) && Lower(Join(names, ":")) == Join(names, ":")
    decreases |names|
  {
    if |names| == 1 {
      assert CleanName(names[0]);
    } else if |names| > 1 {
      JoinedClean(names[1..]);
      assert CleanName(names[0]);
      OneMoreName(names[0], Join(names[1..], ":"));
    }
  }

  lemma {:induction false} JoinedSplits(names: seq<string>)
    requires CleanNames(names) && names != []
    ensures Join(names, ":") != [] && Split(Join(names, ":"), ':') == names
    decreases |names|
  {
    assert CleanName(names[0]);
    if |names| == 1 {
      SplitNone(names[0], ':');
    } else {
      var rest := Join(names[1..], ":");
      JoinedSplits(names[1..]);
      SplitFirst(names[0], rest, ':');
      assert Join(names, ":") == names[0] + [':'] + rest;
    }
  }

  lemma JoinedNames(names: seq<string>)
    requires CleanNames(names)
    ensures CleanValue(Join(names, ":")) && Lower(Join(names, ":")) == Join(names, ":")
    ensures names != [] ==> Join(names, ":") != [] && Split(Join(names, ":"), ':') == names
  {
    JoinedClean(names);
    if names != [] { JoinedSplits(names); }
  }

  lemma OneMoreName(n: string, rest: string)
    requires CleanName(n) && CleanValue(rest) && Lower(rest) == rest
    ensures CleanValue(n + [':'] + rest) && Lower(n + [':'] + rest) == n + [':'] + rest
  {
    LowerAppend(n + [':'], rest);
    LowerAppend(n, [':']);
    CleanAppend(n, rest);
  }

  lemma LowerAppend(a: string, b: string)
    ensures Lower(a + b) == Lower(a) + Lower(b)
  {
  }

  lemma CleanAppend(a: string, b: string)
    requires CleanValue(a) && CleanValue(b)
    ensures CleanValue(a + [':'] + b)
  {
    var s := a + [':'] + b;
    forall i | 0 <= i < |s| ensures !IsSpace(s[i]) && s[i] != ';' {
      if i < |a| { assert s[i] == a[i]; } else if i > |a| { assert s[i] == b[i - |a| - 1]; }
    }
  }

  lemma {:induction false} NonEmptyOfClean(names: seq<string>)
    requires CleanNames(names)
    ensures NonEmpty(names) == names
    decreases |names|
  {
    if names != [] {
      SpacelessTrim(names[0]);
      NonEmptyOfClean(names[1..]);
    }
  }

  lemma NamesReadBack(names: seq<string>)
    requires CleanNames(names) && names != []
    ensures NamesIn(Join(names, ":")) == names && TrimSpace(Join(names, ":")) != ""
  {
    JoinedNames(names);
    NonEmptyOfClean(names);
    SpacelessTrim(Join(names, ":"));
  }

  lemma {:induction false} PresentClean(headers: seq<Header>, want: seq<string>, used: set<nat>)
    requires CleanNames(want)
    ensures CleanNames(Present(headers, want, used))
    decreases |want|
  {
    if want != [] {
      var p := Pick(headers, used, want[0], 0);
      PresentClean(headers, want[1..], if p.None? then used else used + {p.value});
    }
  }

  lemma {:induction false} CoverableClean(names: seq<string>)
    requires CleanNames(names)
    ensures CleanNames(Coverable(names))
    decreases |names|
  {
    if names != [] { CoverableClean(names[1..]); }
  }

  lemma {:induction false} DkimClean(headers: seq<Header>)
    ensures CleanNames(DkimNames(headers))
    decreases |headers|
  {
    if headers != [] {
      DkimNameClean();
      DkimClean(headers[1..]);
    }
  }

  lemma DkimNameClean()
    ensures CleanName("dkim-signature")
  {
  }

  lemma WantedClean(s: Sealer, headers: seq<Header>)
    requires CleanSealer(s)
    ensures CleanNames(Wanted(s, headers))
  {
    CoverableClean(s.names);
    DkimClean(headers);
  }

  // ----- The new message signature verifies -----------------------------------------------------------

  lemma {:induction false} FieldsSpaceless(s: string, word: string)
    requires Spaceless(s)
    ensures FieldsFrom(s, word) == if word + s == [] then [] else [word + s]
    decreases |s|
  {
    if s == [] {
      assert word + s == word;
    } else {
      FieldsSpaceless(s[1..], word + [s[0]]);
      assert word + [s[0]] + s[1..] == word + s;
    }
  }

  lemma CompactSpaceless(s: string)
    requires Spaceless(s)
    ensures Compact(s) == s
  {
    FieldsSpaceless(s, []);
    assert [] + s == s;
  }

  lemma ModesOf(a: string, b: string)
    requires '/' !in a && Lower(a) == a && Lower(b) == b
    ensures Modes(a + "/" + b) == (a, b)
  {
    var l := a + "/" + b;
    LowerAppend(a + "/", b);
    LowerAppend(a, "/");
    assert Lower("/") == "/";
    assert l[|a|] == '/' && forall j :: 0 <= j < |a| ==> l[j] == a[j];
    assert IndexOf(l, '/') == |a|;
    assert l[..|a|] == a && l[|a| + 1..] == b;
  }

  lemma LowerRelaxed()
    ensures Lower("relaxed") == "relaxed" && '/' !in "relaxed"
  {
  }

  lemma RelaxedTwice()
    ensures "relaxed" + "/" + "relaxed" == "relaxed/relaxed"
  {
  }

  lemma RelaxedModes()
    ensures Modes("relaxed/relaxed") == ("relaxed", "relaxed")
  {
    LowerRelaxed();
    RelaxedTwice();
    ModesOf("relaxed", "relaxed");
  }

  lemma DropEndAppend(a: string, name: string, value: string)
    ensures DropEnd(a + Canon(name, value)) == a + DropEnd(Canon(name, value))
  {
    var c := Canon(name, value);
    assert c[|c| - 2..] == CRLF;
    var s := a + c;
    assert s[|s| - 2..] == CRLF && s[..|s| - 2] == a + c[..|c| - 2];
  }

  /** Signed by this sealer, by the ledger. */
  predicate Attested(w: World, s: Sealer, data: string, text: string) {
    Signature(Lower(s.domain), s.selector, s.algorithm, data, text) in w.signatures
  }

  lemma VerifiesAttested(w: World, s: Sealer, v: string, data: string, text: string)
    requires Supported(s.algorithm) && Spaceless(text) && Attested(w, s, data, text)
    requires TagOf(v, "d") == s.domain && TagOf(v, "s") == s.selector && TagOf(v, "a") == s.algorithm
    requires TagOf(v, "b") == text
    ensures Verifies(w, v, data)
  {
    LowerSupported(s.algorithm);
    CompactSpaceless(text);
  }

  lemma NewMessageData(s: Sealer, pre: seq<Header>, headers: seq<Header>, i: nat, ink: Ink)
    requires CleanSealer(s) && CleanInk(ink) && Present(headers, Wanted(s, headers), {}) != []
    ensures
      var v := AmsValue(s, headers, i, ink);
      MessageData(pre + headers, v) == AmsInput(s, headers, i, ink) && TrimSpace(TagOf(v, "h")) != ""
  {
    var want := Wanted(s, headers);
    var names := Present(headers, want, {});
    WantedClean(s, headers);
    PresentClean(headers, want, {});
    NamesReadBack(names);
    JoinedNames(names);
    NewAmsStripped(s, i, ink, names);
    NewAmsForm(s, i, ink, names);
    NewAmsContent(s, i, ink, names);
    RelaxedModes();
    SelectPresent(headers, want, {});
    SelectUnder(pre, headers, names, {}, "relaxed");
    DropEndAppend(SignerText(headers, want, {}), "ARC-Message-Signature", Render(AmsTags(s, i, ink, names, "")));
  }

  lemma NewAmsOk(w: World, s: Sealer, pre: seq<Header>, headers: seq<Header>, body: string, i: nat, ink: Ink)
    requires CleanSealer(s) && CleanInk(ink) && Present(headers, Wanted(s, headers), {}) != []
    requires Digest(DT.SignerBody(body), "", ink.bodyHash) in w.digests
    requires Attested(w, s, AmsInput(s, headers, i, ink), ink.amsText)
    ensures AmsOk(w, pre + headers, body, AmsValue(s, headers, i, ink))
  {
    var names := Present(headers, Wanted(s, headers), {});
    var v := AmsValue(s, headers, i, ink);
    WantedClean(s, headers);
    PresentClean(headers, Wanted(s, headers), {});
    JoinedNames(names);
    NewAmsKey(s, i, ink, names);
    NewAmsForm(s, i, ink, names);
    NewAmsContent(s, i, ink, names);
    NewMessageData(s, pre, headers, i, ink);
    RelaxedModes();
    DT.VerifierAgreesWithSigner(body);
    SpacelessTrim(ink.bodyHash);
    SpacelessTrim("");
    VerifiesAttested(w, s, v, MessageData(pre + headers, v), ink.amsText);
  }

  // ----- What the sealer makes of an accepted chain ------------------------------------------------

  /** The verifier's answer for a message with n sets. */
  ghost predicate Accepted(w: World, headers: seq<Header>, body: string, n: nat) {
    if n == 0 then EvalArc(w, headers, body).NoChain? else EvalArc(w, headers, body) == Passed(n)
  }

  /** The instance comes first and the chain status is in lower case, so that both sides read the header alike. */
  predicate AgreeHeader(h: Header) {
    && (KindOf(h.name).Some? ==> SignerInstance(h.value) == Instance(Seen(h)))
    && (KindOf(h.name) == Some(Seal) ==> ArcTag(h.value, "cv") == Cv(Seen(h)))
  }

  predicate Agree(headers: seq<Header>) { forall j :: 0 <= j < |headers| ==> AgreeHeader(headers[j]) }

  lemma AcceptedComplete(w: World, headers: seq<Header>, body: string, n: nat)
    requires Accepted(w, headers, body, n)
    ensures Complete(ReadAll(headers), n) && (n > 0 ==> ChainOk(w, headers, body, n))
  {
    var slots := ReadAll(headers);
    if n == 0 {
      CountZero(slots, Seal);
      CountZero(slots, Ams);
      CountZero(slots, Aar);
    }
    CompleteKinds(slots, n);
  }

  lemma AgreeAlike(headers: seq<Header>)
    requires Agree(headers)
    ensures Alike(ReadAll(headers), SignerReadAll(headers))
  {
    forall j | 0 <= j < |headers|
      ensures ReadAll(headers)[j].kind == SignerReadAll(headers)[j].kind
      ensures ReadAll(headers)[j].kind.Some? ==> ReadAll(headers)[j].number == SignerReadAll(headers)[j].number
    {
      assert AgreeHeader(headers[j]);
      ReadAllAt(headers, j);
      SignerReadAllAt(headers, j);
    }
  }

  /** One entry of the chain: the same header for both, and the same canonical text. */
  lemma SameEntry(headers: seq<Header>, n: nat, k: Kind, i: int) returns (h: Header)
    requires Complete(ReadAll(headers), n) && Agree(headers) && 1 <= i <= n
    ensures Find(ReadAll(headers), k, i) == Some(Seen(h)) && FindLast(SignerReadAll(headers), k, i) == Some(h.value)
    ensures AgreeHeader(h) && KindOf(h.name) == Some(k)
    ensures EntryText(SignerReadAll(headers), k, i) == Canon(NameOf(k), Seen(h))
  {
    AgreeAlike(headers);
    var j := UniqueSlot(ReadAll(headers), SignerReadAll(headers), n, k, i);
    h := headers[j];
    ReadAllAt(headers, j);
    SignerReadAllAt(headers, j);
    CanonOfSeen(NameOf(k), h.value);
  }

  lemma SealStatus(w: World, headers: seq<Header>, body: string, n: nat, i: int)
    requires Accepted(w, headers, body, n) && Agree(headers) && 1 <= i <= n
    ensures SignerCv(SignerReadAll(headers), i) == if i == 1 then "none" else "pass"
  {
    AcceptedComplete(w, headers, body, n);
    var h := SameEntry(headers, n, Seal, i);
    assert SetOk(w, headers, body, i, n);
  }

  /** The sealer sees n sound sets and marks the chain as passed. */
  lemma SealerSees(w: World, headers: seq<Header>, body: string, n: nat)
    requires Accepted(w, headers, body, n) && Agree(headers) && n < 50
    ensures
      var slots := SignerReadAll(headers);
      && AllUsable(slots) && MaxNumber(slots) == n && (n > 0 ==> SignerCv(slots, n) != "fail")
      && CvFor(slots, "pass") == if n == 0 then "none" else "pass"
  {
    var slots := SignerReadAll(headers);
    AcceptedComplete(w, headers, body, n);
    AgreeAlike(headers);
    SecondReading(ReadAll(headers), slots, n);
    forall i | 1 <= i <= n ensures SoundSet(slots, i) { SealStatus(w, headers, body, n, i); }
    if n > 0 { SealStatus(w, headers, body, n, n); }
  }

  // ----- The text the seal covers ----------------------------------------------------------------------

  /** The sets of an unbroken chain, as the sealer and the verifier write them out. */
  lemma {:induction false} SetsOfEntries(seen: seq<Slot>, slots: seq<Slot>, n: nat, last: int)
    requires last > n && forall i :: 1 <= i <= n ==> SetText(seen, i, false) == Some(EntriesText(slots, i))
    ensures SetsText(seen, 1, n, last) == Some(ChainText(slots, n))
  {
    if n > 0 {
      SetsOfEntries(seen, slots, n - 1, last);
      SetsTextStep(seen, 1, n, last, ChainText(slots, n - 1), EntriesText(slots, n));
    }
  }

  lemma SetsTextStep(slots: seq<Slot>, from: int, upto: int, last: int, before: string, here: string)
    requires from <= upto && SetsText(slots, from, upto - 1, last) == Some(before)
    requires SetText(slots, upto, upto == last) == Some(here)
    ensures SetsText(slots, from, upto, last) == Some(before + here)
  {
  }

  lemma ChainTextIsSets(headers: seq<Header>, n: nat)
    requires Complete(ReadAll(headers), n) && Agree(headers)
    ensures SetsText(ReadAll(headers), 1, n, n + 1) == Some(ChainText(SignerReadAll(headers), n))
  {
    forall i | 1 <= i <= n ensures SetText(ReadAll(headers), i, false) == Some(EntriesText(SignerReadAll(headers), i)) {
      SetIsEntries(headers, n, i);
    }
    SetsOfEntries(ReadAll(headers), SignerReadAll(headers), n, n + 1);
  }

  lemma SetIsEntries(headers: seq<Header>, n: nat, i: int)
    requires Complete(ReadAll(headers), n) && Agree(headers) && 1 <= i <= n
    ensures SetText(ReadAll(headers), i, false) == Some(EntriesText(SignerReadAll(headers), i))
  {
    var a := SameEntry(headers, n, Aar, i);
    var m := SameEntry(headers, n, Ams, i);
    var s := SameEntry(headers, n, Seal, i);
  }

  lemma SetTextSame(before: seq<Slot>, after: seq<Slot>, i: int, last: bool)
    requires forall k :: Find(after, k, i) == Find(before, k, i)
    ensures SetText(after, i, last) == SetText(before, i, last)
  {
    assert Find(after, Aar, i) == Find(before, Aar, i) && Find(after, Ams, i) == Find(before, Ams, i);
    assert Find(after, Seal, i) == Find(before, Seal, i);
  }

  /** Sets below the new one are written as before. */
  lemma {:induction false} SetsTextUnder(before: seq<Slot>, after: seq<Slot>, from: int, upto: int, last: int)
    requires from <= upto + 1 && forall k, i :: i <= upto ==> Find(after, k, i) == Find(before, k, i)
    ensures SetsText(after, from, upto, last) == SetsText(before, from, upto, last)
    decreases upto + 1 - from
  {
    if from <= upto {
      SetTextSame(before, after, upto, upto == last);
      SetsTextUnder(before, after, from, upto - 1, last);
    }
  }

  // ----- Sealing -------------------------------------------------------------------------------------

  function CvOf(n: nat): string { if n == 0 then "none" else "pass" }

  function NewSealText(s: Sealer, n: nat, ink: Ink): string { Render(SealTags(s, n + 1, CvOf(n), ink, ink.sealText)) }

  function Output(s: Sealer, headers: seq<Header>, n: nat, ink: Ink): seq<Header> {
    NewHeaders(s, headers, n + 1, CvOf(n), ink) + headers
  }

  function SealSlot(s: Sealer, n: nat, ink: Ink): Slot { Slot(Some(Seal), Some(n + 1), NewSealText(s, n, ink)) }

  function AmsSlot(s: Sealer, headers: seq<Header>, n: nat, ink: Ink): Slot {
    Slot(Some(Ams), Some(n + 1), AmsValue(s, headers, n + 1, ink))
  }

  function AarSlot(s: Sealer, headers: seq<Header>, n: nat): Slot {
    Slot(Some(Aar), Some(n + 1), AarValue(s, headers, n + 1, CvOf(n)))
  }

  function NewSlots(s: Sealer, headers: seq<Header>, n: nat, ink: Ink): seq<Slot> {
    [SealSlot(s, n, ink)] + ([AmsSlot(s, headers, n, ink)] + ([AarSlot(s, headers, n)] + ReadAll(headers)))
  }

  lemma AmsNamesClean(s: Sealer, headers: seq<Header>)
    requires CleanSealer(s)
    ensures CleanValue(Join(Present(headers, Wanted(s, headers), {}), ":"))
  {
    WantedClean(s, headers);
    PresentClean(headers, Wanted(s, headers), {});
    JoinedNames(Present(headers, Wanted(s, headers), {}));
  }

  lemma ReadsAs(name: string, v: string, k: Kind, i: int)
    requires KindOf(name) == Some(k) && Collapse(v) == v && Instance(v) == Some(i) && SignerInstance(v) == Some(i)
    ensures Read(Header(name, v)) == Slot(Some(k), Some(i), v) && (k != Seal ==> AgreeHeader(Header(name, v)))
  {
  }

  lemma SealAgrees(name: string, v: string, cv: string, i: int)
    requires KindOf(name) == Some(Seal) && Collapse(v) == v && Instance(v) == Some(i) && SignerInstance(v) == Some(i)
    requires TagOf(v, "cv") == cv && ArcTag(v, "cv") == cv && Lower(cv) == cv
    ensures AgreeHeader(Header(name, v))
  {
  }

  lemma LowerCv(n: nat)
    ensures Lower(CvOf(n)) == CvOf(n)
  {
    assert Lower("none") == "none" && Lower("pass") == "pass";
  }

  lemma NewSealReads(s: Sealer, n: nat, ink: Ink)
    requires CleanSealer(s) && CleanInk(ink)
    ensures
      var v := NewSealText(s, n, ink);
      && Collapse(v) == v && SignerInstance(v) == Some(n + 1) && Instance(v) == Some(n + 1)
      && TagOf(v, "cv") == CvOf(n) && ArcTag(v, "cv") == CvOf(n)
  {
    NewSeal(s, n + 1, CvOf(n), ink);
  }

  lemma SealReadsAs(name: string, v: string, cv: string, i: int)
    requires KindOf(name) == Some(Seal) && Collapse(v) == v && Instance(v) == Some(i) && SignerInstance(v) == Some(i)
    requires TagOf(v, "cv") == cv && ArcTag(v, "cv") == cv && Lower(cv) == cv
    ensures Read(Header(name, v)) == Slot(Some(Seal), Some(i), v) && AgreeHeader(Header(name, v))
  {
    ReadsAs(name, v, Seal, i);
    SealAgrees(name, v, cv, i);
  }

  lemma ReadNewSeal(s: Sealer, n: nat, ink: Ink, name: string)
    requires CleanSealer(s) && CleanInk(ink) && KindOf(name) == Some(Seal)
    ensures Read(Header(name, NewSealText(s, n, ink))) == SealSlot(s, n, ink)
    ensures AgreeHeader(Header(name, NewSealText(s, n, ink)))
  {
    NewSealReads(s, n, ink);
    LowerCv(n);
    SealReadsAs(name, NewSealText(s, n, ink), CvOf(n), n + 1);
  }

  lemma ReadNewAms(s: Sealer, headers: seq<Header>, n: nat, ink: Ink, name: string)
    requires CleanSealer(s) && CleanInk(ink) && KindOf(name) == Some(Ams)
    ensures
      var h := Header(name, AmsValue(s, headers, n + 1, ink));
      Read(h) == AmsSlot(s, headers, n, ink) && AgreeHeader(h)
  {
    AmsNamesClean(s, headers);
    NewAms(s, n + 1, ink, Present(headers, Wanted(s, headers), {}));
    ReadsAs(name, AmsValue(s, headers, n + 1, ink), Ams, n + 1);
  }

  lemma ReadNewAar(s: Sealer, headers: seq<Header>, n: nat, name: string)
    requires CleanSealer(s) && AarReads(s, headers, n) && KindOf(name) == Some(Aar)
    ensures
      var h := Header(name, AarValue(s, headers, n + 1, CvOf(n)));
      Read(h) == AarSlot(s, headers, n) && AgreeHeader(h)
  {
    NewAar(s, headers, n + 1, CvOf(n));
    ReadsAs(name, AarValue(s, headers, n + 1, CvOf(n)), Aar, n + 1);
  }

  lemma ReadCons(h: Header, headers: seq<Header>)
    ensures ReadAll([h] + headers) == [Read(h)] + ReadAll(headers)
  {
    assert ([h] + headers)[1..] == headers;
  }

  lemma AgreeCons(h: Header, headers: seq<Header>)
    requires AgreeHeader(h) && Agree(headers)
    ensures Agree([h] + headers)
  {
    var all := [h] + headers;
    forall j | 0 <= j < |all| ensures AgreeHeader(all[j]) { if j > 0 { assert all[j] == headers[j - 1]; } }
  }

  lemma ReadThree(a: Header, b: Header, c: Header, headers: seq<Header>)
    ensures ReadAll([a, b, c] + headers) == [Read(a)] + ([Read(b)] + ([Read(c)] + ReadAll(headers)))
  {
    ReadCons(c, headers);
    ReadCons(b, [c] + headers);
    ReadCons(a, [b] + ([c] + headers));
    assert [a, b, c] + headers == [a] + ([b] + ([c] + headers));
  }

  lemma AgreeThree(a: Header, b: Header, c: Header, headers: seq<Header>)
    requires AgreeHeader(a) && AgreeHeader(b) && AgreeHeader(c) && Agree(headers)
    ensures Agree([a, b, c] + headers)
  {
    AgreeCons(c, headers);
    AgreeCons(b, [c] + headers);
    AgreeCons(a, [b] + ([c] + headers));
    assert [a, b, c] + headers == [a] + ([b] + ([c] + headers));
  }

  lemma OutputSlots(s: Sealer, headers: seq<Header>, n: nat, ink: Ink)
    requires CleanSealer(s) && CleanInk(ink) && AarReads(s, headers, n) && Agree(headers)
    ensures ReadAll(Output(s, headers, n, ink)) == NewSlots(s, headers, n, ink)
    ensures Agree(Output(s, headers, n, ink))
  {
    var a, b := Header("ARC-Seal", NewSealText(s, n, ink)),
      Header("ARC-Message-Signature", AmsValue(s, headers, n + 1, ink));
    var c := Header("ARC-Authentication-Results", AarValue(s, headers, n + 1, CvOf(n)));
    KindsOfNames();
    ReadNewSeal(s, n, ink, a.name);
    ReadNewAms(s, headers, n, ink, b.name);
    ReadNewAar(s, headers, n, c.name);
    ReadThree(a, b, c, headers);
    AgreeThree(a, b, c, headers);
    assert NewHeaders(s, headers, n + 1, CvOf(n), ink) == [a, b, c];
  }

  // ----- The new seal covers what the verifier reads ---------------------------------------------------

  lemma CanonOwn(a: string, b: string, c: string)
    ensures Canon("ARC-Authentication-Results", a) == Canon(NameOf(Aar), a)
    ensures Canon("ARC-Message-Signature", b) == Canon(NameOf(Ams), b) && Canon("ARC-Seal", c) == Canon(NameOf(Seal), c)
  {
    LowerOfNames();
    CanonOfKind("ARC-Authentication-Results", Aar, a);
    CanonOfKind("ARC-Message-Signature", Ams, b);
    CanonOfKind("ARC-Seal", Seal, c);
  }

  lemma NewFinds(s: Sealer, headers: seq<Header>, n: nat, ink: Ink, k: Kind, i: int)
    ensures
      var slots := NewSlots(s, headers, n, ink);
      && (i <= n ==> Find(slots, k, i) == Find(ReadAll(headers), k, i))
      && Find(slots, Seal, n + 1) == Some(NewSealText(s, n, ink))
      && Find(slots, Ams, n + 1) == Some(AmsValue(s, headers, n + 1, ink))
      && Find(slots, Aar, n + 1) == Some(AarValue(s, headers, n + 1, CvOf(n)))
  {
    var a, b, c, rest := SealSlot(s, n, ink), AmsSlot(s, headers, n, ink), AarSlot(s, headers, n), ReadAll(headers);
    NextFind(a, b, c, rest, n, k, i);
    NextFind(a, b, c, rest, n, Seal, n + 1);
    NextFind(a, b, c, rest, n, Ams, n + 1);
    NextFind(a, b, c, rest, n, Aar, n + 1);
  }

  lemma SetTextOf(slots: seq<Slot>, i: int, a: string, m: string, v: string)
    requires Find(slots, Aar, i) == Some(a) && Find(slots, Ams, i) == Some(m) && Find(slots, Seal, i) == Some(v)
    ensures SetText(slots, i, true) ==
      Some(Canon(NameOf(Aar), a) + Canon(NameOf(Ams), m) + Canon(NameOf(Seal), StripB(v)))
  {
  }

  lemma OwnText(s: Sealer, headers: seq<Header>, n: nat, ink: Ink)
    requires CleanSealer(s) && CleanInk(ink)
    ensures SetText(NewSlots(s, headers, n, ink), n + 1, true) == Some(OwnSet(s, headers, n + 1, CvOf(n), ink))
  {
    var a, m, v := AarValue(s, headers, n + 1, CvOf(n)), AmsValue(s, headers, n + 1, ink), NewSealText(s, n, ink);
    NewFinds(s, headers, n, ink, Seal, 0);
    SetTextOf(NewSlots(s, headers, n, ink), n + 1, a, m, v);
    NewSealStripped(s, n + 1, CvOf(n), ink);
    CanonOwn(a, m, Render(SealTags(s, n + 1, CvOf(n), ink, "")));
  }

  lemma UnderNew(s: Sealer, headers: seq<Header>, n: nat, ink: Ink, upto: int, last: int)
    requires 0 <= upto <= n
    ensures SetsText(NewSlots(s, headers, n, ink), 1, upto, last) == SetsText(ReadAll(headers), 1, upto, last)
  {
    forall k, i | i <= upto ensures Find(NewSlots(s, headers, n, ink), k, i) == Find(ReadAll(headers), k, i) {
      NewFinds(s, headers, n, ink, k, i);
    }
    SetsTextUnder(ReadAll(headers), NewSlots(s, headers, n, ink), 1, upto, last);
  }

  lemma NewSetsText(s: Sealer, headers: seq<Header>, n: nat, ink: Ink)
    requires CleanSealer(s) && CleanInk(ink) && Complete(ReadAll(headers), n) && Agree(headers)
    ensures SetsText(NewSlots(s, headers, n, ink), 1, n + 1, n + 1) ==
      Some(ChainText(SignerReadAll(headers), n) + OwnSet(s, headers, n + 1, CvOf(n), ink))
  {
    ChainTextIsSets(headers, n);
    UnderNew(s, headers, n, ink, n, n + 1);
    OwnText(s, headers, n, ink);
    SetsTextStep(NewSlots(s, headers, n, ink), 1, n + 1, n + 1, ChainText(SignerReadAll(headers), n),
                 OwnSet(s, headers, n + 1, CvOf(n), ink));
  }

  lemma SealDataFrom(slots: seq<Slot>, m: int, v: string, text: string)
    requires m > 0 && Find(slots, Seal, m) == Some(v) && TagOf(v, "cv") != "fail"
    requires SetsText(slots, 1, m, m) == Some(text)
    ensures SealData(slots, m) == Some(DropEnd(text))
  {
  }

  lemma SealInputIs(s: Sealer, headers: seq<Header>, n: nat, ink: Ink)
    ensures SealInput(s, headers, n + 1, CvOf(n), ink) ==
      DropEnd(ChainText(SignerReadAll(headers), n) + OwnSet(s, headers, n + 1, CvOf(n), ink))
  {
    var own := OwnSet(s, headers, n + 1, CvOf(n), ink);
    assert "" + own == own;
  }

  lemma NewSealData(s: Sealer, headers: seq<Header>, n: nat, ink: Ink)
    requires CleanSealer(s) && CleanInk(ink) && Complete(ReadAll(headers), n) && Agree(headers)
    ensures SealData(NewSlots(s, headers, n, ink), n + 1) == Some(SealInput(s, headers, n + 1, CvOf(n), ink))
  {
    NewFinds(s, headers, n, ink, Seal, 0);
    NewSeal(s, n + 1, CvOf(n), ink);
    NewSetsText(s, headers, n, ink);
    SealDataFrom(NewSlots(s, headers, n, ink), n + 1, NewSealText(s, n, ink),
                 ChainText(SignerReadAll(headers), n) + OwnSet(s, headers, n + 1, CvOf(n), ink));
    SealInputIs(s, headers, n, ink);
  }

  // ----- One seal more ----------------------------------------------------------------------------------

  lemma ValidNewCv(n: nat)
    ensures ValidCv(Lower(CvOf(n)), n + 1) && Lower(CvOf(n)) != "fail"
  {
    LowerCv(n);
  }

  lemma SealOkFrom(w: World, slots: seq<Slot>, v: string, i: int, data: string)
    requires Instance(v) == Some(i) && KeyNamed(v) && ValidCv(Cv(v), i) && SealData(slots, i) == Some(data)
    requires Verifies(w, v, data)
    ensures SealOk(w, slots, v, i)
  {
  }

  lemma NewSealVerifies(w: World, s: Sealer, n: nat, ink: Ink, data: string)
    requires CleanSealer(s) && CleanInk(ink) && Attested(w, s, data, ink.sealText)
    ensures
      var v := NewSealText(s, n, ink);
      Instance(v) == Some(n + 1) && KeyNamed(v) && ValidCv(Cv(v), n + 1) && Cv(v) != "fail" && Verifies(w, v, data)
  {
    NewSeal(s, n + 1, CvOf(n), ink);
    NewSealKey(s, n + 1, CvOf(n), ink);
    ValidNewCv(n);
    VerifiesAttested(w, s, NewSealText(s, n, ink), data, ink.sealText);
  }

  lemma NewSealOk(w: World, s: Sealer, headers: seq<Header>, n: nat, ink: Ink)
    requires CleanSealer(s) && CleanInk(ink) && Complete(ReadAll(headers), n) && Agree(headers)
    requires Attested(w, s, SealInput(s, headers, n + 1, CvOf(n), ink), ink.sealText)
    ensures SealOk(w, NewSlots(s, headers, n, ink), NewSealText(s, n, ink), n + 1)
    ensures Cv(NewSealText(s, n, ink)) != "fail"
  {
    NewSealData(s, headers, n, ink);
    SealOkOver(w, s, NewSlots(s, headers, n, ink), n, ink, SealInput(s, headers, n + 1, CvOf(n), ink));
  }

  lemma SealOkOver(w: World, s: Sealer, slots: seq<Slot>, n: nat, ink: Ink, data: string)
    requires CleanSealer(s) && CleanInk(ink) && Attested(w, s, data, ink.sealText)
    requires SealData(slots, n + 1) == Some(data)
    ensures SealOk(w, slots, NewSealText(s, n, ink), n + 1) && Cv(NewSealText(s, n, ink)) != "fail"
  {
    NewSealVerifies(w, s, n, ink, data);
    SealOkFrom(w, slots, NewSealText(s, n, ink), n + 1, data);
  }

  lemma LowerFail(v: string)
    requires Cv(v) != "fail"
    ensures TagOf(v, "cv") != "fail"
  {
    LowerOfFail();
  }

  lemma LowerOfFail()
    ensures Lower("fail") == "fail"
  {
  }

  /** The text under a seal that is not on top stays the same when the slots it names do. */
  lemma SealDataKept(before: seq<Slot>, after: seq<Slot>, i: int)
    requires i >= 1 && Find(before, Seal, i).Some? && Cv(Find(before, Seal, i).value) != "fail"
    requires forall k, l :: l <= i ==> Find(after, k, l) == Find(before, k, l)
    ensures SealData(after, i) == SealData(before, i)
  {
    var v := Find(before, Seal, i).value;
    LowerFail(v);
    assert Find(after, Seal, i) == Some(v);
    SetsTextUnder(before, after, 1, i, i);
  }

  /** An accepted set below the top is accepted again, whatever is put above, if the slots it names are the same. */
  lemma SetOkKept(w: World, headers: seq<Header>, out: seq<Header>, body: string, i: int, n: int, m: int)
    requires SetOk(w, headers, body, i, n) && 1 <= i && i != m
    requires forall k, l :: l <= i ==> Find(ReadAll(out), k, l) == Find(ReadAll(headers), k, l)
    ensures SetOk(w, out, body, i, m)
  {
    var before, after := ReadAll(headers), ReadAll(out);
    assert Find(after, Ams, i) == Find(before, Ams, i) && Find(after, Seal, i) == Find(before, Seal, i);
    assert Find(after, Aar, i) == Find(before, Aar, i);
    SealDataKept(before, after, i);
  }

  lemma NewSetOk(w: World, s: Sealer, headers: seq<Header>, body: string, n: nat, ink: Ink)
    requires CleanSealer(s) && CleanInk(ink) && AarReads(s, headers, n) && Complete(ReadAll(headers), n)
    requires Agree(headers)
    requires Present(headers, Wanted(s, headers), {}) != []
    requires Digest(DT.SignerBody(body), "", ink.bodyHash) in w.digests
    requires Attested(w, s, AmsInput(s, headers, n + 1, ink), ink.amsText)
    requires Attested(w, s, SealInput(s, headers, n + 1, CvOf(n), ink), ink.sealText)
    ensures SetOk(w, Output(s, headers, n, ink), body, n + 1, n + 1)
  {
    OutputSlots(s, headers, n, ink);
    NewFinds(s, headers, n, ink, Seal, 0);
    NewAmsInOutput(w, s, headers, body, n, ink);
    NewSealOk(w, s, headers, n, ink);
    SetOkFrom(w, Output(s, headers, n, ink), body, n + 1, AmsValue(s, headers, n + 1, ink), NewSealText(s, n, ink));
  }

  lemma NewAmsInOutput(w: World, s: Sealer, headers: seq<Header>, body: string, n: nat, ink: Ink)
    requires CleanSealer(s) && CleanInk(ink) && Present(headers, Wanted(s, headers), {}) != []
    requires Digest(DT.SignerBody(body), "", ink.bodyHash) in w.digests
    requires Attested(w, s, AmsInput(s, headers, n + 1, ink), ink.amsText)
    ensures AmsOk(w, Output(s, headers, n, ink), body, AmsValue(s, headers, n + 1, ink))
  {
    NewAmsOk(w, s, NewHeaders(s, headers, n + 1, CvOf(n), ink), headers, body, n + 1, ink);
  }

  lemma SetOkFrom(w: World, headers: seq<Header>, body: string, i: int, ams: string, seal: string)
    requires Find(ReadAll(headers), Ams, i) == Some(ams) && Find(ReadAll(headers), Seal, i) == Some(seal)
    requires Find(ReadAll(headers), Aar, i).Some? && Cv(seal) != "fail"
    requires AmsOk(w, headers, body, ams) && SealOk(w, ReadAll(headers), seal, i)
    ensures SetOk(w, headers, body, i, i)
  {
  }

  /** What the ledger must hold: the digest of the body and the two signatures. */
  ghost predicate Signed(w: World, s: Sealer, headers: seq<Header>, body: string, n: nat, ink: Ink) {
    && Digest(DT.SignerBody(body), "", ink.bodyHash) in w.digests
    && Attested(w, s, AmsInput(s, headers, n + 1, ink), ink.amsText)
    && Attested(w, s, SealInput(s, headers, n + 1, CvOf(n), ink), ink.sealText)
  }

  lemma ChainGrows(w: World, s: Sealer, headers: seq<Header>, body: string, n: nat, ink: Ink)
    requires n < 50 && CleanSealer(s) && CleanInk(ink) && AarReads(s, headers, n) && Agree(headers)
    requires Complete(ReadAll(headers), n) && (n > 0 ==> ChainOk(w, headers, body, n))
    requires Present(headers, Wanted(s, headers), {}) != [] && Signed(w, s, headers, body, n, ink)
    ensures ChainOk(w, Output(s, headers, n, ink), body, n + 1) && Complete(NewSlots(s, headers, n, ink), n + 1)
  {
    var out := Output(s, headers, n, ink);
    OutputSlots(s, headers, n, ink);
    NextComplete(SealSlot(s, n, ink), AmsSlot(s, headers, n, ink), AarSlot(s, headers, n), ReadAll(headers), n);
    var m := n + 1;
    forall i | 1 <= i <= m ensures SetOk(w, out, body, i, m) {
      if i == m {
        NewSetOk(w, s, headers, body, n, ink);
      } else {
        forall k, l | l <= i ensures Find(ReadAll(out), k, l) == Find(ReadAll(headers), k, l) {
          NewFinds(s, headers, n, ink, k, l);
        }
        SetOkKept(w, headers, out, body, i, n, m);
      }
    }
  }

  lemma CompletePasses(w: World, headers: seq<Header>, body: string, n: nat)
    requires 1 <= n <= 50 && Complete(ReadAll(headers), n) && ChainOk(w, headers, body, n)
    ensures EvalArc(w, headers, body) == Passed(n)
  {
    CompleteKinds(ReadAll(headers), n);
  }

  /**
   * A message whose chain of n sets the verifier accepts is sealed, and the result is accepted with n + 1 sets
   * exactly when the copied results let the new instance be read; the two sides then agree on it again. n may
   * be 0.
   */
  lemma SealingExtends(w: World, s: Sealer, headers: seq<Header>, body: string, n: nat, ink: Ink)
    requires n < 50 && CleanSealer(s) && CleanInk(ink) && Agree(headers)
    requires Accepted(w, headers, body, n) && Present(headers, Wanted(s, headers), {}) != []
    requires Signed(w, s, headers, body, n, ink)
    ensures SealMessage(s, headers, "pass", ink) == Sealed(Output(s, headers, n, ink))
    ensures Accepted(w, Output(s, headers, n, ink), body, n + 1) <==> CopiesRead(s, headers, n)
    ensures CopiesRead(s, headers, n) ==> Agree(Output(s, headers, n, ink))
  {
    SealerSeals(w, s, headers, body, n, ink);
    AcceptedIfCopiesRead(w, s, headers, body, n, ink);
    AcceptedOnlyIfCopiesRead(w, s, headers, body, n, ink);
    OutputAgrees(s, headers, n, ink);
  }

  lemma AcceptedIfCopiesRead(w: World, s: Sealer, headers: seq<Header>, body: string, n: nat, ink: Ink)
    requires n < 50 && CleanSealer(s) && CleanInk(ink) && Agree(headers) && Accepted(w, headers, body, n)
    requires Present(headers, Wanted(s, headers), {}) != [] && Signed(w, s, headers, body, n, ink)
    ensures CopiesRead(s, headers, n) ==> Accepted(w, Output(s, headers, n, ink), body, n + 1)
  {
    AcceptedComplete(w, headers, body, n);
    if CopiesRead(s, headers, n) { SealedIsAccepted(w, s, headers, body, n, ink); }
  }

  lemma AcceptedOnlyIfCopiesRead(w: World, s: Sealer, headers: seq<Header>, body: string, n: nat, ink: Ink)
    requires CleanSealer(s) && CleanInk(ink) && Accepted(w, headers, body, n)
    ensures Accepted(w, Output(s, headers, n, ink), body, n + 1) ==> CopiesRead(s, headers, n)
  {
    if !CopiesRead(s, headers, n) { StrayTagBreaksTheChain(w, s, headers, body, n, ink, n + 1); }
  }

  lemma OutputAgrees(s: Sealer, headers: seq<Header>, n: nat, ink: Ink)
    requires CleanSealer(s) && CleanInk(ink) && Agree(headers)
    ensures CopiesRead(s, headers, n) ==> Agree(Output(s, headers, n, ink))
  {
    ReadsIffCopiesRead(s, headers, n);
    if CopiesRead(s, headers, n) { OutputSlots(s, headers, n, ink); }
  }

  lemma SealedIsAccepted(w: World, s: Sealer, headers: seq<Header>, body: string, n: nat, ink: Ink)
    requires n < 50 && CleanSealer(s) && CleanInk(ink) && CopiesRead(s, headers, n) && Agree(headers)
    requires Complete(ReadAll(headers), n) && (n > 0 ==> ChainOk(w, headers, body, n))
    requires Present(headers, Wanted(s, headers), {}) != [] && Signed(w, s, headers, body, n, ink)
    ensures Accepted(w, Output(s, headers, n, ink), body, n + 1)
  {
    ReadsIffCopiesRead(s, headers, n);
    SealedChain(w, s, headers, body, n, ink);
    CompletePasses(w, Output(s, headers, n, ink), body, n + 1);
  }

  lemma SealedChain(w: World, s: Sealer, headers: seq<Header>, body: string, n: nat, ink: Ink)
    requires n < 50 && CleanSealer(s) && CleanInk(ink) && AarReads(s, headers, n) && Agree(headers)
    requires Complete(ReadAll(headers), n) && (n > 0 ==> ChainOk(w, headers, body, n))
    requires Present(headers, Wanted(s, headers), {}) != [] && Signed(w, s, headers, body, n, ink)
    ensures
      var out := Output(s, headers, n, ink);
      Complete(ReadAll(out), n + 1) && ChainOk(w, out, body, n + 1)
  {
    OutputSlots(s, headers, n, ink);
    ChainGrows(w, s, headers, body, n, ink);
  }

  lemma SealFrom(s: Sealer, headers: seq<Header>, n: nat, ink: Ink, slots: seq<Slot>)
    requires slots == SignerReadAll(headers) && headers != [] && AllUsable(slots) && MaxNumber(slots) == n
    requires (n > 0 ==> SignerCv(slots, n) != "fail") && Present(headers, Wanted(s, headers), {}) != []
    requires CvFor(slots, "pass") == CvOf(n)
    ensures SealMessage(s, headers, "pass", ink) == Sealed(Output(s, headers, n, ink))
  {
  }

  lemma SealerSeals(w: World, s: Sealer, headers: seq<Header>, body: string, n: nat, ink: Ink)
    requires n < 50 && Agree(headers) && Accepted(w, headers, body, n) && Present(headers, Wanted(s, headers), {}) != []
    ensures SealMessage(s, headers, "pass", ink) == Sealed(Output(s, headers, n, ink))
  {
    SealerSees(w, headers, body, n);
    NotEmpty(headers, Wanted(s, headers));
    SealFrom(s, headers, n, ink, SignerReadAll(headers));
  }

  /**
   * When another instance is read from the copied results, the sealed chain is
   * not accepted with any number of sets, whoever signed.
   */
  lemma StrayTagBreaksTheChain(w: World, s: Sealer, headers: seq<Header>, body: string, n: nat, ink: Ink, m: nat)
    requires CleanSealer(s) && CleanInk(ink) && Accepted(w, headers, body, n) && !CopiesRead(s, headers, n)
    ensures !Accepted(w, Output(s, headers, n, ink), body, m)
  {
    var out := Output(s, headers, n, ink);
    var a, b := Header("ARC-Seal", NewSealText(s, n, ink)),
      Header("ARC-Message-Signature", AmsValue(s, headers, n + 1, ink));
    var c := Header("ARC-Authentication-Results", AarValue(s, headers, n + 1, CvOf(n)));
    KindsOfNames();
    ReadsIffCopiesRead(s, headers, n);
    NewAar(s, headers, n + 1, CvOf(n));
    ReadThree(a, b, c, headers);
    AcceptedComplete(w, headers, body, n);
    assert out == [a, b, c] + headers;
    NoNext(Read(a), Read(b), Read(c), ReadAll(headers), n, m);
    if Accepted(w, out, body, m) {
      AcceptedComplete(w, out, body, m);
    }
  }

  /** Results this server wrote itself, holding one instance tag. */
  lemma CopiedTag(s: Sealer, x: string, name: string, headers: seq<Header>)
    requires CleanSealer(s) && CleanValue(x) && Lower(name) == "authentication-results"
    ensures Results([Header(name, Join([s.authserv, Show(Tag("i", x))], "; "))] + headers, s.authserv) ==
      [Show(Tag("i", x))]
    ensures HasKey(Show(Tag("i", x)), "i") && VerifierTag(Show(Tag("i", x))).value.value == x
  {
    var part := Show(Tag("i", x));
    var parts := [s.authserv, part];
    var v := Join(parts, "; ");
    var all := [Header(name, v)] + headers;
    CleanConstants();
    ShownIsPart(Tag("i", x));
    ReadShown(Tag("i", x));
    SpacelessIsTidy(s.authserv);
    OwnValue(s.authserv, part);
    TagMethod(x);
    assert all[0] == Header(name, v);
    KeptOne(part);
  }

  /** A well-formed value splits into its parts again. */
  lemma OwnValue(a: string, part: string)
    requires PartOk(a) && PartOk(part)
    ensures
      var v := Join([a, part], "; ");
      Collapse(TrimSpace(v)) == v && Split(v, ';') == [a, " " + part] && TrimSpace(a) == a
  {
    var parts := [a, part];
    var v := Join(parts, "; ");
    assert Parts(parts);
    PartsAreTidy(parts);
    TidyCollapses(v);
    ReadSpaced(v);
    ReadSpaced(a);
    SplitParts(parts);
    assert Cut(parts) == [a, " " + part];
  }

  lemma TagMethod(x: string)
    requires CleanValue(x)
    ensures Method(Show(Tag("i", x))) == "i"
  {
    var p := Show(Tag("i", x));
    assert p[0] == 'i' && p[1] == '=';
    assert IndexOf(p, '=') == 1;
    assert p[..1] == "i";
    ShownIsPart(Tag("i", x));
    SpacelessTrim("i");
  }

  lemma KeptOne(p: string)
    requires PartOk(p) && Method(p) != "arc"
    ensures Kept([" " + p]) == [p]
  {
    ReadSpaced(p);
    assert [" " + p][1..] == [];
  }

  lemma LowerOfResults()
    ensures Lower("Authentication-Results") == "authentication-results"
  {
  }

  lemma ResultsAreNoArc(h: Header)
    requires Lower(h.name) == "authentication-results"
    ensures KindOf(h.name).None?
  {
    LowerOfNames();
  }

  lemma {:induction false} NotEmpty(headers: seq<Header>, want: seq<string>)
    ensures headers == [] ==> Present(headers, want, {}) == []
    decreases |want|
  {
    if headers == [] && want != [] { NotEmpty(headers, want[1..]); }
  }

  // ----- Headers added on the way -------------------------------------------------------------------------

  /** Every name the latest message signature lists is there, so nothing put on top can be mistaken for it. */
  ghost predicate Covered(headers: seq<Header>, n: nat) {
    n > 0 ==>
      var ams := Find(ReadAll(headers), Ams, n);
      ams.Some? && var names := NamesIn(TagOf(ams.value, "h")); Present(headers, names, {}) == names
  }

  lemma SealedIsCovered(s: Sealer, headers: seq<Header>, n: nat, ink: Ink)
    requires CleanSealer(s) && CleanInk(ink) && AarReads(s, headers, n) && Agree(headers)
    requires Present(headers, Wanted(s, headers), {}) != []
    ensures Covered(Output(s, headers, n, ink), n + 1)
  {
    var want := Wanted(s, headers);
    var names := Present(headers, want, {});
    OutputSlots(s, headers, n, ink);
    NewFinds(s, headers, n, ink, Seal, 0);
    WantedClean(s, headers);
    PresentClean(headers, want, {});
    JoinedNames(names);
    NamesReadBack(names);
    NewAmsContent(s, n + 1, ink, names);
    SelectPresent(headers, want, {});
    SelectUnder(NewHeaders(s, headers, n + 1, CvOf(n), ink), headers, names, {}, "relaxed");
  }

  lemma OtherSlot(h: Header, headers: seq<Header>, n: nat)
    requires KindOf(h.name).None? && Complete(ReadAll(headers), n)
    ensures Complete(ReadAll([h] + headers), n)
    ensures forall k, i :: Find(ReadAll([h] + headers), k, i) == Find(ReadAll(headers), k, i)
  {
    ReadCons(h, headers);
    var slots := ReadAll(headers);
    forall k ensures Count([Read(h)] + slots, k) == n && Numbered([Read(h)] + slots, k) {
      assert Count(slots, k) == n && Numbered(slots, k);
      CountCons(Read(h), slots, k);
      NumberedOther(Read(h), slots, k);
    }
    forall k, i ensures Find([Read(h)] + slots, k, i) == Find(slots, k, i) { CountCons(Read(h), slots, k); }
  }

  lemma AmsOkUnder(w: World, h: Header, headers: seq<Header>, body: string, v: string)
    requires AmsOk(w, headers, body, v) && Present(headers, NamesIn(TagOf(v, "h")), {}) == NamesIn(TagOf(v, "h"))
    ensures AmsOk(w, [h] + headers, body, v)
  {
    SelectUnder([h], headers, NamesIn(TagOf(v, "h")), {}, Modes(TagOf(v, "c")).0);
  }

  lemma SetOkUnder(w: World, h: Header, headers: seq<Header>, body: string, i: int, n: nat)
    requires SetOk(w, headers, body, i, n) && 1 <= i <= n && Covered(headers, n)
    requires forall k, l :: Find(ReadAll([h] + headers), k, l) == Find(ReadAll(headers), k, l)
    ensures SetOk(w, [h] + headers, body, i, n)
  {
    var out := [h] + headers;
    SetOkKept(w, headers, out, body, i, n, n + 1);
    var ams := Find(ReadAll(headers), Ams, i);
    assert Find(ReadAll(out), Ams, i) == ams;
    if i == n { AmsOkUnder(w, h, headers, body, ams.value); }
  }

  /** A header that is not part of ARC, put on top, leaves a covered chain accepted. */
  lemma PrependingKeeps(w: World, h: Header, headers: seq<Header>, body: string, n: nat)
    requires Accepted(w, headers, body, n) && Agree(headers) && Covered(headers, n) && KindOf(h.name).None?
    ensures Accepted(w, [h] + headers, body, n) && Agree([h] + headers) && Covered([h] + headers, n)
  {
    var out := [h] + headers;
    AcceptedComplete(w, headers, body, n);
    OtherSlot(h, headers, n);
    AgreeCons(h, headers);
    CompleteKinds(ReadAll(out), n);
    if n > 0 {
      forall i | 1 <= i <= n ensures SetOk(w, out, body, i, n) { SetOkUnder(w, h, headers, body, i, n); }
      CoveredUnder(h, headers, n);
    }
  }

  lemma CoveredUnder(h: Header, headers: seq<Header>, n: nat)
    requires Covered(headers, n) && n > 0 && forall k, l ::
      Find(ReadAll([h] + headers), k, l) == Find(ReadAll(headers), k, l)
    ensures Covered([h] + headers, n)
  {
    var names := NamesIn(TagOf(Find(ReadAll(headers), Ams, n).value, "h"));
    assert Find(ReadAll([h] + headers), Ams, n) == Find(ReadAll(headers), Ams, n);
    SelectUnder([h], headers, names, {}, "relaxed");
  }

  // ----- A message on its way ---------------------------------------------------------------------------------

  /** A server seals the message, or any server on the way puts a header on top. */
  datatype Event = SealIt(s: Sealer, ink: Ink) | AddHeader(h: Header)

  function After(headers: seq<Header>, n: nat, e: Event): seq<Header> {
    match e
    case SealIt(s, ink) => Output(s, headers, n, ink)
    case AddHeader(h) => [h] + headers
  }

  function SealsAfter(n: nat, e: Event): nat { if e.SealIt? then n + 1 else n }

  ghost predicate Fair(w: World, headers: seq<Header>, body: string, n: nat, e: Event) {
    match e
    case SealIt(s, ink) =>
      n < 50 && CleanSealer(s) && CleanInk(ink) && CopiesRead(s, headers, n) &&
        Present(headers, Wanted(s, headers), {}) != [] &&
      Signed(w, s, headers, body, n, ink)
    case AddHeader(h) => KindOf(h.name).None?
  }

  ghost predicate FairRun(w: World, headers: seq<Header>, body: string, n: nat, es: seq<Event>)
    decreases |es|
  {
    es == [] || (Fair(w, headers, body, n, es[0]) &&
                 FairRun(w, After(headers, n, es[0]), body, SealsAfter(n, es[0]), es[1..]))
  }

  function AfterAll(headers: seq<Header>, n: nat, es: seq<Event>): (seq<Header>, nat)
    decreases |es|
  {
    if es == [] then (headers, n) else AfterAll(After(headers, n, es[0]), SealsAfter(n, es[0]), es[1..])
  }

  /** The message is accepted with n sets, both sides read it alike, and its latest signature is covered. */
  ghost predicate Good(w: World, headers: seq<Header>, body: string, n: nat) {
    Accepted(w, headers, body, n) && Agree(headers) && Covered(headers, n)
  }

  lemma SealKeepsGood(w: World, s: Sealer, headers: seq<Header>, body: string, n: nat, ink: Ink)
    requires Good(w, headers, body, n) && Fair(w, headers, body, n, SealIt(s, ink))
    ensures Good(w, Output(s, headers, n, ink), body, n + 1)
  {
    SealingExtends(w, s, headers, body, n, ink);
    ReadsIffCopiesRead(s, headers, n);
    SealedIsCovered(s, headers, n, ink);
  }

  lemma StepKeepsGood(w: World, headers: seq<Header>, body: string, n: nat, e: Event)
    requires Good(w, headers, body, n) && Fair(w, headers, body, n, e)
    ensures Good(w, After(headers, n, e), body, SealsAfter(n, e))
  {
    match e
    case SealIt(s, ink) => SealKeepsGood(w, s, headers, body, n, ink);
    case AddHeader(h) => PrependingKeeps(w, h, headers, body, n);
  }

  lemma {:induction false} RunKeepsGood(w: World, headers: seq<Header>, body: string, n: nat, es: seq<Event>)
    requires Good(w, headers, body, n) && FairRun(w, headers, body, n, es)
    ensures
      var (out, m) := AfterAll(headers, n, es);
      Good(w, out, body, m)
    decreases |es|
  {
    if es != [] {
      StepKeepsGood(w, headers, body, n, es[0]);
      RunKeepsGood(w, After(headers, n, es[0]), body, SealsAfter(n, es[0]), es[1..]);
    }
  }

  /** Every chain built only by this sealer verifies, with as many sets as there were seals. */
  lemma SealedChainsVerify(w: World, headers: seq<Header>, body: string, es: seq<Event>)
    requires (forall j :: 0 <= j < |headers| ==> KindOf(headers[j].name).None?) && FairRun(w, headers, body, 0, es)
    ensures
      var (out, m) := AfterAll(headers, 0, es);
      Accepted(w, out, body, m)
  {
    NoArc(headers, Seal);
    NoArc(headers, Ams);
    NoArc(headers, Aar);
    assert Good(w, headers, body, 0) by { NoArcAgrees(headers); }
    RunKeepsGood(w, headers, body, 0, es);
  }

  lemma NoArcAgrees(headers: seq<Header>)
    requires forall j :: 0 <= j < |headers| ==> KindOf(headers[j].name).None?
    ensures Agree(headers)
  {
  }

  lemma {:induction false} NoArc(headers: seq<Header>, k: Kind)
    requires forall j :: 0 <= j < |headers| ==> KindOf(headers[j].name).None?
    ensures Count(ReadAll(headers), k) == 0
    decreases |headers|
  {
    if headers != [] { NoArc(headers[1..], k); }
  }

  // ----- Inputs that break a chain ---------------------------------------------------------------------------

  /**
   * Inputs of both kinds: a message with n sets gets own results that carry a tag `i=x`. It is sealed, and the
   * sealed message is accepted if and only if x reads as n + 1; otherwise it is accepted with no number of sets.
   */
  lemma CopiedTagDecides(w: World, s: Sealer, x: string, rest: seq<Header>, body: string, n: nat, ink: Ink,
                         headers: seq<Header>)
    requires CleanSealer(s) && CleanInk(ink) && CleanValue(x) && n < 50 && Good(w, rest, body, n)
    requires headers == [OwnTagged(s, x)] + rest
    requires Present(headers, Wanted(s, headers), {}) != [] && Signed(w, s, headers, body, n, ink)
    ensures SealMessage(s, headers, "pass", ink) == Sealed(Output(s, headers, n, ink))
    ensures Accepted(w, Output(s, headers, n, ink), body, n + 1) <==> Atoi(x) == Some(n + 1)
    ensures Atoi(x) != Some(n + 1) ==> forall m: nat :: !Accepted(w, Output(s, headers, n, ink), body, m)
  {
    LowerOfResults();
    ResultsAreNoArc(OwnTagged(s, x));
    PrependingKeeps(w, OwnTagged(s, x), rest, body, n);
    CopiedTagReads(s, x, rest, n);
    SealingDecides(w, s, headers, body, n, ink, Atoi(x) == Some(n + 1));
  }

  lemma SealingDecides(w: World, s: Sealer, headers: seq<Header>, body: string, n: nat, ink: Ink, legible: bool)
    requires n < 50 && CleanSealer(s) && CleanInk(ink) && Agree(headers) && (CopiesRead(s, headers, n) <==> legible)
    requires Accepted(w, headers, body, n) && Present(headers, Wanted(s, headers), {}) != []
    requires Signed(w, s, headers, body, n, ink)
    ensures SealMessage(s, headers, "pass", ink) == Sealed(Output(s, headers, n, ink))
    ensures Accepted(w, Output(s, headers, n, ink), body, n + 1) <==> legible
    ensures !legible ==> forall m: nat :: !Accepted(w, Output(s, headers, n, ink), body, m)
  {
    SealingExtends(w, s, headers, body, n, ink);
    if !legible {
      forall m: nat ensures !Accepted(w, Output(s, headers, n, ink), body, m) {
        StrayTagBreaksTheChain(w, s, headers, body, n, ink, m);
      }
    }
  }

  /** Authentication results of this server with an instance tag among them. */
  function OwnTagged(s: Sealer, x: string): Header {
    Header("Authentication-Results", Join([s.authserv, Show(Tag("i", x))], "; "))
  }

  lemma CopiedTagReads(s: Sealer, x: string, rest: seq<Header>, n: nat)
    requires CleanSealer(s) && CleanValue(x)
    ensures CopiesRead(s, [OwnTagged(s, x)] + rest, n) <==> Atoi(x) == Some(n + 1)
  {
    LowerOfResults();
    CopiedTag(s, x, OwnTagged(s, x).name, rest);
    LastValueOne(Show(Tag("i", x)), "i");
  }

  /** The requirements can be met, for every x: a sealer that covers the field's name, and the ledger its key writes. */
  lemma CopiedTagExists(s: Sealer, x: string, body: string, ink: Ink, n: nat) returns (w: World, rest: seq<Header>)
    requires CleanSealer(s) && s.names == ["from"] && n == 0
    ensures
      var headers := [OwnTagged(s, x)] + rest;
      && Good(w, rest, body, n)
      && Present(headers, Wanted(s, headers), {}) != [] && Signed(w, s, headers, body, n, ink)
  {
    rest := [Header("from", "a@b")];
    var headers := [OwnTagged(s, x)] + rest;
    FromIsPresent(s, headers);
    w := World({Signature(Lower(s.domain), s.selector, s.algorithm, AmsInput(s, headers, n + 1, ink), ink.amsText),
                Signature(Lower(s.domain), s.selector, s.algorithm, SealInput(s, headers, n + 1, CvOf(n), ink),
                          ink.sealText)},
               {Digest(DT.SignerBody(body), "", ink.bodyHash)});
    NoArcIsGood(w, rest, body, n);
  }

  lemma NoArcIsGood(w: World, headers: seq<Header>, body: string, n: nat)
    requires n == 0 && forall j :: 0 <= j < |headers| ==> KindOf(headers[j].name).None?
    ensures Good(w, headers, body, n)
  {
    NoArc(headers, Seal);
    NoArc(headers, Ams);
    NoArc(headers, Aar);
    NoArcAgrees(headers);
  }

  lemma FromIsPresent(s: Sealer, headers: seq<Header>)
    requires s.names == ["from"] && |headers| == 2 && headers[1].name == "from"
    ensures KindOf("from").None? && Present(headers, Wanted(s, headers), {}) != []
  {
    assert Lower("from") == "from";
    assert Coverable(s.names) == ["from"] by { assert s.names[1..] == []; }
    var want := Wanted(s, headers);
    assert want[0] == "from";
    assert FromBottom(headers, 0) == headers[1];
    assert Pick(headers, {}, "from", 0) == Some(0);
  }
}
