/** The errors a delivery attempt can report, as the dispatcher tells them apart. */
module DeliveryErrors {
  import opened Common

  /**
   * An error chain: a shaping deferral with its delay, an unknown status after
   * DATA, the SMTP reply code if there was one, a cancelled context.
   */
  datatype DeliveryError = DeliveryError(deferral: Option<nat>, unknown: bool, code: Option<int>, cancelled: bool)

  predicate Permanent(e: DeliveryError) {
    e.code.Some? && 500 <= e.code.value <= 599
  }

  predicate Temporary(e: DeliveryError) {
    e.code.Some? && 400 <= e.code.value <= 499
  }

  function Plain(): DeliveryError { DeliveryError(None, false, None, false) }

  function Response(code: int): DeliveryError { DeliveryError(None, false, Some(code), false) }
}

/**
 * Multi-recipient LMTP delivery: one reply per RCPT, then one final reply for
 * each accepted recipient, in order (section 4.2 of RFC 2033).
 */
module Lmtp {
  import opened Common
  import opened DeliveryErrors

  /** An absent error is a nil error in the source: the recipient was delivered. */
  type Results = map<string, Option<DeliveryError>>

  datatype RcptStep = WriteFailed(err: DeliveryError) | Refused(err: DeliveryError) | Accepted

  datatype FinalReply = Reply(code: int) | ReadFailed(err: DeliveryError)

  /** What the peer and the network do during one transaction, position by position. */
  datatype Wire = Wire(
    early: Option<DeliveryError>,
    rcpt: seq<RcptStep>,
    data: Option<DeliveryError>,
    finals: seq<FinalReply>)

  /** Enough answers for a transaction with n recipients. */
  predicate Answers(wire: Wire, n: nat) {
    |wire.rcpt| == n <= |wire.finals|
  }

  function Names(recipients: seq<string>): set<string> {
    set r | r in recipients
  }

  /** The positions accepted by RCPT, in order. */
  function AcceptedPositions(rcpt: seq<RcptStep>): (ps: seq<nat>)
    ensures |ps| <= |rcpt| && forall k :: 0 <= k < |ps| ==> ps[k] < |rcpt|
  {
    if rcpt == [] then [] else
      var n := |rcpt| - 1;
      AcceptedPositions(rcpt[..n]) + (if rcpt[n].Accepted? then [n] else [])
  }

  /** How many of the first n RCPT commands were accepted: the index of position n among the final replies. */
  function AcceptedBefore(rcpt: seq<RcptStep>, n: nat): nat
    requires n <= |rcpt|
  {
    |AcceptedPositions(rcpt[..n])|
  }

  lemma {:induction false} PositionsAreExact(rcpt: seq<RcptStep>)
    ensures var ps := AcceptedPositions(rcpt);
      && |ps| <= |rcpt|
      && (forall k :: 0 <= k < |ps| ==> ps[k] < |rcpt| && rcpt[ps[k]].Accepted? && AcceptedBefore(rcpt, ps[k]) == k)
      && (forall i :: 0 <= i < |rcpt| && rcpt[i].Accepted? ==>
          AcceptedBefore(rcpt, i) < |ps| && ps[AcceptedBefore(rcpt, i)] == i)
  {
    if rcpt != [] {
      var n := |rcpt| - 1;
      var before := rcpt[..n];
      PositionsAreExact(before);
      forall i | 0 <= i <= n ensures before[..Min(i, n)] == rcpt[..i] {}
      var ps := AcceptedPositions(rcpt);
      forall k | 0 <= k < |ps| ensures ps[k] < |rcpt| && rcpt[ps[k]].Accepted? && AcceptedBefore(rcpt, ps[k]) == k {
        if k < |AcceptedPositions(before)| {
          assert before[..ps[k]] == rcpt[..ps[k]];
        }
      }
      forall i | 0 <= i < |rcpt| && rcpt[i].Accepted?
        ensures AcceptedBefore(rcpt, i) < |ps| && ps[AcceptedBefore(rcpt, i)] == i
      {
        if i < n { assert before[..i] == rcpt[..i]; }
      }
    }
  }

  predicate Is2xx(f: FinalReply) {
    f.Reply? && 200 <= f.code < 300
  }

  /** No final reply before the k-th failed to arrive, so the k-th is read. */
  ghost predicate Reached(wire: Wire, k: nat) {
    forall q :: 0 <= q < k && q < |wire.finals| ==> !wire.finals[q].ReadFailed?
  }

  /** Position i was accepted at RCPT, and the final reply that belongs to it was read and is 2xx. */
  ghost predicate Succeeds(wire: Wire, n: nat, i: nat)
    requires Answers(wire, n) && i < n
  {
    && Completes(wire, n)
    && wire.rcpt[i].Accepted?
    && var k := AcceptedBefore(wire.rcpt, i); k < |wire.finals| && Is2xx(wire.finals[k]) && Reached(wire, k)
  }

  /** The dialogue gets as far as the final replies. */
  ghost predicate Completes(wire: Wire, n: nat)
    requires Answers(wire, n)
  {
    wire.early.None? && wire.data.None? && forall j :: 0 <= j < n ==> !wire.rcpt[j].WriteFailed?
  }

  /** The final reply of position i is read. */
  ghost predicate IsRead(wire: Wire, i: nat)
    requires i < |wire.rcpt|
  {
    wire.rcpt[i].Accepted? && Reached(wire, AcceptedBefore(wire.rcpt, i))
  }

  /** A recipient got through when the last reply read for it is 2xx; it is named once as a rule. */
  ghost predicate GotThrough(wire: Wire, recipients: seq<string>, r: string)
    requires Answers(wire, |recipients|)
  {
    exists i :: 0 <= i < |recipients| && recipients[i] == r && Succeeds(wire, |recipients|, i) &&
      IsLast(wire, recipients, i)
  }

  ghost predicate IsLast(wire: Wire, recipients: seq<string>, i: nat)
    requires |wire.rcpt| == |recipients| && i < |recipients|
  {
    forall j :: i < j < |recipients| && recipients[j] == recipients[i] ==> !IsRead(wire, j)
  }

  /** With distinct recipients, getting through is having a successful position. */
  lemma DistinctGetThrough(wire: Wire, recipients: seq<string>, i: nat)
    requires Answers(wire, |recipients|) && i < |recipients| && NoDup(recipients)
    ensures GotThrough(wire, recipients, recipients[i]) <==> Succeeds(wire, |recipients|, i)
  {
    assert Succeeds(wire, |recipients|, i) ==> IsLast(wire, recipients, i);
  }

  /** A recipient named twice shares one entry: here the second reply hides that the first was a refusal. */
  lemma RepeatedRecipientSharesItsEntry(r: string)
    ensures
      var wire := Wire(None, [Accepted, Accepted], None, [Reply(550), Reply(250)]);
      GotThrough(wire, [r, r], r) && !Succeeds(wire, 2, 0)
  {
    var wire := Wire(None, [Accepted, Accepted], None, [Reply(550), Reply(250)]);
    assert wire.rcpt[..0] == [] && wire.rcpt[..1] == [Accepted] && [Accepted][..0] == [];
    assert AcceptedBefore(wire.rcpt, 0) == 0 && AcceptedBefore(wire.rcpt, 1) == 1;
    assert Succeeds(wire, 2, 1) && IsLast(wire, [r, r], 1);
    assert [r, r][1] == r;
  }

  /** setAll: every recipient without an entry gets this error. */
  method SetAll(results: Results, recipients: seq<string>, err: DeliveryError) returns (out: Results)
    ensures out.Keys == results.Keys + Names(recipients)
    ensures forall r :: r in out ==> out[r] == if r in results then results[r] else Some(err)
  {
    out := results;
    for i := 0 to |recipients|
      invariant out.Keys == results.Keys + Names(recipients[..i])
      invariant forall r :: r in out ==> out[r] == if r in results then results[r] else Some(err)
    {
      assert recipients[..i + 1] == recipients[..i] + [recipients[i]];
      if recipients[i] !in out {
        out := out[recipients[i] := Some(err)];
      }
    }
    assert recipients[..|recipients|] == recipients;
  }

  // ----- What each recipient is told --------------------------------------------

  /** The RCPT commands from i on that are written and answered. */
  function Sent(rcpt: seq<RcptStep>, i: nat): (k: nat)
    requires i <= |rcpt|
    ensures i <= k <= |rcpt| && (k < |rcpt| ==> rcpt[k].WriteFailed?) && forall j :: i <= j < k ==>
      !rcpt[j].WriteFailed?
    decreases |rcpt| - i
  {
    if i == |rcpt| || rcpt[i].WriteFailed? then i else Sent(rcpt, i + 1)
  }

  /** The latest refusal of r among the first n RCPT replies. */
  function LatestRefusal(rcpt: seq<RcptStep>, recipients: seq<string>, r: string, n: nat): Option<DeliveryError>
    requires n <= |rcpt| == |recipients|
  {
    if n == 0 then None
    else if recipients[n - 1] == r && rcpt[n - 1].Refused? then Some(rcpt[n - 1].err)
    else LatestRefusal(rcpt, recipients, r, n - 1)
  }

  /** The final replies read for n accepted recipients, from the k-th on: up to the first that does not arrive. */
  function ReadTo(finals: seq<FinalReply>, n: nat, k: nat): nat
    requires k <= n <= |finals|
    decreases n - k
  {
    if k == n then n else if finals[k].ReadFailed? then k + 1 else ReadTo(finals, n, k + 1)
  }

  /** The latest of the first k final replies that belongs to r. */
  function LatestReply(wire: Wire, recipients: seq<string>, accepted: seq<nat>, r: string, k: nat): Option<FinalReply>
    requires k <= |accepted| <= |wire.finals|
    requires forall j :: 0 <= j < |accepted| ==> accepted[j] < |recipients|
  {
    if k == 0 then None
    else if recipients[accepted[k - 1]] == r then Some(wire.finals[k - 1])
    else LatestReply(wire, recipients, accepted, r, k - 1)
  }

  function ReplyError(f: FinalReply): Option<DeliveryError> {
    match f
    case ReadFailed(err) => Some(err)
    case Reply(code) => if 200 <= code < 300 then None else Some(Response(code))
  }

  function Or(a: Option<DeliveryError>, b: DeliveryError): Option<DeliveryError> { if a.Some? then a else Some(b) }

  /** What one transaction tells r: its final reply if one was read, else its refusal, else what ended the dialogue. */
  function AnswerFor(wire: Wire, recipients: seq<string>, r: string): Option<DeliveryError>
    requires Answers(wire, |recipients|)
  {
    if wire.early.Some? then wire.early
    else
      var sent := Sent(wire.rcpt, 0);
      var refusal := LatestRefusal(wire.rcpt, recipients, r, sent);
      if sent < |recipients| then Or(refusal, wire.rcpt[sent].err)
      else if wire.data.Some? then Or(refusal, wire.data.value)
      else
        var accepted := AcceptedPositions(wire.rcpt);
        ReadToBound(wire.finals, |accepted|, 0);
        var reply := LatestReply(wire, recipients, accepted, r, ReadTo(wire.finals, |accepted|, 0));
        if reply.Some? then ReplyError(reply.value) else Or(refusal, Plain())
  }

  /** The replies read: all before the last of them arrived, and it is the last or did not arrive. */
  lemma {:induction false} ReadToBound(finals: seq<FinalReply>, n: nat, k: nat)
    requires k <= n <= |finals|
    ensures
      var m := ReadTo(finals, n, k);
      && k <= m <= n && (forall q :: k <= q < m - 1 ==> !finals[q].ReadFailed?)
      && (m == n || (m > k && finals[m - 1].ReadFailed?))
    decreases n - k
  {
    if k < n && !finals[k].ReadFailed? { ReadToBound(finals, n, k + 1); }
  }

  lemma {:induction false} RefusalMeaning(rcpt: seq<RcptStep>, recipients: seq<string>, r: string, n: nat)
    requires n <= |rcpt| == |recipients|
    ensures LatestRefusal(rcpt, recipients, r, n).Some? <==>
      exists i :: 0 <= i < n && recipients[i] == r && rcpt[i].Refused?
  {
    if n > 0 { RefusalMeaning(rcpt, recipients, r, n - 1); }
  }

  // ----- The dialogue ------------------------------------------------------------

  /** Every recipient has an entry, and it is the answer meant for it. */
  ghost predicate AnswersAll(wire: Wire, recipients: seq<string>, results: Results)
    requires Answers(wire, |recipients|)
  {
    results.Keys == Names(recipients) && forall r :: r in results ==> results[r] == AnswerFor(wire, recipients, r)
  }

  /** The entries so far are the latest refusals. */
  ghost predicate HoldsRefusals(wire: Wire, recipients: seq<string>, results: Results, n: nat)
    requires n <= |wire.rcpt| == |recipients|
  {
    && results.Keys <= Names(recipients)
    && (forall r: string :: r in results <==> LatestRefusal(wire.rcpt, recipients, r, n).Some?)
    && (forall r: string :: r in results ==> results[r] == LatestRefusal(wire.rcpt, recipients, r, n))
  }

  method DeliverLmtp(wire: Wire, recipients: seq<string>) returns (results: Results)
    requires Answers(wire, |recipients|)
    ensures AnswersAll(wire, recipients, results)
  {
    results := map[];
    if wire.early.Some? {
      results := SetAll(results, recipients, wire.early.value);
      return;
    }
    var accepted, broken;
    results, accepted, broken := SendRecipients(wire, recipients);
    if broken.Some? {
      results := SetAll(results, recipients, broken.value);
      return;
    }
    if accepted == [] {
      AllRefused(wire, recipients, results);
      return;
    }
    if wire.data.Some? {
      results := SetAll(results, recipients, wire.data.value);
      return;
    }
    results := ReadFinals(wire, recipients, results, accepted);
  }

  /**
   * The RCPT commands: errors for the refused recipients, the accepted
   * positions, or the write error that ended the dialogue.
   */
  method SendRecipients(wire: Wire, recipients: seq<string>)
    returns (results: Results, accepted: seq<nat>, broken: Option<DeliveryError>)
    requires Answers(wire, |recipients|)
    ensures HoldsRefusals(wire, recipients, results, Sent(wire.rcpt, 0))
    ensures broken == var sent := Sent(wire.rcpt, 0); if sent < |recipients| then Some(wire.rcpt[sent].err) else None
    ensures broken.None? ==> accepted == AcceptedPositions(wire.rcpt)
  {
    results, accepted, broken := map[], [], None;
    for i := 0 to |recipients|
      invariant HoldsRefusals(wire, recipients, results, i)
      invariant accepted == AcceptedPositions(wire.rcpt[..i]) && Sent(wire.rcpt, 0) == Sent(wire.rcpt, i)
    {
      assert wire.rcpt[..i + 1][..i] == wire.rcpt[..i];
      match wire.rcpt[i]
      case WriteFailed(err) =>
        return results, accepted, Some(err);
      case Refused(err) =>
        results := results[recipients[i] := Some(err)];
      case Accepted =>
        accepted := accepted + [i];
    }
    assert wire.rcpt[..|recipients|] == wire.rcpt;
  }

  lemma AllRefused(wire: Wire, recipients: seq<string>, results: Results)
    requires Answers(wire, |recipients|) && wire.early.None? && Sent(wire.rcpt, 0) == |recipients|
    requires AcceptedPositions(wire.rcpt) == [] && HoldsRefusals(wire, recipients, results, |recipients|)
    ensures AnswersAll(wire, recipients, results)
  {
    PositionsAreExact(wire.rcpt);
    forall r | r in Names(recipients) ensures r in results && results[r] == AnswerFor(wire, recipients, r) {
      var i :| 0 <= i < |recipients| && recipients[i] == r;
      RefusalMeaning(wire.rcpt, recipients, r, |recipients|);
    }
  }

  /** The first k final replies are in the map, beside the refusals. */
  ghost predicate FinalsRead(wire: Wire, recipients: seq<string>, accepted: seq<nat>, refused: Results,
                             results: Results, k: nat)
    requires Answers(wire, |recipients|) && k <= |accepted| <= |wire.finals|
    requires forall j :: 0 <= j < |accepted| ==> accepted[j] < |recipients|
  {
    && results.Keys <= Names(recipients)
    && (forall r: string :: r in results <==> r in refused || LatestReply(wire, recipients, accepted, r, k).Some?)
    && (forall r: string :: r in results ==>
          var reply := LatestReply(wire, recipients, accepted, r, k);
          if reply.Some? then results[r] == ReplyError(reply.value) else r in refused && results[r] == refused[r])
  }

  lemma OneMoreRead(wire: Wire, recipients: seq<string>, accepted: seq<nat>, refused: Results, results: Results, k: nat)
    requires Answers(wire, |recipients|) && k < |accepted| <= |wire.finals|
    requires forall j :: 0 <= j < |accepted| ==> accepted[j] < |recipients|
    requires FinalsRead(wire, recipients, accepted, refused, results, k)
    ensures FinalsRead(wire, recipients, accepted, refused,
                       results[recipients[accepted[k]] := ReplyError(wire.finals[k])], k + 1)
  {
  }

  method ReadFinals(wire: Wire, recipients: seq<string>, refused: Results, accepted: seq<nat>)
    returns (results: Results)
    requires Answers(wire, |recipients|) && wire.early.None? && wire.data.None? && Sent(wire.rcpt, 0) == |recipients|
    requires accepted == AcceptedPositions(wire.rcpt) && HoldsRefusals(wire, recipients, refused, |recipients|)
    ensures AnswersAll(wire, recipients, results)
  {
    results := refused;
    for k := 0 to |accepted|
      invariant FinalsRead(wire, recipients, accepted, refused, results, k)
      invariant ReadTo(wire.finals, |accepted|, 0) == ReadTo(wire.finals, |accepted|, k)
    {
      OneMoreRead(wire, recipients, accepted, refused, results, k);
      match wire.finals[k]
      case ReadFailed(err) =>
        results := FailRest(wire, recipients, accepted, k + 1, refused, results[recipients[accepted[k]] := Some(err)]);
        return;
      case Reply(code) =>
        results := results[recipients[accepted[k]] := if code < 200 || code >= 300 then Some(Response(code)) else None];
    }
    AllRead(wire, recipients, refused, results);
  }

  /** A final reply that cannot be read fails every accepted recipient still without an answer. */
  method FailRest(wire: Wire, recipients: seq<string>, accepted: seq<nat>, m: nat, ghost refused: Results,
                  failed: Results)
    returns (results: Results)
    requires Answers(wire, |recipients|) && wire.early.None? && wire.data.None? && Sent(wire.rcpt, 0) == |recipients|
    requires accepted == AcceptedPositions(wire.rcpt) && HoldsRefusals(wire, recipients, refused, |recipients|)
    requires m <= |accepted| && m == ReadTo(wire.finals, |accepted|, 0)
    requires FinalsRead(wire, recipients, accepted, refused, failed, m)
    ensures AnswersAll(wire, recipients, results)
  {
    var rest := seq(|accepted|, i requires 0 <= i < |accepted| => recipients[accepted[i]]);
    results := SetAll(failed, rest, Plain());
    forall r | r in Names(recipients) ensures r in results {
      AcceptedOrRefused(wire, recipients, r);
      if r !in refused {
        var k :| 0 <= k < |accepted| && recipients[accepted[k]] == r;
        assert rest[k] == r;
      }
    }
    assert Names(rest) <= Names(recipients);
  }

  /** When every reply was read, nobody is left without an entry. */
  lemma AllRead(wire: Wire, recipients: seq<string>, refused: Results, results: Results)
    requires Answers(wire, |recipients|) && wire.early.None? && wire.data.None? && Sent(wire.rcpt, 0) == |recipients|
    requires HoldsRefusals(wire, recipients, refused, |recipients|)
    requires
      var accepted := AcceptedPositions(wire.rcpt);
      ReadTo(wire.finals, |accepted|, 0) == |accepted| &&
        FinalsRead(wire, recipients, accepted, refused, results, |accepted|)
    ensures AnswersAll(wire, recipients, results)
  {
    var accepted := AcceptedPositions(wire.rcpt);
    forall r | r in Names(recipients) ensures r in results {
      AcceptedOrRefused(wire, recipients, r);
      LatestMeaning(wire, recipients, accepted, r, |accepted|);
    }
  }

  lemma AcceptedOrRefused(wire: Wire, recipients: seq<string>, r: string)
    requires Answers(wire, |recipients|) && Sent(wire.rcpt, 0) == |recipients| && r in recipients
    ensures
      var accepted := AcceptedPositions(wire.rcpt);
      LatestRefusal(wire.rcpt, recipients, r, |recipients|).Some? || exists k ::
        0 <= k < |accepted| && recipients[accepted[k]] == r
  {
    PositionsAreExact(wire.rcpt);
    RefusalMeaning(wire.rcpt, recipients, r, |recipients|);
    var i :| 0 <= i < |recipients| && recipients[i] == r;
    if wire.rcpt[i].Accepted? { assert AcceptedPositions(wire.rcpt)[AcceptedBefore(wire.rcpt, i)] == i; }
  }

  // ----- A nil answer is a delivery --------------------------------------------------

  /** The reply that settles r: the latest of the first k that belong to it. */
  ghost predicate Settles(recipients: seq<string>, accepted: seq<nat>, r: string, k: nat, q: nat)
    requires k <= |accepted| && forall j :: 0 <= j < |accepted| ==> accepted[j] < |recipients|
  {
    q < k && recipients[accepted[q]] == r && forall e :: q < e < k ==> recipients[accepted[e]] != r
  }

  lemma {:induction false} LatestMeaning(wire: Wire, recipients: seq<string>, accepted: seq<nat>, r: string, k: nat)
    requires k <= |accepted| <= |wire.finals|
    requires forall j :: 0 <= j < |accepted| ==> accepted[j] < |recipients|
    ensures forall q: nat :: Settles(recipients, accepted, r, k, q) ==>
      LatestReply(wire, recipients, accepted, r, k) == Some(wire.finals[q])
    ensures LatestReply(wire, recipients, accepted, r, k).Some? ==>
      exists q: nat :: Settles(recipients, accepted, r, k, q)
    ensures (exists q :: 0 <= q < k && recipients[accepted[q]] == r) ==>
      LatestReply(wire, recipients, accepted, r, k).Some?
  {
    if k > 0 {
      LatestMeaning(wire, recipients, accepted, r, k - 1);
      if recipients[accepted[k - 1]] == r {
        assert Settles(recipients, accepted, r, k, k - 1);
      } else {
        forall q: nat ensures Settles(recipients, accepted, r, k, q) <==> Settles(recipients, accepted, r, k - 1, q) {}
        if LatestReply(wire, recipients, accepted, r, k).Some? {
          var q: nat :| Settles(recipients, accepted, r, k - 1, q);
          assert Settles(recipients, accepted, r, k, q);
        }
      }
    }
  }

  lemma {:induction false} LaterCountsMore(rcpt: seq<RcptStep>, i: nat, j: nat)
    requires i < j <= |rcpt|
    ensures AcceptedBefore(rcpt, j) >= AcceptedBefore(rcpt, i) + if rcpt[i].Accepted? then 1 else 0
    decreases j
  {
    assert rcpt[..j][..j - 1] == rcpt[..j - 1];
    if i < j - 1 { LaterCountsMore(rcpt, i, j - 1); }
  }

  /** Of the accepted positions, those read are those among the first m final replies. */
  lemma ReadIsEarly(wire: Wire, recipients: seq<string>, i: nat)
    requires Answers(wire, |recipients|) && i < |recipients| && wire.rcpt[i].Accepted?
    ensures
      var accepted, k := AcceptedPositions(wire.rcpt), AcceptedBefore(wire.rcpt, i);
      k < |accepted| && accepted[k] == i && (IsRead(wire, i) <==> k < ReadTo(wire.finals, |accepted|, 0))
  {
    PositionsAreExact(wire.rcpt);
    ReadToBound(wire.finals, |AcceptedPositions(wire.rcpt)|, 0);
  }

  lemma SettlesIsLast(wire: Wire, recipients: seq<string>, r: string, m: nat, q: nat)
    requires Answers(wire, |recipients|)
    requires
      var accepted := AcceptedPositions(wire.rcpt);
      m == ReadTo(wire.finals, |accepted|, 0) && q < m <= |accepted| && recipients[accepted[q]] == r
    ensures
      var accepted := AcceptedPositions(wire.rcpt);
      Settles(recipients, accepted, r, m, q) <==> IsLast(wire, recipients, accepted[q])
  {
    PositionsAreExact(wire.rcpt);
    var accepted := AcceptedPositions(wire.rcpt);
    var i := accepted[q];
    if Settles(recipients, accepted, r, m, q) {
      forall j | i < j < |recipients| && recipients[j] == r ensures !IsRead(wire, j) {
        if wire.rcpt[j].Accepted? {
          ReadIsEarly(wire, recipients, j);
          LaterCountsMore(wire.rcpt, i, j);
        }
      }
    }
    if IsLast(wire, recipients, i) {
      forall e | q < e < m ensures recipients[accepted[e]] != r {
        var j := accepted[e];
        ReadIsEarly(wire, recipients, j);
        if j < i { LaterCountsMore(wire.rcpt, j, i); }
      }
    }
  }

  /** The answer for a recipient is nil exactly when it got through. */
  lemma NilIffGotThrough(wire: Wire, recipients: seq<string>, r: string)
    requires Answers(wire, |recipients|) && r in recipients
    ensures AnswerFor(wire, recipients, r).None? <==> GotThrough(wire, recipients, r)
  {
    if Completes(wire, |recipients|) {
      assert Sent(wire.rcpt, 0) == |recipients|;
      ReplyDecides(wire, recipients, r);
    } else {
      assert !GotThrough(wire, recipients, r);
    }
  }

  lemma ReplyDecides(wire: Wire, recipients: seq<string>, r: string)
    requires Answers(wire, |recipients|) && Completes(wire, |recipients|) && Sent(wire.rcpt, 0) == |recipients|
    ensures AnswerFor(wire, recipients, r).None? <==> GotThrough(wire, recipients, r)
  {
    var accepted := AcceptedPositions(wire.rcpt);
    var m := ReadTo(wire.finals, |accepted|, 0);
    ReadToBound(wire.finals, |accepted|, 0);
    var reply := LatestReply(wire, recipients, accepted, r, m);
    assert AnswerFor(wire, recipients, r).None? <==> reply.Some? && Is2xx(reply.value);
    if reply.Some? && Is2xx(reply.value) {
      LatestMeaning(wire, recipients, accepted, r, m);
      var q: nat :| Settles(recipients, accepted, r, m, q);
      GoodReplyGetsThrough(wire, recipients, r, m, q);
    }
    if GotThrough(wire, recipients, r) { ThroughHasGoodReply(wire, recipients, r, m); }
  }

  lemma GoodReplyGetsThrough(wire: Wire, recipients: seq<string>, r: string, m: nat, q: nat)
    requires Answers(wire, |recipients|) && Completes(wire, |recipients|)
    requires
      var accepted := AcceptedPositions(wire.rcpt);
      && m == ReadTo(wire.finals, |accepted|, 0) && m <= |accepted| && Settles(recipients, accepted, r, m, q)
      && Is2xx(wire.finals[q])
    ensures GotThrough(wire, recipients, r)
  {
    var i := AcceptedPositions(wire.rcpt)[q];
    PositionsAreExact(wire.rcpt);
    ReadIsEarly(wire, recipients, i);
    SettlesIsLast(wire, recipients, r, m, q);
    assert Succeeds(wire, |recipients|, i);
  }

  lemma ThroughHasGoodReply(wire: Wire, recipients: seq<string>, r: string, m: nat)
    requires Answers(wire, |recipients|) && GotThrough(wire, recipients, r)
    requires m == ReadTo(wire.finals, |AcceptedPositions(wire.rcpt)|, 0) && m <= |AcceptedPositions(wire.rcpt)|
    ensures
      var reply := LatestReply(wire, recipients, AcceptedPositions(wire.rcpt), r, m);
      reply.Some? && Is2xx(reply.value)
  {
    var i :| 0 <= i < |recipients| && recipients[i] == r && Succeeds(wire, |recipients|, i) &&
      IsLast(wire, recipients, i);
    ReadIsEarly(wire, recipients, i);
    var q := AcceptedBefore(wire.rcpt, i);
    SettlesIsLast(wire, recipients, r, m, q);
    LatestMeaning(wire, recipients, AcceptedPositions(wire.rcpt), r, m);
  }

  // ----- Batches -----------------------------------------------------------

  /** Routing as the client sees it: a parseable domain, and the LMTP route name if the domain has one. */
  datatype Routing = Routing(hasDomain: string -> bool, key: string -> Option<string>)

  /** Conditions of one DeliverBatch call outside the LMTP dialogue. */
  datatype BatchEnv = BatchEnv(requireTls: bool, initError: Option<DeliveryError>, ctxError: Option<DeliveryError>,
                               single: string -> Option<DeliveryError>)

  predicate SameRoute(routing: Routing, recipients: seq<string>) {
    forall i :: 0 <= i < |recipients| ==>
      routing.hasDomain(recipients[i]) && routing.key(recipients[i]).Some? &&
        routing.key(recipients[i]) == routing.key(recipients[0])
  }

  /** The early exits that give every recipient an answer without looking at routes. */
  predicate Preempted(env: BatchEnv) {
    env.requireTls || env.initError.Some? || env.ctxError.Some?
  }

  /** What a batch on one route tells r. */
  function BatchAnswer(env: BatchEnv, wire: Wire, recipients: seq<string>, r: string): Option<DeliveryError>
    requires Answers(wire, |recipients|)
  {
    if env.requireTls then Some(Response(550))
    else if env.initError.Some? then env.initError
    else if env.ctxError.Some? then env.ctxError
    else AnswerFor(wire, recipients, r)
  }

  /**
   * DeliverBatch answers every recipient exactly when it exits early, the first
   * recipient has no LMTP route of its own, or all recipients share one route.
   * In every other case some recipient has no entry, which the caller would
   * read as a nil error.
   */
  method DeliverBatch(routing: Routing, env: BatchEnv, wire: Wire, recipients: seq<string>) returns (results: Results)
    requires Answers(wire, |recipients|)
    requires forall r: string :: routing.key(r).Some? ==> routing.hasDomain(r)
    ensures results.Keys <= Names(recipients)
    ensures results.Keys == Names(recipients) <==>
      recipients == [] || Preempted(env) || SameRoute(routing, recipients) ||
      (routing.hasDomain(recipients[0]) && routing.key(recipients[0]).None?) ||
      (!routing.hasDomain(recipients[0]) && Names(recipients) == {recipients[0]})
    ensures Preempted(env) || SameRoute(routing, recipients) ==>
      forall r :: r in results ==> results[r] == BatchAnswer(env, wire, recipients, r)
  {
    results := map[];
    if recipients == [] {
      return;
    }
    if env.requireTls {
      results := SetAll(results, recipients, Response(550));
      return;
    }
    if env.initError.Some? {
      results := SetAll(results, recipients, env.initError.value);
      return;
    }
    if env.ctxError.Some? {
      results := SetAll(results, recipients, env.ctxError.value);
      return;
    }
    assert recipients[0] in Names(recipients);
    if !routing.hasDomain(recipients[0]) {
      results := map[recipients[0] := Some(Plain())];
      return;
    }
    var route := routing.key(recipients[0]);
    if route.None? {
      for i := 0 to |recipients|
        invariant results.Keys == Names(recipients[..i])
      {
        assert recipients[..i + 1] == recipients[..i] + [recipients[i]];
        results := results[recipients[i] := env.single(recipients[i])];
      }
      assert recipients[..|recipients|] == recipients;
      return;
    }
    for i := 1 to |recipients|
      invariant results == map[]
      invariant forall j :: 0 <= j < i ==> routing.key(recipients[j]) == route
    {
      var key := routing.key(recipients[i]);
      if key.None? || key != route {
        results := map[recipients[i] := Some(Plain())];
        assert recipients[0] !in results;
        return;
      }
    }
    results := DeliverLmtp(wire, recipients);
  }
}
