/**
 * The SMTP server's session: greeting, envelope, authentication, STARTTLS and
 * DATA as a state machine over commands. Parsing results, rate limits, policy
 * hooks, credential checks and message reading are arbitrary inputs.
 */
module SmtpSession {
  import opened Common
  import Text

  // ----- Recipient policy ----------------------------------------------------------

  datatype Network = Network(low: int, high: int)

  datatype Policy = Policy(domains: set<string>, recipients: set<string>, trusted: seq<Network>)

  datatype Verdict = Permit | RelayDenied | UnknownRecipient

  function DomainOf(addr: string): Option<string> {
    var parts := Text.Split(addr, '@');
    if |parts| != 2 || parts[1] == "" then None else Some(Text.Lower(parts[1]))
  }

  predicate Trusts(p: Policy, peer: Option<int>) {
    peer.Some? && exists i :: 0 <= i < |p.trusted| && p.trusted[i].low <= peer.value <= p.trusted[i].high
  }

  predicate LocalDomain(p: Policy, addr: string) {
    DomainOf(addr).Some? && DomainOf(addr).value in p.domains
  }

  predicate ListedMailbox(p: Policy, addr: string) {
    LocalDomain(p, addr) && Text.Lower(addr) in p.recipients
  }

  /** Who may be a recipient: a listed local mailbox, or a remote one for a client that may relay. */
  predicate Permitted(p: Policy, peer: Option<int>, authenticated: bool, addr: string) {
    ListedMailbox(p, addr) || (DomainOf(addr).Some? && !LocalDomain(p, addr) && (authenticated || Trusts(p, peer)))
  }

  method Authorize(p: Policy, peer: Option<int>, authenticated: bool, addr: string) returns (v: Verdict)
    ensures v.Permit? <==> Permitted(p, peer, authenticated, addr)
    ensures v.UnknownRecipient? <==> LocalDomain(p, addr) && !ListedMailbox(p, addr)
  {
    var domain := DomainOf(addr);
    if domain.None? { return RelayDenied; }
    if domain.value in p.domains {
      return if Text.Lower(addr) in p.recipients then Permit else UnknownRecipient;
    }
    if authenticated { return Permit; }
    for i := 0 to |p.trusted|
      invariant peer.Some? ==> forall j :: 0 <= j < i ==> !(p.trusted[j].low <= peer.value <= p.trusted[j].high)
    {
      if peer.Some? && p.trusted[i].low <= peer.value <= p.trusted[i].high { return Permit; }
    }
    return RelayDenied;
  }

  // ----- Configuration, commands, state -----------------------------------------------

  datatype Config = Config(
    submission: bool, authRequired: bool, senderId: bool, allowInsecureAuth: bool, implicitTls: bool,
    tlsConfigured: bool, requireTlsOffered: bool, authBackend: bool, quarantine: bool,
    maxBytes: int, maxRecipients: nat, maxMessages: nat, maxAuthFailures: nat, maxRcptFailures: nat,
    policy: Policy, peer: Option<int>)

  datatype Dsn = Dsn(options: string, recipients: map<string, string>)

  datatype MailArgs = MailArgs(address: string, size: Option<int>, body: string, dsn: Option<Dsn>, requireTls: bool)

  datatype RcptArgs = RcptArgs(address: string, dsn: string)

  datatype Mech = Plain | Login | XOAuth2 | OtherMech

  datatype Check = Framing | Invalid | Denied | Granted(user: string)

  datatype Hook = Pass | Hold | Refuse

  /** A message as DATA reads it, with what the checks after it answer. */
  datatype Content = Content(data: string, rejected: bool, signing: Option<string>, suspicious: bool, idOk: bool,
                             hook: Hook, stored: bool)

  datatype Cmd =
    | Ehlo(arg: string, limited: bool)
    | Helo(arg: string)
    | Mail(args: Option<MailArgs>, senderAllowed: bool, limited: bool)
    | Rcpt(to: Option<RcptArgs>, backendOk: bool, hook: Hook)
    | Data(content: Option<Content>)
    | Rset
    | Auth(mech: Mech, check: Check)
    | StartTls(handshakeOk: bool)
    | Quit
    | NoEffect

  datatype Session = Session(
    helo: string, mailFrom: string, bodyMode: string, dsn: Option<Dsn>, requireTls: bool, rcptTo: seq<string>,
    seenHelo: bool, extended: bool, tls: bool, authUser: string, authOk: bool,
    authFailures: nat, rcptFailures: nat, messages: nat, closed: bool)

  datatype Message = Message(helo: string, mailFrom: string, rcptTo: seq<string>, dsn: Option<Dsn>, requireTls: bool,
                             data: string, quarantined: bool, tenant: string)

  /** What a command achieved, as the client learns it from the reply. */
  datatype Entry =
    | Nothing
    | Cleared
    | TlsOn
    | MailOk(args: MailArgs)
    | RcptOk(to: RcptArgs)
    | AuthOk(mech: Mech, overTls: bool)
    | Queued(msg: Message)

  function Start(cfg: Config): Session {
    Session("", "", "7BIT", None, false, [], false, false, cfg.implicitTls, "", false, 0, 0, 0, false)
  }

  function FinishData(s: Session): Session { s.(mailFrom := "", rcptTo := [], dsn := None, requireTls := false) }

  function ResetTransaction(s: Session): Session { FinishData(s).(bodyMode := "7BIT") }

  function BeginTransaction(s: Session, a: MailArgs): Session {
    ResetTransaction(s).(mailFrom := a.address, dsn := a.dsn, requireTls := a.requireTls,
                         bodyMode := if a.body != "" then a.body else "7BIT")
  }

  function AcceptGreeting(s: Session, extended: bool): Session {
    ResetTransaction(s).(seenHelo := true, extended := extended)
  }

  function ResetAfterTls(s: Session): Session {
    ResetTransaction(s).(tls := true, seenHelo := false, extended := false, authUser := "", authOk := false)
  }

  predicate MailRefused(cfg: Config, s: Session, args: Option<MailArgs>, senderAllowed: bool) {
    || !s.seenHelo
    || (cfg.submission && cfg.authRequired && !s.authOk)
    || args.None?
    || (!s.extended && (args.value.size.Some? || args.value.body != "" || args.value.dsn.Some? ||
                        args.value.requireTls))
    || (args.value.requireTls && !cfg.requireTlsOffered)
    || (args.value.size.Some? && args.value.size.value > cfg.maxBytes)
    || (cfg.submission && cfg.senderId && s.authOk && !senderAllowed)
  }

  function MailStep(cfg: Config, s: Session, args: Option<MailArgs>, senderAllowed: bool, limited: bool): (Session,
                    Entry) {
    if MailRefused(cfg, s, args, senderAllowed) then (s, Nothing)
    else if limited then (s.(closed := true), Nothing)
    else (BeginTransaction(s, args.value), MailOk(args.value))
  }

  predicate RcptAccepted(cfg: Config, s: Session, to: Option<RcptArgs>, backendOk: bool, hook: Hook) {
    s.mailFrom != "" && |s.rcptTo| < cfg.maxRecipients && to.Some? && !(!s.extended && to.value.dsn != "") &&
      backendOk &&
    Permitted(cfg.policy, cfg.peer, cfg.submission && s.authOk, to.value.address) && hook == Pass
  }

  function WithRcptDsn(dsn: Option<Dsn>, to: RcptArgs): Option<Dsn> {
    if to.dsn == "" then dsn
    else
      var base := if dsn.Some? then dsn.value else Dsn("", map[]);
      Some(base.(recipients := base.recipients[to.address := to.dsn]))
  }

  function RcptStep(cfg: Config, s: Session, to: Option<RcptArgs>, backendOk: bool, hook: Hook): (Session, Entry) {
    if RcptAccepted(cfg, s, to, backendOk, hook)
    then (s.(rcptTo := s.rcptTo + [to.value.address], dsn := WithRcptDsn(s.dsn, to.value)), RcptOk(to.value))
    else (s.(rcptFailures := s.rcptFailures + 1), Nothing)
  }

  predicate EightBit(data: string) { exists i :: 0 <= i < |data| && data[i] as int >= 0x80 }

  function MessageOf(cfg: Config, s: Session, c: Content): Message {
    Message(s.helo, s.mailFrom, s.rcptTo, s.dsn, s.requireTls, c.data,
            cfg.quarantine && (c.suspicious || c.hook == Hold),
            if s.authOk then Text.Lower(Text.TrimSpace(s.authUser)) else "")
  }

  function DataStep(cfg: Config, s: Session, content: Option<Content>): (Session, Entry) {
    if s.rcptTo == [] then (s, Nothing)
    else if content.None? then (s.(closed := true), Nothing)
    else
      var c := content.value;
      if s.bodyMode != "8BITMIME" && EightBit(c.data) then (FinishData(s), Cleared)
      else if c.rejected || c.signing.None? then (FinishData(s), Cleared)
      else if !c.idOk then (s, Nothing)
      else if c.hook == Refuse || (c.hook == Hold && !cfg.quarantine) then (FinishData(s), Cleared)
      else if !c.stored then (s, Nothing)
      else (FinishData(s).(messages := s.messages + 1), Queued(MessageOf(cfg, s, c)))
  }

  /** Credentials are not even read in the clear unless that is allowed for the mechanism. */
  predicate NeedsEncryption(cfg: Config, s: Session, mech: Mech) {
    !s.tls && (mech == XOAuth2 || ((mech == Plain || mech == Login) && !cfg.allowInsecureAuth))
  }

  function AuthStep(cfg: Config, s: Session, mech: Mech, check: Check): (Session, Entry) {
    if !cfg.submission || !s.extended || !cfg.authBackend || NeedsEncryption(cfg, s, mech) then (s, Nothing)
    else if mech == OtherMech then (s.(authFailures := s.authFailures + 1), Nothing)
    else
      match check
      case Framing => (s.(closed := true), Nothing)
      case Granted(user) => (s.(authUser := user, authOk := true), AuthOk(mech, s.tls))
      case _ => (s.(authFailures := s.authFailures + 1), Nothing)
  }

  function StartTlsStep(cfg: Config, s: Session, handshakeOk: bool): (Session, Entry) {
    if s.tls || !cfg.tlsConfigured then (s, Nothing)
    else if !handshakeOk then (s.(closed := true), Nothing)
    else (ResetAfterTls(s), TlsOn)
  }

  predicate LimitReached(cfg: Config, s: Session) {
    s.authFailures >= cfg.maxAuthFailures || s.rcptFailures >= cfg.maxRcptFailures || s.messages >= cfg.maxMessages
  }

  function GreetingStep(s: Session, arg: string, limited: bool, extended: bool): (Session, Entry) {
    if arg == "" then (s, Nothing)
    else if limited then (s.(helo := arg, closed := true), Nothing)
    else (AcceptGreeting(s.(helo := arg), extended), Cleared)
  }

  function Perform(cfg: Config, s: Session, cmd: Cmd): (Session, Entry) {
    match cmd
    case Ehlo(arg, limited) => GreetingStep(s, arg, limited, true)
    case Helo(arg) => GreetingStep(s, arg, false, false)
    case Mail(args, senderAllowed, limited) => MailStep(cfg, s, args, senderAllowed, limited)
    case Rcpt(to, backendOk, hook) => RcptStep(cfg, s, to, backendOk, hook)
    case Data(content) => DataStep(cfg, s, content)
    case Rset => (ResetTransaction(s), Cleared)
    case Auth(mech, check) => AuthStep(cfg, s, mech, check)
    case StartTls(ok) => StartTlsStep(cfg, s, ok)
    case Quit => (s.(closed := true), Nothing)
    case NoEffect => (s, Nothing)
  }

  /** One turn of the command loop. */
  function Step(cfg: Config, s: Session, cmd: Cmd): (Session, Entry) {
    if s.closed then (s, Nothing)
    else if LimitReached(cfg, s) then (s.(closed := true), Nothing)
    else Perform(cfg, s, cmd)
  }

  /** The session and the transcript after a sequence of commands. */
  ghost function Run(cfg: Config, cmds: seq<Cmd>): (r: (Session, seq<Entry>))
    ensures |r.1| == |cmds|
  {
    if cmds == [] then (Start(cfg), [])
    else
      var (s, log) := Run(cfg, cmds[..|cmds| - 1]);
      var (n, e) := Step(cfg, s, cmds[|cmds| - 1]);
      (n, log + [e])
  }

  // ----- Reading the transcript ---------------------------------------------------------

  /** The transaction that a transcript leaves open. */
  datatype Txn = Txn(args: MailArgs, rcpts: seq<RcptArgs>)

  function Transaction(log: seq<Entry>): Option<Txn> {
    if log == [] then None
    else
      var before := Transaction(log[..|log| - 1]);
      match log[|log| - 1]
      case MailOk(a) => Some(Txn(a, []))
      case RcptOk(to) => if before.Some? then Some(before.value.(rcpts := before.value.rcpts + [to])) else None
      case Cleared => None
      case TlsOn => None
      case Queued(_) => None
      case _ => before
  }

  /** Encryption is on from the start or since a STARTTLS. */
  predicate TlsUp(cfg: Config, log: seq<Entry>) {
    cfg.implicitTls || exists i :: 0 <= i < |log| && log[i].TlsOn?
  }

  /** A login with permitted protection, after the last STARTTLS. */
  predicate LoggedIn(cfg: Config, log: seq<Entry>) {
    if log == [] then false
    else
      match log[|log| - 1]
      case AuthOk(mech, overTls) =>
        (overTls && TlsUp(cfg, log[..|log| - 1])) ||
          (!overTls && cfg.allowInsecureAuth && (mech == Plain || mech == Login))
      case TlsOn => false
      case _ => LoggedIn(cfg, log[..|log| - 1])
  }

  function Addresses(rcpts: seq<RcptArgs>): (r: seq<string>)
    ensures |r| == |rcpts| && forall i :: 0 <= i < |r| ==> r[i] == rcpts[i].address
  {
    if rcpts == [] then [] else Addresses(rcpts[..|rcpts| - 1]) + [rcpts[|rcpts| - 1].address]
  }

  function DsnOf(t: Txn): Option<Dsn>
    decreases |t.rcpts|
  {
    if t.rcpts == [] then t.args.dsn
    else WithRcptDsn(DsnOf(t.(rcpts := t.rcpts[..|t.rcpts| - 1])), t.rcpts[|t.rcpts| - 1])
  }

  function QueuedCount(log: seq<Entry>): nat {
    if log == [] then 0 else QueuedCount(log[..|log| - 1]) + if log[|log| - 1].Queued? then 1 else 0
  }

  // ----- What a reply tells about the session ---------------------------------------------

  /** The part of the session that becomes the message's envelope. */
  datatype Envelope = Envelope(mailFrom: string, rcptTo: seq<string>, dsn: Option<Dsn>, requireTls: bool)

  const NoEnvelope: Envelope := Envelope("", [], None, false)

  function EnvelopeOf(s: Session): Envelope { Envelope(s.mailFrom, s.rcptTo, s.dsn, s.requireTls) }

  function Applied(v: Envelope, e: Entry): Envelope {
    match e
    case MailOk(a) => Envelope(a.address, [], a.dsn, a.requireTls)
    case RcptOk(to) => v.(rcptTo := v.rcptTo + [to.address], dsn := WithRcptDsn(v.dsn, to))
    case Cleared => NoEnvelope
    case TlsOn => NoEnvelope
    case Queued(_) => NoEnvelope
    case _ => v
  }

  /** The reply accounts for every change of envelope, login and message count. */
  predicate Tells(cfg: Config, s: Session, n: Session, e: Entry) {
    && EnvelopeOf(n) == Applied(EnvelopeOf(s), e)
    && n.authOk == (e.AuthOk? || (s.authOk && !e.TlsOn?)) && n.tls == (s.tls || e.TlsOn?)
    && n.messages == s.messages + (if e.Queued? then 1 else 0)
    && (e.AuthOk? ==> e.overTls == s.tls && (s.tls || (cfg.allowInsecureAuth && (e.mech == Plain || e.mech == Login))))
    && (e.MailOk? ==> cfg.submission && cfg.authRequired ==> s.authOk)
    && (e.RcptOk? ==> CanTake(cfg, s, e.to.address))
    && (e.Queued? ==>
        s.rcptTo != [] && Envelope(e.msg.mailFrom, e.msg.rcptTo, e.msg.dsn, e.msg.requireTls) == EnvelopeOf(s))
  }

  predicate CanTake(cfg: Config, s: Session, addr: string) {
    s.mailFrom != "" && |s.rcptTo| < cfg.maxRecipients &&
      Permitted(cfg.policy, cfg.peer, cfg.submission && s.authOk, addr)
  }

  lemma MailTells(cfg: Config, s: Session, args: Option<MailArgs>, senderAllowed: bool, limited: bool)
    ensures
      var (n, e) := MailStep(cfg, s, args, senderAllowed, limited);
      Tells(cfg, s, n, e)
  {
  }

  lemma RcptTells(cfg: Config, s: Session, to: Option<RcptArgs>, backendOk: bool, hook: Hook)
    ensures
      var (n, e) := RcptStep(cfg, s, to, backendOk, hook);
      Tells(cfg, s, n, e)
  {
  }

  lemma DataTells(cfg: Config, s: Session, content: Option<Content>)
    ensures
      var (n, e) := DataStep(cfg, s, content);
      Tells(cfg, s, n, e)
  {
    FinishTells(cfg, s);
    if s.rcptTo != [] && content.Some? { QueuedTells(cfg, s, content.value); }
  }

  lemma FinishTells(cfg: Config, s: Session)
    ensures Tells(cfg, s, FinishData(s), Cleared) && Tells(cfg, s, s, Nothing)
    ensures Tells(cfg, s, s.(closed := true), Nothing)
  {
  }

  lemma QueuedTells(cfg: Config, s: Session, c: Content)
    requires s.rcptTo != []
    ensures Tells(cfg, s, FinishData(s).(messages := s.messages + 1), Queued(MessageOf(cfg, s, c)))
  {
  }

  lemma AuthTells(cfg: Config, s: Session, mech: Mech, check: Check)
    ensures
      var (n, e) := AuthStep(cfg, s, mech, check);
      Tells(cfg, s, n, e)
  {
  }

  lemma GreetingTells(cfg: Config, s: Session, arg: string, limited: bool, extended: bool)
    ensures
      var (n, e) := GreetingStep(s, arg, limited, extended);
      Tells(cfg, s, n, e)
  {
  }

  lemma TlsTells(cfg: Config, s: Session, handshakeOk: bool)
    ensures
      var (n, e) := StartTlsStep(cfg, s, handshakeOk);
      Tells(cfg, s, n, e)
  {
  }

  lemma QuietTells(cfg: Config, s: Session)
    ensures Tells(cfg, s, s, Nothing) && Tells(cfg, s, s.(closed := true), Nothing)
    ensures Tells(cfg, s, ResetTransaction(s), Cleared)
  {
  }

  lemma PerformTells(cfg: Config, s: Session, cmd: Cmd)
    ensures
      var (n, e) := Perform(cfg, s, cmd);
      Tells(cfg, s, n, e)
  {
    match cmd
    case Ehlo(arg, limited) => GreetingTells(cfg, s, arg, limited, true);
    case Helo(arg) => GreetingTells(cfg, s, arg, false, false);
    case Mail(args, senderAllowed, limited) => MailTells(cfg, s, args, senderAllowed, limited);
    case Rcpt(to, backendOk, hook) => RcptTells(cfg, s, to, backendOk, hook);
    case Data(content) => DataTells(cfg, s, content);
    case Auth(mech, check) => AuthTells(cfg, s, mech, check);
    case StartTls(ok) => TlsTells(cfg, s, ok);
    case _ => QuietTells(cfg, s);
  }

  lemma StepTells(cfg: Config, s: Session, cmd: Cmd)
    ensures
      var (n, e) := Step(cfg, s, cmd);
      Tells(cfg, s, n, e)
  {
    QuietTells(cfg, s);
    PerformTells(cfg, s, cmd);
  }

  lemma NothingPastTheLimit(cfg: Config, s: Session, cmd: Cmd)
    ensures Step(cfg, s, cmd).1.Queued? ==> s.messages < cfg.maxMessages
  {
  }

  // ----- Invariant ------------------------------------------------------------------------

  /** The envelope of the open transaction of the transcript. */
  function EnvelopeFor(t: Option<Txn>): Envelope {
    if t.None? then NoEnvelope
      else Envelope(t.value.args.address, Addresses(t.value.rcpts), DsnOf(t.value), t.value.args.requireTls)
  }

  predicate AllPermitted(cfg: Config, authenticated: bool, rcptTo: seq<string>) {
    forall i :: 0 <= i < |rcptTo| ==> Permitted(cfg.policy, cfg.peer, cfg.submission && authenticated, rcptTo[i])
  }

  predicate EnvelopeOk(cfg: Config, v: Envelope, authOk: bool) {
    && |v.rcptTo| <= cfg.maxRecipients && (v.rcptTo != [] ==> v.mailFrom != "")
    && AllPermitted(cfg, authOk, v.rcptTo)
    && (cfg.submission && cfg.authRequired && v.mailFrom != "" ==> authOk)
  }

  predicate Inv(cfg: Config, s: Session, log: seq<Entry>) {
    && EnvelopeOf(s) == EnvelopeFor(Transaction(log))
    && EnvelopeOk(cfg, EnvelopeOf(s), s.authOk)
    && s.tls == TlsUp(cfg, log) && s.authOk == LoggedIn(cfg, log)
    && s.messages == QueuedCount(log) && s.messages <= cfg.maxMessages
    && EachPermitted(cfg, log)
  }

  /** Every accepted recipient was permitted under the login of its own RCPT. */
  predicate EachPermitted(cfg: Config, log: seq<Entry>) {
    forall p :: 0 <= p < |log| && log[p].RcptOk? ==> PermittedAt(cfg, log, p)
  }

  predicate PermittedAt(cfg: Config, log: seq<Entry>, p: nat)
    requires p < |log| && log[p].RcptOk?
  {
    Permitted(cfg.policy, cfg.peer, cfg.submission && LoggedIn(cfg, log[..p]), log[p].to.address)
  }

  lemma PermittedSnoc(cfg: Config, log: seq<Entry>, e: Entry)
    requires EachPermitted(cfg, log)
    requires e.RcptOk? ==> Permitted(cfg.policy, cfg.peer, cfg.submission && LoggedIn(cfg, log), e.to.address)
    ensures EachPermitted(cfg, log + [e])
  {
    var all := log + [e];
    forall p | 0 <= p < |all| && all[p].RcptOk? ensures PermittedAt(cfg, all, p) {
      if p < |log| {
        assert all[..p] == log[..p] && all[p] == log[p];
        assert PermittedAt(cfg, log, p);
      } else {
        assert all[..p] == log;
      }
    }
  }

  lemma EntryKeepsEnvelopeOk(cfg: Config, v: Envelope, before: bool, after: bool, e: Entry)
    requires EnvelopeOk(cfg, v, before) && after == (e.AuthOk? || (before && !e.TlsOn?))
    requires e.MailOk? ==> cfg.submission && cfg.authRequired ==> before
    requires e.RcptOk? ==> v.mailFrom != "" && |v.rcptTo| < cfg.maxRecipients
    requires e.RcptOk? ==> Permitted(cfg.policy, cfg.peer, cfg.submission && before, e.to.address)
    ensures EnvelopeOk(cfg, Applied(v, e), after)
  {
  }

  lemma TransactionSnoc(log: seq<Entry>, e: Entry)
    requires e.RcptOk? ==> Transaction(log).Some?
    ensures EnvelopeFor(Transaction(log + [e])) == Applied(EnvelopeFor(Transaction(log)), e)
  {
    assert (log + [e])[..|log|] == log;
    if e.RcptOk? {
      var t := Transaction(log).value;
      var more := t.rcpts + [e.to];
      assert more[..|t.rcpts|] == t.rcpts;
    }
  }

  lemma LoginSnoc(cfg: Config, log: seq<Entry>, e: Entry)
    ensures TlsUp(cfg, log + [e]) == (TlsUp(cfg, log) || e.TlsOn?)
    ensures LoggedIn(cfg, log + [e]) ==
      match e {
        case AuthOk(mech, overTls) => (overTls && TlsUp(cfg, log)) ||
          (!overTls && cfg.allowInsecureAuth && (mech == Plain || mech == Login))
        case TlsOn => false
        case _ => LoggedIn(cfg, log)
      }
    ensures QueuedCount(log + [e]) == QueuedCount(log) + if e.Queued? then 1 else 0
  {
    var all := log + [e];
    assert all[..|log|] == log && all[|log|] == e;
    if TlsUp(cfg, log) && !cfg.implicitTls {
      var i :| 0 <= i < |log| && log[i].TlsOn?;
      assert all[i].TlsOn?;
    }
  }

  lemma StepKeepsInvariant(cfg: Config, s: Session, cmd: Cmd, log: seq<Entry>)
    requires Inv(cfg, s, log)
    ensures Inv(cfg, Step(cfg, s, cmd).0, log + [Step(cfg, s, cmd).1])
  {
    var (n, e) := Step(cfg, s, cmd);
    StepTells(cfg, s, cmd);
    NothingPastTheLimit(cfg, s, cmd);
    EntryKeepsEnvelopeOk(cfg, EnvelopeOf(s), s.authOk, n.authOk, e);
    TransactionSnoc(log, e);
    LoginSnoc(cfg, log, e);
    PermittedSnoc(cfg, log, e);
  }

  // ----- Every command sequence ---------------------------------------------------------------

  lemma {:induction false} RunKeepsInvariant(cfg: Config, cmds: seq<Cmd>)
    ensures Inv(cfg, Run(cfg, cmds).0, Run(cfg, cmds).1)
  {
    if cmds != [] {
      var n := |cmds| - 1;
      RunKeepsInvariant(cfg, cmds[..n]);
      StepKeepsInvariant(cfg, Run(cfg, cmds[..n]).0, cmds[n], Run(cfg, cmds[..n]).1);
    }
  }

  /** What a queued message must look like, read off the transcript before it. */
  predicate GoodMessage(cfg: Config, log: seq<Entry>, m: Message) {
    var t := Transaction(log);
    && t.Some? && m.mailFrom == t.value.args.address && m.mailFrom != ""
    && m.rcptTo == Addresses(t.value.rcpts) && 1 <= |m.rcptTo| <= cfg.maxRecipients
    && m.dsn == DsnOf(t.value) && m.requireTls == t.value.args.requireTls
    && EachPermitted(cfg, log) && AllPermitted(cfg, LoggedIn(cfg, log), m.rcptTo)
    && (cfg.submission && cfg.authRequired ==> LoggedIn(cfg, log))
  }

  /** In every command sequence each queued message is good with respect to the replies that came before it. */
  lemma {:induction false} EveryQueuedMessageIsGood(cfg: Config, cmds: seq<Cmd>, i: nat)
    requires i < |cmds| && Run(cfg, cmds).1[i].Queued?
    ensures GoodMessage(cfg, Run(cfg, cmds).1[..i], Run(cfg, cmds).1[i].msg)
  {
    var n := |cmds| - 1;
    var before := Run(cfg, cmds[..n]);
    RunKeepsInvariant(cfg, cmds[..n]);
    var log := Run(cfg, cmds).1;
    assert log[..n] == before.1;
    if i < n {
      EveryQueuedMessageIsGood(cfg, cmds[..n], i);
      assert log[..i] == before.1[..i];
    } else {
      StepTells(cfg, before.0, cmds[n]);
    }
  }

  /** What an open transaction is: a MAIL, nothing that clears it, and the recipients accepted since. */
  lemma {:induction false} TransactionMeaning(log: seq<Entry>) returns (m: nat)
    requires Transaction(log).Some?
    ensures m < |log| && log[m] == MailOk(Transaction(log).value.args)
    ensures forall i :: m < i < |log| ==> log[i].Nothing? || log[i].RcptOk? || log[i].AuthOk?
    ensures Transaction(log).value.rcpts == RcptsIn(log[m + 1..])
  {
    var n := |log| - 1;
    if log[n].MailOk? {
      m := n;
      assert log[n + 1..] == [];
    } else {
      StillOpen(log);
      m := TransactionMeaning(log[..n]);
      RcptsSnoc(log[..n][m + 1..], log[n]);
      assert log[m + 1..] == log[..n][m + 1..] + [log[n]];
    }
  }

  lemma StillOpen(log: seq<Entry>)
    requires Transaction(log).Some? && !log[|log| - 1].MailOk?
    ensures
      var before, e := Transaction(log[..|log| - 1]), log[|log| - 1];
      && before.Some? && (e.Nothing? || e.RcptOk? || e.AuthOk?)
      && Transaction(log).value == before.value.(rcpts := before.value.rcpts + if e.RcptOk? then [e.to] else [])
  {
  }

  function RcptsIn(log: seq<Entry>): seq<RcptArgs> {
    if log == [] then [] else RcptsIn(log[..|log| - 1]) + if log[|log| - 1].RcptOk? then [log[|log| - 1].to] else []
  }

  lemma RcptsSnoc(log: seq<Entry>, e: Entry)
    ensures RcptsIn(log + [e]) == RcptsIn(log) + if e.RcptOk? then [e.to] else []
  {
    assert (log + [e])[..|log|] == log;
  }

  /**
   * A login, read off the transcript: an AUTH reply with no STARTTLS after it,
   * protected as the configuration demands.
   */
  lemma {:induction false} LoginMeaning(cfg: Config, log: seq<Entry>) returns (a: nat)
    requires LoggedIn(cfg, log)
    ensures a < |log| && log[a].AuthOk? && forall i :: a < i < |log| ==> !log[i].TlsOn?
    ensures (log[a].overTls && TlsUp(cfg, log[..a])) ||
      (!log[a].overTls && cfg.allowInsecureAuth && log[a].mech != XOAuth2)
  {
    var n := |log| - 1;
    if log[n].AuthOk? {
      a := n;
    } else {
      a := LoginMeaning(cfg, log[..n]);
      assert log[..n][..a] == log[..a];
    }
  }

  /**
   * Each recipient of a queued message has its RCPT since the latest MAIL,
   * permitted under the login of that moment.
   */
  lemma {:induction false} RecipientsWerePermitted(cfg: Config, cmds: seq<Cmd>, j: nat, k: nat) returns (p: nat)
    requires j < |cmds| && Run(cfg, cmds).1[j].Queued? && k < |Run(cfg, cmds).1[j].msg.rcptTo|
    ensures
      var log := Run(cfg, cmds).1;
      && p < j && log[p].RcptOk? && log[p].to.address == log[j].msg.rcptTo[k] && PermittedAt(cfg, log, p)
      && forall i :: p < i < j ==> log[i].Nothing? || log[i].RcptOk? || log[i].AuthOk?
  {
    var log := Run(cfg, cmds).1;
    EveryQueuedMessageIsGood(cfg, cmds, j);
    var m := TransactionMeaning(log[..j]);
    var q := RcptAt(log[..j][m + 1..], k);
    p := m + 1 + q;
    assert log[..j][p] == log[p] && log[..j][..p] == log[..p];
    assert PermittedAt(cfg, log[..j], p);
  }

  /** The k-th recipient in a transcript has an entry of its own. */
  lemma {:induction false} RcptAt(log: seq<Entry>, k: nat) returns (p: nat)
    requires k < |RcptsIn(log)|
    ensures p < |log| && log[p].RcptOk? && log[p].to == RcptsIn(log)[k]
  {
    var n := |log| - 1;
    if k < |RcptsIn(log[..n])| {
      p := RcptAt(log[..n], k);
    } else {
      p := n;
    }
  }

  /** Between two queued messages there is a MAIL: nothing of one transaction is left for the next. */
  lemma NothingCarriesOver(cfg: Config, cmds: seq<Cmd>, i: nat, j: nat) returns (m: nat)
    requires i < j < |cmds| && Run(cfg, cmds).1[i].Queued? && Run(cfg, cmds).1[j].Queued?
    ensures i < m < j && Run(cfg, cmds).1[m].MailOk?
    ensures Run(cfg, cmds).1[m].args.address == Run(cfg, cmds).1[j].msg.mailFrom
    ensures Run(cfg, cmds).1[j].msg.rcptTo == Addresses(RcptsIn(Run(cfg, cmds).1[m + 1..j]))
  {
    var log := Run(cfg, cmds).1;
    EveryQueuedMessageIsGood(cfg, cmds, j);
    m := TransactionMeaning(log[..j]);
    assert log[..j][m + 1..] == log[m + 1..j];
    assert log[..j][i] == log[i];
  }

  /** A session queues at most the configured number of messages. */
  lemma MessagesAreBounded(cfg: Config, cmds: seq<Cmd>)
    ensures QueuedCount(Run(cfg, cmds).1) <= cfg.maxMessages
  {
    RunKeepsInvariant(cfg, cmds);
  }

  // ----- The session object ------------------------------------------------------------------

  class Connection {
    const cfg: Config
    var helo: string
    var mailFrom: string
    var bodyMode: string
    var dsn: Option<Dsn>
    var requireTls: bool
    var rcptTo: seq<string>
    var seenHelo: bool
    var extended: bool
    var tls: bool
    var authUser: string
    var authOk: bool
    var authFailures: nat
    var rcptFailures: nat
    var messages: nat
    var closed: bool

    function View(): Session
      reads this
    {
      Session(helo, mailFrom, bodyMode, dsn, requireTls, rcptTo, seenHelo, extended, tls, authUser, authOk,
              authFailures, rcptFailures, messages, closed)
    }

    constructor (cfg: Config)
      ensures this.cfg == cfg && View() == Start(cfg)
    {
      this.cfg := cfg;
      helo, mailFrom, bodyMode, dsn, requireTls, rcptTo := "", "", "7BIT", None, false, [];
      seenHelo, extended, tls, authUser, authOk := false, false, cfg.implicitTls, "", false;
      authFailures, rcptFailures, messages, closed := 0, 0, 0, false;
    }

    method FinishMessage()
      modifies this
      ensures View() == FinishData(old(View()))
    {
      mailFrom, rcptTo, dsn, requireTls := "", [], None, false;
    }

    method Reset()
      modifies this
      ensures View() == ResetTransaction(old(View()))
    {
      FinishMessage();
      bodyMode := "7BIT";
    }

    method Begin(a: MailArgs)
      modifies this
      ensures View() == BeginTransaction(old(View()), a)
    {
      Reset();
      mailFrom, dsn, requireTls := a.address, a.dsn, a.requireTls;
      if a.body != "" { bodyMode := a.body; }
    }

    method Greet(arg: string, limited: bool, ext: bool) returns (e: Entry)
      modifies this
      ensures (View(), e) == GreetingStep(old(View()), arg, limited, ext)
    {
      if arg == "" { return Nothing; }
      helo := arg;
      if limited {
        closed := true;
        return Nothing;
      }
      Accept(ext);
      return Cleared;
    }

    method Accept(ext: bool)
      modifies this
      ensures View() == AcceptGreeting(old(View()), ext)
    {
      Reset();
      seenHelo, extended := true, ext;
    }

    method HandleMail(args: Option<MailArgs>, senderAllowed: bool, limited: bool) returns (e: Entry)
      modifies this
      ensures (View(), e) == MailStep(cfg, old(View()), args, senderAllowed, limited)
    {
      if !seenHelo { return Nothing; }
      if cfg.submission && cfg.authRequired && !authOk { return Nothing; }
      if args.None? { return Nothing; }
      var a := args.value;
      if !extended && (a.size.Some? || a.body != "" || a.dsn.Some? || a.requireTls) { return Nothing; }
      if a.requireTls && !cfg.requireTlsOffered { return Nothing; }
      if a.size.Some? && a.size.value > cfg.maxBytes { return Nothing; }
      if cfg.submission && cfg.senderId && authOk && !senderAllowed { return Nothing; }
      if limited {
        closed := true;
        return Nothing;
      }
      Begin(a);
      return MailOk(a);
    }

    /** The handler and the failure count that the command loop keeps around it. */
    method HandleRcpt(to: Option<RcptArgs>, backendOk: bool, hook: Hook) returns (e: Entry)
      modifies this
      ensures (View(), e) == RcptStep(cfg, old(View()), to, backendOk, hook)
    {
      var previous := |rcptTo|;
      e := TakeRcpt(to, backendOk, hook);
      if |rcptTo| == previous { rcptFailures := rcptFailures + 1; }
    }

    method TakeRcpt(to: Option<RcptArgs>, backendOk: bool, hook: Hook) returns (e: Entry)
      modifies this`rcptTo, this`dsn
      ensures
        if RcptAccepted(cfg, old(View()), to, backendOk, hook)
        then e == RcptOk(to.value) && rcptTo == old(rcptTo) + [to.value.address] &&
          dsn == WithRcptDsn(old(dsn), to.value)
        else e == Nothing && rcptTo == old(rcptTo) && dsn == old(dsn)
    {
      if mailFrom == "" { return Nothing; }
      if |rcptTo| >= cfg.maxRecipients { return Nothing; }
      if to.None? { return Nothing; }
      if !extended && to.value.dsn != "" { return Nothing; }
      if !backendOk { return Nothing; }
      var verdict := Authorize(cfg.policy, cfg.peer, cfg.submission && authOk, to.value.address);
      if !verdict.Permit? { return Nothing; }
      if hook != Pass { return Nothing; }
      rcptTo := rcptTo + [to.value.address];
      dsn := WithRcptDsn(dsn, to.value);
      return RcptOk(to.value);
    }

    method HandleData(content: Option<Content>) returns (e: Entry)
      modifies this
      ensures (View(), e) == DataStep(cfg, old(View()), content)
    {
      if rcptTo == [] { return Nothing; }
      if content.None? {
        closed := true;
        return Nothing;
      }
      var c := content.value;
      if (bodyMode != "8BITMIME" && EightBit(c.data)) || c.rejected || c.signing.None? {
        FinishMessage();
        return Cleared;
      }
      if !c.idOk { return Nothing; }
      if c.hook == Refuse || (c.hook == Hold && !cfg.quarantine) {
        FinishMessage();
        return Cleared;
      }
      if !c.stored { return Nothing; }
      e := Queued(MessageOf(cfg, View(), c));
      messages := messages + 1;
      FinishMessage();
    }

    method HandleAuth(mech: Mech, check: Check) returns (e: Entry)
      modifies this
      ensures (View(), e) == AuthStep(cfg, old(View()), mech, check)
    {
      if !cfg.submission { return Nothing; }
      if !extended { return Nothing; }
      if !cfg.authBackend { return Nothing; }
      if !tls && (mech == XOAuth2 || ((mech == Plain || mech == Login) && !cfg.allowInsecureAuth)) { return Nothing; }
      if mech != OtherMech && check.Framing? {
        closed := true;
        return Nothing;
      }
      if mech == OtherMech || !check.Granted? {
        authFailures := authFailures + 1;
        return Nothing;
      }
      authUser, authOk := check.user, true;
      return AuthOk(mech, tls);
    }

    method HandleStartTls(handshakeOk: bool) returns (e: Entry)
      modifies this
      ensures (View(), e) == StartTlsStep(cfg, old(View()), handshakeOk)
    {
      if tls || !cfg.tlsConfigured { return Nothing; }
      if !handshakeOk {
        closed := true;
        return Nothing;
      }
      Reset();
      tls, seenHelo, extended, authUser, authOk := true, false, false, "", false;
      return TlsOn;
    }

    /** One turn of the command loop. */
    method Turn(cmd: Cmd) returns (e: Entry)
      modifies this
      ensures (View(), e) == Step(cfg, old(View()), cmd)
    {
      if closed { return Nothing; }
      if authFailures >= cfg.maxAuthFailures || rcptFailures >= cfg.maxRcptFailures || messages >= cfg.maxMessages {
        closed := true;
        return Nothing;
      }
      match cmd {
        case Ehlo(arg, limited) => e := Greet(arg, limited, true);
        case Helo(arg) => e := Greet(arg, false, false);
        case Mail(args, senderAllowed, limited) => e := HandleMail(args, senderAllowed, limited);
        case Rcpt(to, backendOk, hook) => e := HandleRcpt(to, backendOk, hook);
        case Data(content) => e := HandleData(content);
        case Auth(mech, check) => e := HandleAuth(mech, check);
        case StartTls(ok) => e := HandleStartTls(ok);
        case Rset =>
          Reset();
          e := Cleared;
        case Quit =>
          closed := true;
          e := Nothing;
        case NoEffect => e := Nothing;
      }
    }
  }
}
