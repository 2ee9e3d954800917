/** ProxyFilter.Preamble: negotiate, then replay a startup, route a cancel or turn the client away. */
module Preamble {
  import opened Bytes
  import opened Streams
  import opened Strings
  import opened Startup
  import opened Session
  import F = Frames
  import H = Handshake
  import C = Cancel

  datatype Options = Options(requireTls: bool, localUnix: bool)

  /** engine.PreambleResult: a connection to proxy with its startup to replay, one already dealt with, or an error. */
  datatype Verdict = Proxy(replay: seq<Byte>) | Handled | Failed(error: StartupError)

  function Context(e: StartupError): string {
    match e
    case ShortPreamble(_) => "reading preamble: "
    case MalformedNegotiation(_) => "malformed negotiation packet (len="
    case NegotiationFailed(WriteFailed) => "encryption negotiation: "
    case NegotiationFailed(HandshakeFailed(_)) => "encryption negotiation: TLS handshake: "
    case MalformedCancel(_) => "malformed cancel request (len="
    case ShortCancel(_) => "reading cancel request: "
    case ImplausibleLength(_) => "implausible startup length "
    case ShortBody(_) => "reading startup body: "
    case NoDatabase => "startup message specified no database"
  }

  function ReadErrorText(e: ReadError): string {
    if e.EOF? then "EOF" else "unexpected EOF"
  }

  function Detail(e: StartupError): string {
    match e
    case ShortPreamble(cause) => ReadErrorText(cause)
    case MalformedNegotiation(length) => Decimal(length) + ")"
    case NegotiationFailed(WriteFailed) => "write failed"
    case NegotiationFailed(HandshakeFailed(text)) => text
    case MalformedCancel(length) => Decimal(length) + ")"
    case ShortCancel(cause) => ReadErrorText(cause)
    case ImplausibleLength(length) => Decimal(length)
    case ShortBody(cause) => ReadErrorText(cause)
    case NoDatabase => ""
  }

  /** err.Error() */
  function ErrorText(e: StartupError): string {
    Context(e) + Detail(e)
  }

  /** The ErrorResponse a rejected client is sent. */
  function Complaint(code: string, text: string): seq<Byte> {
    F.ErrorResponse(Text(code), Text("doze: " + text))
  }

  /** A startup that came in the clear where TLS is required. */
  predicate InTheClear(opts: Options, encrypted: bool) {
    opts.requireTls && !encrypted && !opts.localUnix
  }

  /** What the client is told after the negotiation replies. */
  function Farewell(final: Final, encrypted: bool, opts: Options): seq<Byte> {
    match final
    case Rejected(e) => Complaint("08P01", ErrorText(e))
    case Accepted(_, _, _, _) => if InTheClear(opts, encrypted) then Complaint("28000", "SSL connection required") else []
    case Cancelled(_, _, _) => []
  }

  /** How a preamble ends: the caller's verdict, and the cancel delivered to a backend if that is what it was. */
  predicate Concluded(final: Final, encrypted: bool, opts: Options, live: map<C.Key, C.Target>, dials: bool,
                      verdict: Verdict, delivered: Option<H.Delivery>) {
    match final
    case Rejected(e) => verdict == Failed(e) && delivered == None
    case Cancelled(pid, secret, _) => verdict == Handled && delivered == if dials then H.Route(live, pid, secret) else None
    case Accepted(raw, _, _, _) => delivered == None && verdict == if InTheClear(opts, encrypted) then Handled else Proxy(raw)
  }

  /** What Preamble does once the startup phase has been read. */
  method Conclude(client: Sink, reg: C.Registry, opts: Options, dials: bool, final: Final, encrypted: bool)
    returns (verdict: Verdict, delivered: Option<H.Delivery>)
    modifies client
    ensures client.received == old(client.received) + Clip(Farewell(final, encrypted, opts), old(client.room))
    ensures Concluded(final, encrypted, opts, reg.live, dials, verdict, delivered)
  {
    delivered := None;
    match final
    case Rejected(e) =>
      var _ := client.Write(Complaint("08P01", ErrorText(e)));
      verdict := Failed(e);
    case Cancelled(pid, secret, _) =>
      delivered := H.RouteCancel(reg, pid, secret, dials);
      verdict := Handled;
    case Accepted(raw, _, _, _) =>
      if InTheClear(opts, encrypted) {
        var _ := client.Write(Complaint("28000", "SSL connection required"));
        return Handled, None;
      }
      verdict := Proxy(raw);
  }

  /** ProxyFilter.Preamble; `dials` says whether a backend socket answers a routed cancel. */
  method Preamble(session: ClientSession, reg: C.Registry, opts: Options, dials: bool)
    returns (verdict: Verdict, delivered: Option<H.Delivery>)
    requires session.net.Shrinks()
    modifies session, session.cur.source, session.cur.sink
    ensures session.cur.sink == old(session.cur.sink)
    ensures var outcome := Parse(old(session.cur.source.data), session.net, old(session.cur.sink.room));
      && session.cur.sink.received == old(session.cur.sink.received) + outcome.replies
           + Clip(Farewell(outcome.final, outcome.encrypted, opts), old(session.cur.sink.room) - |outcome.replies|)
      && Concluded(outcome.final, outcome.encrypted, opts, reg.live, dials, verdict, delivered)
      && (outcome.final.Accepted? ==> session.cur.source.data == outcome.final.rest)
  {
    var final, encrypted := session.ReadStartup();
    verdict, delivered := Conclude(session.cur.sink, reg, opts, dials, final, encrypted);
  }
}
