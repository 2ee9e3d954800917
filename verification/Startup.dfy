/** The startup preamble: encryption negotiation, then a StartupMessage or a CancelRequest. */
module Startup {
  import opened Bytes
  import opened Streams
  import opened StartupParams
  import opened Strings

  const SSL_REQUEST_CODE: Uint32 := 80877103
  const GSS_ENC_REQUEST_CODE: Uint32 := 80877104
  const CANCEL_REQUEST_CODE: Uint32 := 80877102
  const PROTOCOL_VERSION_3: Uint32 := 196608
  const MAX_STARTUP_LEN := 0x10_0000

  datatype Kind = SSL | GSS

  function Code(kind: Kind): Uint32 {
    if kind.SSL? then SSL_REQUEST_CODE else GSS_ENC_REQUEST_CODE
  }

  /** Whether TLS is configured, and what a TLS server makes of the bytes that follow its 'S'. */
  datatype Net = Net(tls: bool, unwrap: seq<Byte> -> Result<seq<Byte>, string>) {
    /** Decrypting never yields more bytes than were sent. */
    ghost predicate Shrinks() {
      forall s :: unwrap(s).Success? ==> |unwrap(s).value| <= |s|
    }
  }

  datatype NegotiationError = WriteFailed | HandshakeFailed(text: string)

  datatype StartupError =
    | ShortPreamble(cause: ReadError)
    | MalformedNegotiation(length: Uint32)
    | NegotiationFailed(why: NegotiationError)
    | MalformedCancel(length: Uint32)
    | ShortCancel(cause: ReadError)
    | ImplausibleLength(length: Uint32)
    | ShortBody(cause: ReadError)
    | NoDatabase

  datatype Final =
    | Accepted(raw: seq<Byte>, database: CString, user: CString, rest: seq<Byte>)
    | Cancelled(pid: Uint32, secret: Uint32, rest: seq<Byte>)
    | Rejected(error: StartupError)

  /** The outcome, whether the reader was ever replaced, and the negotiation replies. */
  datatype Outcome = Outcome(final: Final, encrypted: bool, replies: seq<Byte>)

  const REPLY_YES: Byte := 'S' as int
  const REPLY_NO: Byte := 'N' as int

  // ----- The packets as their senders build them

  function NegotiationPacket(kind: Kind): seq<Byte> {
    PutUint32(8) + PutUint32(Code(kind))
  }

  /** buildCancelRequest */
  method BuildCancelRequest(pid: Uint32, secret: Uint32) returns (b: array<Byte>)
    ensures fresh(b) && b[..] == CancelPacket(pid, secret)
  {
    b := new Byte[16];
    Put(b, 0, 16);
    Put(b, 4, CANCEL_REQUEST_CODE);
    Put(b, 8, pid);
    Put(b, 12, secret);
    assert b[..] == b[0..4] + b[4..8] + b[8..12] + b[12..16];
  }

  /** binary.BigEndian.PutUint32(b[at:at+4], w) */
  method Put(b: array<Byte>, at: nat, w: Uint32)
    requires at + 4 <= b.Length
    modifies b
    ensures b[at..at + 4] == PutUint32(w)
    ensures forall i :: 0 <= i < b.Length && !(at <= i < at + 4) ==> b[i] == old(b[i])
  {
    var word := PutUint32(w);
    b[at], b[at + 1], b[at + 2], b[at + 3] := word[0], word[1], word[2], word[3];
  }

  function CancelPacket(pid: Uint32, secret: Uint32): (b: seq<Byte>)
    ensures |b| == 16
  {
    PutUint32(16) + PutUint32(CANCEL_REQUEST_CODE) + PutUint32(pid) + PutUint32(secret)
  }

  /** The StartupMessage (section 55.7 of the PostgreSQL 16 documentation) with these parameters. */
  function StartupPacket(parts: seq<CString>): seq<Byte>
    requires |Encode(parts)| + 9 <= MAX_STARTUP_LEN
  {
    PutUint32(|Encode(parts)| + 9) + PutUint32(PROTOCOL_VERSION_3) + (Encode(parts) + [0])
  }

  // ----- What the bytes say

  function LengthOf(s: seq<Byte>): Uint32
    requires |s| >= 8
  {
    GetUint32(s[0..4])
  }

  function CodeOf(s: seq<Byte>): Uint32
    requires |s| >= 8
  {
    GetUint32(s[4..8])
  }

  function OrElse(a: CString, b: CString): CString {
    if a == [] then b else a
  }

  /** The database and user of a packet; neither is read under another protocol version. */
  function DatabaseOf(raw: seq<Byte>): CString
    requires |raw| >= 8
  {
    if CodeOf(raw) == PROTOCOL_VERSION_3
    then OrElse(LastWins(Split(raw[8..]), DATABASE), UserOf(raw)) else []
  }

  function UserOf(raw: seq<Byte>): CString
    requires |raw| >= 8
  {
    if CodeOf(raw) == PROTOCOL_VERSION_3 then LastWins(Split(raw[8..]), USER) else []
  }

  /** The verdict on a packet that is not a negotiation. */
  function FinalOf(s: seq<Byte>): Final
    requires |s| >= 8
  {
    var length := LengthOf(s);
    if CodeOf(s) == CANCEL_REQUEST_CODE then
      if length != 16 then Rejected(MalformedCancel(length))
      else if |s| < 16 then Rejected(ShortCancel(ReadStatusOf(s[8..], 8).error))
      else Cancelled(GetUint32(s[8..12]), GetUint32(s[12..16]), s[16..])
    else if length < 8 || length > MAX_STARTUP_LEN then Rejected(ImplausibleLength(length))
    else if |s| < length then Rejected(ShortBody(ReadStatusOf(s[8..], length - 8).error))
    else if DatabaseOf(s[..length]) == [] then Rejected(NoDatabase)
    else Accepted(s[..length], DatabaseOf(s[..length]), UserOf(s[..length]), s[length..])
  }

  predicate IsNegotiation(code: Uint32) {
    code == SSL_REQUEST_CODE || code == GSS_ENC_REQUEST_CODE
  }

  function KindOf(code: Uint32): Kind {
    if code == GSS_ENC_REQUEST_CODE then GSS else SSL
  }

  /** The whole preamble on input s, when the client still takes `room` bytes. */
  function Parse(s: seq<Byte>, net: Net, room: nat): (outcome: Outcome)
    requires net.Shrinks()
    ensures |outcome.replies| <= room
    decreases |s|
  {
    if |s| < 8 then Outcome(Rejected(ShortPreamble(ReadStatusOf(s, 8).error)), false, [])
    else if !IsNegotiation(CodeOf(s)) then Outcome(FinalOf(s), false, [])
    else if LengthOf(s) != 8 then Outcome(Rejected(MalformedNegotiation(LengthOf(s))), false, [])
    else if room == 0 then Outcome(Rejected(NegotiationFailed(WriteFailed)), false, [])
    else if KindOf(CodeOf(s)).SSL? && net.tls then
      match net.unwrap(s[8..])
      case Failure(text) => Outcome(Rejected(NegotiationFailed(HandshakeFailed(text))), false, [REPLY_YES])
      case Success(plain) =>
        var later := Parse(plain, net, room - 1);
        Outcome(later.final, true, [REPLY_YES] + later.replies)
    else
      var later := Parse(s[8..], net, room - 1);
      Outcome(later.final, later.encrypted, [REPLY_NO] + later.replies)
  }

  // ----- The grammar Parse recognises

  predicate Upgrades(net: Net, kind: Kind) {
    net.tls && kind.SSL?
  }

  function Reply(net: Net, kind: Kind): Byte {
    if Upgrades(net, kind) then REPLY_YES else REPLY_NO
  }

  function Replies(net: Net, kinds: seq<Kind>): (r: seq<Byte>)
    ensures |r| == |kinds|
  {
    seq(|kinds|, i requires 0 <= i < |kinds| => Reply(net, kinds[i]))
  }

  /** From s, the negotiation packets `kinds`, eight bytes each, lead to t; only an upgrade looks inside TLS. */
  ghost predicate Negotiates(s: seq<Byte>, net: Net, kinds: seq<Kind>, t: seq<Byte>)
    decreases |kinds|
  {
    if kinds == [] then s == t
    else
      && NegotiationPacket(kinds[0]) <= s
      && if Upgrades(net, kinds[0])
         then net.unwrap(s[8..]).Success? && Negotiates(net.unwrap(s[8..]).value, net, kinds[1..], t)
         else Negotiates(s[8..], net, kinds[1..], t)
  }

  /** A StartupMessage the proxy takes: its length field is its length, version 3.0, and it names a database. */
  predicate WellFormedStartup(raw: seq<Byte>) {
    && 8 <= |raw| <= MAX_STARTUP_LEN
    && LengthOf(raw) == |raw|
    && CodeOf(raw) == PROTOCOL_VERSION_3
    && DatabaseOf(raw) != []
  }

  lemma PacketHeader(length: Uint32, code: Uint32, s: seq<Byte>)
    requires PutUint32(length) + PutUint32(code) <= s
    ensures LengthOf(s) == length && CodeOf(s) == code
  {
    var p := PutUint32(length) + PutUint32(code);
    assert s[0..4] == p[0..4] == PutUint32(length);
    assert s[4..8] == p[4..8] == PutUint32(code);
    GetPut(length);
    GetPut(code);
  }

  lemma HeaderOf(s: seq<Byte>)
    requires |s| >= 8
    ensures s[..8] == PutUint32(LengthOf(s)) + PutUint32(CodeOf(s))
  {
    PutGet(s[0..4]);
    PutGet(s[4..8]);
    assert s[..8] == s[0..4] + s[4..8];
  }

  lemma ParseStep(s: seq<Byte>, net: Net, room: nat, kind: Kind, next: seq<Byte>)
    requires net.Shrinks() && room > 0 && NegotiationPacket(kind) <= s
    requires if Upgrades(net, kind) then net.unwrap(s[8..]) == Success(next) else s[8..] == next
    ensures var later := Parse(next, net, room - 1);
      Parse(s, net, room) ==
      Outcome(later.final, Upgrades(net, kind) || later.encrypted, [Reply(net, kind)] + later.replies)
  {
    PacketHeader(8, Code(kind), s);
  }

  /** What a run of negotiation packets adds to the outcome of what follows it. */
  function Negotiated(net: Net, kinds: seq<Kind>, later: Outcome): Outcome {
    Outcome(later.final, (net.tls && SSL in kinds) || later.encrypted, Replies(net, kinds) + later.replies)
  }

  lemma NegotiatedCons(net: Net, kind: Kind, kinds: seq<Kind>, later: Outcome)
    ensures var o := Negotiated(net, kinds, later);
      Negotiated(net, [kind] + kinds, later)
      == Outcome(o.final, Upgrades(net, kind) || o.encrypted, [Reply(net, kind)] + o.replies)
  {
    assert Replies(net, [kind] + kinds) == [Reply(net, kind)] + Replies(net, kinds);
    assert SSL in [kind] + kinds <==> kind == SSL || SSL in kinds;
  }

  /** Negotiation packets only move Parse along: what follows them decides, and each got its one reply. */
  lemma {:induction false} ParseNegotiated(s: seq<Byte>, net: Net, room: nat, kinds: seq<Kind>, t: seq<Byte>)
    requires net.Shrinks() && Negotiates(s, net, kinds, t) && |kinds| <= room
    ensures Parse(s, net, room) == Negotiated(net, kinds, Parse(t, net, room - |kinds|))
    decreases |kinds|
  {
    if kinds != [] {
      var kind := kinds[0];
      var next := if Upgrades(net, kind) then net.unwrap(s[8..]).value else s[8..];
      ParseStep(s, net, room, kind, next);
      ParseNegotiated(next, net, room - 1, kinds[1..], t);
      NegotiatedCons(net, kind, kinds[1..], Parse(t, net, room - |kinds|));
      assert kinds == [kind] + kinds[1..];
    }
  }

  /** Everything Parse accepts was negotiated packet by packet up to a well-formed StartupMessage. */
  lemma {:induction false} AcceptedWasNegotiated(s: seq<Byte>, net: Net, room: nat) returns (kinds: seq<Kind>)
    requires net.Shrinks() && !Parse(s, net, room).final.Rejected?
    ensures |kinds| <= room
    ensures var f := Parse(s, net, room).final;
      if f.Accepted? then WellFormedStartup(f.raw) && Negotiates(s, net, kinds, f.raw + f.rest)
      else Negotiates(s, net, kinds, CancelPacket(f.pid, f.secret) + f.rest)
    decreases |s|
  {
    HeaderOf(s);
    if IsNegotiation(CodeOf(s)) {
      var kind := KindOf(CodeOf(s));
      var next := if Upgrades(net, kind) then net.unwrap(s[8..]).value else s[8..];
      kinds := AcceptedWasNegotiated(next, net, room - 1);
      kinds := [kind] + kinds;
    } else {
      kinds := [];
      FinalIsPacket(s);
    }
  }

  lemma FinalIsPacket(s: seq<Byte>)
    requires |s| >= 8
    ensures var f := FinalOf(s);
      match f
      case Accepted(raw, _, _, rest) => WellFormedStartup(raw) && s == raw + rest
      case Cancelled(pid, secret, rest) => s == CancelPacket(pid, secret) + rest
      case Rejected(_) => true
  {
    var f := FinalOf(s);
    if f.Accepted? {
      assert f.raw[0..4] == s[0..4] && f.raw[4..8] == s[4..8];
    } else if f.Cancelled? {
      HeaderOf(s);
      PutGet(s[8..12]);
      PutGet(s[12..16]);
      assert s == s[..8] + s[8..12] + s[12..16] + s[16..];
    }
  }

  /**
   * readStartup accepts exactly the well-formed startups: the packet is handed on byte for byte, what lies
   * beyond its declared length stays unread, every negotiation packet before it took eight bytes and drew one
   * reply, and `encrypted` records that one of them replaced the reader.
   */
  lemma AcceptsExactly(s: seq<Byte>, net: Net, room: nat, raw: seq<Byte>, rest: seq<Byte>)
    requires net.Shrinks()
    ensures (exists d, u :: Parse(s, net, room).final == Accepted(raw, d, u, rest))
       <==> (exists kinds :: |kinds| <= room && Negotiates(s, net, kinds, raw + rest)) && WellFormedStartup(raw)
    ensures forall kinds :: |kinds| <= room && WellFormedStartup(raw) && Negotiates(s, net, kinds, raw + rest) ==>
      Parse(s, net, room) == Outcome(Accepted(raw, DatabaseOf(raw), UserOf(raw), rest),
                                     net.tls && SSL in kinds, Replies(net, kinds))
  {
    if exists d, u :: Parse(s, net, room).final == Accepted(raw, d, u, rest) {
      var kinds := AcceptedWasNegotiated(s, net, room);
    }
    forall kinds | |kinds| <= room && WellFormedStartup(raw) && Negotiates(s, net, kinds, raw + rest)
      ensures Parse(s, net, room) == Outcome(Accepted(raw, DatabaseOf(raw), UserOf(raw), rest),
                                     net.tls && SSL in kinds, Replies(net, kinds))
    {
      ParseNegotiated(s, net, room, kinds, raw + rest);
      ParseFinal(raw, rest, net, room - |kinds|);
    }
  }

  lemma ParseFinal(raw: seq<Byte>, rest: seq<Byte>, net: Net, room: nat)
    requires net.Shrinks() && WellFormedStartup(raw)
    ensures Parse(raw + rest, net, room) == Outcome(Accepted(raw, DatabaseOf(raw), UserOf(raw), rest), false, [])
  {
    var s := raw + rest;
    assert s[0..4] == raw[0..4] && s[4..8] == raw[4..8];
    assert s[..|raw|] == raw && s[|raw|..] == rest;
  }

  /** A client that asks for `kinds` in the clear and then cancels is understood, whatever it sends behind that. */
  lemma CancelUnderstood(
    s: seq<Byte>, net: Net, room: nat, kinds: seq<Kind>, pid: Uint32, secret: Uint32, rest: seq<Byte>)
    requires net.Shrinks() && |kinds| <= room
    requires Negotiates(s, net, kinds, CancelPacket(pid, secret) + rest)
    ensures Parse(s, net, room).final == Cancelled(pid, secret, rest)
    ensures Parse(s, net, room).replies == Replies(net, kinds)
  {
    var packet := CancelPacket(pid, secret);
    var t := packet + rest;
    ParseNegotiated(s, net, room, kinds, t);
    PacketHeader(16, CANCEL_REQUEST_CODE, packet);
    assert t[0..4] == packet[0..4] && t[4..8] == packet[4..8] && t[16..] == rest;
    assert t[8..12] == PutUint32(pid) && t[12..16] == PutUint32(secret);
    GetPut(pid);
    GetPut(secret);
  }

  lemma StartupPacketParts(parts: seq<CString>)
    requires AllCarried(parts) && |Encode(parts)| + 9 <= MAX_STARTUP_LEN
    ensures var raw := StartupPacket(parts);
      && |raw| == |Encode(parts)| + 9
      && LengthOf(raw) == |raw| && CodeOf(raw) == PROTOCOL_VERSION_3
      && UserOf(raw) == LastWins(parts, USER)
      && DatabaseOf(raw) == OrElse(LastWins(parts, DATABASE), LastWins(parts, USER))
  {
    var raw := StartupPacket(parts);
    PacketHeader(|Encode(parts)| + 9, PROTOCOL_VERSION_3, raw);
    assert raw[8..] == Encode(parts) + [0] + [];
    ParamsRoundTrip(parts, []);
  }

  /** The packet a client builds from a parameter list is accepted iff the list names a database or a user. */
  lemma StartupRoundTrip(parts: seq<CString>, rest: seq<Byte>, net: Net, room: nat)
    requires net.Shrinks()
    requires AllCarried(parts) && |Encode(parts)| + 9 <= MAX_STARTUP_LEN
    ensures var database := OrElse(LastWins(parts, DATABASE), LastWins(parts, USER));
      Parse(StartupPacket(parts) + rest, net, room) ==
      Outcome(if database == [] then Rejected(NoDatabase)
              else Accepted(StartupPacket(parts), database, LastWins(parts, USER), rest), false, [])
  {
    var raw := StartupPacket(parts);
    var s := raw + rest;
    StartupPacketParts(parts);
    assert s[0..4] == raw[0..4] && s[4..8] == raw[4..8];
    assert s[..|raw|] == raw && s[|raw|..] == rest;
  }
}
