/** readStartup over a connection whose reader a TLS upgrade replaces. */
module Session {
  import opened Bytes
  import opened Sequences
  import opened Streams
  import opened StartupParams
  import opened Strings
  import opened Startup

  /** A net.Conn as the server holds it; a TLS connection reads its own plaintext and replies to the same client. */
  class Conn {
    const source: Source
    const sink: Sink

    constructor (source: Source, sink: Sink)
      ensures this.source == source && this.sink == sink
    {
      this.source, this.sink := source, sink;
    }
  }

  /** readStartup together with the negotiation closure Preamble hands it; `cur` is the connection in use. */
  class ClientSession {
    const net: Net
    var cur: Conn

    constructor (net: Net, client: Conn)
      ensures this.net == net && cur == client
    {
      this.net, cur := net, client;
    }

    /** The closure: 'S' and a TLS server on top, or 'N'. */
    method Negotiate(kind: Kind) returns (result: Result<Conn, NegotiationError>)
      requires net.Shrinks()
      modifies this, cur.source, cur.sink
      ensures old(cur.sink.room) == 0 ==> result == Failure(WriteFailed)
      ensures old(cur.sink.room) > 0 && Upgrades(net, kind) && net.unwrap(old(cur.source.data)).Failure? ==>
        result == Failure(HandshakeFailed(net.unwrap(old(cur.source.data)).error))
      ensures result.Success? <==>
        (old(cur.sink.room) > 0 && (Upgrades(net, kind) ==> net.unwrap(old(cur.source.data)).Success?))
      ensures result.Success? ==> cur == result.value
      ensures result.Failure? ==> cur == old(cur)
      ensures result.Success? && Upgrades(net, kind) ==>
        && fresh(cur) && fresh(cur.source)
        && cur.source.data == net.unwrap(old(cur.source.data)).value
      ensures result.Success? && !Upgrades(net, kind) ==> cur == old(cur) && cur.source.data == old(cur.source.data)
      ensures cur.sink == old(cur.sink)
      ensures old(cur.sink.room) == 0 ==> cur.sink.room == 0 && cur.sink.received == old(cur.sink.received)
      ensures old(cur.sink.room) > 0 ==>
        && cur.sink.room == old(cur.sink.room) - 1
        && cur.sink.received == old(cur.sink.received) + [Reply(net, kind)]
    {
      if kind.SSL? && net.tls {
        var written := cur.sink.Write([REPLY_YES]);
        if !written {
          return Failure(WriteFailed);
        }
        var plain := net.unwrap(cur.source.data);
        cur.source.data := [];
        if plain.Failure? {
          return Failure(HandshakeFailed(plain.error));
        }
        var inner := new Source(plain.value);
        cur := new Conn(inner, cur.sink);
        return Success(cur);
      }
      var written := cur.sink.Write([REPLY_NO]);
      if !written {
        return Failure(WriteFailed);
      }
      return Success(cur);
    }

    /** One turn of readStartup's loop: a negotiation packet answered (None), or the verdict. */
    method ReadPacket() returns (verdict: Option<Final>, upgraded: bool, ghost reply: seq<Byte>)
      requires net.Shrinks()
      modifies this, cur.source, cur.sink
      ensures cur.sink == old(cur.sink)
      ensures cur == old(cur) || (fresh(cur) && fresh(cur.source))
      ensures cur.sink.received == old(cur.sink.received) + reply
      ensures cur.sink.room == old(cur.sink.room) - |reply|
      ensures verdict.None? ==> |cur.source.data| < |old(cur.source.data)|
      ensures Parse(old(cur.source.data), net, old(cur.sink.room)) ==
        if verdict.Some? then Outcome(verdict.value, false, reply)
        else Prefixed(upgraded, reply, Parse(cur.source.data, net, cur.sink.room))
      ensures verdict.Some? && !verdict.value.Rejected? ==> cur.source.data == verdict.value.rest
    {
      var r := cur;
      ghost var s, room := r.source.data, r.sink.room;
      reply, upgraded := [], false;
      var status, header, length, code := ReadHeader(r.source);
      if status.Short? {
        return Some(Rejected(ShortPreamble(status.error))), false, [];
      }
      if IsNegotiation(code) {
        if length != 8 {
          return Some(Rejected(MalformedNegotiation(length))), false, [];
        }
        HeaderOf(s);
        var next := Negotiate(KindOf(code));
        reply := if room == 0 then [] else [Reply(net, KindOf(code))];
        if next.Failure? {
          return Some(Rejected(NegotiationFailed(next.error))), false, reply;
        }
        upgraded := next.value != r;
        ParseStep(s, net, room, KindOf(code), cur.source.data);
        return None, upgraded, reply;
      }
      var final;
      if code == CANCEL_REQUEST_CODE {
        final := ReadCancel(r.source, length, s);
      } else {
        final := ReadMessage(r.source, header, length, s);
      }
      verdict := Some(final);
    }

    /** readStartup */
    method ReadStartup() returns (final: Final, encrypted: bool)
      requires net.Shrinks()
      modifies this, cur.source, cur.sink
      ensures cur.sink == old(cur.sink)
      ensures cur == old(cur) || (fresh(cur) && fresh(cur.source))
      ensures var outcome := Parse(old(cur.source.data), net, old(cur.sink.room));
        && final == outcome.final && encrypted == outcome.encrypted
        && cur.sink.received == old(cur.sink.received) + outcome.replies
        && cur.sink.room == old(cur.sink.room) - |outcome.replies|
      ensures !final.Rejected? ==> cur.source.data == final.rest
    {
      encrypted := false;
      ghost var sent: seq<Byte> := [];
      ghost var whole := Parse(cur.source.data, net, cur.sink.room);
      while true
        invariant cur.sink == old(cur.sink)
        invariant cur == old(cur) || (fresh(cur) && fresh(cur.source))
        invariant cur.sink.received == old(cur.sink.received) + sent
        invariant cur.sink.room == old(cur.sink.room) - |sent|
        invariant whole == Prefixed(encrypted, sent, Parse(cur.source.data, net, cur.sink.room))
        decreases |cur.source.data|
      {
        var verdict, upgraded, reply := ReadPacket();
        Associative(old(cur.sink.received), sent, reply);
        if verdict.Some? {
          sent := sent + reply;
          return verdict.value, encrypted;
        }
        PrefixedTwice(encrypted, sent, upgraded, reply, Parse(cur.source.data, net, cur.sink.room));
        sent := sent + reply;
        encrypted := encrypted || upgraded;
      }
    }
  }

  /** An outcome seen after an upgrade (or none) and some replies. */
  function Prefixed(encrypted: bool, sent: seq<Byte>, later: Outcome): Outcome {
    Outcome(later.final, encrypted || later.encrypted, sent + later.replies)
  }

  lemma PrefixedTwice(encrypted: bool, sent: seq<Byte>, upgraded: bool, reply: seq<Byte>, later: Outcome)
    ensures Prefixed(encrypted, sent, Prefixed(upgraded, reply, later))
         == Prefixed(encrypted || upgraded, sent + reply, later)
  {
    assert sent + (reply + later.replies) == sent + reply + later.replies;
  }

  method ReadHeader(r: Source) returns (status: ReadStatus, header: seq<Byte>, length: Uint32, code: Uint32)
    modifies r
    ensures status == ReadStatusOf(old(r.data), 8)
    ensures r.data == AfterRead(old(r.data), 8)
    ensures status.Filled? ==>
      header == old(r.data)[..8] && length == LengthOf(old(r.data)) && code == CodeOf(old(r.data))
  {
    var buffer := new Byte[8];
    status := r.ReadFull(buffer);
    header := buffer[..];
    length, code := GetUint32(buffer[0..4]), GetUint32(buffer[4..8]);
    assert buffer[0..4] == header[0..4] && buffer[4..8] == header[4..8];
    if status.Filled? {
      assert header[0..4] == old(r.data)[0..4] && header[4..8] == old(r.data)[4..8];
    }
  }

  method ReadCancel(r: Source, length: Uint32, ghost s: seq<Byte>) returns (final: Final)
    requires |s| >= 8 && r.data == s[8..]
    requires CodeOf(s) == CANCEL_REQUEST_CODE && length == LengthOf(s)
    modifies r
    ensures final == FinalOf(s)
    ensures final.Cancelled? ==> r.data == final.rest
  {
    if length != 16 {
      return Rejected(MalformedCancel(length));
    }
    var tail := new Byte[8];
    var status := r.ReadFull(tail);
    if status.Short? {
      return Rejected(ShortCancel(status.error));
    }
    assert tail[0..4] == tail[..][0..4] == s[8..12];
    assert tail[4..8] == tail[..][4..8] == s[12..16];
    final := Cancelled(GetUint32(tail[0..4]), GetUint32(tail[4..8]), r.data);
  }

  lemma WholePacket(s: seq<Byte>, length: nat, header: seq<Byte>, body: seq<Byte>)
    requires 8 <= length <= |s| && header == s[..8] && body == s[8..length]
    ensures header + body == s[..length]
    ensures s[..length][8..] == body && s[..length][4..8] == s[4..8] == header[4..8]
  {
  }

  method ReadMessage(r: Source, header: seq<Byte>, length: Uint32, ghost s: seq<Byte>) returns (final: Final)
    requires |s| >= 8 && r.data == s[8..]
    requires header == s[..8] && length == LengthOf(s)
    requires !IsNegotiation(CodeOf(s)) && CodeOf(s) != CANCEL_REQUEST_CODE
    modifies r
    ensures final == FinalOf(s)
    ensures final.Accepted? ==> r.data == final.rest
  {
    if length < 8 || length > MAX_STARTUP_LEN {
      return Rejected(ImplausibleLength(length));
    }
    var body := new Byte[length - 8];
    var status := r.ReadFull(body);
    if status.Short? {
      return Rejected(ShortBody(status.error));
    }
    var raw := header + body[..];
    WholePacket(s, length, header, body[..]);
    var database, user := [], [];
    if GetUint32(header[4..8]) == PROTOCOL_VERSION_3 {
      database, user := ParseParams(body[..]);
    }
    if database == [] {
      database := user;
    }
    if database == [] {
      return Rejected(NoDatabase);
    }
    final := Accepted(raw, database, user, r.data);
  }
}
