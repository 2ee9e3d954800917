/** ProxyFilter.Handshake: the backend's startup, forwarded frame by frame with its cancel key swapped. */
module Handshake {
  import opened Bytes
  import opened Streams
  import opened Strings
  import opened Startup
  import opened Frames
  import opened Cancel

  method ReadFrame(src: Source) returns (err: HandshakeError, header: array<Byte>, payload: array<Byte>)
    modifies src
    ensures fresh(header) && fresh(payload)
    ensures err.NoError? <==> StartsWhole(old(src.data))
    ensures err.NoError? ==>
      && header[..] == old(src.data)[..5]
      && payload[..] == FirstFrame(old(src.data)).payload
      && src.data == old(src.data)[1 + HeaderLength(old(src.data))..]
    ensures !err.NoError? ==>
      && ScanFrames(old(src.data)).frames == []
      && err == ErrorOf(ScanFrames(old(src.data)).end) && src.data == ScanFrames(old(src.data)).rest
  {
    ghost var s := src.data;
    header, payload := new Byte[5], new Byte[0];
    var status := src.ReadFull(header);
    if status.Short? {
      return ReadFailed(status.error), header, payload;
    }
    assert header[1..5] == header[..][1..5] == s[1..5];
    var length := GetUint32(header[1..5]);
    if length < 4 || length - 4 > MAX_HANDSHAKE_MSG_LEN {
      return BadLength(length), header, payload;
    }
    payload := new Byte[length - 4];
    status := src.ReadFull(payload);
    if status.Short? {
      return ReadFailed(status.error), header, payload;
    }
    err := NoError;
  }

  /** The rewrite of a BackendKeyData payload, in place. */
  method SwapKey(payload: array<Byte>, swap: KeySwap)
    requires payload.Length == 8
    requires swap.Valid() && |swap.reg.live| < KEY_SPACE
    modifies payload, swap, swap.reg
    ensures swap.Valid()
    ensures swap.reals == old(swap.reals) + [old(payload[..])]
    ensures swap.issued == old(swap.issued) + [payload[..]]
    ensures payload[..] !in old(swap.reg.live)
    ensures swap.reg.live == old(swap.reg.live)[payload[..] := Target(swap.socket, old(payload[..]))]
  {
    var realPid, realSecret := GetUint32(payload[0..4]), GetUint32(payload[4..8]);
    PutGet(payload[0..4]);
    PutGet(payload[4..8]);
    assert payload[..] == payload[0..4] + payload[4..8];
    var newPid, newSecret := swap.RewriteKey(realPid, realSecret);
    Put(payload, 0, newPid);
    ghost var first := payload[0..4];
    Put(payload, 4, newSecret);
    assert payload[0..4] == first;
    assert payload[..] == payload[0..4] + payload[4..8];
  }

  lemma {:induction false} PrefixIsShorter(part: seq<Frame>, whole: seq<Frame>)
    requires AllPlausible(whole) && part <= whole
    ensures |EncodeAll(part)| <= |EncodeAll(whole)|
  {
    if part != [] {
      PrefixIsShorter(part[1..], whole[1..]);
    }
  }

  /** One more frame, forwarded with the keys handed out so far. */
  lemma OneMore(done: seq<Frame>, keys: seq<Key>, frame: Frame, keys': seq<Key>, sent: seq<Byte>)
    requires AllPlausible(done) && frame.Plausible() && AllKeys(keys) && |keys| == CountKeys(done)
    requires if frame.HoldsKey() then exists k :: |k| == 8 && keys' == keys + [k] else keys' == keys
    requires sent == if frame.HoldsKey() then Frame(frame.typ, keys'[|keys|]).Encoded() else frame.Encoded()
    ensures AllPlausible(Rewrite(done, keys)) && AllPlausible(Rewrite(done + [frame], keys'))
    ensures EncodeAll(Rewrite(done + [frame], keys')) == EncodeAll(Rewrite(done, keys)) + sent
    ensures |keys'| == CountKeys(done + [frame]) && AllKeys(keys')
    ensures |EncodeAll(done + [frame])| == |EncodeAll(done)| + |sent|
  {
    RewriteKeepsShape(done, keys);
    RewriteSnoc(done, keys, frame);
    CountKeysSnoc(done, frame);
    EncodeAllSnoc(done, frame);
    if frame.HoldsKey() {
      var k :| |k| == 8 && keys' == keys + [k];
      EncodeAllSnoc(Rewrite(done, keys), Frame(frame.typ, k));
    } else {
      EncodeAllSnoc(Rewrite(done, keys), frame);
    }
  }

  lemma ClipTwo(a: seq<Byte>, b: seq<Byte>, room: nat, received: seq<Byte>)
    ensures |a| <= room ==>
      && received + Clip(a + b, room) == received + Clip(a, room) + Clip(b, room - |a|)
      && |Clip(a + b, room)| == |a| + |Clip(b, room - |a|)|
    ensures |a| > room ==> Clip(a + b, room) == Clip(a, room)
  {
    if |a| <= room {
      assert Clip(a + b, room) == a + Clip(b, room - |a|);
    }
  }

  /**
   * Header and payload go out in two writes; together they are one frame, cut where the client stops listening.
   */
  method WriteFrame(dst: Sink, header: array<Byte>, payload: array<Byte>) returns (ok: bool)
    modifies dst
    ensures ok <==> header.Length + payload.Length <= old(dst.room)
    ensures dst.received == old(dst.received) + Clip(header[..] + payload[..], old(dst.room))
    ensures dst.room == old(dst.room) - |Clip(header[..] + payload[..], old(dst.room))|
  {
    ClipTwo(header[..], payload[..], dst.room, dst.received);
    ok := dst.Write(header[..]);
    if ok {
      ok := dst.Write(payload[..]);
    }
  }

  /** What the keys registered for the frames taken so far have made of the registry. */
  ghost predicate Registered(swap: KeySwap, before: map<Key, Target>, taken: seq<Frame>)
    reads swap, swap.reg
  {
    && swap.Valid()
    && swap.reals == RealKeys(taken)
    && AllKeys(swap.issued)
    && Unused(before, swap.issued)
    && swap.reg.live == Issue(before, swap.socket, swap.reals, swap.issued)
  }

  lemma RegisterOneMore(before: map<Key, Target>, socket: string, taken: seq<Frame>, frame: Frame,
                        keys: seq<Key>, key: Key)
    requires frame.HoldsKey() && |key| == 8
    requires |keys| == CountKeys(taken) && Unused(before, keys)
    requires key !in Issue(before, socket, RealKeys(taken), keys)
    ensures Unused(before, keys + [key])
    ensures RealKeys(taken + [frame]) == RealKeys(taken) + [frame.payload]
    ensures Issue(before, socket, RealKeys(taken + [frame]), keys + [key])
         == Issue(before, socket, RealKeys(taken), keys)[key := Target(socket, frame.payload)]
  {
    RealKeysSnoc(taken, frame);
    IssueKeys(before, socket, RealKeys(taken), keys);
    var reals, more := RealKeys(taken + [frame]), keys + [key];
    assert more[..|keys|] == keys && reals[..|keys|] == RealKeys(taken);
  }

  /** How the frame leaves the proxy. */
  function Outgoing(frame: Frame, key: Key): seq<Byte>
    requires frame.Plausible() && |key| == 8
  {
    if frame.HoldsKey() then Frame(frame.typ, key).Encoded() else frame.Encoded()
  }

  /** One turn of forwardHandshake's loop. */
  method ForwardOne(dst: Sink, src: Source, swap: KeySwap)
    returns (err: HandshakeError, msgType: Byte, ghost key: Key)
    requires swap.Valid() && |swap.reg.live| < KEY_SPACE
    modifies dst, src, swap, swap.reg
    ensures swap.Valid() && |key| == 8
    ensures err.NoError? || err.ClientGone? <==> StartsWhole(old(src.data))
    ensures StartsWhole(old(src.data)) ==>
      var s := old(src.data); var frame := FirstFrame(s); var out := Outgoing(frame, key);
      && msgType == frame.typ
      && src.data == s[1 + HeaderLength(s)..]
      && (err.ClientGone? <==> |out| > old(dst.room))
      && dst.received == old(dst.received) + Clip(out, old(dst.room))
      && dst.room == old(dst.room) - |Clip(out, old(dst.room))|
      && swap.issued == old(swap.issued) + (if frame.HoldsKey() then [key] else [])
      && swap.reals == old(swap.reals) + (if frame.HoldsKey() then [frame.payload] else [])
      && (frame.HoldsKey() ==> key !in old(swap.reg.live))
      && swap.reg.live == if frame.HoldsKey()
           then old(swap.reg.live)[key := Target(swap.socket, frame.payload)] else old(swap.reg.live)
    ensures !StartsWhole(old(src.data)) ==>
      && err == ErrorOf(ScanFrames(old(src.data)).end) && src.data == ScanFrames(old(src.data)).rest
      && ScanFrames(old(src.data)).frames == []
      && dst.received == old(dst.received) && dst.room == old(dst.room)
      && swap.issued == old(swap.issued) && swap.reals == old(swap.reals) && swap.reg.live == old(swap.reg.live)
  {
    ghost var s := src.data;
    key := KeyNumber(0);
    var fault, header, payload := ReadFrame(src);
    if !fault.NoError? {
      return fault, 0, key;
    }
    msgType := header[0];
    SplitOne(s);
    ghost var frame := FirstFrame(s);
    if msgType == BACKEND_KEY_DATA && payload.Length == 8 {
      SwapKey(payload, swap);
      key := payload[..];
    }
    assert header[..] + payload[..] == Outgoing(frame, key);
    var ok := WriteFrame(dst, header, payload);
    err := if ok then NoError else ClientGone;
  }

  /** The client has been sent the frames taken, keys swapped, up to the room it had. */
  predicate Delivered(received: seq<Byte>, room: nat, taken: seq<Frame>, keys: seq<Key>, now: seq<Byte>, left: nat)
    requires AllPlausible(taken) && AllKeys(keys)
  {
    var out := EncodeSwapped(taken, keys);
    now == received + Clip(out, room) && left == room - |Clip(out, room)|
  }

  function EncodeSwapped(taken: seq<Frame>, keys: seq<Key>): (out: seq<Byte>)
    requires AllPlausible(taken) && AllKeys(keys)
    ensures |out| == |EncodeAll(taken)|
  {
    RewriteKeepsShape(taken, keys);
    EncodeAll(Rewrite(taken, keys))
  }

  /**
   * How a forwarded startup turned out, given what the backend sent and how much the client took. A client that is gone
   * went in the middle of the last frame taken.
   */
  predicate Concluded(scan: Scan, room: nat, taken: seq<Frame>, ready: bool, err: HandshakeError, rest: seq<Byte>)
    requires AllPlausible(scan.frames) && AllPlausible(taken)
  {
    && taken <= scan.frames
    && (err.ClientGone? <==> |EncodeAll(scan.frames)| > room)
    && (err.ClientGone? ==> taken != [] && |EncodeAll(taken)| > room >= |EncodeAll(taken[..|taken| - 1])|)
    && (!err.ClientGone? ==> taken == scan.frames && rest == scan.rest && err == ErrorOf(scan.end))
    && (ready <==> !err.ClientGone? && scan.end.Ready?)
  }

  lemma DeliverOneMore(received: seq<Byte>, room: nat, done: seq<Frame>, keys: seq<Key>, now: seq<Byte>, left: nat,
                       frame: Frame, key: Key)
    requires AllPlausible(done) && frame.Plausible() && |keys| == CountKeys(done) && AllKeys(keys) && |key| == 8
    requires Delivered(received, room, done, keys, now, left) && |EncodeAll(done)| <= room
    ensures var out := Outgoing(frame, key); var keys' := keys + (if frame.HoldsKey() then [key] else []);
      && Delivered(received, room, done + [frame], keys', now + Clip(out, left), left - |Clip(out, left)|)
      && (|out| > left <==> |EncodeAll(done + [frame])| > room)
  {
    var out, keys' := Outgoing(frame, key), keys + (if frame.HoldsKey() then [key] else []);
    var sent := EncodeSwapped(done, keys);
    OneMore(done, keys, frame, keys', out);
    assert EncodeSwapped(done + [frame], keys') == sent + out;
    ClipTwo(sent, out, room, received);
  }

  /** The frames taken and those still in `data` make up the scan. */
  predicate Remaining(scan: Scan, taken: seq<Frame>, data: seq<Byte>) {
    && AllPlausible(taken)
    && taken <= scan.frames && ScanFrames(data).frames == scan.frames[|taken|..]
    && scan.end == ScanFrames(data).end && scan.rest == ScanFrames(data).rest
  }

  /** Where one turn leaves the scan: no whole frame, client gone, an ending frame, or one frame further on. */
  lemma Turn(scan: Scan, room: nat, done: seq<Frame>, s: seq<Byte>)
    requires AllPlausible(scan.frames) && Remaining(scan, done, s) && |EncodeAll(done)| <= room
    ensures !StartsWhole(s) ==>
      Concluded(scan, room, done, false, ErrorOf(ScanFrames(s).end), ScanFrames(s).rest)
    ensures StartsWhole(s) ==>
      var frame, rest := FirstFrame(s), s[1 + HeaderLength(s)..];
      var taken := done + [frame];
      && AllPlausible(taken)
      && (|EncodeAll(taken)| > room ==> Concluded(scan, room, taken, false, ClientGone, rest))
      && (|EncodeAll(taken)| <= room && frame.Ends() ==>
            Concluded(scan, room, taken, frame.typ == READY_FOR_QUERY, NoError, rest))
      && (|EncodeAll(taken)| <= room && !frame.Ends() ==> Remaining(scan, taken, rest))
  {
    if StartsWhole(s) {
      var frame, rest := FirstFrame(s), s[1 + HeaderLength(s)..];
      var taken := done + [frame];
      assert scan.frames == done + ScanFrames(s).frames;
      assert frame.Ends() ==> scan.frames == taken;
      PrefixIsShorter(taken, scan.frames);
    } else {
      assert scan.frames == done;
    }
  }

  lemma RegisteredOneMore(swap: KeySwap, before: map<Key, Target>, done: seq<Frame>, keys: seq<Key>,
                          frame: Frame, key: Key)
    requires |key| == 8 && |keys| == CountKeys(done) && AllKeys(keys) && Unused(before, keys)
    requires swap.Valid()
    requires swap.issued == keys + (if frame.HoldsKey() then [key] else [])
    requires swap.reals == RealKeys(done) + (if frame.HoldsKey() then [frame.payload] else [])
    requires var live := Issue(before, swap.socket, RealKeys(done), keys);
      && (frame.HoldsKey() ==> key !in live)
      && swap.reg.live == if frame.HoldsKey() then live[key := Target(swap.socket, frame.payload)] else live
    ensures Registered(swap, before, done + [frame])
  {
    if frame.HoldsKey() {
      RegisterOneMore(before, swap.socket, done, frame, keys, key);
    } else {
      assert swap.issued == keys && swap.reals == RealKeys(done);
      RealKeysSnoc(done, frame);
    }
  }

  /** One turn of the loop with its bookkeeping: it decides the outcome, or moves one frame on. */
  method ForwardTurn(dst: Sink, src: Source, swap: KeySwap, ghost scan: Scan, ghost before: map<Key, Target>,
                     ghost received: seq<Byte>, ghost room: nat, ghost done: seq<Frame>)
    returns (outcome: Option<(bool, HandshakeError)>, ghost taken: seq<Frame>)
    requires AllPlausible(scan.frames) && Remaining(scan, done, src.data) && |EncodeAll(done)| <= room
    requires Registered(swap, before, done) && |swap.reg.live| < KEY_SPACE
    requires Delivered(received, room, done, swap.issued, dst.received, dst.room)
    modifies dst, src, swap, swap.reg
    ensures AllPlausible(taken) && Registered(swap, before, taken)
    ensures Delivered(received, room, taken, swap.issued, dst.received, dst.room)
    ensures outcome.Some? ==> Concluded(scan, room, taken, outcome.value.0, outcome.value.1, src.data)
    ensures outcome.None? ==>
      && Remaining(scan, taken, src.data) && |EncodeAll(taken)| <= room
      && |src.data| < |old(src.data)|
      && |swap.reg.live| + |src.data| <= |old(swap.reg.live)| + |old(src.data)|
  {
    ghost var s, keys := src.data, swap.issued;
    ghost var now, left := dst.received, dst.room;
    var fault, msgType, key := ForwardOne(dst, src, swap);
    Turn(scan, room, done, s);
    taken := done;
    if !fault.NoError? && !fault.ClientGone? {
      return Some((false, fault)), taken;
    }
    ghost var frame := FirstFrame(s);
    taken := done + [frame];
    RegisteredOneMore(swap, before, done, keys, frame, key);
    DeliverOneMore(received, room, done, keys, now, left, frame, key);
    if fault.ClientGone? {
      return Some((false, ClientGone)), taken;
    }
    outcome := if msgType == READY_FOR_QUERY then Some((true, NoError))
               else if msgType == ERROR_RESPONSE then Some((false, NoError))
               else None;
  }

  /**
   * forwardHandshake. `taken` are the frames it began to forward: all those of the scan, unless the client stops
   * listening first.
   */
  method ForwardHandshake(dst: Sink, src: Source, swap: KeySwap)
    returns (ready: bool, err: HandshakeError, ghost taken: seq<Frame>)
    requires swap.Valid() && swap.issued == []
    requires |swap.reg.live| + |src.data| < KEY_SPACE
    modifies dst, src, swap, swap.reg
    ensures AllPlausible(taken)
    ensures Registered(swap, old(swap.reg.live), taken)
    ensures Delivered(old(dst.received), old(dst.room), taken, swap.issued, dst.received, dst.room)
    ensures Concluded(ScanFrames(old(src.data)), old(dst.room), taken, ready, err, src.data)
  {
    ghost var scan, before := ScanFrames(src.data), swap.reg.live;
    ghost var received, room := dst.received, dst.room;
    taken := [];
    while true
      invariant Registered(swap, before, taken)
      invariant |swap.reg.live| + |src.data| < KEY_SPACE
      invariant Remaining(scan, taken, src.data) && |EncodeAll(taken)| <= room
      invariant Delivered(received, room, taken, swap.issued, dst.received, dst.room)
      decreases |src.data|
    {
      var outcome;
      outcome, taken := ForwardTurn(dst, src, swap, scan, before, received, room, taken);
      if outcome.Some? {
        return outcome.value.0, outcome.value.1, taken;
      }
    }
  }

  /**
   * forwardHandshake refines parse, swap, serialise: given a backend's startup, the client receives exactly those
   * frames with their keys swapped, nothing after them is read, and `ready` holds for ReadyForQuery alone.
   */
  lemma ForwardsStartup(frames: seq<Frame>, later: seq<Byte>, received: seq<Byte>, room: nat, taken: seq<Frame>,
                        keys: seq<Key>, now: seq<Byte>, left: nat, ready: bool, err: HandshakeError, rest: seq<Byte>)
    requires IsStartup(frames) && |EncodeAll(frames)| <= room
    requires AllPlausible(taken) && AllKeys(keys) && Delivered(received, room, taken, keys, now, left)
    requires Concluded(ScanFrames(EncodeAll(frames) + later), room, taken, ready, err, rest)
    ensures taken == frames && rest == later && err == NoError
    ensures AllPlausible(Rewrite(frames, keys)) && now == received + EncodeAll(Rewrite(frames, keys))
    ensures ready <==> frames[|frames| - 1].typ == READY_FOR_QUERY
  {
    ScanEncoded(frames, later);
    RewriteKeepsShape(frames, keys);
  }

  /** ProxyFilter.Handshake; the returned swap carries the cleanup of a ready connection. */
  method Handshake(client: Sink, backend: Source, socket: string, reg: Registry)
    returns (ready: bool, cleanup: KeySwap?, err: HandshakeError, ghost taken: seq<Frame>, ghost keys: seq<Key>)
    requires |reg.live| + |backend.data| < KEY_SPACE
    modifies client, backend, reg
    ensures AllPlausible(taken) && AllKeys(keys) && |keys| == CountKeys(taken) && Unused(old(reg.live), keys)
    ensures Delivered(old(client.received), old(client.room), taken, keys, client.received, client.room)
    ensures Concluded(ScanFrames(old(backend.data)), old(client.room), taken, ready, err, backend.data)
    ensures ready ==> reg.live == Issue(old(reg.live), socket, RealKeys(taken), keys)
    ensures ready ==> cleanup != null && fresh(cleanup) && cleanup.Valid() && cleanup.reg == reg && cleanup.issued == keys
    ensures !ready ==> cleanup == null && reg.live == AfterCleanup(old(reg.live), socket, RealKeys(taken), keys)
    ensures !ready ==> (reg.live == old(reg.live) <==> CountKeys(taken) <= 1)
  {
    ghost var before := reg.live;
    var swap := new KeySwap(reg, socket);
    ready, err, taken := ForwardHandshake(client, backend, swap);
    keys := swap.issued;
    CleanupRestores(before, socket, RealKeys(taken), keys);
    if !err.NoError? || !ready {
      swap.Cleanup();
      return false, null, err, taken, keys;
    }
    cleanup := swap;
  }

  /** A ready connection whose cleanup runs before anyone else touches the registry. */
  method HandshakeAndClose(client: Sink, backend: Source, socket: string, reg: Registry) returns (ghost taken: seq<Frame>)
    requires |reg.live| + |backend.data| < KEY_SPACE
    modifies client, backend, reg
    ensures taken <= ScanFrames(old(backend.data)).frames
    ensures reg.live == old(reg.live) <==> CountKeys(taken) <= 1
  {
    ghost var before := reg.live;
    var ready, cleanup, err, frames, keys := Handshake(client, backend, socket, reg);
    CleanupRestores(before, socket, RealKeys(frames), keys);
    if ready {
      cleanup.Cleanup();
    }
    taken := frames;
  }

  // ----- Routing

  datatype Delivery = Delivery(socket: string, packet: seq<Byte>)

  /** The CancelRequest routeCancel sends on, if any. */
  function Route(live: map<Key, Target>, pid: Uint32, secret: Uint32): Option<Delivery> {
    var key := PutUint32(pid) + PutUint32(secret);
    if key !in live || |live[key].key| != 8 then None
    else
      var own := live[key].key;
      Some(Delivery(live[key].socket, CancelPacket(GetUint32(own[0..4]), GetUint32(own[4..8]))))
  }

  /** routeCancel; `dials` says whether the backend socket answers. */
  method RouteCancel(reg: Registry, pid: Uint32, secret: Uint32, dials: bool) returns (sent: Option<Delivery>)
    ensures sent == if dials then Route(reg.live, pid, secret) else None
  {
    var key := PutUint32(pid) + PutUint32(secret);
    var target := reg.Lookup(key);
    if target.None? || |target.value.key| != 8 {
      return None;
    }
    if !dials {
      return None;
    }
    var realPid := GetUint32(target.value.key[0..4]);
    var realSecret := GetUint32(target.value.key[4..8]);
    var packet := BuildCancelRequest(realPid, realSecret);
    sent := Some(Delivery(target.value.socket, packet[..]));
  }
}
