/** Any number of connections sharing one registry, interleaved step by step. */
module CancelProtocol {
  import opened Bytes
  import opened Strings
  import opened Startup
  import opened Frames
  import opened Cancel
  import opened Handshake

  datatype Phase = Shaking | Live | Closed

  /** A proxied connection: what its backend still has to say, what was forwarded, and the keys handed out for it. */
  datatype Link = Link(socket: string, todo: seq<Frame>, end: End, taken: seq<Frame>, keys: seq<Key>, phase: Phase) {
    /** The i-th key has been handed out and not been taken back: cleanup takes back only the last. */
    predicate Holds(i: nat) {
      i < |keys| && (phase != Closed || i + 1 < |keys|)
    }

    predicate WellFormed() {
      |keys| == CountKeys(taken) && AllKeys(keys)
    }

    function TargetOf(i: nat): Target
      requires WellFormed() && i < |keys|
    {
      Target(socket, RealKeys(taken)[i])
    }
  }

  datatype State = State(live: map<Key, Target>, links: map<nat, Link>)

  ghost predicate Init(s: State) {
    s.live == map[] && s.links == map[]
  }

  /** The backend's bytes are fixed when the connection is opened; the scan is what forwarding will see of them. */
  ghost predicate Open(s: State, s': State, c: nat, socket: string, bytes: seq<Byte>) {
    && c !in s.links
    && s' == State(s.live, s.links[c := Link(socket, ScanFrames(bytes).frames, ScanFrames(bytes).end, [], [], Shaking)])
  }

  ghost predicate Forward(s: State, s': State, c: nat, key: Key) {
    && c in s.links && s.links[c].phase == Shaking && s.links[c].todo != []
    && var link := s.links[c];
       var frame := link.todo[0];
       if frame.HoldsKey() then
         && |key| == 8 && key !in s.live
         && s' == State(s.live[key := Target(link.socket, frame.payload)],
                        s.links[c := link.(todo := link.todo[1..], taken := link.taken + [frame], keys := link.keys + [key])])
       else
         s' == State(s.live, s.links[c := link.(todo := link.todo[1..], taken := link.taken + [frame])])
  }

  ghost predicate Becomes(s: State, s': State, c: nat, phase: Phase)
    requires c in s.links
  {
    var link := s.links[c];
    s' == State(if phase != Closed || link.keys == [] then s.live else s.live - {link.keys[|link.keys| - 1]},
                s.links[c := link.(phase := phase)])
  }

  /** The handshake returns: ready, or over. */
  ghost predicate Finish(s: State, s': State, c: nat) {
    && c in s.links && s.links[c].phase == Shaking && s.links[c].todo == []
    && Becomes(s, s', c, if s.links[c].end.Ready? then Live else Closed)
  }

  /** The client goes away mid-handshake, or a ready connection ends; either way cleanup runs. */
  ghost predicate Drop(s: State, s': State, c: nat) {
    && c in s.links && s.links[c].phase != Closed
    && Becomes(s, s', c, Closed)
  }

  ghost predicate Next(s: State, s': State) {
    || (exists c, socket, bytes :: Open(s, s', c, socket, bytes))
    || (exists c, key :: Forward(s, s', c, key))
    || (exists c :: Finish(s, s', c))
    || (exists c :: Drop(s, s', c))
  }

  ghost predicate IsRun(run: seq<State>) {
    && run != [] && Init(run[0])
    && forall i :: 0 <= i < |run| - 1 ==> Next(run[i], run[i + 1])
  }

  ghost predicate Reachable(s: State) {
    exists run :: IsRun(run) && run[|run| - 1] == s
  }

  // ----- The invariant

  ghost predicate Owns(s: State, c: nat, i: nat, key: Key) {
    c in s.links && s.links[c].Holds(i) && s.links[c].keys[i] == key
  }

  /** The registry is exactly the held keys, each standing for its own backend's key and owned by one connection. */
  ghost predicate Inv(s: State) {
    && (forall c :: c in s.links ==> s.links[c].WellFormed())
    && (forall c, i, key :: Owns(s, c, i, key) ==> key in s.live && s.live[key] == s.links[c].TargetOf(i))
    && (forall key :: key in s.live ==> exists c, i :: Owns(s, c, i, key))
    && (forall c, i, d, j, key :: Owns(s, c, i, key) && Owns(s, d, j, key) ==> c == d && i == j)
  }

  lemma OpenKeepsInv(s: State, s': State, c: nat, socket: string, bytes: seq<Byte>)
    requires Inv(s) && Open(s, s', c, socket, bytes)
    ensures Inv(s')
  {
    assert forall d, i, key :: Owns(s', d, i, key) <==> Owns(s, d, i, key);
  }

  /** A frame without a key leaves every claim as it was. */
  lemma ForwardPlainKeepsInv(s: State, s': State, c: nat, key: Key)
    requires Inv(s) && Forward(s, s', c, key) && !s.links[c].todo[0].HoldsKey()
    ensures Inv(s')
  {
    CountKeysSnoc(s.links[c].taken, s.links[c].todo[0]);
    RealKeysSnoc(s.links[c].taken, s.links[c].todo[0]);
    assert forall d, i, k :: Owns(s', d, i, k) <==> Owns(s, d, i, k);
  }

  /** A frame with a key adds one claim, on a key nobody held. */
  lemma ForwardKeyClaims(s: State, s': State, c: nat, key: Key)
    requires Inv(s) && Forward(s, s', c, key) && s.links[c].todo[0].HoldsKey()
    ensures forall d, i, k :: Owns(s', d, i, k) <==> Owns(s, d, i, k) || (d == c && i == |s.links[c].keys| && k == key)
    ensures s'.links[c].WellFormed()
    ensures forall i :: 0 <= i < |s.links[c].keys| ==> s'.links[c].TargetOf(i) == s.links[c].TargetOf(i)
    ensures s'.links[c].TargetOf(|s.links[c].keys|) == s'.live[key]
  {
    CountKeysSnoc(s.links[c].taken, s.links[c].todo[0]);
    RealKeysSnoc(s.links[c].taken, s.links[c].todo[0]);
  }

  lemma ForwardKeyTargets(s: State, s': State, c: nat, key: Key)
    requires Inv(s) && Forward(s, s', c, key) && s.links[c].todo[0].HoldsKey()
    ensures forall d :: d in s'.links ==> s'.links[d].WellFormed()
    ensures forall d, i, k :: Owns(s', d, i, k) ==> k in s'.live && s'.live[k] == s'.links[d].TargetOf(i)
  {
    ForwardKeyClaims(s, s', c, key);
    forall d, i, k | Owns(s', d, i, k)
      ensures k in s'.live && s'.live[k] == s'.links[d].TargetOf(i)
    {
      if Owns(s, d, i, k) {
        assert k != key;
      }
    }
  }

  lemma ForwardKeyKeepsInv(s: State, s': State, c: nat, key: Key)
    requires Inv(s) && Forward(s, s', c, key) && s.links[c].todo[0].HoldsKey()
    ensures Inv(s')
  {
    ForwardKeyClaims(s, s', c, key);
    ForwardKeyTargets(s, s', c, key);
    assert Owns(s', c, |s.links[c].keys|, key);
    forall k | k in s'.live
      ensures exists d, i :: Owns(s', d, i, k)
    {
      if k != key {
        var d, i :| Owns(s, d, i, k);
        assert Owns(s', d, i, k);
      }
    }
  }

  /** Closing a connection gives up its claim on the last key it was given, and no other claim. */
  lemma ClosingKeepsInv(s: State, s': State, c: nat)
    requires Inv(s) && c in s.links && s.links[c].phase != Closed && Becomes(s, s', c, Closed) && s.links[c].keys != []
    ensures Inv(s')
  {
    var keys := s.links[c].keys;
    var last := keys[|keys| - 1];
    assert Owns(s, c, |keys| - 1, last);
    forall d, i, k
      ensures Owns(s', d, i, k) <==> Owns(s, d, i, k) && k != last
    {
    }
    forall k | k in s'.live
      ensures exists d, i :: Owns(s', d, i, k)
    {
      var d, i :| Owns(s, d, i, k);
      assert Owns(s', d, i, k);
    }
  }

  lemma BecomesKeepsInv(s: State, s': State, c: nat, phase: Phase)
    requires Inv(s) && c in s.links && s.links[c].phase != Closed && Becomes(s, s', c, phase)
    ensures Inv(s')
  {
    if phase == Closed && s.links[c].keys != [] {
      ClosingKeepsInv(s, s', c);
    } else {
      assert forall d, i, k :: Owns(s', d, i, k) <==> Owns(s, d, i, k);
    }
  }

  lemma NextKeepsInv(s: State, s': State)
    requires Inv(s) && Next(s, s')
    ensures Inv(s')
  {
    if c, socket, bytes :| Open(s, s', c, socket, bytes) {
      OpenKeepsInv(s, s', c, socket, bytes);
    } else if c, key :| Forward(s, s', c, key) {
      if s.links[c].todo[0].HoldsKey() {
        ForwardKeyKeepsInv(s, s', c, key);
      } else {
        ForwardPlainKeepsInv(s, s', c, key);
      }
    } else if c :| Finish(s, s', c) {
      BecomesKeepsInv(s, s', c, if s.links[c].end.Ready? then Live else Closed);
    } else {
      var c :| Drop(s, s', c);
      BecomesKeepsInv(s, s', c, Closed);
    }
  }

  lemma {:induction false} RunKeepsInv(run: seq<State>)
    requires IsRun(run)
    ensures Inv(run[|run| - 1])
  {
    if |run| > 1 {
      var n := |run| - 1;
      assert run[..n][n - 1] == run[n - 1];
      RunKeepsInv(run[..n]);
      NextKeepsInv(run[n - 1], run[n]);
    }
  }

  lemma ReachableKeepsInv(s: State)
    requires Reachable(s)
    ensures Inv(s)
  {
    var run :| IsRun(run) && run[|run| - 1] == s;
    RunKeepsInv(run);
  }

  // ----- Routing

  /** The eight bytes a backend expects back, as a CancelRequest. */
  function CancelFor(payload: Key): seq<Byte>
    requires |payload| == 8
  {
    CancelPacket(GetUint32(payload[0..4]), GetUint32(payload[4..8]))
  }

  lemma {:induction false} RealKeyAt(frames: seq<Frame>, f: nat)
    requires f < |frames| && frames[f].HoldsKey()
    ensures CountKeys(frames[..f]) < CountKeys(frames)
    ensures RealKeys(frames)[CountKeys(frames[..f])] == frames[f].payload
  {
    if f > 0 {
      RealKeyAt(frames[1..], f - 1);
      assert frames[..f] == [frames[0]] + frames[1..][..f - 1];
    }
  }

  /** What owning a key entitles to: the backend's own key, at the backend's own socket. */
  function DeliveryFor(link: Link, i: nat): Delivery
    requires link.WellFormed() && i < |link.keys|
  {
    Delivery(link.socket, CancelFor(RealKeys(link.taken)[i]))
  }

  lemma OwnerRoutes(s: State, pid: Uint32, secret: Uint32, c: nat, i: nat)
    requires Inv(s) && Owns(s, c, i, PutUint32(pid) + PutUint32(secret))
    ensures Route(s.live, pid, secret) == Some(DeliveryFor(s.links[c], i))
  {
  }

  /**
   * In every reachable state a cancel is routed exactly when some connection holds its key, and then to that
   * connection's backend with the key that backend had sent.
   */
  lemma RoutesToOwner(s: State, pid: Uint32, secret: Uint32, delivery: Delivery)
    requires Reachable(s)
    ensures forall c :: c in s.links ==> s.links[c].WellFormed()
    ensures Route(s.live, pid, secret) == Some(delivery) <==>
      exists c: nat, i: nat :: Owns(s, c, i, PutUint32(pid) + PutUint32(secret)) && delivery == DeliveryFor(s.links[c], i)
    ensures Route(s.live, pid, secret).None? <==>
      forall c: nat, i: nat :: !Owns(s, c, i, PutUint32(pid) + PutUint32(secret))
  {
    ReachableKeepsInv(s);
    var key := PutUint32(pid) + PutUint32(secret);
    forall c: nat, i: nat | Owns(s, c, i, key)
      ensures Route(s.live, pid, secret) == Some(DeliveryFor(s.links[c], i))
    {
      OwnerRoutes(s, pid, secret, c, i);
    }
    if key in s.live {
      var c, i :| Owns(s, c, i, key);
    }
  }

  /** The key the client of an open connection received in its f-th frame is one the connection owns. */
  lemma ForwardedKeyIsOwned(s: State, c: nat, f: nat)
    requires Inv(s) && c in s.links && s.links[c].phase != Closed
    requires f < |s.links[c].taken| && s.links[c].taken[f].HoldsKey()
    ensures var link := s.links[c]; var i := CountKeys(link.taken[..f]);
      && i < |link.keys| && RealKeys(link.taken)[i] == link.taken[f].payload
      && Owns(s, c, i, Rewrite(link.taken, link.keys)[f].payload)
  {
    RewriteMeaning(s.links[c].taken, s.links[c].keys, f);
    RealKeyAt(s.links[c].taken, f);
  }

  lemma KeyWords(key: Key)
    requires |key| == 8
    ensures PutUint32(GetUint32(key[0..4])) + PutUint32(GetUint32(key[4..8])) == key
  {
    PutGet(key[0..4]);
    PutGet(key[4..8]);
    assert key == key[0..4] + key[4..8];
  }

  /**
   * End to end: a client of a connection that is not closed, having received `key` in its f-th frame, cancels on
   * another connection, after any negotiation and whatever follows; the packet that reaches the backend's socket carries the pid and
   * secret of the frame that backend sent.
   */
  lemma CancelReachesItsBackend(s: State, c: nat, f: nat, key: Key, stream: seq<Byte>, net: Net, room: nat,
                                kinds: seq<Kind>, rest: seq<Byte>)
    requires Reachable(s) && c in s.links && s.links[c].phase != Closed
    requires f < |s.links[c].taken| && s.links[c].taken[f].HoldsKey()
    requires key == Rewrite(s.links[c].taken, s.links[c].keys)[f].payload && |key| == 8
    requires net.Shrinks() && |kinds| <= room && Negotiates(stream, net, kinds, CancelFor(key) + rest)
    ensures var final := Parse(stream, net, room).final;
      && final.Cancelled?
      && Route(s.live, final.pid, final.secret)
         == Some(Delivery(s.links[c].socket, CancelFor(s.links[c].taken[f].payload)))
  {
    ReachableKeepsInv(s);
    ForwardedKeyIsOwned(s, c, f);
    var pid, secret := GetUint32(key[0..4]), GetUint32(key[4..8]);
    KeyWords(key);
    CancelUnderstood(stream, net, room, kinds, pid, secret, rest);
    OwnerRoutes(s, pid, secret, c, CountKeys(s.links[c].taken[..f]));
  }

  // ----- What outlives a connection

  /** Every registered key belongs to a connection that is not closed. */
  ghost predicate NothingStale(s: State) {
    forall key :: key in s.live ==> exists c, i :: Owns(s, c, i, key) && s.links[c].phase != Closed
  }

  /**
   * Keys are conserved exactly as long as no closed connection had been sent more than one swappable key: cleanup
   * remembers only the last one, and the earlier ones stay registered and keep routing.
   */
  lemma StaleKeysExactly(s: State)
    requires Reachable(s)
    ensures NothingStale(s) <==> forall c :: c in s.links && s.links[c].phase == Closed ==> CountKeys(s.links[c].taken) <= 1
  {
    ReachableKeepsInv(s);
    if c :| c in s.links && s.links[c].phase == Closed && CountKeys(s.links[c].taken) > 1 {
      assert Owns(s, c, 0, s.links[c].keys[0]);
    } else {
      forall key | key in s.live
        ensures exists c, i :: Owns(s, c, i, key) && s.links[c].phase != Closed
      {
        var c, i :| Owns(s, c, i, key);
        assert s.links[c].WellFormed();
      }
    }
  }

  // ----- A handshake on its own

  lemma {:induction false} CountKeysPrefix(frames: seq<Frame>, n: nat)
    requires n <= |frames|
    ensures CountKeys(frames[..n]) <= CountKeys(frames)
  {
    if n > 0 {
      CountKeysPrefix(frames[1..], n - 1);
      assert frames[..n] == [frames[0]] + frames[1..][..n - 1];
    }
  }

  lemma OneMoreFrame(frames: seq<Frame>, n: nat)
    requires n < |frames|
    ensures CountKeys(frames[..n]) <= CountKeys(frames[..n + 1])
  {
    CountKeysPrefix(frames[..n + 1], n);
    assert frames[..n + 1][..n] == frames[..n];
  }

  lemma EnoughKeys(frames: seq<Frame>, taken: seq<Frame>, n: nat)
    requires taken <= frames && n <= |taken|
    ensures CountKeys(frames[..n]) <= CountKeys(taken)
  {
    CountKeysPrefix(taken, n);
    assert taken[..n] == frames[..n];
  }

  /** The connection after n of its frames were taken, with the first of `keys`. */
  function LinkAfter(socket: string, scan: Scan, keys: seq<Key>, n: nat): (link: Link)
    requires n <= |scan.frames| && CountKeys(scan.frames[..n]) <= |keys|
    ensures link.WellFormed() || !AllKeys(keys)
  {
    var taken := scan.frames[..n];
    Link(socket, scan.frames[n..], scan.end, taken, keys[..CountKeys(taken)], Shaking)
  }

  /** The state s with that connection in it and its keys registered. */
  function Alone(s: State, c: nat, socket: string, scan: Scan, keys: seq<Key>, n: nat): State
    requires n <= |scan.frames| && CountKeys(scan.frames[..n]) <= |keys|
  {
    var link := LinkAfter(socket, scan, keys, n);
    State(Issue(s.live, socket, RealKeys(link.taken), link.keys), s.links[c := link])
  }

  ghost predicate AloneSteps(s: State, c: nat, socket: string, scan: Scan, keys: seq<Key>, n: nat)
    requires n < |scan.frames| && CountKeys(scan.frames[..n + 1]) <= |keys|
  {
    OneMoreFrame(scan.frames, n);
    Next(Alone(s, c, socket, scan, keys, n), Alone(s, c, socket, scan, keys, n + 1))
  }

  /** The next link: one frame further on, with one more key if the frame holds one. */
  lemma LinkMovesOn(socket: string, scan: Scan, keys: seq<Key>, n: nat)
    requires n < |scan.frames| && CountKeys(scan.frames[..n]) <= CountKeys(scan.frames[..n + 1]) <= |keys|
    ensures var link, link' := LinkAfter(socket, scan, keys, n), LinkAfter(socket, scan, keys, n + 1);
      var frame := scan.frames[n];
      && link.todo != [] && link.todo[0] == frame
      && |link.keys| == CountKeys(link.taken)
      && (frame.HoldsKey() ==> |link.keys| < |keys|)
      && link' == link.(todo := link.todo[1..], taken := link.taken + [frame],
                        keys := if frame.HoldsKey() then link.keys + [keys[|link.keys|]] else link.keys)
  {
    var link, link' := LinkAfter(socket, scan, keys, n), LinkAfter(socket, scan, keys, n + 1);
    var frame := scan.frames[n];
    assert link'.taken == link.taken + [frame] && link.todo[1..] == link'.todo;
    CountKeysSnoc(link.taken, frame);
  }

  lemma AloneForwards(s: State, c: nat, socket: string, scan: Scan, keys: seq<Key>, n: nat)
    requires n < |scan.frames| && CountKeys(scan.frames[..n + 1]) <= |keys| && Unused(s.live, keys)
    ensures AloneSteps(s, c, socket, scan, keys, n)
  {
    OneMoreFrame(scan.frames, n);
    var here, there := Alone(s, c, socket, scan, keys, n), Alone(s, c, socket, scan, keys, n + 1);
    var link, frame := LinkAfter(socket, scan, keys, n), scan.frames[n];
    LinkMovesOn(socket, scan, keys, n);
    assert here.links[c := there.links[c]] == there.links;
    if frame.HoldsKey() {
      var key := keys[|link.keys|];
      assert Unused(s.live, link.keys);
      IssueKeys(s.live, socket, RealKeys(link.taken), link.keys);
      RegisterOneMore(s.live, socket, link.taken, frame, link.keys, key);
      assert Forward(here, there, c, key);
    } else {
      RealKeysSnoc(link.taken, frame);
      assert RealKeys(link.taken + [frame]) == RealKeys(link.taken);
      assert Forward(here, there, c, []);
    }
  }

  /** Forwarding `taken` step by step, from the opening of the connection on. */
  ghost predicate Shakes(s: State, c: nat, socket: string, bytes: seq<Byte>, taken: seq<Frame>, keys: seq<Key>)
    requires taken <= ScanFrames(bytes).frames && |keys| == CountKeys(taken)
  {
    var scan := ScanFrames(bytes);
    EnoughKeys(scan.frames, taken, 0);
    && Open(s, Alone(s, c, socket, scan, keys, 0), c, socket, bytes)
    && forall i: nat :: i < |taken| ==> (EnoughKeys(scan.frames, taken, i + 1); AloneSteps(s, c, socket, scan, keys, i))
  }

  /**
   * The method Handshake does what the protocol's steps do. Opening, forwarding the frames it took, whole or with the
   * last cut short by a client that stopped listening, and then dropping the connection or finishing it, leaves the
   * registry exactly as its contract says.
   */
  lemma HandshakeFollowsProtocol(
    s: State, c: nat, socket: string, bytes: seq<Byte>, taken: seq<Frame>, keys: seq<Key>, cut: bool)
    returns (last: State, done: State)
    requires c !in s.links && taken <= ScanFrames(bytes).frames && (!cut ==> taken == ScanFrames(bytes).frames)
    requires |keys| == CountKeys(taken) && Unused(s.live, keys)
    ensures Shakes(s, c, socket, bytes, taken, keys)
    ensures last == (EnoughKeys(ScanFrames(bytes).frames, taken, |taken|);
                     Alone(s, c, socket, ScanFrames(bytes), keys, |taken|))
    ensures if cut then Drop(last, done, c) else Finish(last, done, c)
    ensures done.live == if !cut && ScanFrames(bytes).end.Ready? then Issue(s.live, socket, RealKeys(taken), keys)
                         else AfterCleanup(s.live, socket, RealKeys(taken), keys)
  {
    var scan := ScanFrames(bytes);
    var n := |taken|;
    EnoughKeys(scan.frames, taken, 0);
    assert scan.frames[..n] == taken && scan.frames[0..] == scan.frames && keys[..|keys|] == keys;
    forall i: nat | i < n
      ensures (EnoughKeys(scan.frames, taken, i + 1); AloneSteps(s, c, socket, scan, keys, i))
    {
      EnoughKeys(scan.frames, taken, i + 1);
      AloneForwards(s, c, socket, scan, keys, i);
    }
    last := Alone(s, c, socket, scan, keys, n);
    var phase := if !cut && scan.end.Ready? then Live else Closed;
    var live := if phase != Closed || keys == [] then last.live else last.live - {keys[|keys| - 1]};
    done := State(live, last.links[c := last.links[c].(phase := phase)]);
  }
}
