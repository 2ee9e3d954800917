/** The cancel-key registry, the handshake that fills it, and the routing that reads it. */
module Cancel {
  import opened Bytes
  import opened Streams
  import opened Strings
  import opened Startup
  import opened Frames

  type Key = seq<Byte>

  datatype Target = Target(socket: string, key: Key)

  const KEY_SPACE: nat := 0x1_0000_0000_0000_0000

  /** The n-th eight-byte key. */
  function KeyNumber(n: nat): (key: Key)
    requires n < KEY_SPACE
    ensures |key| == 8
  {
    PutUint32(n / 0x1_0000_0000) + PutUint32(n % 0x1_0000_0000)
  }

  lemma KeyNumberInjective(m: nat, n: nat)
    requires m < KEY_SPACE && n < KEY_SPACE && KeyNumber(m) == KeyNumber(n)
    ensures m == n
  {
    assert KeyNumber(m)[..4] == PutUint32(m / 0x1_0000_0000) && KeyNumber(m)[4..] == PutUint32(m % 0x1_0000_0000);
    assert KeyNumber(n)[..4] == PutUint32(n / 0x1_0000_0000) && KeyNumber(n)[4..] == PutUint32(n % 0x1_0000_0000);
    PutInjective(m / 0x1_0000_0000, n / 0x1_0000_0000);
    PutInjective(m % 0x1_0000_0000, n % 0x1_0000_0000);
  }

  /** engine.CancelRegistry, as far as the filter relies on it: a map whose Register hands out an unused key. */
  class Registry {
    var live: map<Key, Target>

    constructor ()
      ensures live == map[]
    {
      live := map[];
    }

    method Register(target: Target) returns (key: Key)
      requires |live| < KEY_SPACE
      modifies this
      ensures |key| == 8 && key !in old(live)
      ensures live == old(live)[key := target]
    {
      var n := 0;
      ghost var tried: set<Key> := {};
      while KeyNumber(n) in live
        invariant live == old(live) && n <= |live| && n == |tried| && tried <= live.Keys
        invariant forall k :: k in tried ==> exists m: nat :: m < n && k == KeyNumber(m)
        decreases |live| - n
      {
        if KeyNumber(n) in tried {
          var m: nat :| m < n && KeyNumber(n) == KeyNumber(m);
          KeyNumberInjective(m, n);
        }
        tried := tried + {KeyNumber(n)};
        Subset(tried, live.Keys);
        n := n + 1;
      }
      key := KeyNumber(n);
      live := live[key := target];
    }

    method Unregister(key: Key)
      modifies this
      ensures live == old(live) - {key}
    {
      live := live - {key};
    }

    method Lookup(key: Key) returns (target: Option<Target>)
      ensures target == Find(live, key)
    {
      target := if key in live then Some(live[key]) else None;
    }
  }

  lemma Subset<T>(a: set<T>, b: set<T>)
    requires a <= b
    ensures |a| <= |b|
  {
    assert b == a + (b - a);
  }

  function Find(live: map<Key, Target>, key: Key): Option<Target> {
    if key in live then Some(live[key]) else None
  }

  // ----- What a handshake does to the registry

  /** Keys handed out one after another, the i-th standing for the i-th real key of the backend on `socket`. */
  function Issue(live: map<Key, Target>, socket: string, reals: seq<Key>, keys: seq<Key>): map<Key, Target>
    requires |reals| == |keys|
  {
    if keys == [] then live
    else Issue(live, socket, reals[..|keys| - 1], keys[..|keys| - 1])
         [keys[|keys| - 1] := Target(socket, reals[|keys| - 1])]
  }

  /** The keys were unused and are all different. */
  predicate Unused(live: map<Key, Target>, keys: seq<Key>) {
    && (forall i :: 0 <= i < |keys| ==> keys[i] !in live && |keys[i]| == 8)
    && (forall i, j :: 0 <= i < j < |keys| ==> keys[i] != keys[j])
  }

  /** The keys the frames carry. */
  function RealKeys(frames: seq<Frame>): (reals: seq<Key>)
    ensures |reals| == CountKeys(frames) && AllKeys(reals)
  {
    if frames == [] then []
    else if frames[0].HoldsKey() then [frames[0].payload] + RealKeys(frames[1..]) else RealKeys(frames[1..])
  }

  lemma {:induction false} RealKeysSnoc(frames: seq<Frame>, frame: Frame)
    ensures RealKeys(frames + [frame]) == RealKeys(frames) + (if frame.HoldsKey() then [frame.payload] else [])
  {
    var more := frames + [frame];
    if frames == [] {
      assert more == [frame] && more[1..] == [];
    } else {
      assert more[1..] == frames[1..] + [frame] && more[0] == frames[0];
      RealKeysSnoc(frames[1..], frame);
    }
  }

  lemma {:induction false} IssueKeys(live: map<Key, Target>, socket: string, reals: seq<Key>, keys: seq<Key>)
    requires |reals| == |keys|
    ensures forall k :: k in Issue(live, socket, reals, keys) <==> k in live || k in keys
  {
    if keys != [] {
      var n := |keys| - 1;
      IssueKeys(live, socket, reals[..n], keys[..n]);
      assert keys == keys[..n] + [keys[n]];
    }
  }

  /** Keys already in use keep their targets and each new key stands for its real one. */
  lemma {:induction false} IssueTargets(live: map<Key, Target>, socket: string, reals: seq<Key>, keys: seq<Key>, k: Key)
    requires |reals| == |keys| && Unused(live, keys)
    ensures k in live ==> k in Issue(live, socket, reals, keys) && Issue(live, socket, reals, keys)[k] == live[k]
    ensures forall i :: 0 <= i < |keys| && keys[i] == k ==>
      k in Issue(live, socket, reals, keys) && Issue(live, socket, reals, keys)[k] == Target(socket, reals[i])
  {
    if keys != [] {
      var n := |keys| - 1;
      assert Unused(live, keys[..n]);
      IssueTargets(live, socket, reals[..n], keys[..n], k);
      assert forall i :: 0 <= i < n ==> keys[..n][i] == keys[i] && reals[..n][i] == reals[i];
    }
  }

  /** The registry once cleanup has run: only the last key handed out is taken back. */
  function AfterCleanup(live: map<Key, Target>, socket: string, reals: seq<Key>, keys: seq<Key>): map<Key, Target>
    requires |reals| == |keys|
  {
    if keys == [] then live else Issue(live, socket, reals, keys) - {keys[|keys| - 1]}
  }

  /** Cleanup restores the registry exactly when the backend sent at most one swappable key. */
  lemma CleanupRestores(live: map<Key, Target>, socket: string, reals: seq<Key>, keys: seq<Key>)
    requires |reals| == |keys| && Unused(live, keys)
    ensures AfterCleanup(live, socket, reals, keys) == live <==> |keys| <= 1
    ensures keys != [] ==>
      AfterCleanup(live, socket, reals, keys) == Issue(live, socket, reals[..|keys| - 1], keys[..|keys| - 1])
  {
    if keys != [] {
      var n := |keys| - 1;
      var before := Issue(live, socket, reals[..n], keys[..n]);
      IssueKeys(live, socket, reals[..n], keys[..n]);
      assert keys[n] !in keys[..n];
      assert before[keys[n] := Target(socket, reals[n])] - {keys[n]} == before;
      if n > 0 {
        assert keys[..n][0] == keys[0] && keys[0] in before && keys[0] !in live;
      }
    }
  }

  // ----- The handshake

  /** The closure Handshake hands to forwardHandshake, with the variables it captures, and the cleanup closure. */
  class KeySwap {
    const reg: Registry
    const socket: string
    var synthetic: Key
    var registered: bool
    ghost var issued: seq<Key>
    ghost var reals: seq<Key>

    ghost predicate Valid()
      reads this
    {
      && |issued| == |reals|
      && (registered <==> issued != [])
      && (registered ==> synthetic == issued[|issued| - 1])
    }

    constructor (reg: Registry, socket: string)
      ensures this.reg == reg && this.socket == socket
      ensures Valid() && issued == [] && reals == []
    {
      this.reg, this.socket := reg, socket;
      synthetic, registered := [], false;
      issued, reals := [], [];
    }

    method RewriteKey(realPid: Uint32, realSecret: Uint32) returns (pid: Uint32, secret: Uint32)
      requires Valid() && |reg.live| < KEY_SPACE
      modifies this, reg
      ensures Valid()
      ensures var key := PutUint32(pid) + PutUint32(secret);
        && issued == old(issued) + [key]
        && key !in old(reg.live)
        && reg.live == old(reg.live)[key := Target(socket, reals[|reals| - 1])]
      ensures reals == old(reals) + [PutUint32(realPid) + PutUint32(realSecret)]
    {
      var key := PutUint32(realPid) + PutUint32(realSecret);
      synthetic := reg.Register(Target(socket, key));
      registered := true;
      issued, reals := issued + [synthetic], reals + [key];
      pid, secret := GetUint32(synthetic[0..4]), GetUint32(synthetic[4..8]);
      PutGet(synthetic[0..4]);
      PutGet(synthetic[4..8]);
      assert synthetic == synthetic[0..4] + synthetic[4..8];
    }

    method Cleanup()
      requires Valid()
      modifies reg
      ensures reg.live == if issued == [] then old(reg.live) else old(reg.live) - {issued[|issued| - 1]}
    {
      if registered {
        reg.Unregister(synthetic);
      }
    }
  }

  datatype HandshakeError = NoError | ReadFailed(cause: ReadError) | BadLength(length: Uint32) | ClientGone

  function ErrorOf(end: End): HandshakeError {
    match end
    case Cut(cause) => ReadFailed(cause)
    case Implausible(length) => BadLength(length)
    case _ => NoError
  }
}
