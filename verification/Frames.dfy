/** Backend messages: a type byte, a length that counts itself, a payload. */
module Frames {
  import opened Bytes
  import opened Sequences
  import opened Streams
  import opened StartupParams

  const BACKEND_KEY_DATA: Byte := 'K' as int
  const READY_FOR_QUERY: Byte := 'Z' as int
  const ERROR_RESPONSE: Byte := 'E' as int
  const MAX_HANDSHAKE_MSG_LEN := 0x10_0000

  datatype Frame = Frame(typ: Byte, payload: seq<Byte>) {
    predicate Plausible() {
      |payload| <= MAX_HANDSHAKE_MSG_LEN
    }

    predicate Ends() {
      typ == READY_FOR_QUERY || typ == ERROR_RESPONSE
    }

    /** A BackendKeyData frame whose key can be swapped. */
    predicate HoldsKey() {
      typ == BACKEND_KEY_DATA && |payload| == 8
    }

    function Encoded(): (b: seq<Byte>)
      requires |payload| < 0xffff_ffff - 4
      ensures |b| == 5 + |payload|
    {
      [typ] + PutUint32(4 + |payload|) + payload
    }
  }

  predicate AllPlausible(frames: seq<Frame>) {
    forall i :: 0 <= i < |frames| ==> frames[i].Plausible()
  }

  function EncodeAll(frames: seq<Frame>): seq<Byte>
    requires AllPlausible(frames)
  {
    if frames == [] then [] else frames[0].Encoded() + EncodeAll(frames[1..])
  }

  datatype End = Ready | Refused | Cut(cause: ReadError) | Implausible(length: Uint32)

  datatype Scan = Scan(frames: seq<Frame>, end: End, rest: seq<Byte>)

  function HeaderLength(s: seq<Byte>): Uint32
    requires |s| >= 5
  {
    GetUint32(s[1..5])
  }

  predicate ImplausibleLength(length: Uint32) {
    length < 4 || length - 4 > MAX_HANDSHAKE_MSG_LEN
  }

  /** The whole frames at the front of s, through the first that ends a startup. */
  function ScanFrames(s: seq<Byte>): (scan: Scan)
    ensures AllPlausible(scan.frames)
    decreases |s|
  {
    if |s| < 5 then Scan([], Cut(ReadStatusOf(s, 5).error), [])
    else if ImplausibleLength(HeaderLength(s)) then Scan([], Implausible(HeaderLength(s)), s[5..])
    else if !StartsWhole(s) then Scan([], Cut(ReadStatusOf(s[5..], HeaderLength(s) - 4).error), [])
    else
      var frame, rest := FirstFrame(s), s[1 + HeaderLength(s)..];
      if frame.Ends() then Scan([frame], if frame.typ == READY_FOR_QUERY then Ready else Refused, rest)
      else
        var later := ScanFrames(rest);
        Scan([frame] + later.frames, later.end, later.rest)
  }

  lemma ScanOne(frame: Frame, rest: seq<Byte>)
    requires frame.Plausible()
    ensures ScanFrames(frame.Encoded() + rest) ==
      if frame.Ends() then Scan([frame], if frame.typ == READY_FOR_QUERY then Ready else Refused, rest)
      else Scan([frame] + ScanFrames(rest).frames, ScanFrames(rest).end, ScanFrames(rest).rest)
  {
    var s := frame.Encoded() + rest;
    assert s[1..5] == PutUint32(4 + |frame.payload|);
    GetPut(4 + |frame.payload|);
    assert s[5..5 + |frame.payload|] == frame.payload;
    assert s[5 + |frame.payload|..] == rest;
  }

  /** A startup as a backend sends it: only the last frame ends it. */
  predicate IsStartup(frames: seq<Frame>) {
    && frames != [] && AllPlausible(frames)
    && frames[|frames| - 1].Ends()
    && forall i :: 0 <= i < |frames| - 1 ==> !frames[i].Ends()
  }

  /** Parsing inverts serialising. */
  lemma {:induction false} ScanEncoded(frames: seq<Frame>, rest: seq<Byte>)
    requires IsStartup(frames)
    ensures ScanFrames(EncodeAll(frames) + rest) ==
      Scan(frames, if frames[|frames| - 1].typ == READY_FOR_QUERY then Ready else Refused, rest)
  {
    var first, others := frames[0], frames[1..];
    assert frames == [first] + others;
    if others == [] {
      assert EncodeAll(frames) + rest == first.Encoded() + rest;
      ScanOne(first, rest);
    } else {
      assert others[|others| - 1] == frames[|frames| - 1];
      assert EncodeAll(frames) + rest == first.Encoded() + (EncodeAll(others) + rest);
      ScanOne(first, EncodeAll(others) + rest);
      ScanEncoded(others, rest);
    }
  }

  predicate StartsWhole(s: seq<Byte>) {
    |s| >= 5 && !ImplausibleLength(HeaderLength(s)) && |s| >= 1 + HeaderLength(s)
  }

  /** The whole frame at the front of s. */
  function FirstFrame(s: seq<Byte>): (frame: Frame)
    requires StartsWhole(s)
    ensures frame.Plausible()
  {
    Frame(s[0], s[5..1 + HeaderLength(s)])
  }

  lemma SplitOne(s: seq<Byte>)
    requires StartsWhole(s)
    ensures s[..5] == [s[0]] + PutUint32(HeaderLength(s))
    ensures s == FirstFrame(s).Encoded() + s[1 + HeaderLength(s)..]
  {
    PutGet(s[1..5]);
    var frame := FirstFrame(s);
    assert 4 + |frame.payload| == HeaderLength(s);
    assert frame.Encoded() == s[..5] + s[5..1 + HeaderLength(s)];
  }

  lemma EncodeAllCons(frame: Frame, later: seq<Frame>)
    requires frame.Plausible() && AllPlausible(later)
    ensures EncodeAll([frame] + later) == frame.Encoded() + EncodeAll(later)
  {
    assert ([frame] + later)[1..] == later;
  }

  lemma StartupCons(frame: Frame, later: seq<Frame>)
    requires frame.Plausible() && !frame.Ends() && IsStartup(later)
    ensures IsStartup([frame] + later)
  {
    var frames := [frame] + later;
    forall i | 0 <= i < |frames| - 1
      ensures !frames[i].Ends()
    {
      assert i > 0 ==> frames[i] == later[i - 1];
    }
  }

  /** Serialising inverts parsing: a startup is exactly what stood at the front of the input. */
  lemma {:induction false} EncodeScanned(s: seq<Byte>, scan: Scan)
    requires scan == ScanFrames(s) && (scan.end.Ready? || scan.end.Refused?)
    ensures IsStartup(scan.frames)
    ensures s == EncodeAll(scan.frames) + scan.rest
    decreases |s|
  {
    ScanWhole(s);
    SplitOne(s);
    var frame, rest := FirstFrame(s), s[1 + HeaderLength(s)..];
    if frame.Ends() {
      OnlyFrame(frame);
    } else {
      var later := ScanFrames(rest);
      EncodeScanned(rest, later);
      EncodeAllCons(frame, later.frames);
      StartupCons(frame, later.frames);
      Associative(frame.Encoded(), EncodeAll(later.frames), later.rest);
    }
  }

  lemma OnlyFrame(frame: Frame)
    requires frame.Plausible() && frame.Ends()
    ensures IsStartup([frame]) && EncodeAll([frame]) == frame.Encoded()
  {
    EncodeAllCons(frame, []);
    assert [frame] + [] == [frame] && frame.Encoded() + EncodeAll([]) == frame.Encoded();
  }

  /** A scan that comes to an end starts with a whole frame. */
  lemma ScanWhole(s: seq<Byte>)
    requires ScanFrames(s).end.Ready? || ScanFrames(s).end.Refused?
    ensures StartsWhole(s)
    ensures var frame, rest := FirstFrame(s), s[1 + HeaderLength(s)..];
      ScanFrames(s) ==
        if frame.Ends() then Scan([frame], if frame.typ == READY_FOR_QUERY then Ready else Refused, rest)
        else Scan([frame] + ScanFrames(rest).frames, ScanFrames(rest).end, ScanFrames(rest).rest)
  {
  }

  /** Parsing without an end: whole frames stand in front, none of them ends, and what follows is no whole frame. */
  lemma {:induction false} EncodePartial(s: seq<Byte>)
    requires ScanFrames(s).end.Cut? || ScanFrames(s).end.Implausible?
    ensures EncodeAll(ScanFrames(s).frames) <= s
    ensures forall i :: 0 <= i < |ScanFrames(s).frames| ==> !ScanFrames(s).frames[i].Ends()
    ensures !StartsWhole(s[|EncodeAll(ScanFrames(s).frames)|..])
    decreases |s|
  {
    if StartsWhole(s) {
      SplitOne(s);
      var frame, rest := FirstFrame(s), s[1 + HeaderLength(s)..];
      EncodePartial(rest);
      var later := ScanFrames(rest).frames;
      EncodeAllCons(frame, later);
      assert s[|EncodeAll([frame] + later)|..] == rest[|EncodeAll(later)|..];
    } else {
      assert s[0..] == s;
    }
  }

  // ----- Swapping keys

  function CountKeys(frames: seq<Frame>): nat {
    if frames == [] then 0 else (if frames[0].HoldsKey() then 1 else 0) + CountKeys(frames[1..])
  }

  /** The key-holding frames get the given keys, in order; nothing else changes. */
  function Rewrite(frames: seq<Frame>, keys: seq<seq<Byte>>): (out: seq<Frame>)
    ensures |out| == |frames|
  {
    if frames == [] || keys == [] then frames
    else if frames[0].HoldsKey() then [Frame(frames[0].typ, keys[0])] + Rewrite(frames[1..], keys[1..])
    else [frames[0]] + Rewrite(frames[1..], keys)
  }

  predicate AllKeys(keys: seq<seq<Byte>>) {
    forall i :: 0 <= i < |keys| ==> |keys[i]| == 8
  }

  /** The i-th key of the list takes the place of the payload of the i-th key-holding frame. */
  lemma {:induction false} RewriteMeaning(frames: seq<Frame>, keys: seq<seq<Byte>>, i: nat)
    requires i < |frames| && |keys| == CountKeys(frames) && AllKeys(keys)
    ensures CountKeys(frames[..i]) <= |keys|
    ensures !frames[i].HoldsKey() ==> Rewrite(frames, keys)[i] == frames[i]
    ensures frames[i].HoldsKey() ==>
      (CountKeys(frames[..i]) < |keys| &&
       Rewrite(frames, keys)[i] == Frame(BACKEND_KEY_DATA, keys[CountKeys(frames[..i])]))
  {
    var rest := if frames[0].HoldsKey() then keys[1..] else keys;
    if i > 0 {
      assert frames[..i] == [frames[0]] + frames[1..][..i - 1];
      RewriteMeaning(frames[1..], rest, i - 1);
      if keys == [] {
        NoKeys(frames);
      }
    } else if keys == [] {
      NoKeys(frames);
    }
  }

  lemma {:induction false} NoKeys(frames: seq<Frame>)
    requires CountKeys(frames) == 0
    ensures forall i :: 0 <= i < |frames| ==> !frames[i].HoldsKey()
  {
    if frames != [] {
      NoKeys(frames[1..]);
      assert frames == [frames[0]] + frames[1..];
    }
  }

  lemma {:induction false} CountKeysSnoc(frames: seq<Frame>, frame: Frame)
    ensures CountKeys(frames + [frame]) == CountKeys(frames) + (if frame.HoldsKey() then 1 else 0)
  {
    if frames == [] {
      assert frames + [frame] == [frame];
      assert CountKeys([frame][1..]) == 0;
    } else {
      assert (frames + [frame])[1..] == frames[1..] + [frame];
      CountKeysSnoc(frames[1..], frame);
    }
  }

  /** The keys left for the frames behind this one. */
  function KeysBehind(frame: Frame, keys: seq<seq<Byte>>): seq<seq<Byte>> {
    if frame.HoldsKey() && keys != [] then keys[1..] else keys
  }

  function Swapped(frame: Frame, keys: seq<seq<Byte>>): Frame {
    if frame.HoldsKey() && keys != [] then Frame(frame.typ, keys[0]) else frame
  }

  lemma RewriteCons(first: Frame, later: seq<Frame>, keys: seq<seq<Byte>>)
    requires |keys| == CountKeys([first] + later)
    ensures |KeysBehind(first, keys)| == CountKeys(later)
    ensures Rewrite([first] + later, keys) == [Swapped(first, keys)] + Rewrite(later, KeysBehind(first, keys))
  {
    assert ([first] + later)[1..] == later;
    if keys == [] {
      assert [first] + Rewrite(later, []) == [first] + later;
    }
  }

  lemma {:induction false} RewriteSnocPlain(frames: seq<Frame>, keys: seq<seq<Byte>>, frame: Frame)
    requires |keys| == CountKeys(frames) && !frame.HoldsKey()
    ensures Rewrite(frames + [frame], keys) == Rewrite(frames, keys) + [frame]
  {
    CountKeysSnoc(frames, frame);
    if frames == [] {
      assert frames + [frame] == [frame];
    } else {
      var first, later := frames[0], frames[1..];
      assert frames == [first] + later && frames + [frame] == [first] + (later + [frame]);
      RewriteCons(first, later, keys);
      RewriteCons(first, later + [frame], keys);
      RewriteSnocPlain(later, KeysBehind(first, keys), frame);
    }
  }

  lemma {:induction false} RewriteSnocKey(frames: seq<Frame>, keys: seq<seq<Byte>>, frame: Frame, key: seq<Byte>)
    requires |keys| == CountKeys(frames) && frame.HoldsKey()
    ensures Rewrite(frames + [frame], keys + [key]) == Rewrite(frames, keys) + [Frame(frame.typ, key)]
  {
    CountKeysSnoc(frames, frame);
    if frames == [] {
      assert frames + [frame] == [frame] && keys + [key] == [key];
      RewriteCons(frame, [], [key]);
      assert [frame] + [] == [frame];
    } else {
      var first, later := frames[0], frames[1..];
      assert frames == [first] + later && frames + [frame] == [first] + (later + [frame]);
      RewriteCons(first, later, keys);
      RewriteCons(first, later + [frame], keys + [key]);
      assert KeysBehind(first, keys + [key]) == KeysBehind(first, keys) + [key];
      RewriteSnocKey(later, KeysBehind(first, keys), frame, key);
    }
  }

  lemma RewriteSnoc(frames: seq<Frame>, keys: seq<seq<Byte>>, frame: Frame)
    requires |keys| == CountKeys(frames)
    ensures !frame.HoldsKey() ==> Rewrite(frames + [frame], keys) == Rewrite(frames, keys) + [frame]
    ensures forall key :: frame.HoldsKey() ==>
      Rewrite(frames + [frame], keys + [key]) == Rewrite(frames, keys) + [Frame(frame.typ, key)]
  {
    if frame.HoldsKey() {
      forall key
        ensures Rewrite(frames + [frame], keys + [key]) == Rewrite(frames, keys) + [Frame(frame.typ, key)]
      {
        RewriteSnocKey(frames, keys, frame, key);
      }
    } else {
      RewriteSnocPlain(frames, keys, frame);
    }
  }

  lemma {:induction false} EncodeAllSnoc(frames: seq<Frame>, frame: Frame)
    requires AllPlausible(frames) && frame.Plausible()
    ensures AllPlausible(frames + [frame])
    ensures EncodeAll(frames + [frame]) == EncodeAll(frames) + frame.Encoded()
  {
    if frames == [] {
      EncodeAllCons(frame, []);
      assert [frame] + [] == [frame] && [] + [frame] == [frame];
    } else {
      var later := frames[1..];
      EncodeAllSnoc(later, frame);
      assert frames + [frame] == [frames[0]] + (later + [frame]);
      EncodeAllCons(frames[0], later + [frame]);
      Associative(frames[0].Encoded(), EncodeAll(later), frame.Encoded());
    }
  }

  /** Frame by frame, the same type and size. */
  predicate SameShape(a: seq<Frame>, b: seq<Frame>) {
    |a| == |b| && forall i :: 0 <= i < |a| ==> a[i].typ == b[i].typ && |a[i].payload| == |b[i].payload|
  }

  lemma {:induction false} RewriteShape(frames: seq<Frame>, keys: seq<seq<Byte>>)
    requires AllKeys(keys)
    ensures SameShape(Rewrite(frames, keys), frames)
  {
    if frames != [] && keys != [] {
      var rest := if frames[0].HoldsKey() then keys[1..] else keys;
      RewriteShape(frames[1..], rest);
      var out, later := Rewrite(frames, keys), Rewrite(frames[1..], rest);
      assert out[1..] == later;
      forall i | 1 <= i < |frames|
        ensures out[i].typ == frames[i].typ && |out[i].payload| == |frames[i].payload|
      {
        assert out[i] == later[i - 1] && frames[i] == frames[1..][i - 1];
      }
    }
  }

  lemma {:induction false} SameShapeEncodes(a: seq<Frame>, b: seq<Frame>)
    requires SameShape(a, b) && AllPlausible(b)
    ensures AllPlausible(a) && |EncodeAll(a)| == |EncodeAll(b)|
  {
    if a != [] {
      SameShapeEncodes(a[1..], b[1..]);
    }
  }

  lemma SameShapeStartup(a: seq<Frame>, b: seq<Frame>)
    requires SameShape(a, b) && IsStartup(b)
    ensures IsStartup(a)
  {
  }

  /** Swapping keys keeps every frame's type and size, so the stream stays well formed and as long as it was. */
  lemma RewriteKeepsShape(frames: seq<Frame>, keys: seq<seq<Byte>>)
    requires AllKeys(keys)
    ensures SameShape(Rewrite(frames, keys), frames)
    ensures AllPlausible(frames) ==>
      AllPlausible(Rewrite(frames, keys)) && |EncodeAll(Rewrite(frames, keys))| == |EncodeAll(frames)|
    ensures IsStartup(frames) ==> IsStartup(Rewrite(frames, keys))
  {
    RewriteShape(frames, keys);
    if AllPlausible(frames) {
      SameShapeEncodes(Rewrite(frames, keys), frames);
    }
    if IsStartup(frames) {
      SameShapeStartup(Rewrite(frames, keys), frames);
    }
  }

  // ----- The proxy's own error frame

  /** The addField closure of errorResponse. */
  function Field(typ: Byte, text: seq<Byte>): seq<Byte> {
    [typ] + text + [0]
  }

  function ErrorFields(code: seq<Byte>, message: seq<Byte>): seq<Byte> {
    Field('S' as int, Text("FATAL")) + Field('V' as int, Text("FATAL"))
    + Field('C' as int, code) + Field('M' as int, message)
  }

  /** errorResponse; the length is cast to 32 bits. */
  function ErrorResponse(code: seq<Byte>, message: seq<Byte>): seq<Byte> {
    var payload := ErrorFields(code, message) + [0];
    [ERROR_RESPONSE] + PutUint32((4 + |payload|) % 0x1_0000_0000) + payload
  }

  lemma RefusalEncoded(payload: seq<Byte>)
    requires |payload| <= MAX_HANDSHAKE_MSG_LEN
    ensures [ERROR_RESPONSE] + PutUint32((4 + |payload|) % 0x1_0000_0000) + payload == Frame(ERROR_RESPONSE, payload).Encoded()
  {
    assert (4 + |payload|) % 0x1_0000_0000 == 4 + |payload|;
  }

  lemma RefusalScanned(frame: Frame)
    requires frame.Plausible() && frame.typ == ERROR_RESPONSE
    ensures ScanFrames(frame.Encoded()) == Scan([frame], Refused, [])
  {
    ScanOne(frame, []);
    assert frame.Encoded() + [] == frame.Encoded();
  }

  lemma ErrorFieldsLength(code: seq<Byte>, message: seq<Byte>)
    ensures |ErrorFields(code, message)| == |code| + |message| + 18
  {
  }

  /** A client that parses it sees one frame that refuses the startup and nothing after it. */
  lemma ErrorResponseRefuses(code: seq<Byte>, message: seq<Byte>)
    requires |code| + |message| < 0xf_0000
    ensures ScanFrames(ErrorResponse(code, message)) ==
      Scan([Frame(ERROR_RESPONSE, ErrorFields(code, message) + [0])], Refused, [])
  {
    ErrorFieldsLength(code, message);
    RefusalEncoded(ErrorFields(code, message) + [0]);
    RefusalScanned(Frame(ERROR_RESPONSE, ErrorFields(code, message) + [0]));
  }

  /** Its fields read back as the four strings they are, when neither text holds a NUL. */
  lemma ErrorFieldsSplit(code: seq<Byte>, message: seq<Byte>)
    requires NulFree(code) && NulFree(message)
    ensures Split(ErrorFields(code, message) + [0]) ==
      [['S' as int] + Text("FATAL"), ['V' as int] + Text("FATAL"), ['C' as int] + code, ['M' as int] + message]
  {
    var fatal := Text("FATAL");
    var s, v, c, m := ['S' as int] + fatal, ['V' as int] + fatal, ['C' as int] + code, ['M' as int] + message;
    EncodeCons(s, [v, c, m]);
    EncodeCons(v, [c, m]);
    EncodeCons(c, [m]);
    EncodeCons(m, []);
    assert [s] + [v, c, m] == [s, v, c, m] && [v] + [c, m] == [v, c, m] && [c] + [m] == [c, m] && [m] + [] == [m];
    assert ErrorFields(code, message) == Encode([s, v, c, m]);
    assert ErrorFields(code, message) + [0] == Encode([s, v, c, m]) + [0] + [];
    ParamsRoundTrip([s, v, c, m], []);
  }
}
