/** The parameter list of a StartupMessage: NUL-terminated strings, in pairs. */
module StartupParams {
  import opened Bytes

  type CString = seq<Byte>

  const DATABASE: CString := Text("database")
  const USER: CString := Text("user")

  predicate NulFree(s: CString) {
    forall i :: 0 <= i < |s| ==> s[i] != 0
  }

  /** A string the list can carry: an empty one would end the list. */
  predicate Carried(s: CString) {
    s != [] && NulFree(s)
  }

  predicate AllCarried(parts: seq<CString>) {
    forall i :: 0 <= i < |parts| ==> Carried(parts[i])
  }

  /** Each string followed by its NUL. */
  function Encode(parts: seq<CString>): seq<Byte> {
    if parts == [] then [] else parts[0] + [0] + Encode(parts[1..])
  }

  lemma EncodeCons(s: CString, parts: seq<CString>)
    ensures Encode([s] + parts) == s + [0] + Encode(parts)
  {
    assert ([s] + parts)[1..] == parts;
  }

  lemma EncodeSnoc(parts: seq<CString>, s: CString)
    ensures Encode(parts + [s]) == Encode(parts) + s + [0]
  {
    if parts == [] {
      assert parts + [s] == [s];
      assert Encode([s]) == s + [0] + Encode([]);
    } else {
      assert parts + [s] == [parts[0]] + (parts[1..] + [s]);
      EncodeCons(parts[0], parts[1..] + [s]);
      EncodeSnoc(parts[1..], s);
    }
  }

  /** What splitting stops on: no further NUL, or an empty string next. */
  predicate Stops(rest: seq<Byte>) {
    NulFree(rest) || (rest != [] && rest[0] == 0)
  }

  /** `parts` is the longest list of carried strings b starts with. */
  ghost predicate IsSplit(b: seq<Byte>, parts: seq<CString>) {
    && AllCarried(parts)
    && Encode(parts) <= b
    && Stops(b[|Encode(parts)|..])
  }

  /** Where the first NUL of b is; |b| when there is none. */
  function NulAt(b: seq<Byte>): (n: nat)
    ensures n <= |b| && NulFree(b[..n])
    ensures n < |b| ==> b[n] == 0
  {
    if b == [] || b[0] == 0 then 0 else
    var n := 1 + NulAt(b[1..]);
    assert forall i :: 0 < i < n ==> b[..n][i] == b[1..][..n - 1][i - 1];
    n
  }

  /** The strings of b, up to the empty string or the unterminated tail that ends the list. */
  function Split(b: seq<Byte>): (parts: seq<CString>)
    ensures IsSplit(b, parts)
    decreases |b|
  {
    var n := NulAt(b);
    if n == 0 || n == |b| then
      assert b[..n] == b || b == [] || b[0] == 0;
      assert b[0..] == b;
      []
    else
      var tail := Split(b[n + 1..]);
      SplitCons(b, n, tail);
      [b[..n]] + tail
  }

  lemma SplitCons(b: seq<Byte>, n: nat, tail: seq<CString>)
    requires 0 < n < |b| && NulFree(b[..n]) && b[n] == 0
    requires IsSplit(b[n + 1..], tail)
    ensures IsSplit(b, [b[..n]] + tail)
  {
    var parts := [b[..n]] + tail;
    EncodeCons(b[..n], tail);
    assert b == b[..n] + [0] + b[n + 1..];
    assert b[n + 1..] == Encode(tail) + b[n + 1..][|Encode(tail)|..];
    assert b == Encode(parts) + b[n + 1..][|Encode(tail)|..];
    assert b[|Encode(parts)|..] == b[n + 1..][|Encode(tail)|..];
  }

  /** A carried string and its NUL are a unique way to start b. */
  lemma {:induction false} FirstPartUnique(s: CString, t: CString, b: seq<Byte>)
    requires NulFree(s) && NulFree(t)
    requires s + [0] <= b && t + [0] <= b
    ensures s == t
  {
    assert b[|s|] == 0 && b[|t|] == 0;
    assert |s| == |t|;
    assert s == b[..|s|] == t;
  }

  /** No two lists split the same bytes, so IsSplit pins splitCStrings down. */
  lemma {:induction false} SplitUnique(b: seq<Byte>, p: seq<CString>, q: seq<CString>)
    requires IsSplit(b, p) && IsSplit(b, q)
    ensures p == q
    decreases |p| + |q|
  {
    if p == [] && q == [] {
    } else if p == [] {
      SplitNonEmpty(b, q);
    } else if q == [] {
      SplitNonEmpty(b, p);
    } else {
      SplitTail(b, p);
      SplitTail(b, q);
      FirstPartUnique(p[0], q[0], b);
      SplitUnique(b[|p[0]| + 1..], p[1..], q[1..]);
      assert p == [p[0]] + p[1..] && q == [q[0]] + q[1..];
    }
  }

  lemma SplitNonEmpty(b: seq<Byte>, p: seq<CString>)
    requires IsSplit(b, p) && p != []
    ensures !Stops(b)
  {
    var n := |p[0]|;
    assert Encode(p)[n] == 0 && Encode(p)[0] == p[0][0];
    assert b[n] == 0 && b[0] == p[0][0];
  }

  lemma SplitTail(b: seq<Byte>, p: seq<CString>)
    requires IsSplit(b, p) && p != []
    ensures p[0] + [0] <= b
    ensures IsSplit(b[|p[0]| + 1..], p[1..])
  {
    var n := |p[0]| + 1;
    var e := Encode(p[1..]);
    assert Encode(p) == p[0] + [0] + e;
    assert b == Encode(p) + b[|Encode(p)|..];
    assert b[n..] == e + b[|Encode(p)|..];
    assert b[n..][|e|..] == b[|Encode(p)|..];
  }

  /** Splitting inverts the encoding whatever follows the terminator. */
  lemma EncodeIsSplit(parts: seq<CString>, junk: seq<Byte>)
    requires AllCarried(parts)
    ensures IsSplit(Encode(parts) + [0] + junk, parts)
    ensures IsSplit(Encode(parts), parts)
  {
    var e := Encode(parts);
    assert (e + [0] + junk)[|e|..] == [0] + junk;
    assert e[|e|..] == [];
  }

  /** splitCStrings */
  method SplitCStrings(b: seq<Byte>) returns (out: seq<CString>)
    ensures out == Split(b)
  {
    out := [];
    var start := 0;
    var i := 0;
    while i < |b|
      invariant 0 <= start <= i <= |b|
      invariant AllCarried(out)
      invariant Encode(out) == b[..start]
      invariant NulFree(b[start..i])
    {
      if b[i] == 0 {
        if i == start {
          assert b[start..][0] == 0;
          break;
        }
        EncodeSnoc(out, b[start..i]);
        assert b[..start] + b[start..i] + [0] == b[..i + 1];
        out := out + [b[start..i]];
        start := i + 1;
      } else {
        assert b[start..i + 1] == b[start..i] + [b[i]];
      }
      i := i + 1;
    }
    assert i == |b| ==> b[start..] == b[start..i];
    SplitUnique(b, out, Split(b));
  }

  /** The value the last complete pair gives for `key`, or "" without one. */
  function LastWins(parts: seq<CString>, key: CString): CString {
    if |parts| < 2 then []
    else if |parts| % 2 == 1 then LastWins(parts[..|parts| - 1], key)
    else if parts[|parts| - 2] == key then parts[|parts| - 1]
    else LastWins(parts[..|parts| - 2], key)
  }

  lemma LastWinsPair(parts: seq<CString>, i: nat, key: CString)
    requires i % 2 == 0 && i + 1 < |parts|
    ensures LastWins(parts[..i + 2], key) == if parts[i] == key then parts[i + 1] else LastWins(parts[..i], key)
  {
    var front := parts[..i + 2];
    assert |front| % 2 == 0 && front[..i] == parts[..i];
  }

  lemma LastWinsWhole(parts: seq<CString>, i: nat, key: CString)
    requires i % 2 == 0 && i <= |parts| <= i + 1
    ensures LastWins(parts, key) == LastWins(parts[..i], key)
  {
    if i < |parts| {
      assert parts[..|parts| - 1] == parts[..i];
    } else {
      assert parts[..i] == parts;
    }
  }

  /** parseParams */
  method ParseParams(body: seq<Byte>) returns (database: CString, user: CString)
    ensures database == LastWins(Split(body), DATABASE) && user == LastWins(Split(body), USER)
  {
    var parts := SplitCStrings(body);
    database, user := [], [];
    var i := 0;
    assert DATABASE[0] != USER[0];
    while i + 1 < |parts|
      invariant 0 <= i <= |parts| && i % 2 == 0
      invariant database == LastWins(parts[..i], DATABASE) && user == LastWins(parts[..i], USER)
    {
      LastWinsPair(parts, i, DATABASE);
      LastWinsPair(parts, i, USER);
      if parts[i] == DATABASE {
        database := parts[i + 1];
      } else if parts[i] == USER {
        user := parts[i + 1];
      }
      i := i + 2;
    }
    LastWinsWhole(parts, i, DATABASE);
    LastWinsWhole(parts, i, USER);
  }

  /** A list a client encodes is read back whole, whatever follows its terminator. */
  lemma ParamsRoundTrip(parts: seq<CString>, junk: seq<Byte>)
    requires AllCarried(parts)
    ensures Split(Encode(parts) + [0] + junk) == parts
    ensures Split(Encode(parts)) == parts
  {
    EncodeIsSplit(parts, junk);
    SplitUnique(Encode(parts) + [0] + junk, parts, Split(Encode(parts) + [0] + junk));
    SplitUnique(Encode(parts), parts, Split(Encode(parts)));
  }

  /** LastWins is the last write: some pair of the list has the value and no later pair has the key. */
  lemma {:induction false} LastWinsMeaning(parts: seq<CString>, key: CString, j: nat)
    requires 2 * j + 1 < |parts| && parts[2 * j] == key
    requires forall k :: j < k && 2 * k + 1 < |parts| ==> parts[2 * k] != key
    ensures LastWins(parts, key) == parts[2 * j + 1]
    decreases |parts|
  {
    var n := |parts|;
    if n % 2 == 1 {
      LastWinsMeaning(parts[..n - 1], key, j);
    } else if parts[n - 2] == key {
      var last := n / 2 - 1;
      assert parts[2 * last] == key && !(j < last);
    } else {
      assert forall k :: j < k && 2 * k + 1 < n - 2 ==> parts[..n - 2][2 * k] != key;
      LastWinsMeaning(parts[..n - 2], key, j);
    }
  }

  lemma {:induction false} LastWinsAbsent(parts: seq<CString>, key: CString)
    requires forall k: nat :: 2 * k + 1 < |parts| ==> parts[2 * k] != key
    ensures LastWins(parts, key) == []
    decreases |parts|
  {
    var n := |parts|;
    if n >= 2 {
      if n % 2 == 1 {
        LastWinsAbsent(parts[..n - 1], key);
      } else {
        assert parts[2 * (n / 2 - 1)] == parts[n - 2];
        LastWinsAbsent(parts[..n - 2], key);
      }
    }
  }
}
