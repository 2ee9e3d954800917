/** The parts of Go's strings and strconv packages the modules rely on. */
module Strings {

  datatype Option<+T> = None | Some(value: T)

  function Or<T>(given: Option<T>, default: T): T {
    if given.Some? then given.value else default
  }

  datatype Result<+T, +E> = Success(value: T) | Failure(error: E)

  /** strconv.Itoa on a non-negative number. */
  function Decimal(n: nat): (s: string)
    ensures s != [] && (forall i :: 0 <= i < |s| ==> '0' <= s[i] <= '9')
    ensures |s| > 1 ==> s[0] != '0'
    ensures n > 0 ==> s[0] != '0'
  {
    if n < 10 then [Digit(n)] else Decimal(n / 10) + [Digit(n % 10)]
  }

  function Digit(d: nat): (c: char)
    requires d < 10
    ensures '0' <= c <= '9' && c as int == '0' as int + d
  {
    ('0' as int + d) as char
  }

  /** strconv.Itoa */
  function Itoa(n: int): (s: string)
    ensures s != []
  {
    if n < 0 then "-" + Decimal(-n) else Decimal(n)
  }

  predicate AllDigits(s: string) {
    forall i :: 0 <= i < |s| ==> '0' <= s[i] <= '9'
  }

  /** The number a string of digits denotes in base ten. */
  function DigitsValue(s: string): (n: nat)
    requires AllDigits(s)
  {
    if s == "" then 0 else 10 * DigitsValue(s[..|s| - 1]) + (s[|s| - 1] as int - '0' as int)
  }

  lemma {:induction false} DecimalValue(n: nat)
    ensures DigitsValue(Decimal(n)) == n
  {
    var s := Decimal(n);
    if n < 10 {
      assert s[..|s| - 1] == "";
    } else {
      DecimalValue(n / 10);
      assert s[..|s| - 1] == Decimal(n / 10);
    }
  }

  const MAX_INT: int := 0x7fff_ffff_ffff_ffff
  const MIN_INT: int := -0x8000_0000_0000_0000

  predicate Signed(s: string) {
    s != "" && (s[0] == '-' || s[0] == '+')
  }

  function InRange(v: int): Option<int> {
    if MIN_INT <= v <= MAX_INT then Some(v) else None
  }

  /** strconv.Atoi: an optional sign, decimal digits, and the result must fit 64 bits. */
  function Atoi(s: string): Option<int> {
    var digits := if Signed(s) then s[1..] else s;
    if digits == "" || !AllDigits(digits) then None
    else if s[0] == '-' then InRange(-(DigitsValue(digits) as int))
    else InRange(DigitsValue(digits))
  }

  lemma AtoiItoa(n: int)
    requires MIN_INT <= n <= MAX_INT
    ensures Atoi(Itoa(n)) == Some(n)
  {
    var m: nat := if n < 0 then -n else n;
    var d := Decimal(m);
    DecimalValue(m);
    AtoiOfDigits(d);
    assert n < 0 ==> Itoa(n) == "-" + d;
  }

  lemma AtoiOfDigits(d: string)
    requires d != "" && AllDigits(d)
    ensures Atoi(d) == InRange(DigitsValue(d))
    ensures Atoi("-" + d) == InRange(-(DigitsValue(d) as int))
  {
    assert !Signed(d);
    assert ("-" + d)[1..] == d;
  }

  /** strings.Join */
  function Join(parts: seq<string>, sep: string): string {
    if parts == [] then ""
    else if |parts| == 1 then parts[0]
    else parts[0] + sep + Join(parts[1..], sep)
  }

  /** Whether sub stands at position i of s. */
  predicate At(s: string, sub: string, i: nat) {
    i + |sub| <= |s| && s[i..i + |sub|] == sub
  }

  /** strings.Contains */
  predicate Contains(s: string, sub: string) {
    exists i :: 0 <= i <= |s| && At(s, sub, i)
  }

  lemma ContainsMiddle(a: string, sub: string, b: string)
    ensures Contains(a + sub + b, sub)
  {
    assert (a + sub + b)[|a|..|a| + |sub|] == sub;
    assert At(a + sub + b, sub, |a|);
  }

  /** strings.ToLower, for the ASCII letters parameter names are made of. */
  function LowerChar(c: char): char {
    if 'A' <= c <= 'Z' then (c as int + 32) as char else c
  }

  function Lower(s: string): (t: string)
    ensures |t| == |s|
  {
    seq(|s|, i requires 0 <= i < |s| => LowerChar(s[i]))
  }

  /** strings.ToUpper, for ASCII letters. */
  function UpperChar(c: char): char {
    if 'a' <= c <= 'z' then (c as int - 32) as char else c
  }

  function Upper(s: string): (t: string)
    ensures |t| == |s|
  {
    seq(|s|, i requires 0 <= i < |s| => UpperChar(s[i]))
  }

  predicate IsSpace(c: char) {
    c == ' ' || '\t' <= c <= '\r'
  }

  /** strings.TrimSpace, for ASCII white space. */
  function TrimSpace(s: string): (t: string)
    ensures |t| <= |s|
  {
    if s == "" then ""
    else if IsSpace(s[0]) then TrimSpace(s[1..])
    else if IsSpace(s[|s| - 1]) then TrimSpace(s[..|s| - 1])
    else s
  }

  /** The byte order Go sorts strings by. */
  predicate Before(a: string, b: string) {
    if b == "" then false
    else if a == "" then true
    else a[0] < b[0] || (a[0] == b[0] && Before(a[1..], b[1..]))
  }

  lemma {:induction false} BeforeTotal(a: string, b: string)
    ensures a == b || Before(a, b) || Before(b, a)
    ensures !(Before(a, b) && Before(b, a)) && !Before(a, a)
  {
    if a != "" && b != "" && a[0] == b[0] {
      BeforeTotal(a[1..], b[1..]);
      assert a == [a[0]] + a[1..] && b == [b[0]] + b[1..];
    }
    if a != "" {
      BeforeTotal(a[1..], a[1..]);
    }
  }

  lemma {:induction false} BeforeTransitive(a: string, b: string, c: string)
    requires Before(a, b) && Before(b, c)
    ensures Before(a, c)
  {
    if a != "" && a[0] == b[0] == c[0] {
      BeforeTransitive(a[1..], b[1..], c[1..]);
    }
  }

  predicate IsLeast(keys: set<string>, k: string) {
    k in keys && forall j :: j in keys ==> j == k || Before(k, j)
  }

  lemma {:induction false} LeastExists(keys: set<string>)
    requires keys != {}
    ensures exists k :: IsLeast(keys, k)
    ensures forall k, l :: IsLeast(keys, k) && IsLeast(keys, l) ==> k == l
    decreases |keys|
  {
    var k :| k in keys;
    var others := keys - {k};
    assert forall j :: j in keys ==> j == k || j in others;
    if others == {} {
      assert IsLeast(keys, k);
    } else {
      LeastExists(others);
      var l :| IsLeast(others, l);
      BeforeTotal(k, l);
      if Before(k, l) {
        forall j | j in others && j != l { BeforeTransitive(k, l, j); }
        assert IsLeast(keys, k);
      } else {
        assert IsLeast(keys, l);
      }
    }
    forall m, n | IsLeast(keys, m) && IsLeast(keys, n) { BeforeTotal(m, n); }
  }

  predicate Ascending(ks: seq<string>) {
    forall i, j :: 0 <= i < j < |ks| ==> Before(ks[i], ks[j])
  }

  /** engine.SortedKeys: the keys of a map in byte order. */
  function SortedKeys(keys: set<string>): (ks: seq<string>)
    ensures forall k :: k in ks <==> k in keys
    ensures Ascending(ks) && |ks| == |keys|
    decreases |keys|
  {
    if keys == {} then []
    else
      LeastExists(keys);
      var k :| IsLeast(keys, k);
      [k] + SortedKeys(keys - {k})
  }
}
