/** Quoting, and a lexer that reads the statements back. */
module SqlText {
  import opened Strings

  // ----- Quoting

  /** strings.ReplaceAll(s, q, qq) */
  function Doubled(s: string, q: char): string {
    if s == "" then ""
    else if s[0] == q then [q, q] + Doubled(s[1..], q)
    else [s[0]] + Doubled(s[1..], q)
  }

  function Enclosed(s: string, q: char): string {
    [q] + Doubled(s, q) + [q]
  }

  /** sqlLit, which PostgreSQL and MariaDB share. */
  function SqlLit(s: string): string {
    Enclosed(s, '\'')
  }

  // ----- Lexing

  /**
   * How a server quotes identifiers, whether a backslash escapes inside its literals, whether any white space between
   * two literals makes them one or only a line end does, how long a name may be, and whether a longer one is cut.
   */
  datatype Dialect = Dialect(identQuote: char, escapes: bool, joins: bool, nameLimit: nat, cuts: bool) {
    predicate Valid() {
      identQuote == '"' || identQuote == '`'
    }
  }

  const POSTGRES := Dialect('"', false, false, 63, true)
  const MARIADB := Dialect('`', true, true, 64, false)

  datatype Token = Word(word: string) | Ident(name: string) | Lit(text: string) | Num(value: int) | Sym(symbol: char)

  /** The text up to the closing quote, a doubled quote standing for one, and what follows it. */
  function Quoted(s: string, q: char, escapes: bool): Option<(string, string)> {
    if s == "" || (escapes && s[0] == '\\') then None
    else if s[0] != q then
      var later := Quoted(s[1..], q, escapes);
      if later.None? then None else Some(([s[0]] + later.value.0, later.value.1))
    else if |s| > 1 && s[1] == q then
      var later := Quoted(s[2..], q, escapes);
      if later.None? then None else Some(([q] + later.value.0, later.value.1))
    else Some(("", s[1..]))
  }

  predicate WordStart(c: char) {
    'A' <= c <= 'Z' || 'a' <= c <= 'z' || c == '_'
  }

  predicate Digit10(c: char) {
    '0' <= c <= '9'
  }

  predicate WordPart(c: char) {
    WordStart(c) || Digit10(c)
  }

  predicate Symbol(c: char) {
    c == ',' || c == '=' || c == '.' || c == '@' || c == '*'
  }

  /** How many characters at the front of s satisfy p. */
  function Span(s: string, p: char -> bool): (n: nat)
    ensures n <= |s|
    ensures forall i :: 0 <= i < n ==> p(s[i])
    ensures n < |s| ==> !p(s[n])
  {
    if s == "" || !p(s[0]) then 0 else 1 + Span(s[1..], p)
  }

  function Cons(t: Token, later: Option<seq<Token>>): Option<seq<Token>> {
    if later.None? then None else Some([t] + later.value)
  }

  function QuotedLength(s: string, q: char, escapes: bool): (n: nat)
    requires Quoted(s, q, escapes).Some?
    ensures |Quoted(s, q, escapes).value.1| < |s|
  {
    if s[0] != q then 1 + QuotedLength(s[1..], q, escapes)
    else if |s| > 1 && s[1] == q then 2 + QuotedLength(s[2..], q, escapes)
    else 1
  }

  /**
   * The token at the front, and what follows it. A word that runs into a quote (a prefixed literal), a comment or any
   * other operator is outside what the drivers write, and is no token here.
   */
  function First(s: string, d: Dialect): (r: Option<(Token, string)>)
    requires s != ""
    ensures r.Some? ==> |r.value.1| < |s|
  {
    if s[0] == d.identQuote then FirstIdent(s, d)
    else if s[0] == '\'' then FirstLit(s, d.escapes)
    else if WordStart(s[0]) then
      var n := Span(s, WordPart);
      if n < |s| && (s[n] == '\'' || s[n] == d.identQuote) then None else Some((Word(s[..n]), s[n..]))
    else if Digit10(s[0]) then FirstNumber(s, 1)
    else if s[0] == '-' && |s| > 1 && Digit10(s[1]) then
      var number := FirstNumber(s[1..], -1);
      if number.None? then None else Some(number.value)
    else if Symbol(s[0]) then Some((Sym(s[0]), s[1..]))
    else None
  }

  function FirstLit(s: string, escapes: bool): (r: Option<(Token, string)>)
    requires s != ""
    ensures r.Some? ==> |r.value.1| < |s|
  {
    var text := Quoted(s[1..], '\'', escapes);
    if text.None? then None
    else
      var _ := QuotedLength(s[1..], '\'', escapes);
      Some((Lit(text.value.0), text.value.1))
  }

  /** What a server makes of a name: an empty one is an error, and one that is too long is cut or is an error. */
  function Kept(name: string, d: Dialect): Option<string> {
    if name == "" || (|name| > d.nameLimit && !d.cuts) then None
    else if |name| > d.nameLimit then Some(name[..d.nameLimit])
    else Some(name)
  }

  function FirstIdent(s: string, d: Dialect): (r: Option<(Token, string)>)
    requires s != ""
    ensures r.Some? ==> |r.value.1| < |s|
  {
    var text := Quoted(s[1..], d.identQuote, false);
    if text.None? || Kept(text.value.0, d).None? then None
    else
      var _ := QuotedLength(s[1..], d.identQuote, false);
      Some((Ident(Kept(text.value.0, d).value), text.value.1))
  }

  function FirstNumber(s: string, sign: int): (r: Option<(Token, string)>)
    requires s != "" && Digit10(s[0])
    ensures r.Some? ==> |r.value.1| < |s|
  {
    var n := Span(s, Digit10);
    if n < |s| && WordStart(s[n]) then None else Some((Num(sign * DigitsValue(s[..n])), s[n..]))
  }

  predicate HasLineEnd(s: string) {
    '\n' in s || '\r' in s
  }

  /** What follows a literal goes on with it: white space and another opening quote. */
  predicate Continues(rest: string, d: Dialect) {
    var n := Span(rest, IsSpace);
    0 < n < |rest| && rest[n] == '\'' && (d.joins || HasLineEnd(rest[..n]))
  }

  /** Two literals that are one. */
  function Merged(text: string, later: Option<seq<Token>>): Option<seq<Token>> {
    if later.None? || later.value == [] || !later.value[0].Lit? then None
    else Some([Lit(text + later.value[0].text)] + later.value[1..])
  }

  /** A token in front of what follows it. */
  function Joined(t: Token, rest: string, later: Option<seq<Token>>, d: Dialect): Option<seq<Token>> {
    if t.Lit? && Continues(rest, d) then Merged(t.text, later) else Cons(t, later)
  }

  /** The tokens of a statement. */
  function Lex(s: string, d: Dialect): Option<seq<Token>>
    decreases |s|
  {
    if s == "" then Some([])
    else if IsSpace(s[0]) then Lex(s[1..], d)
    else
      var first := First(s, d);
      if first.None? then None else Joined(first.value.0, first.value.1, Lex(first.value.1, d), d)
  }

  // ----- Quoting is inverted by lexing

  predicate BackslashFree(s: string) {
    forall i :: 0 <= i < |s| ==> s[i] != '\\'
  }

  lemma QuotedSteps(c: char, t: string, q: char, escapes: bool)
    requires q != '\\'
    ensures Quoted([q, q] + t, q, escapes) == if Quoted(t, q, escapes).None? then None
      else Some(([q] + Quoted(t, q, escapes).value.0, Quoted(t, q, escapes).value.1))
    ensures c != q && (escapes ==> c != '\\') ==>
      Quoted([c] + t, q, escapes) == if Quoted(t, q, escapes).None? then None
        else Some(([c] + Quoted(t, q, escapes).value.0, Quoted(t, q, escapes).value.1))
  {
    assert ([q, q] + t)[2..] == t;
    assert ([c] + t)[1..] == t;
  }

  /** Reading stops at the closing quote and gives back what was quoted, whatever else follows. */
  lemma {:induction false} QuotedRoundTrip(s: string, q: char, escapes: bool, rest: string)
    requires q != '\\' && (escapes ==> BackslashFree(s))
    requires rest == "" || rest[0] != q
    ensures Quoted(Doubled(s, q) + [q] + rest, q, escapes) == Some((s, rest))
  {
    if s == "" {
      var all := Doubled(s, q) + [q] + rest;
      assert all == [q] + rest && all[1..] == rest;
    } else {
      var later := Doubled(s[1..], q) + [q] + rest;
      QuotedRoundTrip(s[1..], q, escapes, rest);
      QuotedSteps(s[0], later, q, escapes);
      DoubledFront(s, q, rest);
      assert s == [s[0]] + s[1..];
    }
  }

  lemma DoubledFront(s: string, q: char, rest: string)
    requires s != ""
    ensures Doubled(s, q) + [q] + rest == (if s[0] == q then [q, q] else [s[0]]) + (Doubled(s[1..], q) + [q] + rest)
  {
  }

  /** What a quoted name makes of the tokens behind it. */
  function Named(name: string, later: Option<seq<Token>>, d: Dialect): Option<seq<Token>> {
    if Kept(name, d).None? then None else Cons(Ident(Kept(name, d).value), later)
  }

  lemma QuotedFront(text: string, q: char, escapes: bool, rest: string)
    requires q != '\\' && (escapes ==> BackslashFree(text)) && (rest == "" || rest[0] != q)
    ensures var all := Enclosed(text, q) + rest;
      all[0] == q && Quoted(all[1..], q, escapes) == Some((text, rest))
  {
    var all := Enclosed(text, q) + rest;
    assert all[1..] == Doubled(text, q) + [q] + rest;
    QuotedRoundTrip(text, q, escapes, rest);
  }

  lemma IdentRoundTrip(name: string, d: Dialect, rest: string)
    requires d.Valid() && (rest == "" || rest[0] != d.identQuote)
    ensures Lex(Enclosed(name, d.identQuote) + rest, d) == Named(name, Lex(rest, d), d)
  {
    QuotedFront(name, d.identQuote, false, rest);
  }

  /** A quoted value is one token holding it, or the front part of one if another literal goes on with it. */
  lemma LitRoundTrip(text: string, d: Dialect, rest: string)
    requires d.Valid() && (rest == "" || rest[0] != '\'') && (d.escapes ==> BackslashFree(text))
    ensures Lex(SqlLit(text) + rest, d) == Joined(Lit(text), rest, Lex(rest, d), d)
  {
    QuotedFront(text, '\'', d.escapes, rest);
  }

  // ----- Lexing goes piece by piece

  /** Text that ends where a new token may begin, so that it can be read on its own. */
  predicate Separates(rest: string) {
    rest == "" || IsSpace(rest[0]) || Symbol(rest[0])
  }

  lemma SeparatorChar(rest: string)
    requires Separates(rest) && rest != ""
    ensures !WordPart(rest[0]) && rest[0] != '\'' && rest[0] != '"' && rest[0] != '`'
  {
  }

  lemma {:induction false} QuotedExtends(s: string, q: char, escapes: bool, more: string)
    requires Quoted(s, q, escapes).Some? && (more == "" || more[0] != q)
    ensures Quoted(s + more, q, escapes) ==
      Some((Quoted(s, q, escapes).value.0, Quoted(s, q, escapes).value.1 + more))
  {
    if s[0] != q {
      QuotedExtends(s[1..], q, escapes, more);
      assert (s + more)[1..] == s[1..] + more;
    } else if |s| > 1 && s[1] == q {
      QuotedExtends(s[2..], q, escapes, more);
      assert (s + more)[2..] == s[2..] + more;
    } else {
      assert (s + more)[1..] == s[1..] + more;
    }
  }

  lemma {:induction false} SpanExtends(s: string, p: char -> bool, more: string)
    requires more == "" || !p(more[0])
    ensures Span(s + more, p) == Span(s, p)
  {
    if s != "" {
      assert (s + more)[1..] == s[1..] + more;
      if p(s[0]) {
        SpanExtends(s[1..], p, more);
      }
    } else {
      assert s + more == more;
    }
  }

  lemma LitExtends(s: string, escapes: bool, more: string)
    requires s != "" && FirstLit(s, escapes).Some? && (more == "" || more[0] != '\'')
    ensures FirstLit(s + more, escapes) == Some((FirstLit(s, escapes).value.0, FirstLit(s, escapes).value.1 + more))
  {
    assert (s + more)[1..] == s[1..] + more;
    QuotedExtends(s[1..], '\'', escapes, more);
  }

  lemma IdentExtends(s: string, d: Dialect, more: string)
    requires s != "" && FirstIdent(s, d).Some? && (more == "" || more[0] != d.identQuote)
    ensures FirstIdent(s + more, d) == Some((FirstIdent(s, d).value.0, FirstIdent(s, d).value.1 + more))
  {
    assert (s + more)[1..] == s[1..] + more;
    QuotedExtends(s[1..], d.identQuote, false, more);
  }

  lemma WordExtends(s: string, more: string, d: Dialect)
    requires d.Valid() && Separates(more) && s != "" && WordStart(s[0]) && First(s, d).Some?
    ensures First(s + more, d) == Some((First(s, d).value.0, First(s, d).value.1 + more))
  {
    if more != "" {
      SeparatorChar(more);
    }
    SpanExtends(s, WordPart, more);
    var n := Span(s, WordPart);
    assert (s + more)[..n] == s[..n] && (s + more)[n..] == s[n..] + more;
  }

  lemma FirstExtends(s: string, more: string, d: Dialect)
    requires d.Valid() && Separates(more) && s != "" && First(s, d).Some?
    ensures First(s + more, d) == Some((First(s, d).value.0, First(s, d).value.1 + more))
  {
    if more != "" {
      SeparatorChar(more);
    }
    assert (s + more)[0] == s[0] && (s + more)[1..] == s[1..] + more;
    if s[0] == d.identQuote {
      IdentExtends(s, d, more);
    } else if s[0] == '\'' {
      LitExtends(s, d.escapes, more);
    } else if WordStart(s[0]) {
      WordExtends(s, more, d);
    } else if Digit10(s[0]) {
      NumberExtends(s, 1, more);
    } else if s[0] == '-' {
      NumberExtends(s[1..], -1, more);
    }
  }

  lemma NumberExtends(s: string, sign: int, more: string)
    requires s != "" && Digit10(s[0]) && Separates(more) && FirstNumber(s, sign).Some?
    ensures FirstNumber(s + more, sign) ==
      Some((FirstNumber(s, sign).value.0, FirstNumber(s, sign).value.1 + more))
  {
    if more != "" {
      SeparatorChar(more);
    }
    SpanExtends(s, Digit10, more);
    var n := Span(s, Digit10);
    assert (s + more)[..n] == s[..n] && (s + more)[n..] == s[n..] + more;
  }

  function Both(a: Option<seq<Token>>, b: Option<seq<Token>>): Option<seq<Token>> {
    if a.None? || b.None? then None else Some(a.value + b.value)
  }

  lemma JoinedBoth(t: Token, rest: string, a: Option<seq<Token>>, b: Option<seq<Token>>, d: Dialect)
    requires Joined(t, rest, a, d).Some?
    ensures Both(Joined(t, rest, a, d), b) == Joined(t, rest, Both(a, b), d)
  {
    if b.Some? {
      if t.Lit? && Continues(rest, d) {
        assert (a.value + b.value)[1..] == a.value[1..] + b.value;
        var first := Lit(t.text + a.value[0].text);
        assert [first] + a.value[1..] + b.value == [first] + (a.value[1..] + b.value);
      } else {
        assert [t] + a.value + b.value == [t] + (a.value + b.value);
      }
    }
  }

  /** The first thing in the text is a literal. */
  predicate StartsLit(s: string) {
    var n := Span(s, IsSpace);
    n < |s| && s[n] == '\''
  }

  predicate EndsLit(tokens: Option<seq<Token>>) {
    tokens.Some? && tokens.value != [] && tokens.value[|tokens.value| - 1].Lit?
  }

  lemma {:induction false} SpanInside(s: string, p: char -> bool, more: string)
    ensures Span(s, p) < |s| ==> Span(s + more, p) == Span(s, p)
    ensures Span(s, p) == |s| ==> Span(s + more, p) == |s| + Span(more, p)
  {
    if s == "" {
      assert s + more == more;
    } else {
      assert (s + more)[1..] == s[1..] + more;
      SpanInside(s[1..], p, more);
    }
  }

  lemma {:induction false} SpacesLex(s: string, d: Dialect)
    requires Span(s, IsSpace) == |s|
    ensures Lex(s, d) == Some([])
  {
    if s != "" {
      SpacesLex(s[1..], d);
    }
  }

  /** Whether a literal goes on is decided by what stands behind it, unless that is all white space. */
  lemma ContinuesInside(rest: string, more: string, d: Dialect)
    requires Span(rest, IsSpace) < |rest| || !StartsLit(more)
    ensures Continues(rest + more, d) <==> Continues(rest, d)
  {
    SpanInside(rest, IsSpace, more);
    var n, all := Span(rest, IsSpace), rest + more;
    if n < |rest| {
      assert all[..n] == rest[..n] && all[n] == rest[n];
    } else {
      AllSpaces(rest, more);
    }
  }

  lemma SpaceInFront(s: string)
    requires s != "" && IsSpace(s[0])
    ensures StartsLit(s) <==> StartsLit(s[1..])
  {
    var n := Span(s[1..], IsSpace);
    assert n < |s| - 1 ==> s[1 + n] == s[1..][n];
  }

  lemma {:induction false} AllSpaces(rest: string, more: string)
    requires Span(rest, IsSpace) == |rest| && !StartsLit(more)
    ensures !StartsLit(rest + more)
  {
    if rest == "" {
      assert rest + more == more;
    } else {
      AllSpaces(rest[1..], more);
      assert (rest + more)[1..] == rest[1..] + more;
      SpaceInFront(rest + more);
    }
  }

  /** A literal at the end of its text is followed by no other; one that is not has what follows it before it. */
  lemma ContinuesAlike(t: Token, rest: string, more: string, d: Dialect)
    requires t.Lit? && Lex(rest, d).Some? && !(EndsLit(Joined(t, rest, Lex(rest, d), d)) && StartsLit(more))
    ensures Continues(rest + more, d) <==> Continues(rest, d)
  {
    if Span(rest, IsSpace) == |rest| {
      SpacesLex(rest, d);
    }
    ContinuesInside(rest, more, d);
  }

  lemma LexStep(s: string, t: Token, rest: string, d: Dialect)
    requires s != "" && !IsSpace(s[0]) && First(s, d) == Some((t, rest))
    ensures Lex(s, d) == Joined(t, rest, Lex(rest, d), d)
  {
  }

  lemma JoinedEnds(t: Token, rest: string, later: Option<seq<Token>>, d: Dialect)
    requires Joined(t, rest, later, d).Some?
    ensures later.Some? && (EndsLit(later) ==> EndsLit(Joined(t, rest, later, d)))
  {
  }

  /** What stands before a separator is lexed as if it stood alone, unless literals meet there. */
  lemma {:induction false} LexAppend(s: string, more: string, d: Dialect)
    requires d.Valid() && Separates(more) && Lex(s, d).Some? && !(EndsLit(Lex(s, d)) && StartsLit(more))
    ensures Lex(s + more, d) == Both(Lex(s, d), Lex(more, d))
    decreases |s|, 1
  {
    if s == "" {
      assert s + more == more;
      if Lex(more, d).Some? {
        assert [] + Lex(more, d).value == Lex(more, d).value;
      }
    } else if IsSpace(s[0]) {
      assert (s + more)[1..] == s[1..] + more;
      LexAppend(s[1..], more, d);
    } else {
      LexAppendToken(s, more, d);
    }
  }

  lemma {:induction false} LexAppendToken(s: string, more: string, d: Dialect)
    requires d.Valid() && Separates(more) && Lex(s, d).Some? && !(EndsLit(Lex(s, d)) && StartsLit(more))
    requires s != "" && !IsSpace(s[0])
    ensures Lex(s + more, d) == Both(Lex(s, d), Lex(more, d))
    decreases |s|, 0
  {
    var (t, rest) := First(s, d).value;
    LexStep(s, t, rest, d);
    JoinedEnds(t, rest, Lex(rest, d), d);
    FirstExtends(s, more, d);
    LexStep(s + more, t, rest + more, d);
    if t.Lit? {
      ContinuesAlike(t, rest, more, d);
    }
    LexAppend(rest, more, d);
    JoinedBoth(t, rest, Lex(rest, d), Lex(more, d), d);
  }

  // ----- Words, numbers, and pieces joined by spaces

  lemma {:induction false} SpanAll(s: string, p: char -> bool)
    requires forall i :: 0 <= i < |s| ==> p(s[i])
    ensures Span(s, p) == |s|
  {
    if s != "" {
      SpanAll(s[1..], p);
    }
  }

  predicate IsWord(w: string) {
    w != "" && WordStart(w[0]) && forall i :: 0 <= i < |w| ==> WordPart(w[i])
  }

  lemma OneToken(t: Token, d: Dialect)
    ensures Joined(t, "", Some([]), d) == Some([t])
  {
    assert [t] + [] == [t];
  }

  lemma WordAlone(w: string, d: Dialect)
    requires d.Valid() && IsWord(w)
    ensures Lex(w, d) == Some([Word(w)])
  {
    SpanAll(w, WordPart);
    assert w[..|w|] == w && w[|w|..] == "";
    OneToken(Word(w), d);
  }

  lemma DigitsAlone(m: nat, sign: int)
    ensures Digit10(Decimal(m)[0]) && FirstNumber(Decimal(m), sign) == Some((Num(sign * m), ""))
  {
    var digits := Decimal(m);
    SpanAll(digits, Digit10);
    DecimalValue(m);
    assert digits[..|digits|] == digits && digits[|digits|..] == "";
  }

  lemma FirstOfDigits(s: string, d: Dialect)
    requires d.Valid() && s != "" && Digit10(s[0])
    ensures First(s, d) == FirstNumber(s, 1)
  {
    assert !WordStart(s[0]);
  }

  lemma FirstOfNegative(s: string, d: Dialect)
    requires d.Valid() && |s| > 1 && s[0] == '-' && Digit10(s[1])
    ensures First(s, d) == FirstNumber(s[1..], -1)
  {
    assert !WordStart(s[0]) && !Digit10(s[0]);
  }

  lemma TokenAlone(s: string, t: Token, d: Dialect)
    requires s != "" && !IsSpace(s[0]) && First(s, d) == Some((t, ""))
    ensures Lex(s, d) == Some([t])
  {
    OneToken(t, d);
  }

  lemma DecimalAlone(n: nat, d: Dialect)
    requires d.Valid()
    ensures Lex(Decimal(n), d) == Some([Num(n)])
  {
    DigitsAlone(n, 1);
    FirstOfDigits(Decimal(n), d);
    TokenAlone(Decimal(n), Num(n), d);
  }

  lemma NegativeAlone(n: nat, d: Dialect)
    requires d.Valid()
    ensures Lex("-" + Decimal(n), d) == Some([Num(-(n as int))])
  {
    var s := "-" + Decimal(n);
    DigitsAlone(n, -1);
    assert s[1..] == Decimal(n);
    FirstOfNegative(s, d);
    TokenAlone(s, Num(-(n as int)), d);
  }

  lemma NumberAlone(n: int, d: Dialect)
    requires d.Valid()
    ensures Lex(Itoa(n), d) == Some([Num(n)])
  {
    if n < 0 {
      NegativeAlone(-n, d);
    } else {
      DecimalAlone(n, d);
    }
  }

  lemma LitAlone(text: string, d: Dialect)
    requires d.Valid() && (d.escapes ==> BackslashFree(text))
    ensures Lex(SqlLit(text), d) == Some([Lit(text)])
  {
    LitRoundTrip(text, d, "");
    OneToken(Lit(text), d);
    assert SqlLit(text) + "" == SqlLit(text);
  }

  /** The tokens of pieces that stand apart, if each can be read. */
  function Tokens(parts: seq<string>, d: Dialect): Option<seq<Token>> {
    if parts == [] then Some([]) else Both(Lex(parts[0], d), Tokens(parts[1..], d))
  }

  /** No two literals meet between pieces. */
  predicate KeptApart(parts: seq<string>, d: Dialect) {
    |parts| > 1 ==>
      !(EndsLit(Lex(parts[0], d)) && StartsLit(Join(parts[1..], " "))) && KeptApart(parts[1..], d)
  }

  lemma {:induction false} LexJoin(parts: seq<string>, d: Dialect)
    requires d.Valid() && Tokens(parts, d).Some? && KeptApart(parts, d)
    ensures Lex(Join(parts, " "), d) == Tokens(parts, d)
  {
    if |parts| == 1 {
      assert Both(Lex(parts[0], d), Some([])).value == Lex(parts[0], d).value;
    } else if |parts| > 1 {
      LexJoin(parts[1..], d);
      LexTwo(parts[0], Join(parts[1..], " "), d);
      assert Join(parts, " ") == parts[0] + " " + Join(parts[1..], " ");
    }
  }

  lemma LexTwo(s: string, t: string, d: Dialect)
    requires d.Valid() && Lex(s, d).Some? && !(EndsLit(Lex(s, d)) && StartsLit(t))
    ensures Lex(s + " " + t, d) == Both(Lex(s, d), Lex(t, d))
  {
    Spaced(t, d);
    LexAppend(s, " " + t, d);
    assert s + " " + t == s + (" " + t);
  }

  /** A space in front makes no difference. */
  lemma Spaced(s: string, d: Dialect)
    ensures Lex(" " + s, d) == Lex(s, d) && (StartsLit(" " + s) <==> StartsLit(s))
  {
    assert (" " + s)[1..] == s;
    assert Span(" " + s, IsSpace) == 1 + Span(s, IsSpace);
  }

  predicate StartsOtherwise(tokens: Option<seq<Token>>) {
    tokens.Some? && tokens.value != [] && !tokens.value[0].Lit?
  }

  lemma {:induction false} NoLitInFront(s: string, d: Dialect)
    requires d.Valid() && StartsOtherwise(Lex(s, d))
    ensures Span(s, IsSpace) < |s| && !StartsLit(s)
  {
    if IsSpace(s[0]) {
      NoLitInFront(s[1..], d);
    }
  }

  /** Pieces none of which begins with a literal. */
  lemma {:induction false} OthersApart(parts: seq<string>, d: Dialect)
    requires d.Valid() && forall p :: p in parts ==> StartsOtherwise(Lex(p, d))
    ensures KeptApart(parts, d)
    ensures parts != [] ==> !StartsLit(Join(parts, " "))
  {
    if parts != [] {
      assert parts[0] in parts;
      NoLitInFront(parts[0], d);
      if |parts| > 1 {
        assert forall p :: p in parts[1..] ==> p in parts;
        OthersApart(parts[1..], d);
        SpanInside(parts[0], IsSpace, " " + Join(parts[1..], " "));
        assert Join(parts, " ") == parts[0] + (" " + Join(parts[1..], " "));
      }
    }
  }

  // ----- Names and values inside a statement

  /** Whatever a quoted name contains, the text before it and the text behind it are read as if it were not there. */
  lemma IdentInside(before: string, name: string, after: string, d: Dialect)
    requires d.Valid() && Lex(before, d).Some? && (after == "" || after[0] != d.identQuote)
    ensures Lex(before + " " + Enclosed(name, d.identQuote) + after, d) ==
      Both(Lex(before, d), Named(name, Lex(after, d), d))
  {
    IdentRoundTrip(name, d, after);
    Inside(before, Enclosed(name, d.identQuote), after, d);
  }

  /** The same for a quoted value, unless the text before it ends with another. */
  lemma LitInside(before: string, text: string, after: string, d: Dialect)
    requires d.Valid() && Lex(before, d).Some? && (after == "" || after[0] != '\'') && (d.escapes ==> BackslashFree(text))
    requires !EndsLit(Lex(before, d))
    ensures Lex(before + " " + SqlLit(text) + after, d) ==
      Both(Lex(before, d), Joined(Lit(text), after, Lex(after, d), d))
  {
    LitRoundTrip(text, d, after);
    Inside(before, SqlLit(text), after, d);
  }

  lemma Inside(before: string, quoted: string, after: string, d: Dialect)
    requires d.Valid() && Lex(before, d).Some? && quoted != "" && !IsSpace(quoted[0])
    requires quoted[0] == '\'' ==> !EndsLit(Lex(before, d))
    ensures Lex(before + " " + quoted + after, d) == Both(Lex(before, d), Lex(quoted + after, d))
  {
    assert before + " " + quoted + after == before + " " + (quoted + after);
    LexTwo(before, quoted + after, d);
  }
}
