/** The settings files of a cluster: the text that is written, and what the server reads in it. */
module PgConfFile {
  import opened Strings
  import opened Sequences
  import opened SqlText
  import opened PgConf

  // ----- Lines

  /** The lines of a file. */
  function Lines(text: string): (lines: seq<string>)
    ensures lines != []
  {
    if text == "" then [""]
    else
      var later := Lines(text[1..]);
      if text[0] == '\n' then [""] + later else OnFirst(text[0], later)
  }

  function OnFirst(c: char, lines: seq<string>): seq<string>
    requires lines != []
  {
    [[c] + lines[0]] + lines[1..]
  }

  lemma OnFirstAppend(c: char, lines: seq<string>, more: seq<string>)
    requires lines != []
    ensures OnFirst(c, lines + more) == OnFirst(c, lines) + more
    ensures [""] + (lines + more) == [""] + lines + more
  {
    assert (lines + more)[1..] == lines[1..] + more;
  }

  lemma {:induction false} LinesAppend(a: string, b: string, more: string)
    requires more == "\n" + b
    ensures Lines(a + more) == Lines(a) + Lines(b)
  {
    if a == "" {
      assert a + more == more && more[1..] == b;
    } else {
      LinesAppend(a[1..], b, more);
      assert (a + more)[1..] == a[1..] + more;
      OnFirstAppend(a[0], Lines(a[1..]), Lines(b));
    }
  }

  lemma {:induction false} OneLine(text: string)
    requires '\n' !in text
    ensures Lines(text) == [text]
  {
    if text != "" {
      OneLine(text[1..]);
      assert text == [text[0]] + text[1..];
    }
  }

  /** Text in front of the first line end belongs to the first line. */
  lemma {:induction false} FirstLine(head: string, rest: string)
    requires '\n' !in head
    ensures Lines(head + rest)[0] == head + Lines(rest)[0]
  {
    if head == "" {
      assert head + rest == rest;
    } else {
      assert (head + rest)[1..] == head[1..] + rest;
      FirstLine(head[1..], rest);
      assert head == [head[0]] + head[1..];
    }
  }

  // ----- Quoted values

  /**
   * The value of a quoted setting from behind its opening quote, and what follows it. A doubled quote stands for one,
   * and so does a backslash before a quote; a backslash and another character stand for one character, which
   * `escape` gives. A value does not go beyond its line.
   */
  function Scan(s: string, escape: char -> char): Option<(string, string)> {
    if s == "" || s[0] == '\n' then None
    else if s[0] == '\\' then
      if |s| < 2 || s[1] == '\n' then None
      else Prefixed(if s[1] == '\'' then '\'' else escape(s[1]), Scan(s[2..], escape))
    else if s[0] != '\'' then Prefixed(s[0], Scan(s[1..], escape))
    else if |s| > 1 && s[1] == '\'' then Prefixed('\'', Scan(s[2..], escape))
    else Some(("", s[1..]))
  }

  function Prefixed(c: char, later: Option<(string, string)>): Option<(string, string)> {
    if later.None? then None else Some(([c] + later.value.0, later.value.1))
  }

  /** A value that can stand between quotes on one line. */
  predicate Plain(v: string) {
    BackslashFree(v) && '\n' !in v
  }

  lemma PlainStep(v: string)
    requires v != ""
    ensures Plain(v) <==> v[0] != '\\' && v[0] != '\n' && Plain(v[1..])
  {
    assert v == [v[0]] + v[1..];
    assert forall i :: 0 <= i < |v| - 1 ==> v[1..][i] == v[i + 1];
    assert forall i :: 1 <= i < |v| ==> v[i] == v[1..][i - 1];
  }

  lemma DoubledStep(v: string, tail: string)
    requires v != ""
    ensures v[0] == '\'' ==> Doubled(v, '\'') + tail == "''" + (Doubled(v[1..], '\'') + tail)
    ensures v[0] != '\'' ==> Doubled(v, '\'') + tail == [v[0]] + (Doubled(v[1..], '\'') + tail)
  {
    Associative(if v[0] == '\'' then "''" else [v[0]], Doubled(v[1..], '\''), tail);
  }

  lemma ScanSteps(c: char, s: string, escape: char -> char)
    ensures Scan("''" + s, escape) == Prefixed('\'', Scan(s, escape))
    ensures c != '\'' && c != '\\' && c != '\n' ==> Scan([c] + s, escape) == Prefixed(c, Scan(s, escape))
    ensures c != '\n' ==>
      Scan(['\\'] + ([c] + s), escape) == Prefixed(if c == '\'' then '\'' else escape(c), Scan(s, escape))
  {
    assert ("''" + s)[2..] == s;
    assert ([c] + s)[1..] == s;
    assert (['\\'] + ([c] + s))[2..] == s;
  }

  /** Scanning never makes a value longer, even when a backslash has swallowed the first half of a doubled quote. */
  lemma {:induction false} ScanNeverGrows(v: string, tail: string, escape: char -> char)
    requires tail == "" || tail == "'"
    ensures var t := Doubled(v, '\'') + tail;
      && (Scan(t, escape).Some? ==> |Scan(t, escape).value.0| <= |v|)
      && (Scan("'" + t, escape).Some? ==> |Scan("'" + t, escape).value.0| <= |v|)
    decreases |v|
  {
    var t := Doubled(v, '\'') + tail;
    if v == "" {
      assert t == tail;
    } else {
      var later := Doubled(v[1..], '\'') + tail;
      DoubledStep(v, tail);
      ScanNeverGrows(v[1..], tail, escape);
      if v[0] == '\'' {
        ScanSteps('\'', later, escape);
        assert "'" + t == "''" + ("'" + later);
        ScanSteps('\'', "'" + later, escape);
      } else if v[0] != '\\' {
        ScanSteps(v[0], later, escape);
      } else {
        if |v| > 1 {
          ScanNeverGrows(v[2..], tail, escape);
        }
        Swallowed(v, tail, escape);
      }
    }
  }

  /** A backslash takes the next character along, be it only half of a doubled quote. */
  lemma Swallowed(v: string, tail: string, escape: char -> char)
    requires v != "" && v[0] == '\\' && (tail == "" || tail == "'")
    requires |v| > 1 ==>
      var s := Doubled(v[2..], '\'') + tail;
      && (Scan(s, escape).Some? ==> |Scan(s, escape).value.0| <= |v| - 2)
      && (Scan("'" + s, escape).Some? ==> |Scan("'" + s, escape).value.0| <= |v| - 2)
    ensures var t := Doubled(v, '\'') + tail; Scan(t, escape).Some? ==> |Scan(t, escape).value.0| < |v|
  {
    var t := Doubled(v, '\'') + tail;
    DoubledStep(v, tail);
    if |v| > 1 {
      var s := Doubled(v[2..], '\'') + tail;
      DoubledStep(v[1..], tail);
      assert v[1..][1..] == v[2..];
      if v[1] == '\'' {
        assert t == ['\\'] + (['\''] + ("'" + s));
        ScanSteps('\'', "'" + s, escape);
      } else {
        ScanSteps(v[1], s, escape);
      }
    } else {
      assert Doubled(v[1..], '\'') + tail == tail;
    }
  }

  /** A quoted value as it stands behind its opening quote. */
  function Rest(v: string): string {
    Doubled(v, '\'') + "'"
  }

  /**
   * A value comes back as it was given exactly when it holds neither a backslash, which is not escaped, nor a line
   * end; any other is misread as another value or not read at all.
   */
  lemma {:induction false} QuotedExactly(v: string, escape: char -> char)
    ensures Scan(Rest(v), escape) == Some((v, "")) <==> Plain(v)
    ensures Scan(Rest(v), escape).Some? && Scan(Rest(v), escape).value.0 == v ==> Plain(v)
  {
    var t := Rest(v);
    if v != "" {
      DoubledStep(v, "'");
      QuotedExactly(v[1..], escape);
      assert v == [v[0]] + v[1..];
      PlainStep(v);
      if v[0] == '\'' {
        assert t[2..] == Rest(v[1..]);
        PrefixedBack(v[0], Scan(Rest(v[1..]), escape));
      } else if v[0] != '\\' {
        assert t[1..] == Rest(v[1..]);
        PrefixedBack(v[0], Scan(Rest(v[1..]), escape));
      } else {
        BackslashLost(v, "'", escape);
      }
    } else {
      assert t == "'" && t[1..] == "";
    }
  }

  lemma PrefixedBack(c: char, later: Option<(string, string)>)
    ensures later.Some? ==> Prefixed(c, later).value.0[1..] == later.value.0
  {
  }

  lemma BackslashLost(v: string, tail: string, escape: char -> char)
    requires v != "" && v[0] == '\\' && (tail == "" || tail == "'")
    ensures var t := Doubled(v, '\'') + tail; Scan(t, escape).Some? ==> |Scan(t, escape).value.0| < |v|
  {
    if |v| > 1 {
      ScanNeverGrows(v[2..], tail, escape);
    }
    Swallowed(v, tail, escape);
  }

  // ----- Reading a line

  predicate Blank(c: char) {
    c == ' ' || c == '\t' || c == '\r'
  }

  function SkipBlanks(s: string): string {
    if s != "" && Blank(s[0]) then SkipBlanks(s[1..]) else s
  }

  predicate Letter(c: char) {
    'A' <= c <= 'Z' || 'a' <= c <= 'z' || c == '_' || c as int >= 128
  }

  predicate NamePart(c: char) {
    Letter(c) || Digit10(c)
  }

  /** What an unquoted word may go on with. */
  predicate Unquoted(c: char) {
    NamePart(c) || c == '-' || c == '.' || c == ':' || c == '/'
  }

  predicate IsId(w: string) {
    w != "" && Letter(w[0]) && forall i :: 0 <= i < |w| ==> NamePart(w[i])
  }

  /** A parameter's name, maybe qualified. */
  predicate IsName(w: string) {
    IsId(w) || exists i :: 0 < i < |w| && w[i] == '.' && IsId(w[..i]) && IsId(w[i + 1..])
  }

  datatype Line = Nothing | Says(name: string, value: string) | Malformed

  /** A name, an equals sign or none, one value, and at most a comment behind it. */
  function ReadLine(line: string, escape: char -> char): Line {
    var s := SkipBlanks(line);
    if s == "" || s[0] == '#' then Nothing
    else
      var n := Span(s, Unquoted);
      if !IsName(s[..n]) then Malformed else ReadValue(s[..n], SkipEquals(SkipBlanks(s[n..])), escape)
  }

  function SkipEquals(s: string): string {
    if s != "" && s[0] == '=' then SkipBlanks(s[1..]) else s
  }

  function ReadValue(name: string, s: string, escape: char -> char): Line {
    if s == "" then Malformed
    else if s[0] == '\'' then Ended(name, Scan(s[1..], escape))
    else if BareLength(s) == 0 then Malformed
    else Ended(name, Some((s[..BareLength(s)], s[BareLength(s)..])))
  }

  /** A word, or a number with its unit. */
  function BareLength(s: string): (n: nat)
    requires s != ""
    ensures n <= |s|
  {
    if Letter(s[0]) then Span(s, Unquoted)
    else
      var sign := if s[0] == '-' || s[0] == '+' then 1 else 0;
      var n := Span(s[sign..], NumberPart);
      if n == 0 || !Digit10(s[sign]) then 0 else sign + n
  }

  predicate NumberPart(c: char) {
    Digit10(c) || 'A' <= c <= 'Z' || 'a' <= c <= 'z' || c == '.'
  }

  function Ended(name: string, read: Option<(string, string)>): Line {
    if read.None? then Malformed
    else
      var rest := SkipBlanks(read.value.1);
      if rest == "" || rest[0] == '#' then Says(name, read.value.0) else Malformed
  }

  /** The entries of a file; one line that cannot be read spoils all of it. */
  function ReadLines(lines: seq<string>, escape: char -> char): Option<seq<Entry>> {
    if lines == [] then Some([])
    else match ReadLine(lines[0], escape)
      case Nothing => ReadLines(lines[1..], escape)
      case Malformed => None
      case Says(name, value) =>
        var later := ReadLines(lines[1..], escape);
        if later.None? then None else Some([(name, value)] + later.value)
  }

  function ReadConf(text: string, escape: char -> char): Option<seq<Entry>> {
    ReadLines(Lines(text), escape)
  }

  // ----- A line that is well written

  lemma {:induction false} SpanStops(w: string, rest: string, p: char -> bool)
    requires forall i :: 0 <= i < |w| ==> p(w[i])
    requires rest == "" || !p(rest[0])
    ensures Span(w + rest, p) == |w|
  {
    if w == "" {
      assert w + rest == rest;
    } else {
      assert (w + rest)[1..] == w[1..] + rest;
      SpanStops(w[1..], rest, p);
    }
  }

  lemma NameChars(w: string)
    requires IsName(w)
    ensures w != "" && Letter(w[0]) && forall i :: 0 <= i < |w| ==> Unquoted(w[i])
  {
    if !IsId(w) {
      var d :| 0 < d < |w| && w[d] == '.' && IsId(w[..d]) && IsId(w[d + 1..]);
      assert w[0] == w[..d][0];
      forall i | 0 <= i < |w|
        ensures Unquoted(w[i])
      {
        if i < d {
          assert w[i] == w[..d][i];
        } else if i > d {
          assert w[i] == w[d + 1..][i - d - 1];
        }
      }
    }
  }

  /** A name and an equals sign lead to the value. */
  lemma ReadAssignment(name: string, text: string, escape: char -> char)
    requires IsName(name) && text != "" && !Blank(text[0])
    ensures ReadLine(name + " = " + text, escape) == ReadValue(name, text, escape)
  {
    Associative(name, " = ", text);
    ReadNamed(name, " = " + text, escape);
    EqualsSkipped(text);
  }

  lemma ReadNamed(name: string, rest: string, escape: char -> char)
    requires IsName(name) && rest != "" && rest[0] == ' '
    ensures ReadLine(name + rest, escape) == ReadValue(name, SkipEquals(SkipBlanks(rest)), escape)
  {
    var line := name + rest;
    NameChars(name);
    assert line[0] == name[0];
    SpanStops(name, rest, Unquoted);
    assert line[..|name|] == name && line[|name|..] == rest;
  }

  lemma EqualsSkipped(text: string)
    requires text != "" && !Blank(text[0])
    ensures SkipEquals(SkipBlanks(" = " + text)) == text
  {
    assert (" " + text)[1..] == text;
    assert SkipBlanks(" " + text) == text;
    assert ("= " + text)[1..] == " " + text;
    assert (" = " + text)[1..] == "= " + text;
    assert SkipBlanks(" = " + text) == "= " + text;
  }

  /** A word or number that stands for itself. */
  predicate IsBare(v: string) {
    v != "" && !Blank(v[0]) && v[0] != '\'' && '\n' !in v && BareLength(v) == |v|
  }

  /** A setting that can be written down. */
  predicate Sayable(s: Setting) {
    IsName(s.name) && if s.quoted then Plain(s.value) else IsBare(s.value)
  }

  function LineOf(pair: (string, string)): string {
    pair.0 + " = " + pair.1
  }

  lemma QuotedLine(name: string, more: string, escape: char -> char)
    requires IsName(name)
    ensures ReadLine(name + " = '" + more, escape) == Ended(name, Scan(more, escape))
  {
    var text := "'" + more;
    assert text[1..] == more;
    ReadAssignment(name, text, escape);
    assert name + " = '" + more == name + " = " + text;
  }

  lemma QuotedText(s: Setting)
    requires s.quoted
    ensures LineOf(Written(s)) == s.name + " = '" + Rest(s.value)
  {
    assert Quote(s.value) == "'" + Rest(s.value);
  }

  lemma SayableReads(s: Setting, escape: char -> char)
    requires Sayable(s)
    ensures ReadLine(LineOf(Written(s)), escape) == Says(s.name, s.value)
  {
    if s.quoted {
      QuotedText(s);
      QuotedLine(s.name, Rest(s.value), escape);
      QuotedExactly(s.value, escape);
    } else {
      ReadAssignment(s.name, s.value, escape);
      assert s.value[..|s.value|] == s.value && s.value[|s.value|..] == "";
    }
  }

  lemma {:induction false} DoubledClean(v: string)
    requires '\n' !in v
    ensures '\n' !in Doubled(v, '\'')
  {
    if v != "" {
      DoubledClean(v[1..]);
    }
  }

  lemma SayableIsOneLine(s: Setting)
    requires Sayable(s)
    ensures '\n' !in LineOf(Written(s))
    ensures Lines(LineOf(Written(s))) == [LineOf(Written(s))]
  {
    NameChars(s.name);
    if s.quoted {
      DoubledClean(s.value);
      QuotedText(s);
    }
    OneLine(LineOf(Written(s)));
  }

  // ----- A line that is not

  /** The text up to the first line end. */
  lemma {:induction false} UpToLineEnd(v: string) returns (u: string)
    requires '\n' in v
    ensures |u| < |v| && Lines(Rest(v))[0] == Doubled(u, '\'')
  {
    DoubledStep(v, "'");
    if v[0] == '\n' {
      u := "";
      assert Rest(v)[0] == '\n';
    } else {
      assert v == [v[0]] + v[1..];
      u := UpToLineEnd(v[1..]);
      var q := if v[0] == '\'' then "''" else [v[0]];
      assert Rest(v) == q + Rest(v[1..]);
      FirstLine(q, Rest(v[1..]));
      u := [v[0]] + u;
      assert u[1..] == u[1..];
      assert Doubled(u, '\'') == q + Doubled(u[1..], '\'');
    }
  }

  /** What the server makes of the first line of a value that is not plain is not that value. */
  lemma NotThatValue(v: string, escape: char -> char)
    requires !Plain(v)
    ensures var p := Lines(Rest(v))[0]; Scan(p, escape).Some? ==> Scan(p, escape).value.0 != v
  {
    if '\n' in v {
      var u := UpToLineEnd(v);
      ScanNeverGrows(u, "", escape);
      assert Doubled(u, '\'') + "" == Doubled(u, '\'');
    } else {
      DoubledClean(v);
      OneLine(Rest(v));
      QuotedExactly(v, escape);
    }
  }

  /** Its line is not read as the setting. */
  lemma NotThatSetting(s: Setting, escape: char -> char)
    requires IsName(s.name) && s.quoted && !Plain(s.value)
    ensures var read := ReadLine(Lines(LineOf(Written(s)))[0], escape); read.Malformed? || (read.Says? && read.value != s.value)
  {
    var head, p := s.name + " = '", Lines(Rest(s.value))[0];
    NameChars(s.name);
    QuotedText(s);
    FirstLine(head, Rest(s.value));
    QuotedLine(s.name, p, escape);
    NotThatValue(s.value, escape);
  }

  // ----- The file

  /** The lines of the settings file, behind its heading. */
  function TextOf(pairs: seq<(string, string)>): string {
    if pairs == [] then "" else LineOf(pairs[0]) + ("\n" + TextOf(pairs[1..]))
  }

  lemma {:induction false} TextSnoc(pairs: seq<(string, string)>, pair: (string, string))
    ensures TextOf(pairs + [pair]) == TextOf(pairs) + LineOf(pair) + "\n"
  {
    if pairs == [] {
      assert [pair][1..] == [];
    } else {
      assert (pairs + [pair])[1..] == pairs[1..] + [pair];
      TextSnoc(pairs[1..], pair);
    }
  }

  const MANAGED := "# Managed by doze \U{2014} "
  const REGENERATED := "do not edit. Regenerated on every boot."
  const HEADING := MANAGED + REGENERATED

  /** The settings file. */
  function ConfText(pairs: seq<(string, string)>): string {
    HEADING + ("\n" + TextOf(pairs))
  }

  lemma ConfSnoc(pairs: seq<(string, string)>, i: nat)
    requires i < |pairs|
    ensures ConfText(pairs[..i + 1]) == ConfText(pairs[..i]) + LineOf(pairs[i]) + "\n"
  {
    TextSnoc(pairs[..i], pairs[i]);
    assert pairs[..i + 1] == pairs[..i] + [pairs[i]];
  }

  lemma ConfNone(pairs: seq<(string, string)>)
    ensures ConfText(pairs[..0]) == HEADING + "\n" && pairs[..|pairs|] == pairs
  {
  }

  /** writeConf */
  method WriteConf(cfg: Conf) returns (text: string)
    ensures text == ConfText(AllWritten(SettingsOf(cfg)))
  {
    var pairs := Settings(cfg);
    text := HEADING + "\n";
    ConfNone(pairs);
    for i := 0 to |pairs|
      invariant text == ConfText(pairs[..i])
    {
      ConfSnoc(pairs, i);
      text := text + (pairs[i].0 + " = " + pairs[i].1) + "\n";
    }
  }

  lemma {:induction false} ReadNames(lines: seq<string>, escape: char -> char)
    ensures ReadLines(lines, escape).Some? ==> forall e :: e in ReadLines(lines, escape).value ==> IsName(e.0)
  {
    if lines != [] {
      ReadNames(lines[1..], escape);
    }
  }

  lemma ReadFront(line: string, lines: seq<string>, escape: char -> char)
    ensures ReadLines([line] + lines, escape) ==
      match ReadLine(line, escape)
      case Nothing => ReadLines(lines, escape)
      case Malformed => None
      case Says(name, value) =>
        if ReadLines(lines, escape).None? then None else Some([(name, value)] + ReadLines(lines, escape).value)
  {
    assert ([line] + lines)[1..] == lines;
  }

  lemma TextStep(settings: seq<Setting>)
    requires settings != []
    ensures var line := LineOf(Written(settings[0]));
      Lines(TextOf(AllWritten(settings))) == Lines(line) + Lines(TextOf(AllWritten(settings[1..])))
  {
    var later := TextOf(AllWritten(settings[1..]));
    assert AllWritten(settings)[1..] == AllWritten(settings[1..]);
    LinesAppend(LineOf(Written(settings[0])), later, "\n" + later);
  }

  lemma EntriesStep(settings: seq<Setting>)
    requires settings != []
    ensures Entries(settings) == [(settings[0].name, settings[0].value)] + Entries(settings[1..])
  {
  }

  /** The settings' text is read back as their entries. */
  predicate ReadsBack(settings: seq<Setting>, escape: char -> char) {
    ReadLines(Lines(TextOf(AllWritten(settings))), escape) == Some(Entries(settings))
  }

  lemma SayableGoesOn(settings: seq<Setting>, escape: char -> char)
    requires settings != [] && Sayable(settings[0])
    ensures ReadsBack(settings, escape) <==> ReadsBack(settings[1..], escape)
  {
    var s, later := settings[0], Lines(TextOf(AllWritten(settings[1..])));
    TextStep(settings);
    EntriesStep(settings);
    SayableIsOneLine(s);
    SayableReads(s, escape);
    ReadFront(LineOf(Written(s)), later, escape);
    if ReadsBack(settings, escape) {
      assert ([(s.name, s.value)] + ReadLines(later, escape).value)[1..] == ReadLines(later, escape).value;
      assert Entries(settings)[1..] == Entries(settings[1..]);
    }
  }

  /** Settings are read back exactly when each of them can be written down. */
  lemma {:induction false} WrittenReads(settings: seq<Setting>, escape: char -> char)
    requires forall s :: s in settings && !s.quoted ==> IsBare(s.value)
    ensures ReadsBack(settings, escape) <==> forall s :: s in settings ==> Sayable(s)
  {
    if settings == [] {
      assert ReadLine("", escape) == Nothing;
      assert Lines(TextOf([])) == [""] && [""][1..] == [];
    } else {
      assert forall t :: t in settings <==> t == settings[0] || t in settings[1..];
      WrittenReads(settings[1..], escape);
      if Sayable(settings[0]) {
        SayableGoesOn(settings, escape);
      } else {
        UnsayableSpoils(settings, escape);
      }
    }
  }

  lemma UnsayableSpoils(settings: seq<Setting>, escape: char -> char)
    requires settings != [] && !Sayable(settings[0]) && (!settings[0].quoted ==> IsBare(settings[0].value))
    ensures !ReadsBack(settings, escape)
  {
    var s, lines := settings[0], Lines(TextOf(AllWritten(settings)));
    assert Entries(settings)[0] == (s.name, s.value) && (s.name, s.value) in Entries(settings);
    ReadNames(lines, escape);
    if IsName(s.name) {
      TextStep(settings);
      NotThatSetting(s, escape);
      assert lines[0] == Lines(LineOf(Written(s)))[0];
    }
  }

  lemma CommentSkipped(line: string, body: string, escape: char -> char)
    requires '\n' !in line && line != "" && line[0] == '#'
    ensures ReadConf(line + ("\n" + body), escape) == ReadConf(body, escape)
  {
    LinesAppend(line, body, "\n" + body);
    OneLine(line);
    ReadFront(line, Lines(body), escape);
  }

  lemma DecimalIsBare(n: nat)
    ensures IsBare(Decimal(n)) && BareLength("-" + Decimal(n)) == |Decimal(n)| + 1
  {
    var d := Decimal(n);
    SpanAll(d, NumberPart);
    assert d[0..] == d && ("-" + d)[1..] == d;
  }

  lemma NumberIsBare(n: int)
    ensures IsBare(Itoa(n))
  {
    if n < 0 {
      DecimalIsBare(-n);
    } else {
      DecimalIsBare(n);
    }
  }

  lemma OnOffIsBare(b: bool)
    ensures IsBare(OnOff(b))
  {
    SpanAll(OnOff(b), Unquoted);
  }

  lemma NameOf(w: string)
    requires w != "" && forall i :: 0 <= i < |w| ==> 'a' <= w[i] <= 'z' || w[i] == '_'
    ensures IsName(w)
  {
  }

  lemma TypedSayable(cfg: Conf, i: nat)
    requires i < 6
    ensures Sayable(Typed(cfg)[i]) <==> (i == 0 ==> Plain(cfg.sharedBuffers))
    ensures !Typed(cfg)[i].quoted ==> IsBare(Typed(cfg)[i].value)
  {
    NameOf(Typed(cfg)[i].name);
    NumberIsBare(cfg.maxConnections);
    OnOffIsBare(cfg.fsync);
    OnOffIsBare(cfg.autovacuum);
  }

  /** A user setting that is not passed through, or can be. */
  predicate Passable(cfg: Conf, k: string) {
    k in cfg.settings && !Locked(Lower(k)) ==> IsName(k) && Plain(cfg.settings[k])
  }

  lemma {:induction false} PassedSayable(settings: map<string, string>, keys: seq<string>)
    requires forall k :: k in keys ==> k in settings
    ensures forall s :: s in Passed(settings, keys) ==> s.quoted
    ensures (forall s :: s in Passed(settings, keys) ==> Sayable(s)) <==>
      forall k :: k in keys && !Locked(Lower(k)) ==> IsName(k) && Plain(settings[k])
  {
    if keys != [] {
      var n := |keys| - 1;
      PassedSayable(settings, keys[..n]);
      PassedStep(settings, keys, n);
      assert keys[..n + 1] == keys;
      assert forall k :: k in keys <==> k in keys[..n] || k == keys[n];
      var s := Setting(keys[n], settings[keys[n]], true);
      assert Locked(Lower(keys[n])) || s in Passed(settings, keys);
      assert forall t :: t in Passed(settings, keys) ==> t in Passed(settings, keys[..n]) || t == s;
    }
  }

  lemma AllTypedSayable(cfg: Conf)
    ensures forall s :: s in Typed(cfg) && !s.quoted ==> IsBare(s.value)
    ensures (forall s :: s in Typed(cfg) ==> Sayable(s)) <==> Plain(cfg.sharedBuffers)
  {
    var typed := Typed(cfg);
    forall i | 0 <= i < 6
      ensures Sayable(typed[i]) <==> (i == 0 ==> Plain(cfg.sharedBuffers))
      ensures !typed[i].quoted ==> IsBare(typed[i].value)
    {
      TypedSayable(cfg, i);
    }
    assert typed[0] in typed;
  }

  lemma AllPassedSayable(cfg: Conf)
    ensures (forall k :: Passable(cfg, k)) <==>
      forall s :: s in Passed(cfg.settings, SortedKeys(cfg.settings.Keys)) ==> Sayable(s)
    ensures forall s :: s in Passed(cfg.settings, SortedKeys(cfg.settings.Keys)) ==> s.quoted
  {
    var keys := SortedKeys(cfg.settings.Keys);
    PassedSayable(cfg.settings, keys);
    if forall k :: Passable(cfg, k) {
      assert forall k :: k in keys ==> Passable(cfg, k);
    } else {
      var k :| !Passable(cfg, k);
      assert k in keys;
    }
  }

  lemma InThree(a: seq<Setting>, b: seq<Setting>, c: Setting)
    ensures forall s :: s in a + b + [c] <==> s in a || s in b || s == c
  {
  }

  lemma SettingsSayable(cfg: Conf)
    ensures forall s :: s in SettingsOf(cfg) && !s.quoted ==> IsBare(s.value)
    ensures (forall s :: s in SettingsOf(cfg) ==> Sayable(s)) <==>
      Plain(cfg.sharedBuffers) && forall k :: Passable(cfg, k)
  {
    AllTypedSayable(cfg);
    AllPassedSayable(cfg);
    NameOf(TCP_OFF.name);
    assert Sayable(TCP_OFF);
    InThree(Typed(cfg), Passed(cfg.settings, SortedKeys(cfg.settings.Keys)), TCP_OFF);
  }

  lemma HeadingSkipped(pairs: seq<(string, string)>, escape: char -> char)
    ensures ReadConf(ConfText(pairs), escape) == ReadConf(TextOf(pairs), escape)
  {
    assert '\n' !in MANAGED && '\n' !in REGENERATED && MANAGED[0] == '#';
    CommentSkipped(HEADING, TextOf(pairs), escape);
  }

  /**
   * The server reads the written file as exactly the settings that were declared if and only if every value is plain
   * and every name that is passed through is a name.
   */
  lemma ConfReadsBack(cfg: Conf, escape: char -> char)
    ensures ReadConf(ConfText(AllWritten(SettingsOf(cfg))), escape) == Some(Entries(SettingsOf(cfg)))
      <==> Plain(cfg.sharedBuffers) && forall k :: Passable(cfg, k)
  {
    HeadingSkipped(AllWritten(SettingsOf(cfg)), escape);
    SettingsSayable(cfg);
    WrittenReads(SettingsOf(cfg), escape);
  }

  // ----- The include line

  const INCLUDE := Setting("include", "doze.conf", true)

  /** include = 'doze.conf' */
  const DIRECTIVE := INCLUDE.name + " = " + ("'" + INCLUDE.value + "'")
  const NOTE := "# Added by doze"
  const ADDED := "\n" + NOTE + "\n" + DIRECTIVE + "\n"

  /** postgresql.conf, to which lines are only ever appended. */
  class ConfFile {
    var text: string

    constructor (text: string)
      ensures this.text == text
    {
      this.text := text;
    }

    method EnsureInclude()
      modifies this
      ensures text == Included(old(text))
    {
      if Contains(text, DIRECTIVE) {
        return;
      }
      text := text + ADDED;
    }
  }

  function Included(text: string): string {
    if Contains(text, DIRECTIVE) then text else text + ADDED
  }

  lemma AddedContains(text: string)
    ensures Contains(text + ADDED, DIRECTIVE)
  {
    var head := text + "\n" + NOTE;
    ContainsMiddle(head + "\n", DIRECTIVE, "\n");
    AddedLines(text, NOTE, DIRECTIVE);
  }

  lemma AddedLines(text: string, note: string, line: string)
    ensures text + ("\n" + note + "\n" + line + "\n") == text + "\n" + note + "\n" + line + "\n"
  {
  }

  function Times(n: nat, text: string): string {
    if n == 0 then text else Included(Times(n - 1, text))
  }

  /** Booting again and again appends at most once, and never touches what stood in the file. */
  lemma {:induction false} IncludedOnce(n: nat, text: string)
    requires n > 0
    ensures Times(n, text) == Included(text) && text <= Times(n, text) && Contains(Times(n, text), DIRECTIVE)
  {
    AddedContains(text);
    if n > 1 {
      IncludedOnce(n - 1, text);
    }
  }

  /** A line by which the server reads doze.conf too: however it is spaced, spelt, quoted or commented upon. */
  predicate Includes(line: string, escape: char -> char) {
    var read := ReadLine(line, escape);
    read.Says? && Lower(read.name) == "include" && read.value == "doze.conf"
  }

  predicate Active(text: string, escape: char -> char) {
    exists i :: 0 <= i < |Lines(text)| && Includes(Lines(text)[i], escape)
  }

  lemma LineIn(head: string, line: string)
    requires '\n' !in line
    ensures exists i :: 0 <= i < |Lines(head + "\n" + line + "\n")| && Lines(head + "\n" + line + "\n")[i] == line
  {
    var tail := line + "\n";
    LinesAppend(line, "", "\n");
    OneLine(line);
    LinesAppend(head, tail, "\n" + tail);
    assert head + "\n" + line + "\n" == head + ("\n" + tail);
    assert Lines(head + "\n" + line + "\n")[|Lines(head)|] == line;
  }

  lemma {:induction false} NothingDoubled(v: string)
    requires '\'' !in v
    ensures Doubled(v, '\'') == v
  {
    if v != "" {
      NothingDoubled(v[1..]);
      assert v == [v[0]] + v[1..];
    }
  }

  predicate LowerOrDot(v: string) {
    forall i :: 0 <= i < |v| ==> 'a' <= v[i] <= 'z' || v[i] == '.'
  }

  lemma SimpleSetting(s: Setting)
    requires s.quoted && IsName(s.name) && LowerOrDot(s.value)
    ensures Sayable(s) && LineOf(Written(s)) == s.name + " = " + ("'" + s.value + "'")
  {
    NothingDoubled(s.value);
  }

  lemma DirectiveIs()
    ensures DIRECTIVE == LineOf(Written(INCLUDE)) && Sayable(INCLUDE)
  {
    assert LowerOrDot("doze.conf");
    NameOf("include");
    SimpleSetting(INCLUDE);
  }

  lemma LowerInclude()
    ensures Lower("include") == "include"
  {
  }

  lemma DirectiveIncludes(escape: char -> char)
    ensures Includes(DIRECTIVE, escape) && '\n' !in DIRECTIVE
  {
    DirectiveIs();
    SayableReads(INCLUDE, escape);
    SayableIsOneLine(INCLUDE);
    LowerInclude();
  }

  lemma AppendedActive(text: string, note: string, line: string, escape: char -> char)
    requires Includes(line, escape) && '\n' !in line
    ensures Active(text + ("\n" + note + "\n" + line + "\n"), escape)
  {
    LineIn(text + "\n" + note, line);
    AddedLines(text, note, line);
  }

  lemma AddedActive(text: string, escape: char -> char)
    ensures Active(text + ADDED, escape)
  {
    DirectiveIncludes(escape);
    AppendedActive(text, NOTE, DIRECTIVE, escape);
  }

  /**
   * The server reads doze.conf afterwards exactly when some line included it already or the directive was nowhere in
   * the file: a file that only mentions it in a comment is left without it.
   */
  lemma IncludedActive(text: string, escape: char -> char)
    ensures Active(Included(text), escape) <==> Active(text, escape) || !Contains(text, DIRECTIVE)
  {
    AddedActive(text, escape);
  }

  lemma {:induction false} ScanWithTail(v: string, tail: string, escape: char -> char)
    requires Plain(v) && (tail == "" || tail[0] != '\'')
    ensures Scan(Rest(v) + tail, escape) == Some((v, tail))
  {
    var t := Rest(v) + tail;
    if v == "" {
      assert t == "'" + tail && t[1..] == tail;
    } else {
      DoubledStep(v, "'");
      PlainStep(v);
      ScanWithTail(v[1..], tail, escape);
      assert v == [v[0]] + v[1..];
      if v[0] == '\'' {
        assert t[2..] == Rest(v[1..]) + tail;
      } else {
        assert t[1..] == Rest(v[1..]) + tail;
      }
    }
  }

  /** A comment behind a setting makes no difference, so a directive with a note of the user's is in force. */
  lemma CommentBehind(s: Setting, comment: string, escape: char -> char)
    requires Sayable(s) && s.quoted
    ensures ReadLine(LineOf(Written(s)) + (" #" + comment), escape) == Says(s.name, s.value)
  {
    var tail := " #" + comment;
    QuotedText(s);
    QuotedLine(s.name, Rest(s.value) + tail, escape);
    Associative(s.name + " = '", Rest(s.value), tail);
    ScanWithTail(s.value, tail, escape);
    HashIsLeft(comment);
  }

  lemma HashIsLeft(comment: string)
    ensures SkipBlanks(" #" + comment) == "#" + comment
  {
    assert (" #" + comment)[1..] == "#" + comment;
    assert SkipBlanks("#" + comment) == "#" + comment;
  }

  /** A comment in front takes the line away: a file that has the directive only there is left without it. */
  lemma CommentedOutIsMissed(escape: char -> char)
    ensures var text := "#" + DIRECTIVE; Contains(text, DIRECTIVE) && !Active(Included(text), escape)
  {
    var text := "#" + DIRECTIVE;
    ContainsMiddle("#", DIRECTIVE, "");
    assert "#" + DIRECTIVE + "" == text;
    DirectiveIncludes(escape);
    OneLine(text);
    assert text[0] == '#';
  }
}
