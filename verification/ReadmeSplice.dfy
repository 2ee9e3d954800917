/** The generated module table and its splice into README.md. */
module Readme {
  import opened Strings

  const BEGIN := "<!-- modules:begin (generated" + " by `dzm readme` — do not edit) -->"
  const END := "<!-- modules:end -->"

  // ----- First occurrences

  /** strings.Index */
  function Index(s: string, sub: string): (r: Option<nat>)
    ensures r.Some? ==> At(s, sub, r.value)
    ensures forall i :: 0 <= i < (if r.Some? then r.value else |s| + 1) ==> !At(s, sub, i)
  {
    IndexFrom(s, sub, 0)
  }

  function IndexFrom(s: string, sub: string, from: nat): (r: Option<nat>)
    requires from <= |s| + 1
    ensures r.Some? ==> from <= r.value && At(s, sub, r.value)
    ensures forall i :: from <= i < (if r.Some? then r.value else |s| + 1) ==> !At(s, sub, i)
    decreases |s| + 1 - from
  {
    if from > |s| then None else if At(s, sub, from) then Some(from) else IndexFrom(s, sub, from + 1)
  }

  lemma IndexIs(s: string, sub: string, i: nat)
    requires At(s, sub, i) && forall j :: 0 <= j < i ==> !At(s, sub, j)
    ensures Index(s, sub) == Some(i)
  {
  }

  /** A marker's first character is nowhere else in it. */
  predicate Marker(m: string) {
    m != "" && m[0] == '<' && forall i :: 0 < i < |m| ==> m[i] != '<'
  }

  lemma Markers()
    ensures Marker(BEGIN) && Marker(END)
    ensures |BEGIN| > 18 && |END| > 18 && BEGIN[13] != END[13]
  {
  }

  // ----- The splice

  /** The README with the text between the markers replaced by the table; None where they are missing or swapped. */
  function Splice(readme: string, table: string): Option<string> {
    var begin := Index(readme, BEGIN);
    var end := Index(readme, END);
    if begin.None? || end.None? || end.value < begin.value then None
    else Some(readme[..begin.value] + BEGIN + "\n" + table + END + readme[end.value + |END|..])
  }

  /** The README on disk; `writes` counts how often it was rewritten. */
  class ReadmeFile {
    var text: string
    var writes: nat

    constructor (text: string)
      ensures this.text == text && writes == 0
    {
      this.text, writes := text, 0;
    }

    /** runReadme: nothing is written when the markers are wrong or the table is current. */
    method Refresh(docs: map<string, Doc>) returns (ok: bool)
      modifies this
      ensures ok == Splice(old(text), TableOf(docs)).Some?
      ensures ok ==> Some(text) == Splice(old(text), TableOf(docs))
      ensures !ok ==> text == old(text)
      ensures writes == old(writes) + (if text == old(text) then 0 else 1)
    {
      var table := ModuleTable(docs);
      var updated := Splice(text, table);
      if updated.None? {
        return false;
      }
      if updated.value != text {
        text, writes := updated.value, writes + 1;
      }
      return true;
    }
  }

  // ----- Markers cannot straddle

  /** Around one marker, any marker stands wholly before it, exactly on it, or wholly behind it. */
  lemma NoStraddling(a: string, m: string, b: string, n: string, i: nat)
    requires Marker(m) && Marker(n) && At(a + m + b, n, i)
    ensures (i + |n| <= |a| && At(a, n, i)) || i == |a| || (|a| + |m| <= i && At(b, n, i - |a| - |m|))
  {
    var s := a + m + b;
    forall k | 0 <= k < |n|
      ensures s[i + k] == n[k]
    {
      CharAt(s, n, i, k);
    }
    assert forall k :: 0 <= k < |m| ==> s[|a| + k] == m[k];
    if i + |n| <= |a| {
      assert s == a + (m + b);
      AtPrefix(a, m + b, n, i);
    } else if |a| + |m| <= i {
      AtSuffix(a + m, b, n, i - |a| - |m|);
    }
  }

  lemma CharAt(s: string, n: string, i: nat, k: nat)
    requires k < |n|
    ensures At(s, n, i) ==> s[i + k] == n[k]
  {
    if At(s, n, i) {
      assert s[i..i + |n|][k] == s[i + k];
    }
  }

  lemma AtPrefix(a: string, b: string, n: string, i: nat)
    requires i + |n| <= |a|
    ensures At(a + b, n, i) <==> At(a, n, i)
  {
    assert (a + b)[i..i + |n|] == a[i..i + |n|];
  }

  lemma AtSuffix(a: string, b: string, n: string, i: nat)
    ensures At(a + b, n, |a| + i) <==> At(b, n, i)
  {
    if i + |n| <= |b| {
      assert (a + b)[|a| + i..|a| + i + |n|] == b[i..i + |n|];
    }
  }

  /** The two markers never stand at the same place. */
  lemma Apart(s: string, i: nat)
    requires At(s, BEGIN, i)
    ensures !At(s, END, i)
  {
    Markers();
    CharAt(s, BEGIN, i, 13);
    CharAt(s, END, i, 13);
  }

  /** What stands before the markers, between them and behind them. */
  lemma Parts(readme: string, table: string) returns (before: string, between: string, after: string)
    requires Splice(readme, table).Some?
    ensures readme == before + BEGIN + between + END + after
    ensures Splice(readme, table) == Some(before + BEGIN + "\n" + table + END + after)
    ensures |before| == Index(readme, BEGIN).value && |before| + |BEGIN| + |between| == Index(readme, END).value
  {
    var begin := Index(readme, BEGIN).value;
    var end := Index(readme, END).value;
    InOrder(readme, begin, end);
    before, between, after := readme[..begin], readme[begin + |BEGIN|..end], readme[end + |END|..];
    Cut(readme, BEGIN, begin, END, end);
  }

  lemma Cut(s: string, m: string, i: nat, n: string, j: nat)
    requires i + |m| <= j && At(s, m, i) && At(s, n, j)
    ensures s == s[..i] + m + s[i + |m|..j] + n + s[j + |n|..]
  {
    Around(s, n, j);
    assert s[..j][i..i + |m|] == s[i..i + |m|];
    Around(s[..j], m, i);
    assert s[..j][..i] == s[..i] && s[..j][i + |m|..] == s[i + |m|..j];
  }

  /** Markers that do not overlap, the begin marker first. */
  lemma InOrder(s: string, begin: nat, end: nat)
    requires At(s, BEGIN, begin) && At(s, END, end) && begin <= end
    ensures begin + |BEGIN| <= end
  {
    Markers();
    Apart(s, begin);
    Around(s, BEGIN, begin);
    NoStraddling(s[..begin], BEGIN, s[begin + |BEGIN|..], END, end);
  }

  lemma Around(s: string, m: string, i: nat)
    requires i + |m| <= |s| && s[i..i + |m|] == m
    ensures s == s[..i] + m + s[i + |m|..]
  {
  }

  /** In the result the first begin marker is where it was, and so is the end marker unless the table holds one. */
  lemma Found(before: string, table: string, after: string, i: nat)
    requires forall j :: 0 <= j < |before| ==> !At(before, BEGIN, j) && !At(before, END, j)
    ensures Index(before + BEGIN + ("\n" + table + END + after), BEGIN) == Some(|before|)
    ensures At(before + BEGIN + ("\n" + table + END + after), END, i) && i < |before| + |BEGIN| + 1 + |table| ==>
      |before| + |BEGIN| < i && At(table, END, i - |before| - |BEGIN| - 1)
  {
    Markers();
    var rest := "\n" + table + END + after;
    var s := before + BEGIN + rest;
    assert s[|before|..|before| + |BEGIN|] == BEGIN;
    forall j | 0 <= j < |before|
      ensures !At(s, BEGIN, j)
    {
      if At(s, BEGIN, j) {
        NoStraddling(before, BEGIN, rest, BEGIN, j);
      }
    }
    IndexIs(s, BEGIN, |before|);
    if At(s, END, i) && i < |before| + |BEGIN| + 1 + |table| {
      NoStraddling(before, BEGIN, rest, END, i);
      Apart(s, |before|);
      var j: nat := i - |before| - |BEGIN|;
      InTable(table, after, j);
    }
  }

  lemma InTable(table: string, after: string, j: nat)
    requires At("\n" + table + END + after, END, j) && j < 1 + |table|
    ensures j > 0 && At(table, END, j - 1)
  {
    Markers();
    var head := "\n" + table;
    NoStraddling(head, END, after, END, j);
    assert head[j..j + |END|][0] == head[j];
    assert table[j - 1..j - 1 + |END|] == head[j..j + |END|];
  }

  /** Nothing before the first begin marker is a marker. */
  lemma CleanBefore(readme: string, table: string, before: string, rest: string)
    requires Splice(readme, table).Some?
    requires readme == before + rest && |before| == Index(readme, BEGIN).value
    ensures forall j :: 0 <= j < |before| ==> !At(before, BEGIN, j) && !At(before, END, j)
  {
    forall j, m | 0 <= j < |before| && (m == BEGIN || m == END) && At(before, m, j)
      ensures false
    {
      assert readme[j..j + |m|] == before[j..j + |m|];
      assert At(readme, m, j);
    }
  }

  /**
   * Splicing keeps the text outside the markers as it is, and a second splice with the same table changes nothing,
   * exactly when the table does not itself hold the end marker.
   */
  lemma SpliceIdempotentExactly(readme: string, table: string)
    requires Splice(readme, table).Some?
    ensures Splice(Splice(readme, table).value, table) == Splice(readme, table) <==> !Contains(table, END)
  {
    var before, between, after := Parts(readme, table);
    AroundTable(before, BEGIN, between, "", END, after);
    CleanBefore(readme, table, before, BEGIN + (between + "" + END + after));
    AroundTable(before, BEGIN, "\n", table, END, after);
    var s := before + BEGIN + ("\n" + table + END + after);
    assert Splice(readme, table) == Some(s);
    if Contains(table, END) {
      var k :| 0 <= k <= |table| && At(table, END, k);
      EarlierEnd(before, table, after, k);
    } else {
      SameEnd(before, table, after);
    }
  }

  lemma AroundTable(a: string, m: string, x: string, y: string, n: string, b: string)
    ensures a + m + x + y + n + b == a + m + (x + y + n + b)
    ensures a + m + (x + y + n + b) == a + (m + (x + y + n + b))
    ensures y == "" ==> a + m + x + y + n + b == a + m + x + n + b
  {
  }

  lemma Nowhere(table: string, i: nat)
    requires !Contains(table, END)
    ensures !At(table, END, i)
  {
  }

  lemma EndIndex(before: string, table: string, after: string)
    requires forall j :: 0 <= j < |before| ==> !At(before, BEGIN, j) && !At(before, END, j)
    requires !Contains(table, END)
    ensures Index(before + BEGIN + ("\n" + table + END + after), END) == Some(|before| + |BEGIN| + 1 + |table|)
  {
    var head := before + BEGIN + "\n" + table;
    var s := before + BEGIN + ("\n" + table + END + after);
    AroundTable(before, BEGIN, "\n", table, END, after);
    assert s[|head|..|head| + |END|] == END;
    forall i | 0 <= i < |head|
      ensures !At(s, END, i)
    {
      Found(before, table, after, i);
      if i > |before| + |BEGIN| {
        Nowhere(table, i - |before| - |BEGIN| - 1);
      }
    }
    IndexIs(s, END, |head|);
  }

  lemma SameEnd(before: string, table: string, after: string)
    requires forall j :: 0 <= j < |before| ==> !At(before, BEGIN, j) && !At(before, END, j)
    requires !Contains(table, END)
    ensures var s := before + BEGIN + ("\n" + table + END + after); Splice(s, table) == Some(s)
  {
    var s := before + BEGIN + ("\n" + table + END + after);
    EndIndex(before, table, after);
    Found(before, table, after, 0);
    AroundTable(before, BEGIN, "\n", table, END, after);
    assert s[..|before|] == before && s[|before| + |BEGIN| + 1 + |table| + |END|..] == after;
  }

  lemma EarlierEnd(before: string, table: string, after: string, k: nat)
    requires forall j :: 0 <= j < |before| ==> !At(before, BEGIN, j) && !At(before, END, j)
    requires At(table, END, k)
    ensures var s := before + BEGIN + ("\n" + table + END + after); Splice(s, table) != Some(s)
  {
    Markers();
    var head := before + BEGIN + "\n";
    var s := before + BEGIN + ("\n" + table + END + after);
    assert s == head + table + END + after;
    assert s[|head| + k..|head| + k + |END|] == table[k..k + |END|];
    assert At(s, END, |head| + k);
    var end := Index(s, END).value;
    Found(before, table, after, end);
    assert |before| < end <= |head| + k;
    assert |Splice(s, table).value| > |s|;
  }

  // ----- The table

  /** What a module's Describe tells the table. */
  datatype Doc = Doc(category: string, versions: seq<string>, tagline: string) {
    function Versions(): string {
      if |versions| > 0 then Join(versions, " · ") else "built-in"
    }
  }

  const BASE := "https://doze.nerdmenot.in/registry/doze"
  const HEADER := "| Module | Category | Engine versions | |\n" + "|---|---|---|---|\n"

  /** The link cell of a row, between its bars. */
  function Link(name: string): string {
    " [" + "`" + name + "`" + ("](" + BASE) + "/" + name + ")" + " "
  }

  function Cells(link: string, doc: Doc): string {
    link + "|" + (" " + doc.category + " ") + "|" + (" " + doc.Versions() + " ") + "|" + (" " + doc.tagline + " ") + "|" + "\n"
  }

  /** | [`name`](base/name) | category | versions | tagline | */
  function Row(name: string, doc: Doc): string {
    "|" + Cells(Link(name), doc)
  }

  function Rows(header: string, row: (string, Doc) -> string, docs: map<string, Doc>, names: seq<string>): string
    requires forall n :: n in names ==> n in docs
  {
    if names == [] then header
    else
      var last := names[|names| - 1];
      Rows(header, row, docs, names[..|names| - 1]) + row(last, docs[last])
  }

  /** One row a module, in byte order whatever order the map is walked in. */
  function TableOf(docs: map<string, Doc>): string {
    Rows(HEADER, Row, docs, SortedKeys(docs.Keys))
  }

  lemma RowsStep(header: string, row: (string, Doc) -> string, docs: map<string, Doc>, names: seq<string>, i: nat)
    requires (forall n :: n in names ==> n in docs) && i < |names|
    ensures Rows(header, row, docs, names[..i + 1]) == Rows(header, row, docs, names[..i]) + row(names[i], docs[names[i]])
  {
    assert names[..i + 1][..i] == names[..i];
  }

  method Render(header: string, row: (string, Doc) -> string, docs: map<string, Doc>, names: seq<string>)
    returns (table: string)
    requires forall n :: n in names ==> n in docs
    ensures table == Rows(header, row, docs, names)
  {
    table := header;
    for i := 0 to |names|
      invariant table == Rows(header, row, docs, names[..i])
    {
      RowsStep(header, row, docs, names, i);
      table := table + row(names[i], docs[names[i]]);
    }
    assert names[..|names|] == names;
  }

  method ModuleTable(docs: map<string, Doc>) returns (table: string)
    ensures table == TableOf(docs)
  {
    var names := SortedKeys(docs.Keys);
    table := Render(HEADER, Row, docs, names);
  }

  /** A table row cut at its bars. */
  function CutAtBars(s: string): (cells: seq<string>)
    ensures cells != []
  {
    if s == "" then [""]
    else
      var later := CutAtBars(s[1..]);
      if s[0] == '|' then [""] + later else [[s[0]] + later[0]] + later[1..]
  }

  lemma {:induction false} FirstCell(cell: string, rest: string)
    requires '|' !in cell
    ensures CutAtBars(cell + "|" + rest) == [cell] + CutAtBars(rest)
  {
    var s := cell + "|" + rest;
    if cell == "" {
      assert s[1..] == rest;
    } else {
      assert s[1..] == cell[1..] + "|" + rest;
      FirstCell(cell[1..], rest);
      assert cell == [cell[0]] + cell[1..];
    }
  }

  lemma {:induction false} LastCell(cell: string)
    requires '|' !in cell
    ensures CutAtBars(cell) == [cell]
  {
    if cell != "" {
      LastCell(cell[1..]);
      assert cell == [cell[0]] + cell[1..];
    }
  }

  predicate NoBars(name: string, doc: Doc) {
    '|' !in name && '|' !in doc.category && '|' !in doc.Versions() && '|' !in doc.tagline
  }

  lemma NoBarIn(a: string, name: string, b: string)
    requires '|' !in a && '|' !in name && '|' !in b
    ensures '|' !in a + name + b
  {
    forall i | 0 <= i < |a + name + b|
      ensures (a + name + b)[i] != '|'
    {
    }
  }

  lemma LinkHasNoBar(name: string)
    requires '|' !in name
    ensures '|' !in Link(name)
  {
    NoBarIn(" [" + "`", name, "`");
    NoBarIn(" [" + "`" + name + "`", "](" + BASE, "/");
    NoBarIn(" [" + "`" + name + "`" + ("](" + BASE) + "/", name, ")");
    NoBarIn(" [" + "`" + name + "`" + ("](" + BASE) + "/" + name + ")", " ", "");
    assert Link(name) + "" == Link(name);
  }

  lemma FiveCells(a: string, b: string, c: string, d: string, e: string)
    requires '|' !in a && '|' !in b && '|' !in c && '|' !in d && '|' !in e
    ensures CutAtBars("|" + (a + "|" + b + "|" + c + "|" + d + "|" + e)) == ["", a, b, c, d, e]
  {
    var four, three, two := d + "|" + e, c + "|" + (d + "|" + e), b + "|" + (c + "|" + (d + "|" + e));
    FirstCell(d, e);
    LastCell(e);
    FirstCell(c, four);
    FirstCell(b, three);
    FirstCell(a, two);
    FirstCell("", a + "|" + two);
    assert a + "|" + b + "|" + c + "|" + d + "|" + e == a + "|" + two;
    assert "" + "|" + (a + "|" + two) == "|" + (a + "|" + two);
  }

  /** A row is read back as its link, category, versions and tagline when none of them holds a bar. */
  lemma RowReads(name: string, doc: Doc)
    requires NoBars(name, doc)
    ensures CutAtBars(Row(name, doc)) ==
      ["", Link(name), " " + doc.category + " ", " " + doc.Versions() + " ", " " + doc.tagline + " ", "\n"]
  {
    LinkHasNoBar(name);
    FiveCells(Link(name), " " + doc.category + " ", " " + doc.Versions() + " ", " " + doc.tagline + " ", "\n");
  }

  // ----- When the table holds the end marker

  /** A character the marker does not have keeps what stands before it apart from what stands behind it. */
  lemma Barrier(a: string, c: char, b: string, n: string)
    requires n != "" && c !in n
    ensures Contains(a + [c] + b, n) <==> Contains(a, n) || Contains(b, n)
  {
    var s := a + [c] + b;
    assert s == a + ([c] + b);
    if Contains(s, n) {
      var i :| 0 <= i <= |s| && At(s, n, i);
      if i + |n| <= |a| {
        AtPrefix(a, [c] + b, n, i);
      } else if i <= |a| {
        CharAt(s, n, i, |a| - i);
      } else {
        AtSuffix(a + [c], b, n, i - |a| - 1);
      }
    }
    if Contains(a, n) {
      var i :| 0 <= i <= |a| && At(a, n, i);
      AtPrefix(a, [c] + b, n, i);
    }
    if Contains(b, n) {
      var j :| 0 <= j <= |b| && At(b, n, j);
      AtSuffix(a + [c], b, n, j);
    }
  }

  lemma PadLeft(c: char, b: string, n: string)
    requires n != "" && n[0] != c
    ensures Contains([c] + b, n) <==> Contains(b, n)
  {
    var s := [c] + b;
    if Contains(s, n) {
      var i :| 0 <= i <= |s| && At(s, n, i);
      assert s[i..i + |n|][0] == s[i];
      AtSuffix([c], b, n, i - 1);
    }
    if Contains(b, n) {
      var i :| 0 <= i <= |b| && At(b, n, i);
      AtSuffix([c], b, n, i);
    }
  }

  lemma PadRight(a: string, c: char, n: string)
    requires n != "" && n[|n| - 1] != c
    ensures Contains(a + [c], n) <==> Contains(a, n)
  {
    var s := a + [c];
    if Contains(s, n) {
      var i :| 0 <= i <= |s| && At(s, n, i);
      assert s[i..i + |n|][|n| - 1] == s[i + |n| - 1];
      AtPrefix(a, [c], n, i);
    }
    if Contains(a, n) {
      var i :| 0 <= i <= |a| && At(a, n, i);
      AtPrefix(a, [c], n, i);
    }
  }

  lemma Padded(c: string)
    ensures Contains(" " + c + " ", END) <==> Contains(c, END)
  {
    EndsAngled();
    PadRight(" " + c, ' ', END);
    PadLeft(' ', c, END);
  }

  lemma EndsAngled()
    ensures END != "" && END[0] == '<' && END[|END| - 1] == '>'
    ensures '|' !in END && '`' !in END && '/' !in END && ')' !in END
  {
  }

  lemma Plain(s: string)
    requires '<' !in s
    ensures !Contains(s, END)
  {
    if Contains(s, END) {
      var i :| 0 <= i <= |s| && At(s, END, i);
      CharAt(s, END, i, 0);
    }
  }

  predicate Holds(name: string, doc: Doc) {
    Contains(name, END) || Contains(doc.category, END) || Contains(doc.Versions(), END) || Contains(doc.tagline, END)
  }

  lemma LinkHolds(name: string, base: string)
    requires '<' !in base
    ensures Contains(" [" + "`" + name + "`" + base + "/" + name + ")" + " ", END) <==> Contains(name, END)
  {
    EndsAngled();
    Plain(" [");
    Plain(base);
    Plain(" ");
    Barrier(" [", '`', name, END);
    Barrier(" [" + "`" + name, '`', base, END);
    Barrier(" [" + "`" + name + "`" + base, '/', name, END);
    Barrier(" [" + "`" + name + "`" + base + "/" + name, ')', " ", END);
  }

  /** A table row behind its first bar, cell by cell. */
  lemma CellsHold(link: string, category: string, versions: string, tagline: string)
    ensures
      Contains(
        link + "|" + (" " + category + " ") + "|" + (" " + versions + " ") + "|" + (" " + tagline + " ") + "|" + "\n", END)
      <==> Contains(link, END) || Contains(category, END) || Contains(versions, END) || Contains(tagline, END)
  {
    EndsAngled();
    Padded(category);
    Padded(versions);
    Padded(tagline);
    Plain("\n");
    var two := link + "|" + (" " + category + " ");
    var three := two + "|" + (" " + versions + " ");
    var four := three + "|" + (" " + tagline + " ");
    Barrier(link, '|', " " + category + " ", END);
    Barrier(two, '|', " " + versions + " ", END);
    Barrier(three, '|', " " + tagline + " ", END);
    Barrier(four, '|', "\n", END);
  }

  lemma RowHolds(rows: string, name: string, doc: Doc)
    ensures Contains(rows + Row(name, doc), END) <==> Contains(rows, END) || Holds(name, doc)
  {
    EndsAngled();
    var cells := Cells(Link(name), doc);
    assert rows + Row(name, doc) == rows + "|" + cells;
    Barrier(rows, '|', cells, END);
    LinkHolds(name, "](" + BASE);
    CellsHold(Link(name), doc.category, doc.Versions(), doc.tagline);
  }

  lemma {:induction false} RowsHold(docs: map<string, Doc>, names: seq<string>)
    requires forall n :: n in names ==> n in docs
    ensures Contains(Rows(HEADER, Row, docs, names), END) <==> exists n :: n in names && Holds(n, docs[n])
  {
    if names == [] {
      Plain(HEADER);
    } else {
      var last := names[|names| - 1];
      var init := names[..|names| - 1];
      RowsHold(docs, init);
      RowHolds(Rows(HEADER, Row, docs, init), last, docs[last]);
      OneMore(names, n => n in docs && Holds(n, docs[n]));
    }
  }

  lemma OneMore(names: seq<string>, p: string -> bool)
    requires names != []
    ensures (exists n :: n in names && p(n)) <==> p(names[|names| - 1]) || exists n :: n in names[..|names| - 1] && p(n)
  {
    assert forall n :: n in names <==> n in names[..|names| - 1] || n == names[|names| - 1];
  }

  /**
   * Refreshing twice is refreshing once, for every README it accepts, exactly when no module's name, category, versions
   * or tagline holds the end marker.
   */
  lemma RefreshIdempotentExactly(readme: string, docs: map<string, Doc>)
    requires Splice(readme, TableOf(docs)).Some?
    ensures Splice(Splice(readme, TableOf(docs)).value, TableOf(docs)) == Splice(readme, TableOf(docs))
      <==> forall n :: n in docs ==> !Holds(n, docs[n])
  {
    SpliceIdempotentExactly(readme, TableOf(docs));
    RowsHold(docs, SortedKeys(docs.Keys));
  }

  /** Whatever is accepted keeps its text before the first begin marker and behind the first end marker. */
  lemma OutsideKept(readme: string, table: string)
    requires Splice(readme, table).Some?
    ensures exists before, between, after ::
      && readme == before + BEGIN + between + END + after
      && Splice(readme, table) == Some(before + BEGIN + "\n" + table + END + after)
      && |before| == Index(readme, BEGIN).value && |before| + |BEGIN| + |between| == Index(readme, END).value
  {
    var before, between, after := Parts(readme, table);
  }
}
