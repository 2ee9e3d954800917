/** The option list of CREATE ROLE and ALTER ROLE: how it is printed, and how the server reads it. */
module SqlRole {
  import opened Strings
  import opened SqlText
  import opened PgCluster

  // ----- Printing

  function Flag(yes: bool, on: string, off: string): string {
    if yes then on else off
  }

  function FlagText(o: RoleOptions, k: nat): string
    requires k < 7
  {
    match k
    case 0 => Flag(o.login, "LOGIN", "NOLOGIN")
    case 1 => Flag(o.superuser, "SUPERUSER", "NOSUPERUSER")
    case 2 => Flag(o.createDB, "CREATEDB", "NOCREATEDB")
    case 3 => Flag(o.createRole, "CREATEROLE", "NOCREATEROLE")
    case 4 => Flag(o.replication, "REPLICATION", "NOREPLICATION")
    case 5 => Flag(o.inherits, "INHERIT", "NOINHERIT")
    case _ => Flag(o.bypassRLS, "BYPASSRLS", "NOBYPASSRLS")
  }

  /** The eight options that are always printed. */
  function FixedParts(o: RoleOptions): (parts: seq<string>)
    ensures |parts| == 8 && forall k :: 0 <= k < 7 ==> parts[k] == FlagText(o, k)
  {
    seq(7, k requires 0 <= k < 7 => FlagText(o, k)) + ["CONNECTION LIMIT " + Itoa(o.connectionLimit)]
  }

  function OptionParts(clause: RoleClause): seq<string> {
    FixedParts(clause.options)
    + (if clause.password == "" then [] else ["PASSWORD " + SqlLit(clause.password)])
    + (if clause.validUntil == "" then [] else ["VALID UNTIL " + SqlLit(clause.validUntil)])
  }

  // ----- Reading

  /** Which of the seven flags a word is, and whether it turns it on. */
  function FlagOf(word: string): (r: Option<(nat, bool)>)
    ensures r.Some? ==> r.value.0 < 7
  {
    if word == "LOGIN" then Some((0, true))
    else if word == "NOLOGIN" then Some((0, false))
    else if word == "SUPERUSER" then Some((1, true))
    else if word == "NOSUPERUSER" then Some((1, false))
    else if word == "CREATEDB" then Some((2, true))
    else if word == "NOCREATEDB" then Some((2, false))
    else if word == "CREATEROLE" then Some((3, true))
    else if word == "NOCREATEROLE" then Some((3, false))
    else if word == "REPLICATION" then Some((4, true))
    else if word == "NOREPLICATION" then Some((4, false))
    else if word == "INHERIT" then Some((5, true))
    else if word == "NOINHERIT" then Some((5, false))
    else if word == "BYPASSRLS" then Some((6, true))
    else if word == "NOBYPASSRLS" then Some((6, false))
    else None
  }

  function SetFlag(o: RoleOptions, flag: (nat, bool)): RoleOptions
    requires flag.0 < 7
  {
    var i, on := flag.0, flag.1;
    RoleOptions(if i == 0 then on else o.login,
                if i == 1 then on else o.superuser,
                if i == 2 then on else o.createDB,
                if i == 3 then on else o.createRole,
                if i == 4 then on else o.replication,
                if i == 5 then on else o.inherits,
                if i == 6 then on else o.bypassRLS,
                o.connectionLimit)
  }

  /** One option at the front, in whatever order options come: the role with it set, and what follows. */
  function ReadOption(tokens: seq<Token>, rec: RoleRec): (r: Option<(RoleRec, seq<Token>)>)
    ensures r.Some? ==> |r.value.1| < |tokens|
  {
    if tokens == [] || !tokens[0].Word? then None
    else
      var flag := FlagOf(tokens[0].word);
      if flag.Some? then Some((rec.(options := SetFlag(rec.options, flag.value)), tokens[1..]))
      else if |tokens| > 1 && tokens[0].word == "PASSWORD" && tokens[1].Lit? then
        Some((rec.(password := Some(tokens[1].text)), tokens[2..]))
      else if |tokens| > 2 && tokens[0].word == "CONNECTION" && tokens[1] == Word("LIMIT") && tokens[2].Num? then
        Some((rec.(options := rec.options.(connectionLimit := tokens[2].value)), tokens[3..]))
      else if |tokens| > 2 && tokens[0].word == "VALID" && tokens[1] == Word("UNTIL") && tokens[2].Lit? then
        Some((rec.(validUntil := Some(tokens[2].text)), tokens[3..]))
      else None
  }

  /** What a role becomes under an option list; None for a list the server does not accept. */
  function ReadOptions(tokens: seq<Token>, rec: RoleRec): Option<RoleRec>
    decreases |tokens|
  {
    if tokens == [] then Some(rec)
    else
      var first := ReadOption(tokens, rec);
      if first.None? then None else ReadOptions(first.value.1, first.value.0)
  }

  // ----- Reading inverts printing

  /** A piece that reads as exactly one option, which takes rec to after. */
  ghost predicate Reads(part: string, rec: RoleRec, after: RoleRec) {
    && Lex(part, POSTGRES).Some?
    && Lex(part, POSTGRES).value != []
    && forall more :: ReadOption(Lex(part, POSTGRES).value + more, rec) == Some((after, more))
  }

  /** A run of pieces each of which reads as one option. */
  ghost predicate AllRead(parts: seq<string>, recs: seq<RoleRec>) {
    |recs| == |parts| + 1 && forall i :: 0 <= i < |parts| ==> Reads(parts[i], recs[i], recs[i + 1])
  }

  lemma {:induction false} ReadsAll(parts: seq<string>, recs: seq<RoleRec>)
    requires AllRead(parts, recs)
    ensures Tokens(parts, POSTGRES).Some? && forall p :: p in parts ==> StartsOtherwise(Lex(p, POSTGRES))
    ensures ReadOptions(Tokens(parts, POSTGRES).value, recs[0]) == Some(recs[|parts|])
  {
    if parts != [] {
      assert AllRead(parts[1..], recs[1..]) by {
        forall i | 0 <= i < |parts| - 1
          ensures Reads(parts[1..][i], recs[1..][i], recs[1..][i + 1])
        {
          assert Reads(parts[i + 1], recs[i + 1], recs[i + 2]);
        }
      }
      ReadsAll(parts[1..], recs[1..]);
      assert Reads(parts[0], recs[0], recs[1]);
      ReadsWord(parts[0], recs[0], recs[1]);
      assert forall p :: p in parts <==> p == parts[0] || p in parts[1..];
    }
  }

  lemma ReadsWord(part: string, rec: RoleRec, after: RoleRec)
    requires Reads(part, rec, after)
    ensures StartsOtherwise(Lex(part, POSTGRES))
  {
    var tokens := Lex(part, POSTGRES).value;
    assert ReadOption(tokens + [], rec) == Some((after, []));
    assert (tokens + [])[0] == tokens[0];
  }

  lemma FlagReads(word: string, rec: RoleRec)
    requires IsWord(word) && FlagOf(word).Some?
    ensures Reads(word, rec, rec.(options := SetFlag(rec.options, FlagOf(word).value)))
  {
    WordAlone(word, POSTGRES);
    forall more
      ensures ReadOption([Word(word)] + more, rec) ==
        Some((rec.(options := SetFlag(rec.options, FlagOf(word).value)), more))
    {
      assert ([Word(word)] + more)[1..] == more;
    }
  }

  lemma KeyWords()
    ensures IsWord("CONNECTION") && IsWord("LIMIT") && IsWord("PASSWORD") && IsWord("VALID") && IsWord("UNTIL")
    ensures "VALID" != "PASSWORD" && "VALID" != "CONNECTION" && "PASSWORD" != "CONNECTION"
  {
  }

  lemma NotFlags()
    ensures FlagOf("CONNECTION").None? && FlagOf("PASSWORD").None? && FlagOf("VALID").None?
  {
  }

  lemma LimitReads(n: int, rec: RoleRec)
    ensures Reads("CONNECTION LIMIT " + Itoa(n), rec, rec.(options := rec.options.(connectionLimit := n)))
  {
    KeyWords();
    NumberAlone(n, POSTGRES);
    ThreePieces("CONNECTION", "LIMIT", Itoa(n), Num(n));
    assert "CONNECTION LIMIT " + Itoa(n) == "CONNECTION" + " " + ("LIMIT" + " " + Itoa(n));
    NotFlags();
    forall more
      ensures ReadOption([Word("CONNECTION"), Word("LIMIT"), Num(n)] + more, rec)
        == Some((rec.(options := rec.options.(connectionLimit := n)), more))
    {
      FrontOf(Word("CONNECTION"), Word("LIMIT"), Num(n), more);
    }
  }

  lemma PasswordSpaced()
    ensures "PASSWORD" + " " == "PASSWORD "
  {
  }

  lemma PasswordOption(text: string, rec: RoleRec, more: seq<Token>)
    ensures ReadOption([Word("PASSWORD"), Lit(text)] + more, rec) == Some((rec.(password := Some(text)), more))
  {
    NotFlags();
    assert ([Word("PASSWORD"), Lit(text)] + more)[2..] == more;
  }

  lemma PasswordReads(text: string, rec: RoleRec)
    ensures Reads("PASSWORD " + SqlLit(text), rec, rec.(password := Some(text)))
  {
    KeyWords();
    var word := "PASSWORD";
    WordAlone(word, POSTGRES);
    LitAlone(text, POSTGRES);
    TwoPieces(word, SqlLit(text), [Word(word)], [Lit(text)]);
    PasswordSpaced();
    assert [Word(word)] + [Lit(text)] == [Word(word), Lit(text)];
    forall more
      ensures ReadOption([Word(word), Lit(text)] + more, rec) == Some((rec.(password := Some(text)), more))
    {
      PasswordOption(text, rec, more);
    }
  }

  lemma ExpiryReads(text: string, rec: RoleRec)
    ensures Reads("VALID UNTIL " + SqlLit(text), rec, rec.(validUntil := Some(text)))
  {
    KeyWords();
    LitAlone(text, POSTGRES);
    ThreePieces("VALID", "UNTIL", SqlLit(text), Lit(text));
    assert "VALID UNTIL " + SqlLit(text) == "VALID" + " " + ("UNTIL" + " " + SqlLit(text));
    NotFlags();
    forall more
      ensures ReadOption([Word("VALID"), Word("UNTIL"), Lit(text)] + more, rec) == Some((rec.(validUntil := Some(text)), more))
    {
      FrontOf(Word("VALID"), Word("UNTIL"), Lit(text), more);
    }
  }

  lemma FrontOf(a: Token, b: Token, c: Token, more: seq<Token>)
    ensures var tokens := [a, b, c] + more;
      |tokens| > 2 && tokens[0] == a && tokens[1] == b && tokens[2] == c && tokens[3..] == more
  {
  }

  lemma ThreePieces(p: string, q: string, r: string, t: Token)
    requires IsWord(p) && IsWord(q) && Lex(r, POSTGRES) == Some([t])
    ensures Lex(p + " " + (q + " " + r), POSTGRES) == Some([Word(p), Word(q), t])
  {
    WordAlone(p, POSTGRES);
    WordAlone(q, POSTGRES);
    TwoPieces(q, r, [Word(q)], [t]);
    TwoPieces(p, q + " " + r, [Word(p)], [Word(q)] + [t]);
    assert [Word(p)] + ([Word(q)] + [t]) == [Word(p), Word(q), t];
  }

  lemma TwoPieces(p: string, q: string, a: seq<Token>, b: seq<Token>)
    requires Lex(p, POSTGRES) == Some(a) && Lex(q, POSTGRES) == Some(b) && !EndsLit(Some(a))
    ensures Lex(p + " " + q, POSTGRES) == Some(a + b)
  {
    var parts := [p, q];
    assert Tokens(parts[1..][1..], POSTGRES) == Some([]);
    assert Tokens(parts[1..], POSTGRES) == Some(b + []) && b + [] == b;
    LexJoin(parts, POSTGRES);
    assert Join(parts, " ") == p + " " + Join(parts[1..], " ");
  }

  function FlagValue(o: RoleOptions, k: nat): bool
    requires k < 7
  {
    match k
    case 0 => o.login
    case 1 => o.superuser
    case 2 => o.createDB
    case 3 => o.createRole
    case 4 => o.replication
    case 5 => o.inherits
    case _ => o.bypassRLS
  }

  /** The options after the first k flags have been read. */
  function AfterFlags(o: RoleOptions, was: RoleOptions, k: nat): RoleOptions
    requires k <= 7
  {
    if k == 0 then was else SetFlag(AfterFlags(o, was, k - 1), (k - 1, FlagValue(o, k - 1)))
  }

  lemma SetGet(o: RoleOptions, i: nat, v: bool, j: nat)
    requires i < 7 && j < 7
    ensures FlagValue(SetFlag(o, (i, v)), j) == if i == j then v else FlagValue(o, j)
    ensures SetFlag(o, (i, v)).connectionLimit == o.connectionLimit
  {
  }

  lemma {:induction false} FlagAfter(o: RoleOptions, was: RoleOptions, k: nat, j: nat)
    requires k <= 7 && j < 7
    ensures FlagValue(AfterFlags(o, was, k), j) == if j < k then FlagValue(o, j) else FlagValue(was, j)
    ensures AfterFlags(o, was, k).connectionLimit == was.connectionLimit
  {
    if k > 0 {
      FlagAfter(o, was, k - 1, j);
      SetGet(AfterFlags(o, was, k - 1), k - 1, FlagValue(o, k - 1), j);
    }
  }

  lemma SameFlags(a: RoleOptions, b: RoleOptions)
    requires forall j :: 0 <= j < 7 ==> FlagValue(a, j) == FlagValue(b, j)
    ensures a.(connectionLimit := b.connectionLimit) == b
  {
    assert FlagValue(a, 0) == FlagValue(b, 0) && FlagValue(a, 1) == FlagValue(b, 1) && FlagValue(a, 2) == FlagValue(b, 2);
    assert FlagValue(a, 3) == FlagValue(b, 3) && FlagValue(a, 4) == FlagValue(b, 4) && FlagValue(a, 5) == FlagValue(b, 5);
    assert FlagValue(a, 6) == FlagValue(b, 6);
  }

  lemma AllFlags(o: RoleOptions, was: RoleOptions)
    ensures AfterFlags(o, was, 7).(connectionLimit := o.connectionLimit) == o
  {
    forall j | 0 <= j < 7
      ensures FlagValue(AfterFlags(o, was, 7), j) == FlagValue(o, j)
    {
      FlagAfter(o, was, 7, j);
    }
    SameFlags(AfterFlags(o, was, 7), o);
  }

  /** The role after the first k of the fixed options. */
  function Step(rec: RoleRec, o: RoleOptions, k: nat): RoleRec {
    if k < 8 then rec.(options := AfterFlags(o, rec.options, k)) else rec.(options := o)
  }

  lemma FlagWords()
    ensures IsWord("LOGIN") && IsWord("SUPERUSER") && IsWord("CREATEDB") && IsWord("CREATEROLE")
    ensures IsWord("REPLICATION") && IsWord("INHERIT") && IsWord("BYPASSRLS")
  {
  }

  lemma OffWords()
    ensures IsWord("NOLOGIN") && IsWord("NOSUPERUSER") && IsWord("NOCREATEDB") && IsWord("NOCREATEROLE")
    ensures IsWord("NOREPLICATION") && IsWord("NOINHERIT") && IsWord("NOBYPASSRLS")
  {
  }

  lemma FlagsRead()
    ensures FlagOf("LOGIN") == Some((0, true)) && FlagOf("NOLOGIN") == Some((0, false))
    ensures FlagOf("SUPERUSER") == Some((1, true)) && FlagOf("NOSUPERUSER") == Some((1, false))
    ensures FlagOf("CREATEDB") == Some((2, true)) && FlagOf("NOCREATEDB") == Some((2, false))
    ensures FlagOf("CREATEROLE") == Some((3, true)) && FlagOf("NOCREATEROLE") == Some((3, false))
    ensures FlagOf("REPLICATION") == Some((4, true)) && FlagOf("NOREPLICATION") == Some((4, false))
    ensures FlagOf("INHERIT") == Some((5, true)) && FlagOf("NOINHERIT") == Some((5, false))
    ensures FlagOf("BYPASSRLS") == Some((6, true)) && FlagOf("NOBYPASSRLS") == Some((6, false))
  {
  }

  lemma FlagNamed(o: RoleOptions, k: nat)
    requires k < 7
    ensures FlagOf(FlagText(o, k)) == Some((k, FlagValue(o, k)))
  {
    FlagsRead();
  }

  lemma FlagIsWord(o: RoleOptions, k: nat)
    requires k < 7
    ensures IsWord(FlagText(o, k))
  {
    FlagWords();
    OffWords();
  }

  lemma FixedOneReads(o: RoleOptions, rec: RoleRec, k: nat)
    requires k < 8
    ensures Reads(FixedParts(o)[k], Step(rec, o, k), Step(rec, o, k + 1))
  {
    if k < 7 {
      FlagNamed(o, k);
      FlagIsWord(o, k);
      FlagReads(FlagText(o, k), Step(rec, o, k));
    } else {
      AllFlags(o, rec.options);
      LimitReads(o.connectionLimit, Step(rec, o, 7));
    }
  }

  lemma FixedReads(o: RoleOptions, rec: RoleRec)
    ensures AllRead(FixedParts(o), seq(9, k requires 0 <= k < 9 => Step(rec, o, k)))
  {
    var recs := seq(9, k requires 0 <= k < 9 => Step(rec, o, k));
    forall k | 0 <= k < 8
      ensures Reads(FixedParts(o)[k], recs[k], recs[k + 1])
    {
      FixedOneReads(o, rec, k);
    }
  }

  lemma Snoc(parts: seq<string>, recs: seq<RoleRec>, part: string, after: RoleRec)
    requires AllRead(parts, recs) && Reads(part, recs[|parts|], after)
    ensures AllRead(parts + [part], recs + [after])
  {
    forall i | 0 <= i < |parts| + 1
      ensures Reads((parts + [part])[i], (recs + [after])[i], (recs + [after])[i + 1])
    {
      if i < |parts| {
        assert Reads(parts[i], recs[i], recs[i + 1]);
      }
    }
  }

  /** Every piece reads as one option, and together they take a role to what ALTER ROLE with the clause makes of it. */
  lemma PartsRead(clause: RoleClause, rec: RoleRec)
    ensures Tokens(OptionParts(clause), POSTGRES).Some? && KeptApart(OptionParts(clause), POSTGRES)
    ensures ReadOptions(Tokens(OptionParts(clause), POSTGRES).value, rec) == Some(Altered(rec, clause))
  {
    var o := clause.options;
    var parts := FixedParts(o);
    var recs := seq(9, k requires 0 <= k < 9 => Step(rec, o, k));
    FixedReads(o, rec);
    var now := Step(rec, o, 8);
    assert now == rec.(options := o);
    if clause.password != "" {
      PasswordReads(clause.password, now);
      now := now.(password := Some(clause.password));
      Snoc(parts, recs, "PASSWORD " + SqlLit(clause.password), now);
      parts, recs := parts + ["PASSWORD " + SqlLit(clause.password)], recs + [now];
    }
    if clause.validUntil != "" {
      ExpiryReads(clause.validUntil, now);
      now := now.(validUntil := Some(clause.validUntil));
      Snoc(parts, recs, "VALID UNTIL " + SqlLit(clause.validUntil), now);
      parts, recs := parts + ["VALID UNTIL " + SqlLit(clause.validUntil)], recs + [now];
    }
    assert parts == OptionParts(clause);
    ReadsAll(parts, recs);
    OthersApart(parts, POSTGRES);
    assert now == Altered(rec, clause);
  }

  /**
   * roleOptions: whatever the password and the expiry contain, the server reads the text as the clause it was printed
   * from: CREATE ROLE gets the declared role, and ALTER ROLE changes an existing one as declared.
   */
  method RoleOptionsText(clause: RoleClause) returns (text: string)
    ensures Lex(text, POSTGRES).Some?
    ensures forall rec :: ReadOptions(Lex(text, POSTGRES).value, rec) == Some(Altered(rec, clause))
  {
    var parts := FixedParts(clause.options);
    if clause.password != "" {
      parts := parts + ["PASSWORD " + SqlLit(clause.password)];
    }
    if clause.validUntil != "" {
      parts := parts + ["VALID UNTIL " + SqlLit(clause.validUntil)];
    }
    text := Join(parts, " ");
    assert parts == OptionParts(clause);
    assert Lex(text, POSTGRES).Some? by {
      PartsRead(clause, Created(clause));
      LexJoin(parts, POSTGRES);
    }
    forall rec
      ensures ReadOptions(Lex(text, POSTGRES).value, rec) == Some(Altered(rec, clause))
    {
      PartsRead(clause, rec);
      LexJoin(parts, POSTGRES);
    }
  }
}
