/** The settings of a cluster: what is declared, and what the server makes of it. */
module PgConf {
  import opened Strings
  import opened SqlText

  datatype Conf = Conf(
    sharedBuffers: string, maxConnections: int, fsync: bool, autovacuum: bool, settings: map<string, string>)

  /** A setting, and whether its value is written in quotes. */
  datatype Setting = Setting(name: string, value: string, quoted: bool)

  predicate Locked(name: string) {
    name == "listen_addresses" || name == "port" || name == "unix_socket_directories" || name == "hba_file"
    || name == "data_directory"
  }

  function OnOff(b: bool): string {
    if b then "on" else "off"
  }

  function Typed(cfg: Conf): seq<Setting> {
    [Setting("shared_buffers", cfg.sharedBuffers, true),
     Setting("max_connections", Itoa(cfg.maxConnections), false),
     Setting("fsync", OnOff(cfg.fsync), false),
     Setting("autovacuum", OnOff(cfg.autovacuum), false),
     Setting("synchronous_commit", OnOff(cfg.fsync), false),
     Setting("full_page_writes", OnOff(cfg.fsync), false)]
  }

  /** The user's settings of these names, without the locked ones. */
  function Passed(settings: map<string, string>, keys: seq<string>): seq<Setting>
    requires forall k :: k in keys ==> k in settings
  {
    if keys == [] then []
    else
      var last := keys[|keys| - 1];
      Passed(settings, keys[..|keys| - 1])
      + (if Locked(Lower(last)) then [] else [Setting(last, settings[last], true)])
  }

  const TCP_OFF := Setting("listen_addresses", "", true)

  function SettingsOf(cfg: Conf): seq<Setting> {
    Typed(cfg) + Passed(cfg.settings, SortedKeys(cfg.settings.Keys)) + [TCP_OFF]
  }

  // ----- The pairs that are written

  function Quote(s: string): string {
    SqlLit(s)
  }

  function Written(s: Setting): (string, string) {
    (s.name, if s.quoted then Quote(s.value) else s.value)
  }

  function AllWritten(settings: seq<Setting>): (pairs: seq<(string, string)>)
    ensures |pairs| == |settings|
  {
    seq(|settings|, i requires 0 <= i < |settings| => Written(settings[i]))
  }

  lemma WrittenAppend(a: seq<Setting>, b: seq<Setting>)
    ensures AllWritten(a + b) == AllWritten(a) + AllWritten(b)
  {
  }

  lemma PassedStep(settings: map<string, string>, keys: seq<string>, i: nat)
    requires (forall k :: k in keys ==> k in settings) && i < |keys|
    ensures Passed(settings, keys[..i + 1]) == Passed(settings, keys[..i]) +
      (if Locked(Lower(keys[i])) then [] else [Setting(keys[i], settings[keys[i]], true)])
  {
    assert keys[..i + 1][..i] == keys[..i];
  }

  /** What has been written when the first i keys are through. */
  function Through(
    typed: seq<(string, string)>, settings: map<string, string>, keys: seq<string>, i: nat): seq<(string, string)>
    requires (forall k :: k in keys ==> k in settings) && i <= |keys|
  {
    typed + AllWritten(Passed(settings, keys[..i]))
  }

  lemma OneMoreKey(typed: seq<(string, string)>, settings: map<string, string>, keys: seq<string>, i: nat)
    requires (forall k :: k in keys ==> k in settings) && i < |keys|
    ensures Through(typed, settings, keys, i + 1) ==
      if Locked(Lower(keys[i])) then Through(typed, settings, keys, i)
      else Through(typed, settings, keys, i) + [(keys[i], Quote(settings[keys[i]]))]
  {
    PassedStep(settings, keys, i);
    var one := [Setting(keys[i], settings[keys[i]], true)];
    WrittenAppend(Passed(settings, keys[..i]), one);
    assert Passed(settings, keys[..i]) + [] == Passed(settings, keys[..i]);
    assert AllWritten(one) == [(keys[i], Quote(settings[keys[i]]))];
  }

  lemma AllThrough(typed: seq<(string, string)>, settings: map<string, string>, keys: seq<string>)
    requires forall k :: k in keys ==> k in settings
    ensures Through(typed, settings, keys, 0) == typed
    ensures Through(typed, settings, keys, |keys|) == typed + AllWritten(Passed(settings, keys))
  {
    assert keys[..|keys|] == keys;
  }

  /** The passthrough, applied after the typed settings so that it can override them. */
  method PassThrough(typed: seq<(string, string)>, settings: map<string, string>) returns (out: seq<(string, string)>)
    ensures out == typed + AllWritten(Passed(settings, SortedKeys(settings.Keys)))
  {
    out := typed;
    var keys := SortedKeys(settings.Keys);
    AllThrough(typed, settings, keys);
    for i := 0 to |keys|
      invariant out == Through(typed, settings, keys, i)
    {
      OneMoreKey(typed, settings, keys, i);
      if Locked(Lower(keys[i])) {
        continue;
      }
      out := out + [(keys[i], Quote(settings[keys[i]]))];
    }
  }

  method Settings(cfg: Conf) returns (out: seq<(string, string)>)
    ensures out == AllWritten(SettingsOf(cfg))
  {
    var passed := Passed(cfg.settings, SortedKeys(cfg.settings.Keys));
    out := PassThrough(AllWritten(Typed(cfg)), cfg.settings);
    out := out + [("listen_addresses", Quote(""))];
    WrittenAppend(Typed(cfg), passed);
    WrittenAppend(Typed(cfg) + passed, [TCP_OFF]);
  }

  // ----- What the server makes of them

  /** A name and the value read for it. */
  type Entry = (string, string)

  function Entries(settings: seq<Setting>): (entries: seq<Entry>)
    ensures |entries| == |settings|
  {
    seq(|settings|, i requires 0 <= i < |settings| => (settings[i].name, settings[i].value))
  }

  /** What a directive, given its argument, says about a parameter: the files it names are not part of this model. */
  type Files = (string, string, string) -> Option<string>

  predicate Directive(name: string) {
    Lower(name) == "include" || Lower(name) == "include_dir" || Lower(name) == "include_if_exists"
  }

  /** What an entry says about a parameter; names are compared without regard to case. */
  function Told(e: Entry, files: Files, name: string): Option<string> {
    if Directive(e.0) then files(Lower(e.0), e.1, Lower(name))
    else if Lower(e.0) == Lower(name) then Some(e.1)
    else None
  }

  /** Of several entries that say something the last counts. */
  function Effective(entries: seq<Entry>, files: Files, name: string): Option<string> {
    if entries == [] then None
    else
      var told := Told(entries[|entries| - 1], files, name);
      if told.Some? then told else Effective(entries[..|entries| - 1], files, name)
  }

  /** The value the server ends up with. */
  function Value(settings: seq<Setting>, files: Files, name: string): Option<string> {
    Effective(Entries(settings), files, name)
  }

  lemma ValueSnoc(settings: seq<Setting>, s: Setting, files: Files, name: string)
    ensures Value(settings + [s], files, name) ==
      if Told((s.name, s.value), files, name).Some? then Told((s.name, s.value), files, name)
      else Value(settings, files, name)
  {
    var entries := Entries(settings + [s]);
    assert entries[..|entries| - 1] == Entries(settings);
  }

  lemma {:induction false} ValueAppend(a: seq<Setting>, b: seq<Setting>, files: Files, name: string)
    ensures Value(a + b, files, name) ==
      if Value(b, files, name).Some? then Value(b, files, name) else Value(a, files, name)
  {
    if b == [] {
      assert a + b == a;
    } else {
      var front, last := b[..|b| - 1], b[|b| - 1];
      ValueAppend(a, front, files, name);
      ValueSnoc(a + front, last, files, name);
      ValueSnoc(front, last, files, name);
      assert a + front + [last] == a + b && front + [last] == b;
    }
  }

  /** A user key that has something to say about a parameter, under its name or through an included file. */
  predicate Speaks(settings: map<string, string>, files: Files, name: string, k: string) {
    k in settings && !Locked(Lower(k)) && Told((k, settings[k]), files, name).Some?
  }

  /** The user key that decides: of those that speak, the last in byte order. */
  predicate Decides(settings: map<string, string>, files: Files, name: string, k: string) {
    && Speaks(settings, files, name, k)
    && forall j :: j in settings && Speaks(settings, files, name, j) ==> j == k || Before(j, k)
  }

  lemma PassedOne(settings: map<string, string>, keys: seq<string>, files: Files, name: string)
    requires (forall k :: k in keys ==> k in settings) && keys != []
    ensures var last := keys[|keys| - 1];
      Value(Passed(settings, keys), files, name) ==
        if Speaks(settings, files, name, last) then Told((last, settings[last]), files, name)
        else Value(Passed(settings, keys[..|keys| - 1]), files, name)
  {
    var n := |keys| - 1;
    PassedStep(settings, keys, n);
    assert keys[..n + 1] == keys;
    var before := Passed(settings, keys[..n]);
    assert before + [] == before;
    ValueSnoc(before, Setting(keys[n], settings[keys[n]], true), files, name);
  }

  lemma {:induction false} NobodySpeaks(settings: map<string, string>, keys: seq<string>, files: Files, name: string)
    requires forall k :: k in keys ==> k in settings && !Speaks(settings, files, name, k)
    ensures Value(Passed(settings, keys), files, name).None?
  {
    if keys != [] {
      PassedOne(settings, keys, files, name);
      NobodySpeaks(settings, keys[..|keys| - 1], files, name);
    }
  }

  lemma {:induction false} LastSpeaks(
    settings: map<string, string>, keys: seq<string>, files: Files, name: string, i: nat)
    requires (forall k :: k in keys ==> k in settings) && i < |keys| && Speaks(settings, files, name, keys[i])
    requires forall j :: i < j < |keys| ==> !Speaks(settings, files, name, keys[j])
    ensures Value(Passed(settings, keys), files, name) == Told((keys[i], settings[keys[i]]), files, name)
  {
    PassedOne(settings, keys, files, name);
    if i < |keys| - 1 {
      LastSpeaks(settings, keys[..|keys| - 1], files, name, i);
    }
  }

  lemma DeciderIsLast(settings: map<string, string>, keys: seq<string>, files: Files, name: string, k: string)
    returns (i: nat)
    requires Decides(settings, files, name, k) && Ascending(keys) && forall j :: j in keys <==> j in settings
    ensures i < |keys| && keys[i] == k && forall j :: i < j < |keys| ==> !Speaks(settings, files, name, keys[j])
  {
    assert k in keys;
    i :| 0 <= i < |keys| && keys[i] == k;
    forall j | i < j < |keys|
      ensures !Speaks(settings, files, name, keys[j])
    {
      assert Before(keys[i], keys[j]) && keys[j] in settings;
      BeforeTotal(keys[i], keys[j]);
    }
  }

  /** If any user key speaks, one of them decides. */
  lemma SomeDecides(settings: map<string, string>, files: Files, name: string)
    ensures (exists k :: Decides(settings, files, name, k)) <==>
      exists j :: j in settings && Speaks(settings, files, name, j)
  {
    var speakers := set j | j in settings && Speaks(settings, files, name, j);
    if j :| j in settings && Speaks(settings, files, name, j) {
      var sorted := SortedKeys(speakers);
      assert j in speakers && j in sorted;
      var k := sorted[|sorted| - 1];
      assert k in sorted;
      forall other | other in speakers && other != k
        ensures Before(other, k)
      {
        assert other in sorted;
        var i :| 0 <= i < |sorted| && sorted[i] == other;
      }
      assert Decides(settings, files, name, k);
    }
  }

  // ----- The typed settings

  /** Length and first letter keep a typed name apart from every locked one and every directive. */
  lemma Apart(name: string)
    requires name != ""
    requires || |name| == 15 || |name| == 5 || |name| == 10 || |name| == 18
             || (|name| == 14 && name[0] == 's') || (|name| == 16 && name[0] == 'f')
    ensures !Locked(Lower(name)) && !Directive(name)
  {
    assert Lower(name)[0] == LowerChar(name[0]);
  }

  lemma TypedLengths(cfg: Conf)
    ensures |Typed(cfg)[0].name| == 14 && |Typed(cfg)[1].name| == 15 && |Typed(cfg)[2].name| == 5
    ensures |Typed(cfg)[3].name| == 10 && |Typed(cfg)[4].name| == 18 && |Typed(cfg)[5].name| == 16
  {
  }

  lemma TypedApart(cfg: Conf, i: nat)
    requires i < 6
    ensures !Locked(Lower(Typed(cfg)[i].name)) && !Directive(Typed(cfg)[i].name)
  {
    TypedLengths(cfg);
    Apart(Typed(cfg)[i].name);
  }

  lemma {:induction false} NoneNamed(settings: seq<Setting>, files: Files, name: string)
    requires forall s :: s in settings ==> !Directive(s.name) && Lower(s.name) != Lower(name)
    ensures Value(settings, files, name).None?
  {
    if settings != [] {
      var front, last := settings[..|settings| - 1], settings[|settings| - 1];
      NoneNamed(front, files, name);
      ValueSnoc(front, last, files, name);
      assert front + [last] == settings;
    }
  }

  lemma TypedUnlocked(cfg: Conf, files: Files, name: string)
    requires Locked(Lower(name))
    ensures Value(Typed(cfg), files, name).None?
  {
    forall s | s in Typed(cfg)
      ensures !Directive(s.name) && Lower(s.name) != Lower(name)
    {
      var i :| 0 <= i < 6 && Typed(cfg)[i] == s;
      TypedApart(cfg, i);
    }
    NoneNamed(Typed(cfg), files, name);
  }

  lemma {:induction false} ValueAt(settings: seq<Setting>, files: Files, i: nat)
    requires i < |settings| && forall s :: s in settings ==> !Directive(s.name)
    requires forall j :: i < j < |settings| ==> |settings[j].name| != |settings[i].name|
    ensures Value(settings, files, settings[i].name) == Some(settings[i].value)
  {
    var n := |settings| - 1;
    ValueSnoc(settings[..n], settings[n], files, settings[i].name);
    assert settings[..n] + [settings[n]] == settings;
    if i < n {
      ValueAt(settings[..n], files, i);
    }
  }

  /** What the typed settings say, each under its own name: durability is all or nothing. */
  lemma TypedMeaning(cfg: Conf, files: Files)
    ensures Value(Typed(cfg), files, "shared_buffers") == Some(cfg.sharedBuffers)
    ensures Value(Typed(cfg), files, "max_connections") == Some(Itoa(cfg.maxConnections))
    ensures Value(Typed(cfg), files, "autovacuum") == Some(OnOff(cfg.autovacuum))
    ensures Value(Typed(cfg), files, "fsync") == Some(OnOff(cfg.fsync))
    ensures Value(Typed(cfg), files, "synchronous_commit") == Some(OnOff(cfg.fsync))
    ensures Value(Typed(cfg), files, "full_page_writes") == Some(OnOff(cfg.fsync))
  {
    var typed := Typed(cfg);
    TypedLengths(cfg);
    forall i | 0 <= i < 6
      ensures !Directive(typed[i].name)
    {
      TypedApart(cfg, i);
    }
    ValueAt(typed, files, 0);
    ValueAt(typed, files, 1);
    ValueAt(typed, files, 2);
    ValueAt(typed, files, 3);
    ValueAt(typed, files, 4);
    ValueAt(typed, files, 5);
  }

  // ----- All of them

  lemma LowerListen()
    ensures Lower("listen_addresses") == "listen_addresses" && !Directive("listen_addresses")
  {
  }

  lemma ThreeParts(typed: seq<Setting>, passed: seq<Setting>, files: Files, name: string)
    ensures Value(typed + passed + [TCP_OFF], files, name) ==
      if Lower(name) == "listen_addresses" then Some("")
      else if Value(passed, files, name).Some? then Value(passed, files, name)
      else Value(typed, files, name)
  {
    LowerListen();
    ValueSnoc(typed + passed, TCP_OFF, files, name);
    ValueAppend(typed, passed, files, name);
  }

  /**
   * What the settings come to, for every set of user settings, every name and whatever files they include: TCP is
   * off; the user key that decides a parameter, under its name or through a file it includes, overrides the typed
   * value; everything else keeps its typed value, and no other locked parameter has one.
   */
  lemma SettingsMeaning(cfg: Conf, files: Files, name: string)
    ensures var read := Value(SettingsOf(cfg), files, name);
      if Lower(name) == "listen_addresses" then read == Some("")
      else if exists k :: Decides(cfg.settings, files, name, k) then
        forall k :: Decides(cfg.settings, files, name, k) ==> read == Told((k, cfg.settings[k]), files, name)
      else if Locked(Lower(name)) then read == None
      else read == Value(Typed(cfg), files, name)
  {
    var keys := SortedKeys(cfg.settings.Keys);
    ThreeParts(Typed(cfg), Passed(cfg.settings, keys), files, name);
    SomeDecides(cfg.settings, files, name);
    if exists k :: Decides(cfg.settings, files, name, k) {
      forall k | Decides(cfg.settings, files, name, k)
        ensures Value(Passed(cfg.settings, keys), files, name) == Told((k, cfg.settings[k]), files, name)
      {
        var i := DeciderIsLast(cfg.settings, keys, files, name, k);
        LastSpeaks(cfg.settings, keys, files, name, i);
      }
    } else {
      NobodySpeaks(cfg.settings, keys, files, name);
      if Locked(Lower(name)) {
        TypedUnlocked(cfg, files, name);
      }
    }
  }

  /** A user setting that includes a file in which the parameter is set. */
  predicate BroughtIn(cfg: Conf, files: Files, name: string, k: string) {
    k in cfg.settings && Directive(k) && files(Lower(k), cfg.settings[k], Lower(name)).Some?
  }

  lemma DirectiveUnlocked(k: string)
    requires Directive(k)
    ensures !Locked(Lower(k))
  {
  }

  /**
   * A locked parameter other than listen_addresses stays unset exactly when no file that the user's settings include
   * sets it: a key is only ever compared with the locked names.
   */
  lemma LockedExactly(cfg: Conf, files: Files, name: string)
    requires Locked(Lower(name)) && Lower(name) != "listen_addresses"
    ensures Value(SettingsOf(cfg), files, name) == None <==> !exists k :: BroughtIn(cfg, files, name, k)
  {
    SettingsMeaning(cfg, files, name);
    SomeDecides(cfg.settings, files, name);
    forall k
      ensures Speaks(cfg.settings, files, name, k) <==> BroughtIn(cfg, files, name, k)
    {
      if Directive(k) {
        DirectiveUnlocked(k);
      }
    }
  }
}
