/** Reading pgbackrest.conf (`backup.py`): the stanza's options over the global ones, and the repositories they
    configure. */
module BackupConfig {
  import opened Results
  import opened PyText

  const PG_PATH := "pg1-path"
  const SUFFIXES := {"type", "path", "retention-full", "retention-archive", "retention-full-type"}
  const GLOBAL := "global"
  const DEFAULT_PATH := "/var/lib/pgbackrest"

  const LOCAL_TYPES := {"posix", "cifs"}
  const REMOTE_TYPES := {"s3", "gcs", "azure", "sftp"}
  const UNKNOWN := "unknown"
  const COUNT := "count"
  const TIME := "time"

  /** `_wanted` */
  predicate Wanted(key: string) {
    key == PG_PATH || (|key| > 5 && key[..4] == "repo" && '1' <= key[4] <= '4' && key[5] == '-' && key[6..] in SUFFIXES)
  }

  /** The options that are read: the data directory, and of each of four repositories five; no other, no credential among
      them. */
  lemma {:induction false} WantedIs(key: string)
    ensures Wanted(key) <==>
      || key == "pg1-path"
      || exists n <- ['1', '2', '3', '4'], suffix <- {"type", "path", "retention-full", "retention-archive", "retention-full-type"} ::
           key == ['r', 'e', 'p', 'o', n, '-'] + suffix
  {
    var digits, suffixes := ['1', '2', '3', '4'], {"type", "path", "retention-full", "retention-archive", "retention-full-type"};
    assert digits[0] == '1' && digits[1] == '2' && digits[2] == '3' && digits[3] == '4';
    if |key| > 5 && key[..4] == "repo" && '1' <= key[4] <= '4' && key[5] == '-' && key[6..] in SUFFIXES {
      assert key == ['r', 'e', 'p', 'o', key[4], '-'] + key[6..];
      assert key[4] in digits && key[6..] in suffixes;
    }
    forall n, suffix | n in digits && suffix in suffixes && key == ['r', 'e', 'p', 'o', n, '-'] + suffix ensures Wanted(key) {
      assert key[6..] == suffix && key[..4] == "repo";
    }
  }

  // ------------------------------------------------------------------- options

  /** A setting of the file: the section it stands in, its key and its value. */
  datatype Entry = Entry(section: string, key: string, value: string)

  predicate IsBlankOrComment(line: string) {
    line == "" || line[0] == '#' || line[0] == ';'
  }

  predicate IsHeader(line: string) {
    line != "" && line[0] == '[' && line[|line| - 1] == ']'
  }

  /** `line[1:-1]` */
  function Inside(line: string): string {
    if |line| >= 2 then line[1..|line| - 1] else ""
  }

  /** The section a line leaves the reader in; the line is stripped already. */
  function NextSection(section: string, line: string): string {
    if !IsBlankOrComment(line) && IsHeader(line) then Inside(line) else section
  }

  function SectionAfter(lines: seq<string>): string {
    if lines == [] then GLOBAL else NextSection(SectionAfter(lines[..|lines| - 1]), Strip(lines[|lines| - 1]))
  }

  /** The wanted setting a line makes, if it makes one. */
  function EntryOf(section: string, line: string, stanza: string): seq<Entry> {
    if IsBlankOrComment(line) || IsHeader(line) || (section != GLOBAL && section != stanza) || '=' !in line then []
    else
      var (key, value) := Partition(line, '=');
      if Wanted(Strip(key)) then [Entry(section, Strip(key), Strip(value))] else []
  }

  /** Every wanted setting of the two sections, in the order of the file. */
  function Entries(lines: seq<string>, stanza: string): seq<Entry> {
    if lines == [] then []
    else
      var before := lines[..|lines| - 1];
      Entries(before, stanza) + EntryOf(SectionAfter(before), Strip(lines[|lines| - 1]), stanza)
  }

  /** Setting `i` is the one that counts for its key: the stanza's last, or the first global one when the stanza has none. */
  ghost predicate Decides(entries: seq<Entry>, stanza: string, i: int) {
    && 0 <= i < |entries|
    && if entries[i].section == stanza then
         forall j :: i < j < |entries| && entries[j].key == entries[i].key ==> entries[j].section != stanza
       else
         && (forall j :: 0 <= j < |entries| && entries[j].key == entries[i].key ==> entries[j].section != stanza)
         && (forall j :: 0 <= j < i ==> entries[j].key != entries[i].key)
  }

  /** What a line of the file is, with the white space around its parts. */
  datatype Item =
    | Blank
    | Remark(mark: char, text: string)
    | Head(name: string)
    | Setting(key: string, value: string)
    | Junk(text: string)  // anything else without an equals sign

  predicate Trimmed(s: string) {
    s != "" ==> !IsSpace(s[0]) && !IsSpace(s[|s| - 1])
  }

  predicate Blanks(s: string) {
    forall c <- s :: IsSpace(c)
  }

  /** The items a file can hold: a comment starts with one of two marks; a key is not empty, has no equals sign, and does not
      look like a comment or a header. */
  predicate Writable(item: Item) {
    match item
    case Blank => true
    case Remark(mark, text) => mark == '#' || mark == ';'
    case Head(name) => true
    case Setting(key, value) =>
      key != "" && Trimmed(key) && Trimmed(value) && '=' !in key && key[0] != '#' && key[0] != ';' && key[0] != '['
    case Junk(text) =>
      text != "" && Trimmed(text) && '=' !in text && text[0] != '#' && text[0] != ';' && !(text[0] == '[' && text[|text| - 1] == ']')
  }

  function Written(item: Item, a: string, b: string, c: string, d: string): string {
    match item
    case Blank => a
    case Remark(mark, text) => a + [mark] + text
    case Head(name) => a + "[" + name + "]" + d
    case Setting(key, value) => a + key + b + "=" + c + value + d
    case Junk(text) => a + text + d
  }

  /** A line is read as what was written, whatever white space surrounds its parts. */
  lemma {:induction false} LineIsRead(item: Item, a: string, b: string, c: string, d: string, section: string, stanza: string)
    requires Writable(item) && Blanks(a) && Blanks(b) && Blanks(c) && Blanks(d)
    ensures var line := Strip(Written(item, a, b, c, d));
      && NextSection(section, line) == (if item.Head? then item.name else section)
      && EntryOf(section, line, stanza) ==
           if item.Setting? && (section == "global" || section == stanza) && Wanted(item.key)
           then [Entry(section, item.key, item.value)] else []
  {
    hide Wanted, Strip, IsSpace, Partition, Trimmed;
    match item
    case Blank =>
      StripPadded(a, "", "");
      assert a + "" + "" == a;
    case Remark(mark, text) => RemarkIsRead(mark, text, a);
    case Head(name) => HeadIsRead(name, a, d);
    case Setting(key, value) =>
      hide EntryOf, NextSection;
      SettingIsStripped(key, value, a, b, c, d);
      var right := if value == "" then "" else c + value;
      SettingIsRead(key + b + "=" + right, key, b, right, section, stanza);
    case Junk(text) => JunkIsStripped(text, a, d);
  }

  lemma {:induction false} JunkIsStripped(text: string, a: string, d: string)
    requires Trimmed(text) && Blanks(a) && Blanks(d)
    ensures Strip(a + text + d) == text
  {
    hide Strip, IsSpace;
    StripPadded(a, text, d);
  }

  lemma {:induction false} HeadIsRead(name: string, a: string, d: string)
    requires Blanks(a) && Blanks(d)
    ensures Strip(a + "[" + name + "]" + d) == "[" + name + "]" && IsHeader("[" + name + "]") && Inside("[" + name + "]") == name
  {
    hide Strip, IsSpace;
    Brackets();
    var s := "[" + name + "]";
    assert s[0] == '[' && s[|s| - 1] == ']';
    StripPadded(a, s, d);
    assert a + "[" + name + "]" + d == a + s + d;
  }

  /** The line of a setting, stripped; and its right side. */
  lemma {:induction false} SettingIsStripped(key: string, value: string, a: string, b: string, c: string, d: string)
    requires key != "" && Trimmed(key) && Trimmed(value) && Blanks(a) && Blanks(b) && Blanks(c) && Blanks(d)
    ensures var right := if value == "" then "" else c + value;
      Strip(a + key + b + "=" + c + value + d) == key + b + "=" + right && Strip(right) == value
  {
    hide Strip, IsSpace;
    Brackets();
    if value == "" {
      var s := key + b + "=";
      assert s == key + b + "=" + "" && s[0] == key[0] && s[|s| - 1] == '=';
      StripPadded(a, s, c + d);
      assert a + key + b + "=" + c + value + d == a + s + (c + d);
      StripPadded("", "", "");
      assert "" + "" + "" == "";
    } else {
      var s := key + b + "=" + c + value;
      assert s == key + b + "=" + (c + value) && s[0] == key[0] && s[|s| - 1] == value[|value| - 1];
      StripPadded(a, s, d);
      assert a + key + b + "=" + c + value + d == a + s + d;
      StripPadded(c, value, "");
      assert c + value + "" == c + value;
    }
  }

  lemma {:induction false} Brackets()
    ensures !IsSpace('[') && !IsSpace(']') && !IsSpace('=') && !IsSpace('#') && !IsSpace(';')
  {
  }

  lemma {:induction false} RemarkIsRead(mark: char, text: string, a: string)
    requires (mark == '#' || mark == ';') && Blanks(a)
    ensures var line := Strip(a + [mark] + text); line != "" && line[0] == mark
  {
    hide IsSpace, LStrip, RStrip;
    Brackets();
    var s := [mark] + text;
    assert a + [mark] + text == a + s;
    LStripBlanks(a, s);
    RStripIs(s, IsSpace);
    assert !IsSpace(s[0]) && RStrip(s, IsSpace) != "";
  }

  lemma {:induction false} SettingIsRead(line: string, key: string, b: string, right: string, section: string, stanza: string)
    requires key != "" && Trimmed(key) && '=' !in key && key[0] != '#' && key[0] != ';' && key[0] != '['
    requires Blanks(b) && line == key + b + "=" + right
    ensures NextSection(section, line) == section
    ensures EntryOf(section, line, stanza) ==
              if (section == "global" || section == stanza) && Wanted(key) then [Entry(section, key, Strip(right))] else []
  {
    hide Wanted, Strip, IsSpace;
    Brackets();
    assert line[0] == key[0];
    assert '=' in b ==> IsSpace('=');
    FindAppend(key + b, '=', right);
    NotFound(key + b, '=');
    assert line == key + b + ['='] + right && line[..|key + b|] == key + b && line[|key + b| + 1..] == right;
    assert Find(line, '=') == |key + b|;
    assert Partition(line, '=') == (key + b, right);
    StripPadded("", key, b);
    assert "" + key + b == key + b;
  }

  lemma {:induction false} NotFound(s: string, c: char)
    requires c !in s
    ensures Find(s, c) == |s|
  {
  }

  datatype FileLine = FileLine(item: Item, a: string, b: string, c: string, d: string)

  function FileOf(file: seq<FileLine>): seq<string> {
    if file == [] then []
    else FileOf(file[..|file| - 1]) + [var l := file[|file| - 1]; Written(l.item, l.a, l.b, l.c, l.d)]
  }

  ghost predicate FileWritable(file: seq<FileLine>) {
    forall l <- file :: Writable(l.item) && Blanks(l.a) && Blanks(l.b) && Blanks(l.c) && Blanks(l.d)
  }

  /** The section that a place of the file stands in: the last header's, and before any the global one. */
  function SectionOf(file: seq<FileLine>): string {
    if file == [] then "global"
    else if file[|file| - 1].item.Head? then file[|file| - 1].item.name
    else SectionOf(file[..|file| - 1])
  }

  /** What the file says about the wanted options, in its order. */
  function Said(file: seq<FileLine>, stanza: string): seq<Entry> {
    if file == [] then []
    else
      var before, item := file[..|file| - 1], file[|file| - 1].item;
      Said(before, stanza)
      + if item.Setting? && SectionOf(before) in {"global", stanza} && Wanted(item.key)
        then [Entry(SectionOf(before), item.key, item.value)] else []
  }

  /** Any file of blank lines, comments, headers, settings and junk is read for exactly what it says. */
  lemma {:induction false} FileIsRead(file: seq<FileLine>, stanza: string)
    requires FileWritable(file)
    ensures SectionAfter(FileOf(file)) == SectionOf(file) && Entries(FileOf(file), stanza) == Said(file, stanza)
    decreases |file|
  {
    hide Wanted, Strip, NextSection, EntryOf, Written, Writable;
    if file != [] {
      var n := |file| - 1;
      var l := file[n];
      FileIsRead(file[..n], stanza);
      assert l in file;
      LineIsRead(l.item, l.a, l.b, l.c, l.d, SectionOf(file[..n]), stanza);
      assert FileOf(file)[..|FileOf(file)| - 1] == FileOf(file[..n]);
    }
  }

  type Options = map<string, string>

  /** `options` holds exactly what the deciding settings say. */
  ghost predicate Reflects(options: Options, entries: seq<Entry>, stanza: string) {
    && (forall key <- options :: exists i :: 0 <= i < |entries| && Decides(entries, stanza, i) && entries[i].key == key)
    && (forall i :: 0 <= i < |entries| ==> entries[i].key in options)
    && (forall i :: 0 <= i < |entries| && Decides(entries, stanza, i) ==> options[entries[i].key] == entries[i].value)
  }

  predicate Takes(options: Options, entry: Entry, stanza: string) {
    entry.section == stanza || entry.key !in options
  }

  lemma {:induction false} DecidesAppend(entries: seq<Entry>, e: Entry, stanza: string, i: nat)
    requires i < |entries|
    ensures Decides(entries + [e], stanza, i) <==> Decides(entries, stanza, i) && !(e.section == stanza && e.key == entries[i].key)
  {
    var all := entries + [e];
    assert all[|entries|] == e && forall j :: 0 <= j < |entries| ==> all[j] == entries[j];
  }

  lemma {:induction false} LastDecides(entries: seq<Entry>, e: Entry, stanza: string)
    ensures Decides(entries + [e], stanza, |entries|) <==>
              e.section == stanza || forall j :: 0 <= j < |entries| ==> entries[j].key != e.key
  {
    var all := entries + [e];
    assert all[|entries|] == e && forall j :: 0 <= j < |entries| ==> all[j] == entries[j];
  }

  lemma {:induction false} OneMoreEntry(options: Options, entries: seq<Entry>, e: Entry, stanza: string)
    requires Reflects(options, entries, stanza)
    ensures Reflects(if Takes(options, e, stanza) then options[e.key := e.value] else options, entries + [e], stanza)
  {
    hide Decides;
    var all, after := entries + [e], if Takes(options, e, stanza) then options[e.key := e.value] else options;
    assert all[|entries|] == e && forall j :: 0 <= j < |entries| ==> all[j] == entries[j];
    LastDecides(entries, e, stanza);
    forall i | 0 <= i < |all| && Decides(all, stanza, i) ensures after[all[i].key] == all[i].value {
      if i < |entries| {
        DecidesAppend(entries, e, stanza, i);
      }
    }
    forall key | key in after ensures exists i :: 0 <= i < |all| && Decides(all, stanza, i) && all[i].key == key {
      if key == e.key && Takes(options, e, stanza) {
        if e.section != stanza {
          KeyIsThere(options, entries, stanza, e);
        }
        assert Decides(all, stanza, |entries|);
      } else {
        var i :| 0 <= i < |entries| && Decides(entries, stanza, i) && entries[i].key == key;
        DecidesAppend(entries, e, stanza, i);
        assert all[i].key == key;
      }
    }
  }

  lemma {:induction false} KeyIsThere(options: Options, entries: seq<Entry>, stanza: string, e: Entry)
    requires Reflects(options, entries, stanza) && e.key !in options
    ensures forall j :: 0 <= j < |entries| ==> entries[j].key != e.key
  {
  }

  /** `_read_stanza_options` over the lines of the file: each wanted option is the stanza's last value, or the first
      global one when the stanza never sets it, whatever the order of the sections. */
  method ReadStanzaOptions(lines: seq<string>, stanza: string) returns (options: Options)
    ensures Reflects(options, Entries(lines, stanza), stanza)
    ensures forall key <- options :: Wanted(key)
  {
    hide Strip, Reflects, Partition, Wanted;
    options := map[];
    var section := GLOBAL;
    NothingYet(stanza);
    for k := 0 to |lines|
      invariant section == SectionAfter(lines[..k])
      invariant Reflects(options, Entries(lines[..k], stanza), stanza)
      invariant forall key <- options :: Wanted(key)
    {
      assert lines[..k + 1][..k] == lines[..k];
      var line := Strip(lines[k]);
      ghost var entries := Entries(lines[..k], stanza);
      assert Entries(lines[..k + 1], stanza) == entries + EntryOf(section, line, stanza);
      assert entries + [] == entries;
      if IsBlankOrComment(line) {
        continue;
      }
      if IsHeader(line) {
        section := Inside(line);
        continue;
      }
      if (section != GLOBAL && section != stanza) || '=' !in line {
        continue;
      }
      var (left, right) := Partition(line, '=');
      var key := Strip(left);
      if !Wanted(key) {
        continue;
      }
      OneMoreEntry(options, entries, Entry(section, key, Strip(right)), stanza);
      if section == stanza || key !in options {
        options := options[key := Strip(right)];
      }
    }
    assert lines[..|lines|] == lines;
  }

  lemma {:induction false} NothingYet(stanza: string)
    ensures Reflects(map[], [], stanza)
  {
  }

  /** No two settings decide the same key, so what an option says is one setting's value. */
  lemma {:induction false} DecisionIsUnique(entries: seq<Entry>, stanza: string, i: nat, j: nat)
    requires Decides(entries, stanza, i) && Decides(entries, stanza, j) && entries[i].key == entries[j].key
    ensures i == j
  {
  }

  // ------------------------------------------------------------------- repositories

  datatype RepositoryOptions = RepositoryOptions(index: int, kind: string, path: Option<string>, retentionFull: Option<int>,
                                                 retentionArchive: Option<int>, retentionFullType: string,
                                                 coLocated: Option<bool>)

  /** `_retention_type` */
  function RetentionType(value: Option<string>): string {
    if value.None? then COUNT
    else
      var normalised := Lower(Strip(value.value));
      if normalised == COUNT || normalised == TIME then normalised else UNKNOWN
  }

  function KnownType(kind: string): string {
    if kind in LOCAL_TYPES || kind in REMOTE_TYPES then kind else UNKNOWN
  }

  function Digit(index: int): char
    requires 1 <= index <= 4
  {
    if index == 1 then '1' else if index == 2 then '2' else if index == 3 then '3' else '4'
  }

  function Key(index: int, suffix: string): string
    requires 1 <= index <= 4
  {
    "repo" + [Digit(index)] + "-" + suffix
  }

  function Get(options: Options, key: string): Option<string> {
    if key in options then Some(options[key]) else None
  }

  /** Some option names repository `index`. */
  predicate Configured(options: Options, index: int)
    requires 1 <= index <= 4
  {
    exists key <- options :: |key| > 4 && key[..4] == "repo" && key[4] == Digit(index)
  }

  /** One repository; `parse` is `int()`, `None` where it raises. */
  function RepositoryOf(options: Options, index: int, parse: string -> Option<int>): RepositoryOptions
    requires 1 <= index <= 4
  {
    var given := Get(options, Key(index, "type"));
    var kind := Lower(Strip(if given.None? || given.value == "" then "posix" else given.value));
    var path := Get(options, Key(index, "path"));
    RepositoryOptions(
      index, KnownType(kind),
      if path.Some? then path else if kind in LOCAL_TYPES then Some(DEFAULT_PATH) else None,
      ParsedInt(Get(options, Key(index, "retention-full")), parse),
      ParsedInt(Get(options, Key(index, "retention-archive")), parse),
      RetentionType(Get(options, Key(index, "retention-full-type"))),
      None)
  }

  function ParsedInt(value: Option<string>, parse: string -> Option<int>): Option<int> {
    if value.None? then None else parse(value.value)
  }

  /** One repository, option by option: its type in lower case if it is one of six, and `posix` if none is named; a path of its
      own, or the default of the two local types; what its retentions parse to; and whether they count backups, the
      default, or days. */
  lemma {:induction false} RepositoryIs(options: Options, index: int, parse: string -> Option<int>)
    requires 1 <= index <= 4
    ensures var r, name := RepositoryOf(options, index, parse), "repo" + Decimal(index) + "-";
      var kind, path := name + "type", name + "path";
      var full, archive, fullType := name + "retention-full", name + "retention-archive", name + "retention-full-type";
      && r.index == index && r.coLocated == None
      && (kind !in options || options[kind] == "" ==> r.kind == "posix")
      && (kind in options && options[kind] != "" ==>
            var given := Lower(Strip(options[kind]));
            r.kind == if given in {"posix", "cifs", "s3", "gcs", "azure", "sftp"} then given else "unknown")
      && r.path == (if path in options then Some(options[path])
                    else if r.kind in {"posix", "cifs"} then Some("/var/lib/pgbackrest") else None)
      && r.retentionFull == (if full in options then parse(options[full]) else None)
      && r.retentionArchive == (if archive in options then parse(options[archive]) else None)
      && (fullType !in options ==> r.retentionFullType == "count")
      && (fullType in options ==>
            var given := Lower(Strip(options[fullType]));
            r.retentionFullType == if given in {"count", "time"} then given else "unknown")
  {
    hide Lower, Strip, Key, KnownType, RetentionType;
    OneDigit(index, "type");
    OneDigit(index, "path");
    OneDigit(index, "retention-full");
    OneDigit(index, "retention-archive");
    OneDigit(index, "retention-full-type");
    PosixIsLower();
    KnownTypeIs(Lower(Strip("posix")));
    var given := Get(options, Key(index, "type"));
    if given.Some? {
      KnownTypeIs(Lower(Strip(given.value)));
    }
    RetentionTypeIs(Get(options, Key(index, "retention-full-type")));
  }

  lemma {:induction false} KnownTypeIs(kind: string)
    ensures KnownType(kind) == if kind in {"posix", "cifs", "s3", "gcs", "azure", "sftp"} then kind else "unknown"
    ensures kind in LOCAL_TYPES <==> KnownType(kind) in {"posix", "cifs"}
  {
    assert |"unknown"| == 7 && |"posix"| == 5 && |"cifs"| == 4;
  }

  lemma {:induction false} RetentionTypeIs(value: Option<string>)
    ensures value == None ==> RetentionType(value) == "count"
    ensures value != None ==>
              RetentionType(value) == if Lower(Strip(value.value)) in {"count", "time"} then Lower(Strip(value.value)) else "unknown"
  {
    hide Lower, Strip;
  }

  lemma {:induction false} OneDigit(index: int, suffix: string)
    requires 1 <= index <= 4
    ensures [Digit(index)] == Decimal(index) && Key(index, suffix) == "repo" + Decimal(index) + "-" + suffix
  {
  }

  lemma {:induction false} PosixIsLower()
    ensures Lower(Strip("posix")) == "posix"
  {
    var p := "posix";
    assert !IsSpace(p[0]) && !IsSpace(p[4]);
    StripPadded("", p, "");
    assert "" + p + "" == p;
    assert Lower(p) == p by {
      assert forall i :: 0 <= i < 5 ==> LowerChar(p[i]) == p[i];
    }
  }

  /** A repository is configured exactly if one of its five options is there. */
  lemma {:induction false} ConfiguredIs(options: Options, index: int)
    requires 1 <= index <= 4 && forall key <- options :: Wanted(key)
    ensures Configured(options, index) <==>
      exists suffix <- {"type", "path", "retention-full", "retention-archive", "retention-full-type"} ::
        "repo" + Decimal(index) + "-" + suffix in options
  {
    OneDigit(index, "");
    if key :| key in options && |key| > 4 && key[..4] == "repo" && key[4] == Digit(index) {
      assert "pg1-path"[0] == 'p' && key[0] == key[..4][0] == 'r';
      assert key == "repo" + [key[4]] + "-" + key[6..];
    }
    forall suffix | "repo" + Decimal(index) + "-" + suffix in options ensures Configured(options, index) {
      var key := "repo" + Decimal(index) + "-" + suffix;
      assert key[..4] == "repo" && key[4] == Digit(index);
    }
  }

  predicate Ascending(repositories: seq<RepositoryOptions>) {
    forall i, j :: 0 <= i < j < |repositories| ==> repositories[i].index < repositories[j].index
  }

  predicate IndicesInRange(repositories: seq<RepositoryOptions>) {
    forall r <- repositories :: 1 <= r.index <= 4
  }

  predicate TypesKnown(repositories: seq<RepositoryOptions>) {
    forall r <- repositories ::
      && (r.kind in LOCAL_TYPES || r.kind in REMOTE_TYPES || r.kind == UNKNOWN)
      && (r.retentionFullType == COUNT || r.retentionFullType == TIME || r.retentionFullType == UNKNOWN)
  }

  predicate Lists(repositories: seq<RepositoryOptions>, index: int) {
    exists r <- repositories :: r.index == index
  }

  /** `repositories_from_options`: strictly ascending, exactly the configured indices, each as its own options say; and
      the first repository alone when none is configured. */
  method RepositoriesFromOptions(options: Options, parse: string -> Option<int>) returns (repositories: seq<RepositoryOptions>)
    requires forall key <- options :: Wanted(key)
    ensures 1 <= |repositories| <= 4
    ensures Ascending(repositories) && IndicesInRange(repositories) && TypesKnown(repositories)
    ensures forall r <- repositories :: r == RepositoryOf(options, r.index, parse)
    ensures (exists i :: 1 <= i <= 4 && Configured(options, i)) ==>
              forall i :: 1 <= i <= 4 ==> (Configured(options, i) <==> Lists(repositories, i))
    ensures (forall i :: 1 <= i <= 4 ==> !Configured(options, i)) ==> |repositories| == 1 && repositories[0].index == 1
  {
    hide Configured, RepositoryOf, TypesKnown, Wanted;
    var indices := ConfiguredIndices(options);
    if indices == [] {
      indices := [1];
    }
    repositories := [];
    for k := 0 to |indices|
      invariant |repositories| == k
      invariant forall j :: 0 <= j < k ==> repositories[j].index == indices[j]
                                           && repositories[j] == RepositoryOf(options, indices[j], parse)
    {
      IndexIs(options, indices[k], parse);
      repositories := repositories + [RepositoryOf(options, indices[k], parse)];
    }
    TypesAreKnown(options, repositories, parse);
    forall i | 1 <= i <= 4 ensures i in indices <==> Lists(repositories, i) {
      if i in indices {
        var k :| 0 <= k < |indices| && indices[k] == i;
        assert repositories[k].index == i;
      }
    }
    if forall i :: 1 <= i <= 4 ==> !Configured(options, i) {
      assert |indices| == 1;
    }
  }

  /** The sorted set of the digits the options name. */
  method ConfiguredIndices(options: Options) returns (indices: seq<int>)
    ensures |indices| <= 4
    ensures forall j :: 0 <= j < |indices| ==> 1 <= indices[j] <= 4
    ensures forall j, k :: 0 <= j < k < |indices| ==> indices[j] < indices[k]
    ensures forall n :: 1 <= n <= 4 ==> (Configured(options, n) <==> n in indices)
    ensures (forall n :: 1 <= n <= 4 ==> !Configured(options, n)) ==> indices == []
  {
    hide Configured;
    indices := [];
    for i := 1 to 5
      invariant |indices| < i
      invariant forall j :: 0 <= j < |indices| ==> 1 <= indices[j] < i
      invariant forall j, k :: 0 <= j < k < |indices| ==> indices[j] < indices[k]
      invariant forall n :: 1 <= n < i ==> (Configured(options, n) <==> n in indices)
    {
      if Configured(options, i) {
        indices := indices + [i];
      }
    }
    if indices != [] {
      assert indices[0] in indices;
      assert Configured(options, indices[0]);
    }
  }

  lemma {:induction false} IndexIs(options: Options, index: int, parse: string -> Option<int>)
    requires 1 <= index <= 4
    ensures RepositoryOf(options, index, parse).index == index
  {
  }

  lemma {:induction false} TypesAreKnown(options: Options, repositories: seq<RepositoryOptions>, parse: string -> Option<int>)
    requires IndicesInRange(repositories)
    requires forall r <- repositories :: r == RepositoryOf(options, r.index, parse)
    ensures TypesKnown(repositories)
  {
    hide Lower, Strip, Key, Get, ParsedInt;
  }
}
