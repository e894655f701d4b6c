/** A node's repository report (`backup.py`): what the node sends, and what the control plane reads back from JSON it
    does not trust. */
module BackupReport {
  import opened Results
  import opened PyText
  import opened BackupConfig

  datatype Json = Null | Boolean(b: bool) | Integer(n: int) | Decimal(text: string) | Text(s: string)
                | List(items: seq<Json>) | Object(fields: map<string, Json>)

  const MAX_REPOSITORIES := 4
  const PATH_LIMIT := 200

  // ------------------------------------------------------------------- text

  /** `text.split()` when `word` has already been read. */
  function WordsFrom(word: string, s: string): seq<string>
    decreases |s|
  {
    if s == "" then if word == "" then [] else [word]
    else if IsSpace(s[0]) then (if word == "" then [] else [word]) + WordsFrom("", s[1..])
    else WordsFrom(word + [s[0]], s[1..])
  }

  function Collapse(s: string): string {
    Join(WordsFrom("", s), " ")
  }

  /** `_tail` */
  function Tail(s: string, limit: nat): string {
    var cleaned := Collapse(s);
    if |cleaned| > limit then cleaned[|cleaned| - limit..] else cleaned
  }

  predicate NoSpace(s: string) {
    forall c <- s :: !IsSpace(c)
  }

  /** No white space but single blanks between other characters. */
  predicate Normal(s: string) {
    && (forall i :: 0 <= i < |s| && IsSpace(s[i]) ==> s[i] == ' ' && 0 < i < |s| - 1)
    && (forall i :: 0 <= i < |s| - 1 && IsSpace(s[i]) ==> !IsSpace(s[i + 1]))
  }

  lemma {:induction false} JoinOne(word: string, rest: seq<string>)
    requires rest != []
    ensures Join([word] + rest, " ") == word + " " + Join(rest, " ")
  {
    assert ([word] + rest)[1..] == rest;
  }

  /** Splitting a normal text and joining it again gives it back; stated for a text of which `word` has been read. */
  lemma {:induction false} NormalIsKept(word: string, s: string)
    requires NoSpace(word) && Normal(word + s)
    ensures Join(WordsFrom(word, s), " ") == word + s
    ensures word + s != "" ==> WordsFrom(word, s) != []
    decreases |s|
  {
    hide IsSpace, NoSpace, Normal, Join, WordsFrom;
    if s == "" {
      assert word + s == word;
      JoinShort(word);
      WordsStep(word, s);
    } else if IsSpace(s[0]) {
      BlankAfterWord(word, s);
      var tail := s[1..];
      assert "" + tail == tail;
      NormalIsKept("", tail);
      WordsStep(word, s);
      JoinOne(word, WordsFrom("", tail));
      assert word + s == word + " " + tail by { assert s == " " + tail; }
    } else {
      assert word + [s[0]] + s[1..] == word + s;
      LongerWord(word, s[0]);
      NormalIsKept(word + [s[0]], s[1..]);
      WordsStep(word, s);
    }
  }

  lemma {:induction false} WordsStep(word: string, s: string)
    ensures s == "" ==> WordsFrom(word, s) == if word == "" then [] else [word]
    ensures s != "" && IsSpace(s[0]) && word != "" ==> WordsFrom(word, s) == [word] + WordsFrom("", s[1..])
    ensures s != "" && !IsSpace(s[0]) ==> WordsFrom(word, s) == WordsFrom(word + [s[0]], s[1..])
  {
    hide IsSpace;
  }

  lemma {:induction false} LongerWord(word: string, c: char)
    requires NoSpace(word) && !IsSpace(c)
    ensures NoSpace(word + [c])
  {
    hide IsSpace;
  }

  lemma {:induction false} JoinShort(word: string)
    ensures Join([word], " ") == word && Join([], " ") == ""
  {
  }

  lemma {:induction false} BlankAfterWord(word: string, s: string)
    requires NoSpace(word) && Normal(word + s) && s != "" && IsSpace(s[0])
    ensures s[0] == ' ' && word != "" && |s| >= 2
    ensures Normal("" + s[1..]) && NoSpace("")
  {
    hide IsSpace;
    var whole := word + s;
    assert whole[|word|] == s[0];
    assert "" + s[1..] == whole[|word| + 1..];
    NormalTail(whole, |word| + 1);
  }

  lemma {:induction false} NormalTail(s: string, k: nat)
    requires Normal(s) && 0 < k < |s| && IsSpace(s[k - 1])
    ensures Normal(s[k..])
  {
    hide IsSpace;
    var t := s[k..];
    assert forall i :: 0 <= i < |t| ==> t[i] == s[i + k];
    assert !IsSpace(s[k - 1 + 1]);
  }

  lemma {:induction false} CollapseShrinks(word: string, s: string)
    ensures |Join(WordsFrom(word, s), " ")| <= |word| + |s|
    decreases |s|
  {
    hide IsSpace;
    if s == "" {
    } else if IsSpace(s[0]) {
      CollapseShrinks("", s[1..]);
      if word != "" && WordsFrom("", s[1..]) != [] {
        JoinOne(word, WordsFrom("", s[1..]));
      } else {
        assert [word] + [] == [word];
        assert [] + WordsFrom("", s[1..]) == WordsFrom("", s[1..]);
      }
    } else {
      CollapseShrinks(word + [s[0]], s[1..]);
    }
  }

  predicate AllWords(words: seq<string>) {
    forall w <- words :: w != "" && NoSpace(w)
  }

  lemma {:induction false} WordsAreWords(word: string, s: string)
    requires NoSpace(word)
    ensures AllWords(WordsFrom(word, s))
    decreases |s|
  {
    if s == "" {
    } else if IsSpace(s[0]) {
      WordsAreWords("", s[1..]);
    } else {
      WordsAreWords(word + [s[0]], s[1..]);
    }
  }

  lemma {:induction false} JoinIsNormal(words: seq<string>)
    requires AllWords(words)
    ensures Normal(Join(words, " "))
    ensures words != [] ==> Join(words, " ") != ""
    decreases |words|
  {
    if |words| <= 1 {
      if |words| == 1 {
        assert words[0] in words;
      }
    } else {
      var rest := words[1..];
      assert words[0] in words && forall w <- rest :: w in words;
      JoinIsNormal(rest);
      GluedIsNormal(words[0], Join(rest, " "));
    }
  }

  lemma {:induction false} GluedIsNormal(word: string, s: string)
    requires word != "" && NoSpace(word) && s != "" && Normal(s)
    ensures Normal(word + " " + s)
  {
    var whole := word + " " + s;
    assert forall i :: 0 <= i < |word| ==> whole[i] == word[i] && !IsSpace(whole[i]);
    assert whole[|word|] == ' ';
    assert forall i :: 0 <= i < |s| ==> whole[|word| + 1 + i] == s[i];
    assert !IsSpace(s[0]);
    forall i | 0 <= i < |whole| && IsSpace(whole[i]) ensures whole[i] == ' ' && 0 < i < |whole| - 1 {
      if i > |word| {
        assert whole[i] == s[i - |word| - 1];
      }
    }
    forall i | 0 <= i < |whole| - 1 && IsSpace(whole[i]) ensures !IsSpace(whole[i + 1]) {
      if i > |word| {
        assert whole[i] == s[i - |word| - 1] && whole[i + 1] == s[i - |word|];
      }
    }
  }

  /** Reading a text back changes nothing exactly when it is short and its only white space is single blanks between other
      characters. */
  lemma {:induction false} TailKeepsExactly(s: string, limit: nat)
    ensures |Tail(s, limit)| <= limit
    ensures Tail(s, limit) == s <==> Normal(s) && |s| <= limit
    ensures Normal(s) <==>
      forall i :: 0 <= i < |s| && IsSpace(s[i]) ==> s[i] == ' ' && 0 < i < |s| - 1 && !IsSpace(s[i + 1])
  {
    assert "" + s == s;
    if Normal(s) {
      NormalIsKept("", s);
    } else {
      WordsAreWords("", s);
      JoinIsNormal(WordsFrom("", s));
      CollapseShrinks("", s);
    }
  }

  lemma {:induction false} WordsAppend(word: string, a: string, b: string)
    requires b != "" && IsSpace(b[0])
    ensures WordsFrom(word, a + b) == WordsFrom(word, a) + WordsFrom("", b)
    decreases |a|
  {
    hide IsSpace;
    if a == "" {
      assert a + b == b;
      assert word == "" ==> [] + WordsFrom("", b) == WordsFrom("", b);
    } else {
      assert (a + b)[0] == a[0] && (a + b)[1..] == a[1..] + b;
      if IsSpace(a[0]) {
        WordsAppend("", a[1..], b);
        var first := if word == "" then [] else [word];
        assert first + (WordsFrom("", a[1..]) + WordsFrom("", b)) == first + WordsFrom("", a[1..]) + WordsFrom("", b);
      } else {
        WordsAppend(word + [a[0]], a[1..], b);
      }
    }
  }

  lemma {:induction false} WordsAfterBlanks(blanks: string, s: string)
    requires forall c <- blanks :: IsSpace(c)
    ensures WordsFrom("", blanks + s) == WordsFrom("", s)
    decreases |blanks|
  {
    hide IsSpace;
    if blanks == "" {
      assert blanks + s == s;
    } else {
      assert blanks[0] in blanks && (blanks + s)[1..] == blanks[1..] + s;
      assert forall c <- blanks[1..] :: c in blanks;
      WordsAfterBlanks(blanks[1..], s);
      assert [] + WordsFrom("", s) == WordsFrom("", s);
    }
  }

  lemma {:induction false} JoinAppend(a: seq<string>, b: seq<string>)
    requires a != [] && b != []
    ensures Join(a + b, " ") == Join(a, " ") + " " + Join(b, " ")
    decreases |a|
  {
    assert (a + b)[1..] == a[1..] + b;
    if |a| > 1 {
      JoinAppend(a[1..], b);
    } else {
      assert a[1..] + b == b;
    }
  }

  /** What collapsing makes of any text: a text without white space stays; one between white space loses it on both sides;
      and white space between two texts becomes one blank, unless there is nothing on one of its sides. */
  lemma {:induction false} CollapseIs(a: string, blanks: string, b: string)
    requires blanks != "" && forall c <- blanks :: IsSpace(c)
    ensures NoSpace(a) ==> Collapse(a) == a
    ensures Collapse(a + blanks + b) ==
              if Collapse(a) == "" then Collapse(b) else if Collapse(b) == "" then Collapse(a) else Collapse(a) + " " + Collapse(b)
  {
    hide IsSpace, WordsFrom;
    if NoSpace(a) {
      WordIsNormal(a);
    }
    var rest := blanks + b;
    assert a + blanks + b == a + rest && rest[0] == blanks[0] && blanks[0] in blanks;
    WordsAppend("", a, rest);
    WordsAfterBlanks(blanks, b);
    WordsAreWords("", a);
    WordsAreWords("", b);
    JoinIsNormal(WordsFrom("", a));
    JoinIsNormal(WordsFrom("", b));
    var left, right := WordsFrom("", a), WordsFrom("", b);
    if left != [] && right != [] {
      JoinAppend(left, right);
    } else {
      assert left + [] == left && [] + right == right;
    }
  }

  lemma {:induction false} WordIsNormal(a: string)
    requires NoSpace(a)
    ensures Collapse(a) == a
  {
    hide IsSpace, WordsFrom, Join;
    assert "" + a == a;
    assert forall i :: 0 <= i < |a| ==> a[i] in a;
    NormalIsKept("", a);
  }

  /** And of a text that is too long its end is kept. */
  lemma {:induction false} TailIsTheEnd(s: string, limit: nat)
    ensures |Tail(s, limit)| == (if |Collapse(s)| < limit then |Collapse(s)| else limit)
    ensures exists cut: string :: Collapse(s) == cut + Tail(s, limit)
  {
    var all := Collapse(s);
    assert all == all[..|all| - |Tail(s, limit)|] + Tail(s, limit);
  }

  // ------------------------------------------------------------------- reading

  function Field(fields: map<string, Json>, name: string): Json {
    if name in fields then fields[name] else Null
  }

  /** `_text(value, 200) or None` */
  function PathOf(value: Json): Option<string> {
    var path := Tail(if value.Text? then value.s else "", PATH_LIMIT);
    if path == "" then None else Some(path)
  }

  /** `_count` */
  function CountOf(value: Json): Option<int> {
    if value.Integer? && value.n >= 0 then Some(value.n) else None
  }

  /** The index an item is read under, if it is read at all. */
  function IndexOf(item: Json): Option<int> {
    if !item.Object? then None
    else
      var index := Field(item.fields, "index");
      if index.Integer? && 1 <= index.n <= MAX_REPOSITORIES then Some(index.n) else None
  }

  function ReadItem(item: Json, index: int): RepositoryOptions
    requires item.Object?
  {
    var kind, retention, answer :=
      Field(item.fields, "type"), Field(item.fields, "retention_full_type"), Field(item.fields, "co_located");
    RepositoryOptions(
      index, KnownType(if kind.Text? then kind.s else ""), PathOf(Field(item.fields, "path")),
      CountOf(Field(item.fields, "retention_full")), CountOf(Field(item.fields, "retention_archive")),
      RetentionType(if retention.Text? then Some(retention.s) else None),
      if answer.Boolean? then Some(answer.b) else None)
  }

  /** How one item is read, field by field: a type that is not one of six is unknown; a path is text of at most 200 characters, or
      missing; retentions are whole numbers that are not negative, or missing; the kind of retention is `count` unless it is
      given; and the answer is a truth value or missing. */
  lemma {:induction false} ItemIsReadAs(fields: map<string, Json>, index: int)
    ensures var r := ReadItem(Object(fields), index);
      && r.index == index
      && r.kind == (if "type" in fields && fields["type"].Text? && fields["type"].s in {"posix", "cifs", "s3", "gcs", "azure", "sftp"}
                    then fields["type"].s else "unknown")
      && r.path == (if "path" in fields && fields["path"].Text? && Tail(fields["path"].s, 200) != ""
                    then Some(Tail(fields["path"].s, 200)) else None)
      && r.retentionFull == (if "retention_full" in fields && fields["retention_full"].Integer? && fields["retention_full"].n >= 0
                             then Some(fields["retention_full"].n) else None)
      && r.retentionArchive == (if "retention_archive" in fields && fields["retention_archive"].Integer?
                                   && fields["retention_archive"].n >= 0
                                then Some(fields["retention_archive"].n) else None)
      && ("retention_full_type" !in fields || !fields["retention_full_type"].Text? ==> r.retentionFullType == "count")
      && ("retention_full_type" in fields && fields["retention_full_type"].Text? ==>
            var given := Lower(Strip(fields["retention_full_type"].s));
            r.retentionFullType == if given in {"count", "time"} then given else "unknown")
      && r.coLocated == (if "co_located" in fields && fields["co_located"].Boolean? then Some(fields["co_located"].b) else None)
    ensures IndexOf(Object(fields)) ==
              if "index" in fields && fields["index"].Integer? && 1 <= fields["index"].n <= 4 then Some(fields["index"].n) else None
  {
    hide Lower, Strip, Tail, KnownType, RetentionType;
    var kind := Field(fields, "type");
    KnownTypeIs(if kind.Text? then kind.s else "");
    assert "" !in {"posix", "cifs", "s3", "gcs", "azure", "sftp"};
    var retention := Field(fields, "retention_full_type");
    RetentionTypeIs(if retention.Text? then Some(retention.s) else None);
    TailOfNothing();
  }

  lemma {:induction false} TailOfNothing()
    ensures Tail("", 200) == ""
  {
  }

  /** The repository of one index: the first item that has it. */
  function Pick(items: seq<Json>, index: int): seq<RepositoryOptions> {
    if items == [] then []
    else if IndexOf(items[0]) == Some(index) then [ReadItem(items[0], index)]
    else Pick(items[1..], index)
  }

  function PickUpTo(items: seq<Json>, n: nat): seq<RepositoryOptions> {
    if n == 0 then [] else PickUpTo(items, n - 1) + Pick(items, n)
  }

  function FirstFour(items: seq<Json>): seq<Json> {
    if |items| <= MAX_REPOSITORIES then items else items[..MAX_REPOSITORIES]
  }

  /** What `_repositories_from_report` reads. */
  function ReadBack(value: Json): seq<RepositoryOptions> {
    if !value.List? then [] else PickUpTo(FirstFour(value.items), MAX_REPOSITORIES)
  }

  lemma {:induction false} PickAppend(items: seq<Json>, item: Json, index: int)
    ensures Pick(items + [item], index) ==
              if Pick(items, index) != [] then Pick(items, index)
              else if IndexOf(item) == Some(index) then [ReadItem(item, index)] else []
    decreases |items|
  {
    hide IndexOf, ReadItem;
    if items == [] {
      assert items + [item] == [item];
      PickOne(item, index);
    } else {
      assert (items + [item])[0] == items[0] && (items + [item])[1..] == items[1..] + [item];
      PickAppend(items[1..], item, index);
    }
  }

  lemma {:induction false} PickOne(item: Json, index: int)
    ensures Pick([item], index) == if IndexOf(item) == Some(index) then [ReadItem(item, index)] else []
  {
    hide ReadItem;
    assert [item][1..] == [];
  }

  /** `_repositories_from_report` */
  method RepositoriesFromReport(value: Json) returns (repositories: seq<RepositoryOptions>)
    ensures repositories == ReadBack(value)
  {
    hide IndexOf, ReadItem, Pick;
    if !value.List? {
      return [];
    }
    var items := FirstFour(value.items);
    var repos: map<int, RepositoryOptions> := map[];
    NothingPicked();
    for k := 0 to |items|
      invariant forall i :: Pick(items[..k], i) == if i in repos then [repos[i]] else []
    {
      assert items[..k + 1] == items[..k] + [items[k]];
      if IndexOf(items[k]).Some? {
        IndexedIsObject(items[k]);
      }
      forall i ensures Pick(items[..k + 1], i) == if Pick(items[..k], i) != [] then Pick(items[..k], i)
                                                  else if IndexOf(items[k]) == Some(i) then [ReadItem(items[k], i)] else [] {
        PickAppend(items[..k], items[k], i);
      }
      var index := IndexOf(items[k]);
      if index.Some? && index.value !in repos {
        repos := repos[index.value := ReadItem(items[k], index.value)];
      }
    }
    assert items[..|items|] == items;
    repositories := [];
    for n := 0 to MAX_REPOSITORIES
      invariant repositories == PickUpTo(items, n)
    {
      if n + 1 in repos {
        repositories := repositories + [repos[n + 1]];
      }
    }
  }

  lemma {:induction false} NothingPicked()
    ensures forall i :: Pick([], i) == []
  {
  }

  lemma {:induction false} IndexedIsObject(item: Json)
    requires IndexOf(item).Some?
    ensures item.Object? && 1 <= IndexOf(item).value <= 4
  {
  }

  // ------------------------------------------------------------------- any report

  predicate Sane(r: RepositoryOptions) {
    && 1 <= r.index <= 4
    && (r.kind in LOCAL_TYPES || r.kind in REMOTE_TYPES || r.kind == UNKNOWN)
    && (r.retentionFullType == COUNT || r.retentionFullType == TIME || r.retentionFullType == UNKNOWN)
    && (r.path.Some? ==> 0 < |r.path.value| <= PATH_LIMIT)
    && (r.retentionFull.Some? ==> r.retentionFull.value >= 0)
    && (r.retentionArchive.Some? ==> r.retentionArchive.value >= 0)
  }

  lemma {:induction false} ReadItemIsSane(item: Json, index: int)
    requires item.Object? && 1 <= index <= 4
    ensures Sane(ReadItem(item, index)) && ReadItem(item, index).index == index
  {
    hide Lower, Strip, Tail, Field;
    var path := Field(item.fields, "path");
    TailKeepsExactly(if path.Text? then path.s else "", PATH_LIMIT);
  }

  lemma {:induction false} PickIsSane(items: seq<Json>, index: int)
    requires 1 <= index <= 4
    ensures |Pick(items, index)| <= 1
    ensures forall r <- Pick(items, index) :: Sane(r) && r.index == index
    decreases |items|
  {
    hide ReadItem, Sane;
    if items != [] {
      if IndexOf(items[0]) == Some(index) {
        ReadItemIsSane(items[0], index);
      } else {
        PickIsSane(items[1..], index);
      }
    }
  }

  lemma {:induction false} PickUpToIsSane(items: seq<Json>, n: nat)
    requires n <= 4
    ensures |PickUpTo(items, n)| <= n && Ascending(PickUpTo(items, n))
    ensures forall r <- PickUpTo(items, n) :: Sane(r) && r.index <= n
  {
    hide Pick, Sane;
    if n > 0 {
      PickUpToIsSane(items, n - 1);
      PickIsSane(items, n);
    }
  }

  /** Whatever JSON a node sends, what is read is at most four repositories, strictly ascending within 1 to 4, of known
      types or `unknown`, with short paths and no negative retention. */
  lemma {:induction false} AnyReportIsSane(value: Json)
    ensures var repositories := ReadBack(value);
      && |repositories| <= 4
      && (forall i, j :: 0 <= i < j < |repositories| ==> repositories[i].index < repositories[j].index)
      && forall r <- repositories ::
           && 1 <= r.index <= 4
           && r.kind in {"posix", "cifs", "s3", "gcs", "azure", "sftp", "unknown"}
           && r.retentionFullType in {"count", "time", "unknown"}
           && (r.path != None ==> 0 < |r.path.value| <= 200)
           && (r.retentionFull != None ==> 0 <= r.retentionFull.value)
           && (r.retentionArchive != None ==> 0 <= r.retentionArchive.value)
  {
    hide PickUpTo, Sane;
    if value.List? {
      PickUpToIsSane(FirstFour(value.items), 4);
    }
    forall r | r in ReadBack(value) ensures SaneInWords(r) {
      SaneMeans(r);
    }
  }

  predicate SaneInWords(r: RepositoryOptions) {
    && 1 <= r.index <= 4
    && r.kind in {"posix", "cifs", "s3", "gcs", "azure", "sftp", "unknown"}
    && r.retentionFullType in {"count", "time", "unknown"}
    && (r.path != None ==> 0 < |r.path.value| <= 200)
    && (r.retentionFull != None ==> 0 <= r.retentionFull.value)
    && (r.retentionArchive != None ==> 0 <= r.retentionArchive.value)
  }

  lemma {:induction false} SaneMeans(r: RepositoryOptions)
    requires Sane(r)
    ensures SaneInWords(r)
  {
  }

  /** Only the first four items are looked at, and a report that is not a list says nothing. */
  lemma {:induction false} OnlyTheFirstFour(value: Json, items: seq<Json>, more: seq<Json>)
    ensures value.List? || ReadBack(value) == []
    ensures |items| == 4 ==> ReadBack(List(items + more)) == ReadBack(List(items))
  {
    hide PickUpTo;
    if |items| == 4 {
      assert (items + more)[..4] == items;
      assert FirstFour(items + more) == items by { if more == [] { assert items + more == items; } }
    }
  }

  /** An index is read exactly if one of the first four items has it. */
  lemma {:induction false} ReadIff(items: seq<Json>, i: int)
    requires 1 <= i <= 4
    ensures (exists r <- ReadBack(List(items)) :: r.index == i)
            <==> exists k :: 0 <= k < |items| && k < 4 && IndexOf(items[k]) == Some(i)
  {
    hide ReadItem, IndexOf, Pick, PickUpTo;
    var first := FirstFour(items);
    PickedIff(first, i);
    PickUpToHas(first, 4, i);
    assert ReadBack(List(items)) == PickUpTo(first, 4);
    assert forall k :: 0 <= k < |first| ==> first[k] == items[k];
    if k :| 0 <= k < |items| && k < 4 && IndexOf(items[k]) == Some(i) {
      assert IndexOf(first[k]) == Some(i);
    }
    if k :| 0 <= k < |first| && IndexOf(first[k]) == Some(i) {
      assert IndexOf(items[k]) == Some(i);
    }
  }

  lemma {:induction false} PickedIff(items: seq<Json>, i: int)
    ensures Pick(items, i) != [] <==> exists k :: 0 <= k < |items| && IndexOf(items[k]) == Some(i)
  {
    hide ReadItem, IndexOf;
    if items != [] {
      PickedIff(items[1..], i);
      if k :| 0 <= k < |items[1..]| && IndexOf(items[1..][k]) == Some(i) {
        assert items[k + 1] == items[1..][k];
      }
      if k :| 0 <= k < |items| && IndexOf(items[k]) == Some(i) {
        assert k > 0 ==> items[k] == items[1..][k - 1];
      }
    }
  }

  lemma {:induction false} PickUpToHas(items: seq<Json>, n: nat, i: int)
    requires n <= 4 && 1 <= i
    ensures (exists r <- PickUpTo(items, n) :: r.index == i) <==> i <= n && Pick(items, i) != []
  {
    hide Pick, Sane;
    if n > 0 {
      PickUpToHas(items, n - 1, i);
      PickIsSane(items, n);
      PickUpToIsSane(items, n - 1);
      if i == n && Pick(items, n) != [] {
        assert Pick(items, n)[0] in PickUpTo(items, n);
      }
    }
  }

  /** An index is read exactly when one of the first four items has it, and then from the first such item. */
  lemma {:induction false} FirstItemWins(items: seq<Json>, k: nat, index: int)
    requires k < |items| && IndexOf(items[k]) == Some(index)
    requires forall j :: 0 <= j < k ==> IndexOf(items[j]) != Some(index)
    ensures items[k].Object? && Pick(items, index) == [ReadItem(items[k], index)]
    decreases k
  {
    hide ReadItem;
    if k > 0 {
      FirstItemWins(items[1..], k - 1, index);
    }
  }

  // ------------------------------------------------------------------- there and back

  function Optional(n: Option<int>): Json {
    if n.None? then Null else Integer(n.value)
  }

  /** One entry of the report's `repositories`; `judge` is `repository_co_located` on the node. */
  function ItemOf(r: RepositoryOptions, judge: Option<string> -> Option<bool>): Json {
    var answer := AnswerFor(r, judge);
    Object(map[
      "index" := Integer(r.index), "type" := Text(r.kind), "path" := if r.path.None? then Null else Text(r.path.value),
      "retention_full" := Optional(r.retentionFull), "retention_archive" := Optional(r.retentionArchive),
      "retention_full_type" := Text(r.retentionFullType),
      "co_located" := if answer.None? then Null else Boolean(answer.value)])
  }

  function AnswerFor(r: RepositoryOptions, judge: Option<string> -> Option<bool>): Option<bool> {
    if r.kind in REMOTE_TYPES then Some(false) else if r.kind in LOCAL_TYPES then judge(r.path) else None
  }

  function ItemsOf(repositories: seq<RepositoryOptions>, judge: Option<string> -> Option<bool>): (items: seq<Json>)
    ensures |items| == |repositories|
    ensures forall i :: 0 <= i < |items| ==> items[i] == ItemOf(repositories[i], judge)
  {
    seq(|repositories|, i requires 0 <= i < |repositories| => ItemOf(repositories[i], judge))
  }

  /** A repository as it arrives at the control plane. */
  function Arrived(r: RepositoryOptions, judge: Option<string> -> Option<bool>): RepositoryOptions {
    r.(path := PathOf(if r.path.None? then Null else Text(r.path.value)),
       retentionFull := CountOf(Optional(r.retentionFull)),
       retentionArchive := CountOf(Optional(r.retentionArchive)),
       coLocated := AnswerFor(r, judge))
  }

  predicate Typed(r: RepositoryOptions) {
    && (r.kind in LOCAL_TYPES || r.kind in REMOTE_TYPES || r.kind == UNKNOWN)
    && (r.retentionFullType == COUNT || r.retentionFullType == TIME || r.retentionFullType == UNKNOWN)
  }

  lemma {:induction false} LowerCaseIsKept(s: string)
    requires s != "" && !IsSpace(s[0]) && !IsSpace(s[|s| - 1]) && forall c <- s :: LowerChar(c) == c
    ensures Lower(Strip(s)) == s
  {
    assert LStrip(s, IsSpace) == s;
    assert Strip(s) == s;
    assert forall i :: 0 <= i < |s| ==> s[i] in s;
    assert Lower(s) == s;
  }

  lemma {:induction false} RetentionTypeIsKept(kind: string)
    requires kind == COUNT || kind == TIME || kind == UNKNOWN
    ensures RetentionType(Some(kind)) == kind
  {
    hide IsSpace, Lower, Strip;
    LowerWords();
  }

  lemma {:induction false} LowerWords()
    ensures Lower(Strip(COUNT)) == COUNT && Lower(Strip(TIME)) == TIME && Lower(Strip(UNKNOWN)) == UNKNOWN
    ensures UNKNOWN != COUNT && UNKNOWN != TIME
  {
    LowerCaseIsKept(COUNT);
    LowerCaseIsKept(TIME);
    LowerCaseIsKept(UNKNOWN);
    assert |UNKNOWN| == 7 && |COUNT| == 5 && |TIME| == 4;
  }

  lemma {:induction false} KindIsKept(kind: string)
    requires kind in LOCAL_TYPES || kind in REMOTE_TYPES || kind == UNKNOWN
    ensures KnownType(kind) == kind
  {
  }

  /** What one item says is what the repository said, but for what cannot be carried. */
  lemma {:induction false} ItemIsRead(r: RepositoryOptions, judge: Option<string> -> Option<bool>)
    requires Typed(r) && 1 <= r.index <= 4
    ensures IndexOf(ItemOf(r, judge)) == Some(r.index)
    ensures ReadItem(ItemOf(r, judge), r.index) == Arrived(r, judge)
  {
    hide KnownType, RetentionType, Tail, AnswerFor, PathOf, CountOf, Optional;
    KindIsKept(r.kind);
    RetentionTypeIsKept(r.retentionFullType);
    FieldNamesDiffer();
  }

  lemma {:induction false} FieldNamesDiffer()
    ensures |"index"| == 5 && |"type"| == 4 && |"path"| == 4 && "type" != "path" && |"retention_full"| == 14
    ensures |"retention_archive"| == 17 && |"retention_full_type"| == 19 && |"co_located"| == 10
  {
    assert "type"[0] == 't' && "path"[0] == 'p';
  }

  lemma {:induction false} PickStep(repositories: seq<RepositoryOptions>, judge: Option<string> -> Option<bool>, index: int)
    requires repositories != [] && Typed(repositories[0]) && 1 <= repositories[0].index <= 4
    ensures Pick(ItemsOf(repositories, judge), index) ==
              if repositories[0].index == index then [Arrived(repositories[0], judge)]
              else Pick(ItemsOf(repositories[1..], judge), index)
  {
    hide ItemOf, Arrived, ReadItem, IndexOf, Typed;
    var items := ItemsOf(repositories, judge);
    assert items[1..] == ItemsOf(repositories[1..], judge);
    ItemIsRead(repositories[0], judge);
  }

  lemma {:induction false} PickMissing(repositories: seq<RepositoryOptions>, judge: Option<string> -> Option<bool>, index: int)
    requires forall r <- repositories :: Typed(r) && 1 <= r.index <= 4 && r.index != index
    ensures Pick(ItemsOf(repositories, judge), index) == []
    decreases |repositories|
  {
    hide Typed, Arrived, ItemsOf;
    if repositories == [] {
      NothingOfNone(judge);
    } else {
      assert repositories[0] in repositories && forall r <- repositories[1..] :: r in repositories;
      PickStep(repositories, judge, index);
      PickMissing(repositories[1..], judge, index);
    }
  }

  lemma {:induction false} NothingOfNone(judge: Option<string> -> Option<bool>)
    ensures ItemsOf([], judge) == []
  {
  }

  lemma {:induction false} PickAt(repositories: seq<RepositoryOptions>, judge: Option<string> -> Option<bool>, k: nat)
    requires forall r <- repositories :: Typed(r) && 1 <= r.index <= 4
    requires Ascending(repositories) && k < |repositories|
    ensures Pick(ItemsOf(repositories, judge), repositories[k].index) == [Arrived(repositories[k], judge)]
    decreases k
  {
    hide Typed, Arrived, ItemsOf, Pick, Ascending;
    assert repositories[0] in repositories;
    PickStep(repositories, judge, repositories[k].index);
    if k > 0 {
      AscendingRest(repositories, k);
      PickAt(repositories[1..], judge, k - 1);
    }
  }

  lemma {:induction false} AscendingRest(repositories: seq<RepositoryOptions>, k: nat)
    requires Ascending(repositories) && 0 < k < |repositories|
    ensures Ascending(repositories[1..]) && forall r <- repositories[1..] :: r in repositories
    ensures repositories[0].index != repositories[k].index && repositories[1..][k - 1] == repositories[k]
  {
    var rest := repositories[1..];
    assert forall i :: 0 <= i < |rest| ==> rest[i] == repositories[i + 1];
  }

  lemma {:induction false} PickUpToOfItems(repositories: seq<RepositoryOptions>, judge: Option<string> -> Option<bool>, n: nat, p: nat)
    requires forall r <- repositories :: Typed(r) && 1 <= r.index <= 4
    requires Ascending(repositories) && p <= |repositories|
    requires forall i :: 0 <= i < p ==> repositories[i].index <= n
    requires forall i :: p <= i < |repositories| ==> repositories[i].index > n
    ensures var read := PickUpTo(ItemsOf(repositories, judge), n);
      |read| == p && forall i :: 0 <= i < p ==> read[i] == Arrived(repositories[i], judge)
    decreases n
  {
    hide ItemOf, Arrived, Pick, Typed, ItemsOf;
    if p > 0 {
      assert repositories[0] in repositories;
      assert n >= 1;
    }
    if n == 0 {
    } else {
      if p > 0 && repositories[p - 1].index == n {
        PickAt(repositories, judge, p - 1);
        PickUpToOfItems(repositories, judge, n - 1, p - 1);
      } else {
        PickUpToOfItems(repositories, judge, n - 1, p);
        assert forall r <- repositories :: r.index != n;
        PickMissing(repositories, judge, n);
      }
    }
  }

  lemma {:induction false} AtMostFour(repositories: seq<RepositoryOptions>, low: int)
    requires forall r <- repositories :: low <= r.index <= 4
    requires Ascending(repositories) && low <= 5
    ensures |repositories| <= 5 - low
    decreases |repositories|
  {
    if repositories != [] {
      var rest := repositories[1..];
      assert repositories[0] in repositories;
      forall r | r in rest ensures repositories[0].index + 1 <= r.index <= 4 {
        var i :| 0 <= i < |rest| && rest[i] == r;
        assert repositories[i + 1] == r && r in repositories;
      }
      AtMostFour(rest, repositories[0].index + 1);
    }
  }

  /** Reporting and reading back gives the repositories again, in order and with their indices, types and kinds of
      retention, whatever else. */
  lemma {:induction false} ReportArrives(repositories: seq<RepositoryOptions>, judge: Option<string> -> Option<bool>)
    requires Ascending(repositories) && IndicesInRange(repositories) && TypesKnown(repositories)
    ensures var read := ReadBack(List(ItemsOf(repositories, judge)));
      |read| == |repositories| && forall i :: 0 <= i < |read| ==> read[i] == Arrived(repositories[i], judge)
  {
    hide ItemOf, Arrived, PickUpTo;
    AtMostFour(repositories, 1);
    PickUpToOfItems(repositories, judge, 4, |repositories|);
  }

  /** A repository arrives as it was, with the node's own answer about its place, exactly when its path is missing or
      non-empty, without white space but single inner blanks and at most 200 long, and its retentions are missing or not
      negative. */
  lemma {:induction false} ArrivesUnchangedExactly(r: RepositoryOptions, judge: Option<string> -> Option<bool>)
    ensures Arrived(r, judge) == r.(coLocated := AnswerFor(r, judge)) <==>
      && (r.path != None ==> r.path.value != "" && Normal(r.path.value) && |r.path.value| <= 200)
      && (r.retentionFull != None ==> 0 <= r.retentionFull.value)
      && (r.retentionArchive != None ==> 0 <= r.retentionArchive.value)
  {
    hide Normal, Tail, AnswerFor;
    if r.path.Some? {
      TailKeepsExactly(r.path.value, PATH_LIMIT);
    } else {
      TailKeepsExactly("", PATH_LIMIT);
      EmptyIsNormal();
    }
  }

  lemma {:induction false} EmptyIsNormal()
    ensures Normal("")
  {
  }

  /** What arrives, field by field; the node answers for the place of a local repository itself, a remote one is never on the
      database's own disk, and of an unknown one nothing is said. */
  lemma {:induction false} ArrivesAs(r: RepositoryOptions, judge: Option<string> -> Option<bool>)
    ensures var a := Arrived(r, judge);
      && a.index == r.index && a.kind == r.kind && a.retentionFullType == r.retentionFullType
      && a.path == (if r.path == None || Tail(r.path.value, 200) == "" then None else Some(Tail(r.path.value, 200)))
      && a.retentionFull == (if r.retentionFull != None && r.retentionFull.value < 0 then None else r.retentionFull)
      && a.retentionArchive == (if r.retentionArchive != None && r.retentionArchive.value < 0 then None else r.retentionArchive)
      && (r.kind in {"s3", "gcs", "azure", "sftp"} ==> a.coLocated == Some(false))
      && (r.kind in {"posix", "cifs"} ==> a.coLocated == judge(r.path))
      && (r.kind == "unknown" ==> a.coLocated == None)
  {
    hide Tail;
    TailOfNothing();
    assert |"unknown"| == 7 && |"posix"| == |"azure"| == 5 && |"cifs"| == |"sftp"| == 4 && |"gcs"| == 3 && |"s3"| == 2;
    assert "posix"[0] == 'p' && "azure"[0] == 'a' && "cifs"[0] == 'c' && "sftp"[0] == 's';
  }
}
