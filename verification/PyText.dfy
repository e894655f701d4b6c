/** The handful of Python string operations the control plane's text code is built from. */
module PyText {

  /** What `str.splitlines` breaks at. */
  predicate IsBreak(c: char) {
    || '\n' <= c <= '\r'  // line feed, vertical tab, form feed, carriage return
    || '\U{1C}' <= c <= '\U{1E}' || c == '\U{85}' || c == '\U{2028}' || c == '\U{2029}'
  }

  /** What `str.strip` and `str.split` treat as white space. */
  predicate IsSpace(c: char) {
    || IsBreak(c) || c == '\t' || c == '\U{1F}' || c == ' ' || c == '\U{A0}' || c == '\U{1680}'
    || '\U{2000}' <= c <= '\U{200A}' || c == '\U{202F}' || c == '\U{205F}' || c == '\U{3000}'
  }

  predicate StartsWith(s: string, prefix: string) {
    prefix <= s
  }

  predicate EndsWith(s: string, c: char) {
    s != "" && s[|s| - 1] == c
  }

  predicate NoBreak(s: string) {
    forall c <- s :: !IsBreak(c)
  }

  /** `s.replace(old, new)`: leftmost, non-overlapping. */
  function Replace(s: string, old_: string, new_: string): string
    requires old_ != ""
  {
    if s == "" then ""
    else if old_ <= s then new_ + Replace(s[|old_|..], old_, new_)
    else [s[0]] + Replace(s[1..], old_, new_)
  }

  function LStrip(s: string, drop: char -> bool): string {
    if s != "" && drop(s[0]) then LStrip(s[1..], drop) else s
  }

  function RStrip(s: string, drop: char -> bool): string {
    if s != "" && drop(s[|s| - 1]) then RStrip(s[..|s| - 1], drop) else s
  }

  function StripBy(s: string, drop: char -> bool): string {
    RStrip(LStrip(s, drop), drop)
  }

  /** `s.strip()` */
  function Strip(s: string): string {
    StripBy(s, IsSpace)
  }

  /** The index of the first `c`, or the length. */
  function Find(s: string, c: char): (n: nat)
    ensures n <= |s|
    ensures n < |s| ==> s[n] == c
    ensures c !in s[..n]
  {
    if s == "" || s[0] == c then 0 else 1 + Find(s[1..], c)
  }

  /** `s.partition(c)` without the middle part: before the first `c`, and after it. */
  function Partition(s: string, c: char): (string, string) {
    var n := Find(s, c);
    if n < |s| then (s[..n], s[n + 1..]) else (s, "")
  }

  /** `s.split(c)` */
  function SplitOn(s: string, c: char): (parts: seq<string>)
    ensures parts != []
  {
    var n := Find(s, c);
    if n < |s| then [s[..n]] + SplitOn(s[n + 1..], c) else [s]
  }

  /** The lines of `s` when `line` has already been read of the first one. */
  function SplitFrom(line: string, s: string): seq<string>
    decreases |s|
  {
    if s == "" then if line == "" then [] else [line]
    else if !IsBreak(s[0]) then SplitFrom(line + [s[0]], s[1..])
    else if s[0] == '\r' && |s| > 1 && s[1] == '\n' then [line] + SplitFrom("", s[2..])
    else [line] + SplitFrom("", s[1..])
  }

  /** `s.splitlines()` */
  function SplitLines(s: string): seq<string> {
    SplitFrom("", s)
  }

  /** `sep.join(parts)` */
  function Join(parts: seq<string>, sep: string): string {
    if parts == [] then ""
    else if |parts| == 1 then parts[0]
    else parts[0] + sep + Join(parts[1..], sep)
  }

  /** `s.lower()` of Latin-1 text. Of the characters beyond Latin-1 only the Kelvin sign lowers to one ASCII letter, `k`. */
  function Lower(s: string): (t: string)
    ensures |t| == |s|
    ensures forall i :: 0 <= i < |s| ==> t[i] == LowerChar(s[i])
  {
    seq(|s|, i requires 0 <= i < |s| => LowerChar(s[i]))
  }

  function LowerChar(c: char): char {
    if 'A' <= c <= 'Z' || ('\U{C0}' <= c <= '\U{DE}' && c != '\U{D7}') then (c as int + 32) as char else c
  }

  predicate PlainDigits(s: string) {
    forall c <- s :: '0' <= c <= '9'
  }

  /** `int(s)` of plain digits. */
  function IntOf(s: string): int {
    if s == "" then 0 else IntOf(s[..|s| - 1]) * 10 + (s[|s| - 1] as int - '0' as int)
  }

  /** `str(n)` */
  function Decimal(n: int): string
    decreases n < 0, if n < 0 then -n else n
  {
    if n < 0 then "-" + Decimal(-n)
    else if n < 10 then ['0' + n as char]
    else Decimal(n / 10) + ['0' + (n % 10) as char]
  }

  /** Printing and reading back, so that no two numbers print alike. */
  lemma {:induction false} DecimalIsRead(n: nat)
    ensures Decimal(n) != "" && PlainDigits(Decimal(n)) && IntOf(Decimal(n)) == n
    decreases n
  {
    if n < 10 {
      var c := '0' + n as char;
      assert c as int - '0' as int == n;
      assert [c][..0] == "";
      assert IntOf([c]) == IntOf("") * 10 + n;
    } else {
      DecimalIsRead(n / 10);
      var c := '0' + (n % 10) as char;
      assert (Decimal(n / 10) + [c])[..|Decimal(n / 10)|] == Decimal(n / 10);
      assert n == n / 10 * 10 + n % 10;
    }
  }

  lemma {:induction false} LinesHaveNoBreak(line: string, s: string)
    requires NoBreak(line)
    ensures forall part <- SplitFrom(line, s) :: NoBreak(part)
    decreases |s|
  {
    if s == "" {
    } else if !IsBreak(s[0]) {
      LinesHaveNoBreak(line + [s[0]], s[1..]);
    } else if s[0] == '\r' && |s| > 1 && s[1] == '\n' {
      LinesHaveNoBreak("", s[2..]);
    } else {
      LinesHaveNoBreak("", s[1..]);
    }
  }

  /** A break-free line followed by a line feed is split off whole. */
  lemma {:induction false} SplitFirstLine(read: string, line: string, rest: string)
    requires NoBreak(line)
    ensures SplitFrom(read, line + ['\n'] + rest) == [read + line] + SplitLines(rest)
    decreases |line|
  {
    var s := line + ['\n'] + rest;
    if line == "" {
      assert s[1..] == rest;
      assert read + line == read;
    } else {
      assert s[1..] == line[1..] + ['\n'] + rest;
      SplitFirstLine(read + [line[0]], line[1..], rest);
      assert read + [line[0]] + line[1..] == read + line;
    }
  }

  /** Text that ends in a line feed is split without looking at what follows it. */
  lemma {:induction false} SplitAppend(line: string, a: string, b: string)
    ensures SplitFrom(line, a + ['\n'] + b) == SplitFrom(line, a + ['\n']) + SplitLines(b)
    decreases |a|
  {
    var s, t := a + ['\n'], a + ['\n'] + b;
    if a == "" {
      assert s[1..] == "" && t[1..] == b;
    } else if !IsBreak(a[0]) {
      assert s[1..] == a[1..] + ['\n'] && t[1..] == a[1..] + ['\n'] + b;
      SplitAppend(line + [a[0]], a[1..], b);
    } else if a[0] == '\r' && |a| == 1 {
      assert s[2..] == "" && t[2..] == b;
    } else if a[0] == '\r' && a[1] == '\n' {
      assert s[2..] == a[2..] + ['\n'] && t[2..] == a[2..] + ['\n'] + b;
      SplitAppend("", a[2..], b);
    } else {
      assert s[1..] == a[1..] + ['\n'] && t[1..] == a[1..] + ['\n'] + b;
      SplitAppend("", a[1..], b);
    }
  }

  /** Replacing can only shuffle characters that were there or that the replacement brings. */
  lemma {:induction false} ReplaceKeepsNoBreak(s: string, old_: string, new_: string)
    requires old_ != "" && NoBreak(s) && NoBreak(new_)
    ensures NoBreak(Replace(s, old_, new_))
  {
    if s == "" {
    } else if old_ <= s {
      ReplaceKeepsNoBreak(s[|old_|..], old_, new_);
    } else {
      ReplaceKeepsNoBreak(s[1..], old_, new_);
    }
  }

  lemma {:induction false} LStripIsSuffix(s: string, drop: char -> bool)
    ensures |LStrip(s, drop)| <= |s| && LStrip(s, drop) == s[|s| - |LStrip(s, drop)|..]
  {
    if s != "" && drop(s[0]) {
      LStripIsSuffix(s[1..], drop);
    }
  }

  lemma {:induction false} RStripIsPrefix(s: string, drop: char -> bool)
    ensures RStrip(s, drop) <= s
  {
    if s != "" && drop(s[|s| - 1]) {
      RStripIsPrefix(s[..|s| - 1], drop);
    }
  }

  // ------------------------------------------------------------------- what each of them is

  /** The ten characters that end a line, and the further nineteen that are white space. */
  lemma {:induction false} BreaksAndSpaces(c: char)
    ensures IsBreak(c) <==> c in {'\n', '\U{0B}', '\U{0C}', '\r', '\U{1C}', '\U{1D}', '\U{1E}', '\U{85}', '\U{2028}', '\U{2029}'}
    ensures IsSpace(c) <==>
              || c in {'\n', '\U{0B}', '\U{0C}', '\r', '\U{1C}', '\U{1D}', '\U{1E}', '\U{85}', '\U{2028}', '\U{2029}'}
              || c in {'\t', '\U{1F}', ' ', '\U{A0}', '\U{1680}', '\U{2000}', '\U{2001}', '\U{2002}', '\U{2003}', '\U{2004}',
                       '\U{2005}', '\U{2006}', '\U{2007}', '\U{2008}', '\U{2009}', '\U{200A}', '\U{202F}', '\U{205F}', '\U{3000}'}
  {
  }

  lemma {:induction false} LStripIs(s: string, drop: char -> bool)
    ensures var n := |s| - |LStrip(s, drop)|;
      && 0 <= n && LStrip(s, drop) == s[n..] && (forall i :: 0 <= i < n ==> drop(s[i])) && (n < |s| ==> !drop(s[n]))
  {
    if s != "" && drop(s[0]) {
      LStripIs(s[1..], drop);
    }
  }

  lemma {:induction false} RStripIs(s: string, drop: char -> bool)
    ensures var n := |RStrip(s, drop)|;
      && n <= |s| && RStrip(s, drop) == s[..n] && (forall i :: n <= i < |s| ==> drop(s[i])) && (n > 0 ==> !drop(s[n - 1]))
  {
    if s != "" && drop(s[|s| - 1]) {
      RStripIs(s[..|s| - 1], drop);
    }
  }

  lemma {:induction false} RStripBlanks(s: string, blanks: string)
    requires (forall c <- blanks :: IsSpace(c)) && (s != "" ==> !IsSpace(s[|s| - 1]))
    ensures RStrip(s + blanks, IsSpace) == s
    decreases |blanks|
  {
    hide IsSpace;
    var n := |blanks| - 1;
    if blanks == "" {
      assert s + blanks == s;
    } else {
      assert blanks[n] in blanks && (s + blanks)[..|s| + n] == s + blanks[..n];
      RStripBlanks(s, blanks[..n]);
    }
  }

  lemma {:induction false} LStripBlanks(blanks: string, s: string)
    requires (forall c <- blanks :: IsSpace(c)) && (s != "" ==> !IsSpace(s[0]))
    ensures LStrip(blanks + s, IsSpace) == s
    decreases |blanks|
  {
    hide IsSpace;
    if blanks == "" {
      assert blanks + s == s;
    } else {
      assert blanks[0] in blanks && (blanks + s)[1..] == blanks[1..] + s;
      assert forall c <- blanks[1..] :: c in blanks;
      LStripBlanks(blanks[1..], s);
    }
  }

  /** Text between white space is what stripping leaves. */
  lemma {:induction false} StripPadded(before: string, s: string, after: string)
    requires (forall c <- before :: IsSpace(c)) && forall c <- after :: IsSpace(c)
    requires s != "" ==> !IsSpace(s[0]) && !IsSpace(s[|s| - 1])
    ensures Strip(before + s + after) == s
  {
    hide IsSpace, LStrip, RStrip;
    if s == "" {
      var all := before + after;
      assert before + s + after == all && all + "" == all;
      LStripBlanks(all, "");
      RStripBlanks("", "");
      assert "" + "" == "";
    } else {
      assert before + s + after == before + (s + after) && (s + after)[0] == s[0];
      LStripBlanks(before, s + after);
      RStripBlanks(s, after);
    }
  }

  /** Stripping takes white space off both ends, all of it, and nothing else. */
  lemma {:induction false} StripIs(s: string) returns (before: string, after: string)
    ensures s == before + Strip(s) + after
    ensures (forall c <- before :: IsSpace(c)) && forall c <- after :: IsSpace(c)
    ensures Strip(s) != "" ==> !IsSpace(Strip(s)[0]) && !IsSpace(Strip(s)[|Strip(s)| - 1])
  {
    hide IsSpace, LStrip, RStrip;
    var l := LStrip(s, IsSpace);
    LStripIs(s, IsSpace);
    RStripIs(l, IsSpace);
    before, after := s[..|s| - |l|], l[|Strip(s)|..];
    assert l == Strip(s) + after;
  }

  lemma {:induction false} FindAppend(a: string, c: char, b: string)
    ensures Find(a + [c] + b, c) == Find(a, c)
  {
    if a != "" && a[0] != c {
      assert (a + [c] + b)[1..] == a[1..] + [c] + b;
      FindAppend(a[1..], c, b);
    }
  }

  /** Splitting is undone by putting the separator back, and a part has none. */
  lemma {:induction false} SplitOnIs(s: string, c: char)
    ensures Join(SplitOn(s, c), [c]) == s && forall part <- SplitOn(s, c) :: c !in part
    decreases |s|
  {
    var n := Find(s, c);
    if n < |s| {
      SplitOnIs(s[n + 1..], c);
      assert SplitOn(s, c)[1..] == SplitOn(s[n + 1..], c);
      assert s == s[..n] + [c] + s[n + 1..];
    } else {
      assert s[..n] == s;
    }
  }

  /** A part, a separator, and the parts of the rest. */
  lemma {:induction false} SplitOnFirst(part: string, c: char, rest: string)
    requires c !in part
    ensures SplitOn(part, c) == [part]
    ensures SplitOn(part + [c] + rest, c) == [part] + SplitOn(rest, c)
  {
    var s := part + [c] + rest;
    FindAppend(part, c, rest);
    assert s[..|part|] == part && s[|part| + 1..] == rest;
  }

  /** Either side of a separator is split on its own. */
  lemma {:induction false} SplitOnAppend(a: string, c: char, b: string)
    ensures SplitOn(a + [c] + b, c) == SplitOn(a, c) + SplitOn(b, c)
    decreases |a|
  {
    hide SplitOn;
    var n := Find(a, c);
    if n < |a| {
      var part, rest := a[..n], a[n + 1..];
      assert a == part + [c] + rest;
      SplitOnFirst(part, c, rest);
      SplitOnFirst(part, c, rest + [c] + b);
      assert a + [c] + b == part + [c] + (rest + [c] + b);
      SplitOnAppend(rest, c, b);
      assert [part] + (SplitOn(rest, c) + SplitOn(b, c)) == [part] + SplitOn(rest, c) + SplitOn(b, c);
    } else {
      assert c !in a by { assert a[..n] == a; }
      SplitOnFirst(a, c, b);
    }
  }

  /** The lines of text: one line without a break, or a line, its end, and the lines of the rest; a carriage return and a line
      feed are one end. */
  lemma {:induction false} LinesAre(line: string, end: char, rest: string)
    requires NoBreak(line) && IsBreak(end)
    ensures SplitLines(line) == if line == "" then [] else [line]
    ensures end != '\r' || rest == "" || rest[0] != '\n' ==> SplitLines(line + [end] + rest) == [line] + SplitLines(rest)
    ensures SplitLines(line + ['\r', '\n'] + rest) == [line] + SplitLines(rest)
  {
    ReadLine("", line, "");
    ReadLine("", line, [end] + rest);
    ReadLine("", line, ['\r', '\n'] + rest);
    assert line + "" == line && "" + line == line;
    assert line + [end] + rest == line + ([end] + rest) && ([end] + rest)[1..] == rest;
    assert line + ['\r', '\n'] + rest == line + (['\r', '\n'] + rest) && (['\r', '\n'] + rest)[2..] == rest;
  }

  lemma {:induction false} ReadLine(read: string, line: string, rest: string)
    requires NoBreak(line)
    ensures SplitFrom(read, line + rest) == SplitFrom(read + line, rest)
    decreases |line|
  {
    if line == "" {
      assert line + rest == rest && read + line == read;
    } else {
      assert (line + rest)[1..] == line[1..] + rest && read + [line[0]] + line[1..] == read + line;
      ReadLine(read + [line[0]], line[1..], rest);
    }
  }

  /** A zero in front does not change a number. */
  lemma {:induction false} ZerosDoNotCount(s: string)
    requires PlainDigits(s)
    ensures PlainDigits("0" + s) && IntOf("0" + s) == IntOf(s)
    decreases |s|
  {
    var t := "0" + s;
    if s == "" {
      assert t[..0] == "" && IntOf(t) == IntOf(t[..0]) * 10 + 0;
    } else {
      var n := |s| - 1;
      assert t[..|t| - 1] == "0" + s[..n];
      assert forall c <- s[..n] :: c in s;
      ZerosDoNotCount(s[..n]);
      assert forall c <- t :: c == '0' || c in s;
    }
  }

  /** Lowering of Latin-1: its capital letters, the accented ones included but not the multiplication sign between them, become
      the letters 32 places on, and every other character stays. */
  lemma {:induction false} LowerIs(s: string, i: nat)
    requires i < |s| && s[i] < '\U{100}'
    ensures |Lower(s)| == |s|
    ensures var capital := ('A' <= s[i] && s[i] <= 'Z') || ('\U{C0}' <= s[i] && s[i] <= '\U{D6}') || ('\U{D8}' <= s[i] && s[i] <= '\U{DE}');
      Lower(s)[i] as int == if capital then s[i] as int + 32 else s[i] as int
  {
  }

  /** The rest in a line each. */
  lemma {:induction false} SmallThings(s: string, prefix: string, c: char, n: int)
    ensures StartsWith(s, prefix) <==> |prefix| <= |s| && s[..|prefix|] == prefix
    ensures EndsWith(s, c) <==> |s| > 0 && s[|s| - 1] == c
    ensures c !in s ==> Partition(s, c) == (s, "")
    ensures c !in prefix ==> Partition(prefix + [c] + s, c) == (prefix, s)
    ensures Join([], s) == "" && Join([prefix], s) == prefix
    ensures n > 0 ==> Decimal(-n) == "-" + Decimal(n)
  {
    if c !in prefix {
      FindAppend(prefix, c, s);
      assert (prefix + [c] + s)[..|prefix|] == prefix && (prefix + [c] + s)[|prefix| + 1..] == s;
    }
  }
}
