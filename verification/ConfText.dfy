/** Text in lines and comma lists: the library calls the configuration writers use, and a reader.

    The first part is about splitting: what comes back when lines that may hold newlines of their own are
    written out and split again. The second is the reader a configuration parser starts from: a line
    names a key in any case, with blanks before its equals sign or colon, and every line that names it
    gives a value. Later lines do not replace earlier ones here; what a parser makes of two is its affair. */
module ConfText {

  /** strings.Split for a one-character separator: at least one part, the separators between them. */
  function Split(s: string, sep: char): (parts: seq<string>)
    ensures parts != []
  {
    if s == "" then [""]
    else
      var parts, c := Split(s[..|s| - 1], sep), s[|s| - 1];
      if c == sep then parts + [""]
      else parts[..|parts| - 1] + [parts[|parts| - 1] + [c]]
  }

  /** strings.TrimRight: drops trailing characters of a set. */
  function TrimRight(s: string, cut: set<char>): (t: string)
    ensures t <= s && (t == "" || t[|t| - 1] !in cut)
    ensures forall i :: |t| <= i < |s| ==> s[i] in cut
  {
    if s != "" && s[|s| - 1] in cut then TrimRight(s[..|s| - 1], cut) else s
  }

  function TrimLeft(s: string, cut: set<char>): (t: string)
    ensures |t| <= |s|
  {
    if s != "" && s[0] in cut then TrimLeft(s[1..], cut) else s
  }

  const SPACE: set<char> := {' ', '\t', '\n', '\r', '\U{0B}', '\U{0C}', '\U{85}', '\U{A0}'}

  function TrimSpace(s: string): string { TrimLeft(TrimRight(s, SPACE), SPACE) }

  /** Lines written one by one, each ended by a newline. */
  function Written(lines: seq<string>): string {
    if lines == [] then "" else Written(lines[..|lines| - 1]) + lines[|lines| - 1] + "\n"
  }

  // ------------------------------------------------------------------ splitting what was written

  /** The parts once one more character has been read. */
  function Grown(parts: seq<string>, c: char, sep: char): seq<string>
    requires parts != []
  {
    if c == sep then parts + [""] else parts[..|parts| - 1] + [parts[|parts| - 1] + [c]]
  }

  lemma GrownAfter(p: seq<string>, q: seq<string>, c: char, sep: char)
    requires q != []
    ensures Grown(p + q, c, sep) == p + Grown(q, c, sep)
  {
  }

  lemma GrownLonger(a: string, q: seq<string>, c: char, sep: char)
    requires q != []
    ensures var g := Grown(q, c, sep); Grown([a + q[0]] + q[1..], c, sep) == [a + g[0]] + g[1..]
  {
    if |q| == 1 { assert a + q[0] + [c] == a + (q[0] + [c]); }
  }

  /** Splitting what a separator joins. */
  lemma {:induction false} SplitAcross(a: string, b: string, sep: char)
    ensures Split(a + [sep] + b, sep) == Split(a, sep) + Split(b, sep)
    decreases |b|
  {
    if b == "" {
      assert a + [sep] + b == a + [sep];
    } else {
      var front, c := b[..|b| - 1], b[|b| - 1];
      assert b == front + [c] && a + [sep] + b == (a + [sep] + front) + [c];
      SplitAcross(a, front, sep);
      GrownAfter(Split(a, sep), Split(front, sep), c, sep);
    }
  }

  /** What comes before the first separator only lengthens the first part. */
  lemma {:induction false} SplitAfterPlain(a: string, b: string, sep: char)
    requires sep !in a
    ensures Split(a + b, sep) == [a + Split(b, sep)[0]] + Split(b, sep)[1..]
    decreases |b|
  {
    if b == "" {
      PlainIsOnePart(a, sep);
      assert a + b == a && a + "" == a;
    } else {
      var front, c := b[..|b| - 1], b[|b| - 1];
      assert b == front + [c] && a + b == (a + front) + [c];
      SplitAfterPlain(a, front, sep);
      GrownLonger(a, Split(front, sep), c, sep);
    }
  }

  lemma {:induction false} PartsPlain(s: string, sep: char)
    ensures forall part :: part in Split(s, sep) ==> sep !in part
  {
    if s != "" { PartsPlain(s[..|s| - 1], sep); }
  }

  ghost predicate NoNewlines(lines: seq<string>) {
    forall line :: line in lines ==> '\n' !in line
  }

  /** The lines a reader sees when lines, which may hold newlines themselves, are written out. */
  function Flat(lines: seq<string>): seq<string> {
    if lines == [] then [] else Flat(lines[..|lines| - 1]) + Split(lines[|lines| - 1], '\n')
  }

  lemma FlatOneMore(lines: seq<string>, line: string)
    ensures Flat(lines + [line]) == Flat(lines) + Split(line, '\n')
  {
    assert (lines + [line])[..|lines|] == lines;
  }

  lemma {:induction false} FlatOfConcat(a: seq<string>, b: seq<string>)
    ensures Flat(a + b) == Flat(a) + Flat(b)
    decreases |b|
  {
    if b == [] {
      assert a + b == a;
    } else {
      var front, line := b[..|b| - 1], b[|b| - 1];
      LastApart(b);
      FlatOfConcat(a, front);
      FlatOneMore(a + front, line);
      FlatOneMore(front, line);
      ThreeLists(a, front, line);
    }
  }

  lemma ThreeLists(a: seq<string>, front: seq<string>, line: string)
    ensures (a + front) + [line] == a + (front + [line])
    ensures Flat(a) + Flat(front) + Split(line, '\n') == Flat(a) + (Flat(front) + Split(line, '\n'))
  {
  }

  lemma LastApart(lines: seq<string>)
    requires lines != []
    ensures lines[..|lines| - 1] + [lines[|lines| - 1]] == lines
  {
  }

  lemma {:induction false} PlainIsOnePart(line: string, sep: char)
    requires sep !in line
    ensures Split(line, sep) == [line]
  {
    if line != "" {
      var front, c := line[..|line| - 1], line[|line| - 1];
      assert line == front + [c] && c in line;
      PlainIsOnePart(front, sep);
    }
  }

  lemma {:induction false} FlatPlain(lines: seq<string>)
    requires NoNewlines(lines)
    ensures Flat(lines) == lines
  {
    if lines != [] {
      var n := |lines| - 1;
      assert lines[n] in lines && forall line :: line in lines[..n] ==> line in lines;
      FlatPlain(lines[..n]);
      PlainIsOnePart(lines[n], '\n');
      LastApart(lines);
    }
  }

  lemma {:induction false} FlatHasNoNewlines(lines: seq<string>)
    ensures NoNewlines(Flat(lines))
  {
    if lines != [] {
      FlatHasNoNewlines(lines[..|lines| - 1]);
      PartsPlain(lines[|lines| - 1], '\n');
    }
  }

  lemma {:induction false} SplitOfWritten(lines: seq<string>, last: string)
    ensures Split(Written(lines) + last, '\n') == Flat(lines) + Split(last, '\n')
  {
    if lines == [] {
      assert "" + last == last;
    } else {
      var n := |lines| - 1;
      var a := Written(lines[..n]) + lines[n];
      assert Written(lines) + last == a + ['\n'] + last;
      SplitOfWritten(lines[..n], lines[n]);
      SplitAcross(a, last, '\n');
    }
  }

  /** Splitting a written text, its final newline trimmed, gives back what a reader sees. */
  lemma LinesReadBack(lines: seq<string>, last: string)
    requires '\n' !in last && last != ""
    ensures Split(TrimRight(Written(lines + [last]), {'\n'}), '\n') == Flat(lines) + [last]
  {
    var body := Written(lines) + last;
    assert body[|body| - 1] == last[|last| - 1] && last[|last| - 1] in last;
    SplitOfWritten(lines, last);
    PlainIsOnePart(last, '\n');
  }

  // ------------------------------------------------------------------ settings

  predicate HasPrefix(s: string, prefix: string) { prefix <= s }

  function Setting(key: string, value: string): string { key + " = " + value }

  function LowerChar(c: char): char { if 'A' <= c <= 'Z' then (c as int + 32) as char else c }

  function Lower(s: string): string { seq(|s|, i requires 0 <= i < |s| => LowerChar(s[i])) }

  const BLANKS: set<char> := {' ', '\t'}

  /** What is left of a line after the blanks that may follow a key. */
  function AfterBlanks(s: string): string { TrimLeft(s, BLANKS) }

  /** A line names a key when it starts with it, in any case, and an equals sign or a colon follows,
      perhaps after blanks. */
  predicate Names(line: string, key: string) {
    && |key| <= |line| && Lower(line[..|key|]) == key
    && AfterBlanks(line[|key|..]) != "" && AfterBlanks(line[|key|..])[0] in {'=', ':'}
  }

  /** Its value is the rest of the line, space around it trimmed. */
  function ValueOf(line: string, key: string): string
    requires Names(line, key)
  {
    TrimSpace(AfterBlanks(line[|key|..])[1..])
  }

  /** The values a list of lines gives to a key, in order. */
  function Values(lines: seq<string>, key: string): seq<string> {
    if lines == [] then []
    else
      var line := lines[|lines| - 1];
      Values(lines[..|lines| - 1], key) + if Names(line, key) then [ValueOf(line, key)] else []
  }

  lemma NamesStart(line: string, key: string)
    requires key != "" && Names(line, key)
    ensures line != "" && LowerChar(line[0]) == key[0]
  {
    assert Lower(line[..|key|])[0] == LowerChar(line[0]);
  }

  lemma BlankInFront(value: string)
    ensures TrimSpace(" " + value) == TrimSpace(value)
  {
    TrimRightKeepsFront(value);
  }

  lemma {:induction false} TrimRightKeepsFront(value: string)
    ensures TrimRight(" " + value, SPACE) == if TrimRight(value, SPACE) == "" then "" else " " + TrimRight(value, SPACE)
  {
    var s := " " + value;
    if value != "" {
      assert s[..|s| - 1] == " " + value[..|value| - 1];
      TrimRightKeepsFront(value[..|value| - 1]);
    }
  }

  /** A written setting names its key and gives its value, space around it trimmed. */
  lemma SettingNames(key: string, value: string)
    requires Lower(key) == key
    ensures Names(Setting(key, value), key) && ValueOf(Setting(key, value), key) == TrimSpace(value)
  {
    var line, rest := Setting(key, value), " = " + value;
    assert line[..|key|] == key && line[|key|..] == rest;
    assert rest[0] == ' ' && rest[1..] == "= " + value && ("= " + value)[1..] == " " + value;
    assert ("= " + value)[0] == '=' && TrimLeft("= " + value, BLANKS) == "= " + value;
    assert AfterBlanks(rest) == TrimLeft(rest[1..], BLANKS);
    BlankInFront(value);
  }

  lemma {:induction false} ValuesOfConcat(a: seq<string>, b: seq<string>, key: string)
    ensures Values(a + b, key) == Values(a, key) + Values(b, key)
    decreases |b|
  {
    if b == [] {
      assert a + b == a;
    } else {
      assert (a + b)[..|a + b| - 1] == a + b[..|b| - 1];
      ValuesOfConcat(a, b[..|b| - 1], key);
    }
  }

  /** Lines that start with another letter than the key say nothing about it. */
  lemma {:induction false} OtherLinesSilent(lines: seq<string>, key: string)
    requires key != "" && forall i :: 0 <= i < |lines| ==> lines[i] == "" || LowerChar(lines[i][0]) != key[0]
    ensures Values(lines, key) == []
  {
    if lines != [] {
      var n := |lines| - 1;
      OtherLinesSilent(lines[..n], key);
      if Names(lines[n], key) { NamesStart(lines[n], key); }
    }
  }

  lemma OneLine(line: string, key: string)
    ensures Values([line], key) == if Names(line, key) then [ValueOf(line, key)] else []
  {
    assert [line][..0] == [];
  }

  lemma OneSetting(key: string, value: string)
    requires Lower(key) == key
    ensures Values([Setting(key, value)], key) == [TrimSpace(value)]
  {
    SettingNames(key, value);
    OneLine(Setting(key, value), key);
  }

  // ------------------------------------------------------------------ reading a whole text

  /** What a reader of the text finds for a key: its values, line by line. */
  function Read(text: string, key: string): seq<string> {
    Values(Split(TrimRight(text, {'\n'}), '\n'), key)
  }

  /** Trailing newlines say nothing. */
  lemma {:induction false} TrimmedSaysTheSame(s: string, key: string)
    ensures Values(Split(TrimRight(s, {'\n'}), '\n'), key) == Values(Split(s, '\n'), key)
  {
    if s != "" && s[|s| - 1] == '\n' {
      TrimmedSaysTheSame(s[..|s| - 1], key);
    }
  }

  lemma ReadWritten(lines: seq<string>, key: string)
    ensures Read(Written(lines), key) == Values(Flat(lines), key)
  {
    TrimmedSaysTheSame(Written(lines), key);
    SplitOfWritten(lines, "");
    assert Written(lines) + "" == Written(lines);
  }

  type LineTest = string -> bool

  function Naming(key: string): LineTest { line => Names(line, key) }

  function CountIf(lines: seq<string>, p: LineTest): nat {
    if lines == [] then 0 else CountIf(lines[..|lines| - 1], p) + if p(lines[|lines| - 1]) then 1 else 0
  }

  predicate SomeLine(lines: seq<string>, p: LineTest) { exists line :: line in lines && p(line) }

  lemma {:induction false} CountIsZeroIff(lines: seq<string>, p: LineTest)
    ensures CountIf(lines, p) == 0 <==> !SomeLine(lines, p)
  {
    if lines != [] {
      LastApart(lines);
      CountIsZeroIff(lines[..|lines| - 1], p);
      assert forall line :: line in lines <==> line in lines[..|lines| - 1] || line == lines[|lines| - 1];
    }
  }

  lemma {:induction false} CountIsValues(lines: seq<string>, key: string)
    ensures |Values(lines, key)| == CountIf(lines, Naming(key))
  {
    if lines != [] { CountIsValues(lines[..|lines| - 1], key); }
  }

  lemma SilentIff(lines: seq<string>, key: string)
    ensures Values(lines, key) == [] <==> !SomeLine(lines, Naming(key))
  {
    CountIsValues(lines, key);
    CountIsZeroIff(lines, Naming(key));
  }

  lemma {:induction false} TrimLeftIsEnd(s: string, cut: set<char>)
    ensures forall c :: c in TrimLeft(s, cut) ==> c in s
  {
    if s != "" { TrimLeftIsEnd(s[1..], cut); }
  }

  lemma ValueIsPart(line: string, key: string, c: char)
    requires Names(line, key) && c in ValueOf(line, key)
    ensures c in line
  {
    var rest := AfterBlanks(line[|key|..]);
    TrimLeftIsEnd(TrimRight(rest[1..], SPACE), SPACE);
    assert c in rest;
    TrimLeftIsEnd(line[|key|..], BLANKS);
  }

  /** No value reaches past its line. */
  lemma {:induction false} ValuesPlain(lines: seq<string>, key: string)
    requires NoNewlines(lines)
    ensures NoNewlines(Values(lines, key))
  {
    if lines != [] {
      var n := |lines| - 1;
      assert lines[n] in lines && forall line :: line in lines[..n] ==> line in lines;
      ValuesPlain(lines[..n], key);
      if Names(lines[n], key) && '\n' in ValueOf(lines[n], key) { ValueIsPart(lines[n], key, '\n'); }
    }
  }
}
