/** SQL string literals: what the operator prints, and a reader that must get the values back.

    The reader is that of a standard-conforming server: a quote is written by doubling it and no
    other character is special. It takes a literal or NULL from the front of a text and says what is
    left, so that what is proved holds wherever in a statement the literal stands, as long as no quote
    follows it directly. */
module SqlText {
  import opened Wrappers

  const Q: char := '\''

  /** Every single quote doubled, as the string-replacement call does. */
  function Doubled(v: string): string {
    if v == "" then ""
    else (if v[0] == Q then [Q, Q] else [v[0]]) + Doubled(v[1..])
  }

  function Quoted(v: string): string { [Q] + Doubled(v) + [Q] }

  /** sqlTextOrNull: the empty string is NULL, anything else a literal. */
  function SqlTextOrNull(v: string): string { if v == "" then "NULL" else Quoted(v) }

  // ------------------------------------------------------------------ the reader

  /** Reads the rest of a literal whose opening quote has been read: its value and what follows. */
  function ReadBody(s: string): Option<(string, string)> {
    if s == "" then None
    else if s[0] != Q then
      var r := ReadBody(s[1..]);
      if r.None? then None else Some(([s[0]] + r.value.0, r.value.1))
    else if |s| > 1 && s[1] == Q then
      var r := ReadBody(s[2..]);
      if r.None? then None else Some(([Q] + r.value.0, r.value.1))
    else Some(("", s[1..]))
  }

  function ReadLiteral(s: string): Option<(string, string)> {
    if s == "" || s[0] != Q then None else ReadBody(s[1..])
  }

  datatype SqlValue = Null | Text(v: string)

  function ReadValue(s: string): Option<(SqlValue, string)> {
    if |s| >= 4 && s[..4] == "NULL" then Some((Null, s[4..]))
    else
      var r := ReadLiteral(s);
      if r.None? then None else Some((Text(r.value.0), r.value.1))
  }

  lemma {:induction false} BodyReadsBack(v: string, rest: string)
    requires rest == "" || rest[0] != Q
    ensures ReadBody(Doubled(v) + [Q] + rest) == Some((v, rest))
  {
    var s := Doubled(v) + [Q] + rest;
    if v == "" {
      assert s == [Q] + rest;
    } else {
      BodyReadsBack(v[1..], rest);
      var tail := Doubled(v[1..]) + [Q] + rest;
      if v[0] == Q {
        assert s == [Q, Q] + tail;
      } else {
        assert s == [v[0]] + tail;
      }
      assert v == [v[0]] + v[1..];
    }
  }

  /** Any value at all reads back from its literal, and the reader stops where the literal ends. */
  lemma LiteralReadsBack(v: string, rest: string)
    requires rest == "" || rest[0] != Q
    ensures ReadLiteral(Quoted(v) + rest) == Some((v, rest))
  {
    var s := Quoted(v) + rest;
    assert s[1..] == Doubled(v) + [Q] + rest;
    BodyReadsBack(v, rest);
  }

  /** sqlTextOrNull is undone by the reader: NULL exactly for the empty string. */
  lemma TextOrNullReadsBack(v: string, rest: string)
    requires rest == "" || rest[0] != Q
    ensures ReadValue(SqlTextOrNull(v) + rest) == Some((if v == "" then Null else Text(v), rest))
  {
    if v == "" {
      assert ("NULL" + rest)[..4] == "NULL" && ("NULL" + rest)[4..] == rest;
    } else {
      LiteralReadsBack(v, rest);
      assert (Quoted(v) + rest)[0] == Q;
    }
  }

  // ------------------------------------------------------------------ IN lists

  /** strings.Join(quoted, ", ") over the quoted names. */
  function JoinedQuoted(names: seq<string>): string {
    if names == [] then ""
    else if |names| == 1 then Quoted(names[0])
    else Quoted(names[0]) + ", " + JoinedQuoted(names[1..])
  }

  function InList(names: seq<string>): string { "(" + JoinedQuoted(names) + ")" }

  /** Reads literals separated by ", " up to the closing parenthesis. */
  function ReadItems(s: string): Option<(seq<string>, string)>
    decreases |s|
  {
    var r := ReadLiteral(s);
    if r.None? then None
    else
      var (v, rest) := r.value;
      if rest == "" || |rest| >= |s| then None
      else if rest[0] == ')' then Some(([v], rest[1..]))
      else if |rest| >= 2 && rest[..2] == ", " then
        var more := ReadItems(rest[2..]);
        if more.None? then None else Some(([v] + more.value.0, more.value.1))
      else None
  }

  function ReadInList(s: string): Option<(seq<string>, string)> {
    if s == "" || s[0] != '(' then None else ReadItems(s[1..])
  }

  lemma LastItem(v: string, rest: string)
    ensures ReadItems(Quoted(v) + (")" + rest)) == Some(([v], rest))
  {
    var tail := ")" + rest;
    LiteralReadsBack(v, tail);
    assert tail[1..] == rest;
  }

  lemma NextItem(v: string, more: string)
    requires ReadItems(more).Some?
    ensures ReadItems(Quoted(v) + (", " + more)) == Some(([v] + ReadItems(more).value.0, ReadItems(more).value.1))
  {
    var tail := ", " + more;
    LiteralReadsBack(v, tail);
    assert tail[..2] == ", " && tail[2..] == more;
  }

  lemma JoinSplits(names: seq<string>, rest: string)
    requires names != []
    ensures JoinedQuoted(names) + ")" + rest ==
            if |names| == 1 then Quoted(names[0]) + (")" + rest)
            else Quoted(names[0]) + (", " + (JoinedQuoted(names[1..]) + ")" + rest))
  {
    Regroup(Quoted(names[0]), if |names| == 1 then "" else JoinedQuoted(names[1..]), rest);
  }

  lemma Regroup(first: string, others: string, rest: string)
    ensures first + ")" + rest == first + (")" + rest)
    ensures first + ", " + others + ")" + rest == first + (", " + (others + ")" + rest))
  {
  }

  lemma {:induction false} ItemsReadBack(names: seq<string>, rest: string)
    requires names != []
    ensures ReadItems(JoinedQuoted(names) + ")" + rest) == Some((names, rest))
  {
    JoinSplits(names, rest);
    if |names| == 1 {
      LastItem(names[0], rest);
      assert names == [names[0]];
    } else {
      ItemsReadBack(names[1..], rest);
      NextItem(names[0], JoinedQuoted(names[1..]) + ")" + rest);
      assert names == [names[0]] + names[1..];
    }
  }

  /** Any non-empty list of names, quotes and commas in them included, reads back in order, and the
      list ends where it was meant to. */
  lemma InListReadsBack(names: seq<string>, rest: string)
    requires names != []
    ensures ReadInList(InList(names) + rest) == Some((names, rest))
  {
    var s := InList(names) + rest;
    assert s[1..] == JoinedQuoted(names) + ")" + rest;
    ItemsReadBack(names, rest);
  }

  /** The subset condition as the generator builds it: quote each name, then join. */
  method SubsetCondition(companies: seq<string>) returns (text: string)
    requires companies != []
    ensures text == "res_company.name IN " + InList(companies)
  {
    var quoted: seq<string> := [];
    for i := 0 to |companies|
      invariant |quoted| == i && forall j :: 0 <= j < i ==> quoted[j] == Quoted(companies[j])
    {
      quoted := quoted + [Quoted(companies[i])];
    }
    JoinIsJoinedQuoted(quoted, companies);
    text := "res_company.name IN (" + Join(quoted) + ")";
    assert "res_company.name IN (" == "res_company.name IN " + "(";
    assert text == "res_company.name IN " + ("(" + JoinedQuoted(companies) + ")");
  }

  function Join(parts: seq<string>): string {
    if parts == [] then ""
    else if |parts| == 1 then parts[0]
    else parts[0] + ", " + Join(parts[1..])
  }

  lemma {:induction false} JoinIsJoinedQuoted(quoted: seq<string>, names: seq<string>)
    requires |quoted| == |names| && forall j :: 0 <= j < |names| ==> quoted[j] == Quoted(names[j])
    ensures Join(quoted) == JoinedQuoted(names)
  {
    if |names| > 1 { JoinIsJoinedQuoted(quoted[1..], names[1..]); }
  }
}
