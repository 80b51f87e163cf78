/**
 * The TypeScript half of the config plugin: the `IconName` union type
 * written into the module's type declarations, so that JavaScript callers
 * can only name configured icons.
 */
module GeneratedTypes {
  import opened Options

  const Separator: string := " | "

  /** `"${name}"`. */
  function Quote(name: string): string
  {
    "\"" + name + "\""
  }

  /** `names.map(quote).join(" | ")`. */
  function JoinQuoted(names: seq<string>): (r: string)
    ensures names == [] <==> r == ""
    ensures names != [] ==> r[0] == '"'
  {
    if names == [] then ""
    else if |names| == 1 then Quote(names[0])
    else Quote(names[0]) + Separator + JoinQuoted(names[1..])
  }

  /** The union of withGenerateTypes: the quoted keys joined by ` | `, or `string` when there are none. */
  function IconNameUnion(names: seq<string>): (r: string)
    ensures r == "string" <==> names == []
  {
    var union := JoinQuoted(names);
    if union == "" then "string" else union
  }

  const DeclarationPrefix: string := "IconName: "

  /**
   * The declaration the type file's `IconName:` line is replaced with: it
   * starts with `IconName: `, and the rest reads back as the configured keys.
   */
  function IconNameDeclaration(names: seq<string>): (r: string)
    ensures |r| > |DeclarationPrefix| && r[..|DeclarationPrefix|] == DeclarationPrefix
    ensures Unquoted(names) ==> ParseIconNameUnion(r[|DeclarationPrefix|..]) == Some(names)
  {
    var r := DeclarationPrefix + IconNameUnion(names);
    assert r[|DeclarationPrefix|..] == IconNameUnion(names);
    assert Unquoted(names) ==> ParseIconNameUnion(r[|DeclarationPrefix|..]) == Some(names) by {
      if Unquoted(names) {
        UnionRoundTrip(names);
      }
    }
    r
  }

  // ---------------------------------------------------------------------------
  // Reading the union back
  // ---------------------------------------------------------------------------

  /** The position of the first `c` in `s`, or `|s|` when there is none. */
  function IndexOfChar(s: string, c: char): (r: nat)
    ensures r <= |s|
    ensures r < |s| ==> s[r] == c
    ensures forall i :: 0 <= i < r ==> s[i] != c
  {
    if s == [] then 0
    else if s[0] == c then 0
    else 1 + IndexOfChar(s[1..], c)
  }

  lemma IndexOfCharAfter(a: string, c: char, b: string)
    requires c !in a
    ensures IndexOfChar(a + [c] + b, c) == |a|
  {
    var s := a + [c] + b;
    var r := IndexOfChar(s, c);
    assert s[|a|] == c;
  }

  /** Reads `"a" | "b" | …` back as its names. */
  function ParseQuotedList(s: string): Option<seq<string>>
    decreases |s|
  {
    if |s| < 2 || s[0] != '"' then None
    else
      var j := 1 + IndexOfChar(s[1..], '"');
      if j >= |s| then None
      else
        var name := s[1..j];
        var rest := s[j + 1..];
        if rest == "" then Some([name])
        else if |rest| >= 3 && rest[..3] == Separator then
          match ParseQuotedList(rest[3..])
          case None => None
          case Some(names) => Some([name] + names)
        else None
  }

  /** Reads a union back: `string` is the empty set of names. */
  function ParseIconNameUnion(s: string): Option<seq<string>>
  {
    if s == "string" then Some([]) else ParseQuotedList(s)
  }

  predicate Unquoted(names: seq<string>)
  {
    forall i :: 0 <= i < |names| ==> '"' !in names[i]
  }

  /** Reading one quoted name off the front: what follows it decides the rest. */
  lemma ParseQuotedHead(n0: string, tail: string)
    requires '"' !in n0
    ensures tail == "" ==> ParseQuotedList(Quote(n0) + tail) == Some([n0])
    ensures |tail| >= 3 && tail[..3] == Separator && ParseQuotedList(tail[3..]).Some? ==>
      ParseQuotedList(Quote(n0) + tail) == Some([n0] + ParseQuotedList(tail[3..]).value)
  {
    var s := Quote(n0) + tail;
    assert s[1..] == n0 + ['"'] + tail;
    IndexOfCharAfter(n0, '"', tail);
    var j := 1 + |n0|;
    assert |s| >= 2 && s[0] == '"' && j < |s|;
    assert s[1..j] == n0;
    assert s[j + 1..] == tail;
  }

  lemma UnquotedTail(names: seq<string>)
    requires names != [] && Unquoted(names)
    ensures Unquoted(names[1..])
  {
    forall i | 0 <= i < |names[1..]|
      ensures '"' !in names[1..][i]
    {
      assert names[1..][i] == names[i + 1];
    }
  }

  /** Quoting one more name in front of a list that reads back reads back with that name in front. */
  lemma QuotedListCons(n0: string, rest: seq<string>)
    requires '"' !in n0 && rest != []
    requires ParseQuotedList(JoinQuoted(rest)) == Some(rest)
    ensures ParseQuotedList(JoinQuoted([n0] + rest)) == Some([n0] + rest)
  {
    var names := [n0] + rest;
    assert names[0] == n0 && names[1..] == rest;
    var tail := Separator + JoinQuoted(rest);
    assert JoinQuoted(names) == Quote(n0) + tail;
    assert tail[..3] == Separator && tail[3..] == JoinQuoted(rest);
    ParseQuotedHead(n0, tail);
  }

  /** The quoted list gives back the names it was made of, when no name holds a double quote. */
  lemma {:induction false} QuotedListRoundTrip(names: seq<string>)
    requires names != [] && Unquoted(names)
    ensures ParseQuotedList(JoinQuoted(names)) == Some(names)
  {
    if |names| == 1 {
      assert JoinQuoted(names) == Quote(names[0]) + "";
      ParseQuotedHead(names[0], "");
      assert names == [names[0]];
    } else {
      UnquotedTail(names);
      QuotedListRoundTrip(names[1..]);
      QuotedListCons(names[0], names[1..]);
      assert [names[0]] + names[1..] == names;
    }
  }

  /** Round trip: the generated union names exactly the configured keys, in order. */
  lemma UnionRoundTrip(names: seq<string>)
    requires Unquoted(names)
    ensures ParseIconNameUnion(IconNameUnion(names)) == Some(names)
  {
    if names != [] {
      QuotedListRoundTrip(names);
      assert IconNameUnion(names) != "string";
    }
  }
}
