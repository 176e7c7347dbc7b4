/**
 The module listing: what the server prints for a client that asks for all modules, and how
 discovery reads such a listing back.
 */
module Listing {
  import opened Ordering

  const MARK := "@RSYNCD:"
  const EXIT := "@RSYNCD: EXIT"

  // ---------------------------------------------------------------- words and lines

  /** Unicode white space. */
  predicate IsSpace(c: char) {
    || '\t' <= c <= '\r' || c == ' ' || c == '\U{85}' || c == '\U{A0}' || c == '\U{1680}'
    || '\U{2000}' <= c <= '\U{200A}' || c == '\U{2028}' || c == '\U{2029}' || c == '\U{202F}'
    || c == '\U{205F}' || c == '\U{3000}'
  }

  function UpToSpace(s: string): string {
    if s == "" || IsSpace(s[0]) then "" else [s[0]] + UpToSpace(s[1..])
  }

  /** The first white-space separated word of a line. */
  function FirstWord(line: string): Option<string> {
    if line == "" then None
    else if IsSpace(line[0]) then FirstWord(line[1..])
    else Some(UpToSpace(line))
  }

  predicate Blank(line: string) {
    forall c :: c in line ==> IsSpace(c)
  }

  /** A name the listing can carry. */
  predicate Good(name: string) {
    name != "" && (forall c :: c in name ==> !IsSpace(c)) && !("@RSYNCD:" <= name)
  }

  predicate OneLine(line: string) { '\n' !in line }

  lemma {:induction false} WholeWord(s: string)
    requires forall c :: c in s ==> !IsSpace(c)
    ensures UpToSpace(s) == s
  {
    if s == "" {
    } else {
      WholeWord(s[1..]);
    }
  }

  lemma GoodIsItsWord(name: string)
    requires Good(name)
    ensures FirstWord(name) == Some(name) && OneLine(name)
  {
    WholeWord(name);
  }

  lemma {:induction false} BlankHasNoWord(line: string)
    ensures FirstWord(line).None? <==> Blank(line)
  {
    if line == "" {
    } else {
      assert line == [line[0]] + line[1..];
      if IsSpace(line[0]) { BlankHasNoWord(line[1..]); }
    }
  }

  /** The white space among the first 128 characters. */
  lemma AsciiSpaces(c: char)
    requires c < '\U{80}'
    ensures IsSpace(c) <==> c == ' ' || c == '\t' || c == '\n' || c == '\r' || c == '\U{0B}' || c == '\U{0C}'
  {
  }

  lemma {:induction false} UpToSpaceIs(word: string, rest: string)
    requires (forall c :: c in word ==> !IsSpace(c)) && (rest != "" ==> IsSpace(rest[0]))
    ensures UpToSpace(word + rest) == word
  {
    if word == "" {
      assert word + rest == rest;
    } else {
      assert word[0] in word && (word + rest)[0] == word[0] && (word + rest)[1..] == word[1..] + rest;
      UpToSpaceIs(word[1..], rest);
    }
  }

  /** The first word of a line: what stands after leading white space up to the next. */
  lemma {:induction false} FirstWordIs(blank: string, word: string, rest: string)
    requires Blank(blank) && word != "" && (forall c :: c in word ==> !IsSpace(c)) && (rest != "" ==> IsSpace(rest[0]))
    ensures FirstWord(blank + word + rest) == Some(word)
  {
    var line := blank + word + rest;
    if blank == "" {
      assert line == word + rest;
      UpToSpaceIs(word, rest);
      assert line[0] == word[0] && word[0] in word;
    } else {
      assert blank[0] in blank && line[0] == blank[0] && line[1..] == blank[1..] + word + rest;
      FirstWordIs(blank[1..], word, rest);
    }
  }

  /** The index of the first newline, or the length. */
  function LineEnd(s: string): (i: nat)
    ensures i <= |s| && (i < |s| ==> s[i] == '\n') && OneLine(s[..i])
  {
    if s == "" || s[0] == '\n' then 0
    else
      var i := LineEnd(s[1..]);
      assert s[..i + 1] == [s[0]] + s[1..][..i];
      i + 1
  }

  lemma {:induction false} LineEndIs(line: string, rest: string)
    requires OneLine(line)
    ensures LineEnd(line + "\n" + rest) == |line|
  {
    var s := line + "\n" + rest;
    if line == "" {
      assert s[0] == '\n';
    } else {
      LineEndIs(line[1..], rest);
      assert s[0] == line[0] && s[1..] == line[1..] + "\n" + rest;
    }
  }

  // ---------------------------------------------------------------- reading a listing

  /** The names collected after one more line: a blank line discards what came before it. */
  function Take(names: seq<string>, line: string): seq<string> {
    var w := FirstWord(line);
    if w.None? then [] else names + [w.value]
  }

  /** The names read from the text, None when it ends before the end mark. */
  function Parse(text: string, names: seq<string>): Option<seq<string>> {
    var i := LineEnd(text);
    if i == |text| then None
    else if MARK <= text[..i] then Some(names)
    else Parse(text[i + 1..], Take(names, text[..i]))
  }

  function Discover(text: string): Option<seq<string>> {
    var names := Parse(text, []);
    if names.None? then None else Some(Sort(names.value, StringLess))
  }

  method ReadListing(text: string) returns (modules: Option<seq<string>>)
    ensures modules == Discover(text)
  {
    var names: seq<string> := [];
    var unread := text;
    while true
      invariant Parse(unread, names) == Parse(text, [])
      decreases |unread|
    {
      var i := LineEnd(unread);
      if i == |unread| { return None; }
      var line := unread[..i];
      if MARK <= line { break; }
      unread := unread[i + 1..];
      var word := FirstWord(line);
      if word.None? {
        names := [];
        continue;
      }
      names := names + [word.value];
    }
    return Some(Sort(names, StringLess));
  }

  // ---------------------------------------------------------------- printing a listing

  function Unlines(lines: seq<string>): string {
    if lines == [] then "" else Unlines(lines[..|lines| - 1]) + lines[|lines| - 1] + "\n"
  }

  function Printed(list: seq<string>): string {
    Unlines(list) + "@RSYNCD: EXIT" + "\n"
  }

  /** What a client that asks for the listing is sent. */
  function Sent(motd: string, list: seq<string>): string {
    (if motd != "" then motd + "\n" else "") + Printed(list)
  }

  /** `list` is the names in order. */
  ghost predicate Lists(list: seq<string>, names: set<string>) {
    && (forall i, j :: 0 <= i < j < |list| ==> StringLess(list[i], list[j]))
    && (forall n :: n in list <==> n in names)
  }

  method ListAllModules(motd: string, names: set<string>) returns (text: string)
    ensures exists list :: Lists(list, names) && text == Sent(motd, list)
  {
    var modules: seq<string> := [];
    var todo := names;
    while todo != {}
      invariant todo <= names && Distinct(modules)
      invariant forall n :: n in modules <==> n in names - todo
      decreases todo
    {
      var n :| n in todo;
      assert n !in modules;
      modules, todo := modules + [n], todo - {n};
    }
    StringLessIsStrictTotal();
    SortMembers(modules, StringLess);
    SortStrict(modules, StringLess);
    modules := Sort(modules, StringLess);
    var buf := "";
    for i := 0 to |modules|
      invariant buf == Unlines(modules[..i])
    {
      assert modules[..i + 1][..i] == modules[..i];
      buf := buf + modules[i] + "\n";
    }
    assert modules[..|modules|] == modules;
    buf := buf + EXIT + "\n";
    text := if motd != "" then motd + "\n" else "";
    text := text + buf;
    assert Lists(modules, names) && text == Sent(motd, modules);
  }

  // ---------------------------------------------------------------- the round trip

  lemma ParseLine(line: string, rest: string, names: seq<string>)
    requires OneLine(line)
    ensures Parse(line + "\n" + rest, names) == if MARK <= line then Some(names) else Parse(rest, Take(names, line))
  {
    var s := line + "\n" + rest;
    LineEndIs(line, rest);
    assert s[..|line|] == line && s[|line| + 1..] == rest;
  }

  function TakeAll(names: seq<string>, lines: seq<string>): seq<string> {
    if lines == [] then names else Take(TakeAll(names, lines[..|lines| - 1]), lines[|lines| - 1])
  }

  /** A line that is read as names, not as the end mark. */
  predicate Plain(line: string) { OneLine(line) && !(MARK <= line) }

  lemma Reassociate(a: string, b: string, c: string)
    ensures a + (b + "\n" + c) == a + b + "\n" + c
  {
  }

  lemma {:induction false} ParseLines(lines: seq<string>, rest: string, names: seq<string>)
    requires forall l :: l in lines ==> Plain(l)
    ensures Parse(Unlines(lines) + rest, names) == Parse(rest, TakeAll(names, lines))
  {
    if lines == [] {
      assert Unlines(lines) + rest == rest;
    } else {
      var front, last := lines[..|lines| - 1], lines[|lines| - 1];
      assert last in lines && Plain(last);
      ParseLines(front, last + "\n" + rest, names);
      Reassociate(Unlines(front), last, rest);
      ParseLine(last, rest, TakeAll(names, front));
    }
  }

  lemma {:induction false} TakeGood(names: seq<string>, list: seq<string>)
    requires forall n :: n in list ==> Good(n)
    ensures TakeAll(names, list) == names + list
  {
    if list == [] {
    } else {
      TakeGood(names, list[..|list| - 1]);
      GoodIsItsWord(list[|list| - 1]);
    }
  }

  /** The lines of a text that need not end in a newline. */
  function SplitLines(s: string): (lines: seq<string>)
    ensures lines != []
  {
    var i := LineEnd(s);
    if i == |s| then [s] else [s[..i]] + SplitLines(s[i + 1..])
  }

  lemma {:induction false} UnlinesCons(line: string, lines: seq<string>)
    ensures Unlines([line] + lines) == line + "\n" + Unlines(lines)
  {
    if lines == [] {
      assert ([line] + lines)[..0] == [];
    } else {
      var front, last := lines[..|lines| - 1], lines[|lines| - 1];
      UnlinesCons(line, front);
      assert ([line] + lines)[..|lines|] == [line] + front;
    }
  }

  lemma CutAt(s: string, i: nat)
    requires i < |s| && s[i] == '\n'
    ensures s[..i] + "\n" + (s[i + 1..] + "\n") == s + "\n"
  {
    assert s == s[..i] + [s[i]] + s[i + 1..];
  }

  lemma UnlinesOne(line: string)
    ensures Unlines([line]) == line + "\n"
  {
    assert [line][..0] == [];
  }

  lemma {:induction false} SplitJoins(s: string)
    ensures Unlines(SplitLines(s)) == s + "\n"
  {
    var i := LineEnd(s);
    if i == |s| {
      UnlinesOne(s);
    } else {
      SplitJoins(s[i + 1..]);
      UnlinesCons(s[..i], SplitLines(s[i + 1..]));
      CutAt(s, i);
    }
  }

  lemma {:induction false} SplitsOneLine(s: string)
    ensures forall l :: l in SplitLines(s) ==> OneLine(l)
  {
    var i := LineEnd(s);
    if i == |s| {
      assert s[..i] == s;
    } else {
      SplitsOneLine(s[i + 1..]);
    }
  }

  /** Nothing of the MOTD is taken for a module exactly when its last line is blank. */
  lemma MotdIsDiscarded(lines: seq<string>)
    requires lines != []
    ensures TakeAll([], lines) == [] <==> Blank(lines[|lines| - 1])
  {
    BlankHasNoWord(lines[|lines| - 1]);
  }

  lemma EndOfListing(names: seq<string>)
    ensures Parse(EXIT + "\n", names) == Some(names)
  {
    assert EXIT + "\n" + "" == EXIT + "\n";
    ParseLine(EXIT, "", names);
    assert EXIT[..|MARK|] == MARK;
  }

  lemma ParsePrinted(list: seq<string>, names: seq<string>)
    requires forall n :: n in list ==> Good(n)
    ensures Parse(Printed(list), names) == Some(names + list)
  {
    forall n | n in list ensures Plain(n) { GoodIsItsWord(n); }
    assert Printed(list) == Unlines(list) + (EXIT + "\n");
    ParseLines(list, EXIT + "\n", names);
    TakeGood(names, list);
    EndOfListing(names + list);
  }

  /** The words of the MOTD that are taken for modules. */
  function Strays(motd: string): seq<string> {
    if motd == "" then [] else TakeAll([], SplitLines(motd))
  }

  lemma ParseSent(motd: string, list: seq<string>)
    requires forall n :: n in list ==> Good(n)
    requires forall l :: l in SplitLines(motd) ==> !(MARK <= l)
    ensures Parse(Sent(motd, list), []) == Some(Strays(motd) + list)
  {
    ParsePrinted(list, Strays(motd));
    if motd == "" {
      assert Sent(motd, list) == Printed(list);
    } else {
      SplitJoins(motd);
      SplitsOneLine(motd);
      ParseLines(SplitLines(motd), Printed(list), []);
    }
  }

  lemma NotBothWays(a: string, b: string)
    requires StringLess(a, b)
    ensures !StringLess(b, a)
  {
    StringLessIrreflexive(a);
    if StringLess(b, a) { StringLessTransitive(a, b, a); }
  }

  lemma AscendingIsSorted(list: seq<string>)
    requires forall i, j :: 0 <= i < j < |list| ==> StringLess(list[i], list[j])
    ensures Sorted(list, StringLess)
  {
    forall i, j | 0 <= i < j < |list| ensures !StringLess(list[j], list[i]) {
      NotBothWays(list[i], list[j]);
    }
  }

  lemma InOrderAlready(list: seq<string>)
    requires Sorted(list, StringLess)
    ensures Sort(list, StringLess) == list
  {
    StringLessIsStrictTotal();
    SortOk(list, StringLess);
    SortedUnique(Sort(list, StringLess), list, StringLess);
  }

  lemma SortKeepsLength(list: seq<string>)
    ensures |Sort(list, StringLess)| == |list|
  {
    StringLessIsStrictTotal();
    SortMembers(list, StringLess);
  }

  /** Sorting strays in with a list in order gives the list back only when there are none. */
  lemma StraysShow(strays: seq<string>, list: seq<string>)
    requires forall i, j :: 0 <= i < j < |list| ==> StringLess(list[i], list[j])
    ensures Sort(strays + list, StringLess) == list <==> strays == []
  {
    if strays == [] {
      assert strays + list == list;
      AscendingIsSorted(list);
      InOrderAlready(list);
    } else {
      SortKeepsLength(strays + list);
    }
  }

  /** No line of the MOTD starts with the mark. */
  predicate Unmarked(motd: string) {
    forall l :: l in SplitLines(motd) ==> !("@RSYNCD:" <= l)
  }

  /** The MOTD is empty or its last line is blank. */
  predicate EndsBlank(motd: string) {
    motd == "" || Blank(SplitLines(motd)[|SplitLines(motd)| - 1])
  }

  lemma StraysIffNotBlank(motd: string)
    ensures Strays(motd) == [] <==> EndsBlank(motd)
  {
    if motd != "" { MotdIsDiscarded(SplitLines(motd)); }
  }

  /** Reading back a listing of names that can be carried gives the same list; with a MOTD in
      front that has no line starting with the mark, exactly when the MOTD is empty or ends in
      a blank line. */
  lemma ListingRoundTrip(motd: string, names: set<string>, list: seq<string>)
    requires Lists(list, names) && (forall n :: n in names ==> Good(n)) && Unmarked(motd)
    ensures Discover(Sent(motd, list)) == Some(list) <==> EndsBlank(motd)
  {
    ParseSent(motd, list);
    StraysIffNotBlank(motd);
    StraysShow(Strays(motd), list);
  }
}
