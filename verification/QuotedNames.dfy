/** Selected names are shown in the line edit of the file dialog, quoted if there are several, and read back from it. */
module QuotedNames {

  const QUOTE := '\"'

  /** What the dialog knows of files: whether names follow the rules of Windows, which ones exist in the current
      directory, and the home directory. */
  datatype Files = Files(windows: bool, present: string -> bool, home: string)

  // ----- from names to text

  function Join(names: seq<string>): string {
    if names == [] then "" else if |names| == 1 then names[0] else names[0] + " " + Join(names[1..])
  }

  function Quoted(names: seq<string>): seq<string> {
    seq(|names|, i requires 0 <= i < |names| => "\"" + names[i] + "\"")
  }

  function Shown(names: seq<string>): string {
    Join(if |names| > 1 then Quoted(names) else names)
  }

  /** The end of _q_selectionChanged. */
  method Show(names: seq<string>) returns (text: string)
    ensures text == Shown(names)
  {
    var allFiles := names;
    if |allFiles| > 1 {
      for i := 0 to |allFiles|
        invariant |allFiles| == |names|
        invariant allFiles == Quoted(names)[..i] + names[i..]
      {
        allFiles := allFiles[i := "\"" + allFiles[i] + "\""];
      }
    }
    assert Quoted(names)[..|names|] + names[|names|..] == Quoted(names);
    text := Join(allFiles);
  }

  /** One name is shown bare, several are quoted, with a blank between them. */
  lemma {:induction false} ShownIs(names: seq<string>, last: string)
    ensures Shown([last]) == last
    ensures |names| == 1 ==> Shown(names + [last]) == "\"" + names[0] + "\" \"" + last + "\""
    ensures |names| > 1 ==> Shown(names + [last]) == Shown(names) + " \"" + last + "\""
  {
    if names != [] {
      assert Quoted(names + [last]) == Quoted(names) + ["\"" + last + "\""];
      JoinMore(Quoted(names), "\"" + last + "\"");
      if |names| == 1 { assert Quoted(names) == ["\"" + names[0] + "\""]; }
    }
  }

  lemma {:induction false} JoinMore(names: seq<string>, last: string)
    requires names != []
    ensures Join(names + [last]) == Join(names) + " " + last
  {
    if |names| == 1 {
      assert (names + [last])[1..] == [last];
    } else {
      assert (names + [last])[1..] == names[1..] + [last];
      JoinMore(names[1..], last);
      assert names[0] + " " + (Join(names[1..]) + " " + last) == names[0] + " " + Join(names[1..]) + " " + last;
    }
  }

  // ----- from text to names

  /** The first quote of s, or |s|. */
  function FirstQuote(s: string): (i: nat)
    ensures i <= |s|
    ensures i < |s| ==> s[i] == QUOTE
    ensures QUOTE !in s[..i]
  {
    if s == [] || s[0] == QUOTE then 0 else 1 + FirstQuote(s[1..])
  }

  function Split(s: string): (tokens: seq<string>)
    ensures |tokens| > 0
    decreases |s|
  {
    var i := FirstQuote(s);
    if i == |s| then [s] else [s[..i]] + Split(s[i + 1..])
  }

  /** Every even token is a separator. */
  ghost function Odd(tokens: seq<string>): seq<string> {
    if |tokens| < 2 then [] else [tokens[1]] + Odd(tokens[2..])
  }

  ghost function NamesIn(text: string): seq<string> {
    if QUOTE !in text then [text] else Odd(Split(text))
  }

  /** qt_tildeExpansion. */
  function Expanded(fs: Files, name: string): string {
    if name != [] && name[0] == '~' && (|name| == 1 || name[1] == '/') then fs.home + name[1..] else name
  }

  function Read(fs: Files, name: string): string {
    if fs.windows || fs.present(name) then name else Expanded(fs, name)
  }

  /** An absent name is read with the home directory for a tilde that stands alone or in front of a slash; any other
      name is read as it is. */
  lemma TildeIsHome(fs: Files, rest: string)
    requires !fs.windows
    ensures !fs.present("~") ==> Read(fs, "~") == fs.home
    ensures !fs.present("~/" + rest) ==> Read(fs, "~/" + rest) == fs.home + "/" + rest
  {
    assert ("~/" + rest)[1..] == "/" + rest && "~"[1..] == "";
    assert fs.home + ("/" + rest) == fs.home + "/" + rest;
  }

  lemma ReadAsIs(fs: Files, name: string)
    requires fs.windows || fs.present(name) || name == "" || name[0] != '~' || (|name| > 1 && name[1] != '/')
    ensures Read(fs, name) == name
  {}

  ghost function ReadAll(fs: Files, names: seq<string>): seq<string> {
    seq(|names|, i requires 0 <= i < |names| => Read(fs, names[i]))
  }

  /** typedFiles, without the default suffix. */
  method TypedFiles(fs: Files, editText: string) returns (files: seq<string>)
    ensures files == ReadAll(fs, NamesIn(editText))
  {
    files := [];
    if QUOTE !in editText {
      files := files + [Read(fs, editText)];
    } else {
      files := TokenFiles(fs, Split(editText));
    }
  }

  method TokenFiles(fs: Files, tokens: seq<string>) returns (files: seq<string>)
    ensures files == ReadAll(fs, Odd(tokens))
  {
    files := [];
    for i := 0 to |tokens|
      invariant files + ReadAll(fs, OddFrom(tokens, i)) == ReadAll(fs, Odd(tokens))
    {
      ReadStep(fs, files, tokens, i);
      if i % 2 == 1 {
        files := files + [Read(fs, tokens[i])];
      }
    }
    OddEnd(tokens);
  }

  /** The tokens that are still to be read at place i. */
  ghost function OddFrom(tokens: seq<string>, i: nat): seq<string>
    requires i <= |tokens|
  {
    Odd(if i % 2 == 0 then tokens[i..] else tokens[i - 1..])
  }

  lemma OddStep(tokens: seq<string>, i: nat)
    requires i < |tokens|
    ensures OddFrom(tokens, i) == if i % 2 == 1 then [tokens[i]] + OddFrom(tokens, i + 1) else OddFrom(tokens, i + 1)
  {
    if i % 2 == 1 {
      assert tokens[i - 1..][1] == tokens[i];
      assert tokens[i - 1..][2..] == tokens[i + 1..];
    }
  }

  lemma OddEnd(tokens: seq<string>)
    ensures OddFrom(tokens, |tokens|) == []
  {}

  lemma ReadStep(fs: Files, files: seq<string>, tokens: seq<string>, i: nat)
    requires i < |tokens|
    ensures files + ReadAll(fs, OddFrom(tokens, i)) ==
            (if i % 2 == 1 then files + [Read(fs, tokens[i])] else files) + ReadAll(fs, OddFrom(tokens, i + 1))
  {
    OddStep(tokens, i);
    ReadMore(fs, files, tokens[i], OddFrom(tokens, i + 1));
  }

  lemma ReadMore(fs: Files, files: seq<string>, name: string, rest: seq<string>)
    ensures files + ReadAll(fs, [name] + rest) == files + [Read(fs, name)] + ReadAll(fs, rest)
  {
    assert ReadAll(fs, [name] + rest) == [Read(fs, name)] + ReadAll(fs, rest);
  }

  // ----- the round trip

  ghost predicate NoQuotes(names: seq<string>) {
    forall i :: 0 <= i < |names| ==> QUOTE !in names[i]
  }

  lemma {:induction false} FirstQuoteIs(a: string, rest: string)
    requires QUOTE !in a
    ensures FirstQuote(a + "\"" + rest) == |a|
  {
    if a == [] {
    } else {
      assert (a + "\"" + rest)[1..] == a[1..] + "\"" + rest;
      FirstQuoteIs(a[1..], rest);
    }
  }

  lemma SplitToken(a: string, rest: string)
    requires QUOTE !in a
    ensures Split(a + "\"" + rest) == [a] + Split(rest)
  {
    FirstQuoteIs(a, rest);
    var s := a + "\"" + rest;
    assert s[..|a|] == a && s[|a| + 1..] == rest;
  }

  lemma OddPair(p: string, name: string, rest: seq<string>)
    ensures Odd([p] + ([name] + rest)) == [name] + Odd(rest)
  {
    assert ([p] + ([name] + rest))[2..] == rest;
  }

  /** What follows the closing quote of the first name. */
  ghost function After(names: seq<string>): string
    requires names != []
  {
    if |names| == 1 then "" else " " + Join(Quoted(names[1..]))
  }

  lemma JoinQuoted(names: seq<string>)
    requires names != []
    ensures Join(Quoted(names)) == "\"" + names[0] + "\"" + After(names)
  {
    assert Quoted(names)[1..] == Quoted(names[1..]);
    if |names| > 1 { assert "\"" + names[0] + "\"" + " " + Join(Quoted(names[1..])) ==
                            "\"" + names[0] + "\"" + (" " + Join(Quoted(names[1..]))); }
  }

  lemma Regroup<T>(a: seq<T>, b: seq<T>, c: seq<T>, d: seq<T>, e: seq<T>)
    ensures a + (b + c + d + e) == a + b + (c + d + e)
  {
    assert b + c + d + e == b + (c + d + e);
  }

  lemma SplitName(p: string, name: string, rest: string)
    requires QUOTE !in p && QUOTE !in name
    ensures Odd(Split(p + ("\"" + name + "\"" + rest))) == [name] + Odd(Split(rest))
  {
    Regroup(p, "\"", name, "\"", rest);
    SplitToken(p, name + "\"" + rest);
    SplitToken(name, rest);
    OddPair(p, name, Split(rest));
  }

  lemma NothingLeft()
    ensures Odd(Split("")) == []
  {
    assert Split("") == [""];
  }

  lemma {:induction false} OddOfJoined(p: string, names: seq<string>)
    requires QUOTE !in p && NoQuotes(names) && names != []
    ensures Odd(Split(p + Join(Quoted(names)))) == names
    decreases |names|
  {
    JoinQuoted(names);
    SplitName(p, names[0], After(names));
    if |names| > 1 {
      OddOfJoined(" ", names[1..]);
      assert names == [names[0]] + names[1..];
    } else {
      NothingLeft();
    }
  }

  lemma {:induction false} SplitHasNoQuotes(s: string)
    ensures NoQuotes(Split(s))
    decreases |s|
  {
    var i := FirstQuote(s);
    if i < |s| { SplitHasNoQuotes(s[i + 1..]); } else { assert s[..i] == s; }
  }

  lemma {:induction false} OddHasNoQuotes(tokens: seq<string>)
    requires NoQuotes(tokens)
    ensures NoQuotes(Odd(tokens))
  {
    if |tokens| >= 2 { OddHasNoQuotes(tokens[2..]); }
  }

  /** Names come back as they were, in their order, just when there is a name and none of them has a quote in it. */
  lemma RoundTripIff(names: seq<string>)
    ensures NamesIn(Shown(names)) == names <==> names != [] && NoQuotes(names)
  {
    if names != [] && NoQuotes(names) {
      if |names| > 1 {
        OddOfJoined("", names);
        assert "" + Shown(names) == Shown(names);
        assert Shown(names)[0] == Quoted(names)[0][0] == QUOTE;
      }
    } else if names != [] {
      SplitHasNoQuotes(Shown(names));
      OddHasNoQuotes(Split(Shown(names)));
    }
  }

  /** Names of files that exist are read back as themselves. */
  lemma SelectionIsRead(fs: Files, names: seq<string>)
    requires names != [] && NoQuotes(names)
    requires fs.windows || forall i :: 0 <= i < |names| ==> fs.present(names[i])
    ensures ReadAll(fs, NamesIn(Shown(names))) == names
  {
    RoundTripIff(names);
  }
}
