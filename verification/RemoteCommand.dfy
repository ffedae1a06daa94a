// What a shell does with the remote download command: the tokens are run by a small
// interpreter for if-lists of tests, by sections 2.9.3 and 2.9.4 of the POSIX.1-2017
// Shell Command Language.
module RemoteCommand {
  import opened Strings
  import opened ShellQuote

  /** How the command ends: with a status, or by sending an archive of `member`, seen from
      `directory`. */
  datatype Ending = Exits(status: string) | Archives(directory: string, member: string) | NotUnderstood

  /** The words up to the next operator, and what is left. */
  function Simple(tokens: seq<Token>): (r: (seq<Token>, seq<Token>))
    ensures tokens == r.0 + r.1
    ensures r.1 != [] ==> r.1[0].Op?
    ensures forall t :: t in r.0 ==> t.Word?
  {
    if tokens == [] || tokens[0].Op? then ([], tokens)
    else
      var (words, rest) := Simple(tokens[1..]);
      ([tokens[0]] + words, rest)
  }

  /** `test -L path` or `! test -e path`. */
  function TestResult(words: seq<Token>, links: string -> bool, there: string -> bool): Option<bool> {
    if |words| == 3 && words[..2] == [Word("test"), Word("-L")] then Some(links(words[2].text))
    else if |words| == 4 && words[..3] == [Word("!"), Word("test"), Word("-e")] then Some(!there(words[3].text))
    else None
  }

  /** What follows the next semicolon, the semicolon included. */
  function FromSemicolon(tokens: seq<Token>): (rest: seq<Token>)
    ensures |rest| <= |tokens|
  {
    if tokens == [] || tokens[0] == Op(";") then tokens else FromSemicolon(tokens[1..])
  }

  /** An OR-list: the tests are made in turn until one succeeds. */
  function RunList(tokens: seq<Token>, links: string -> bool, there: string -> bool): (r: (Option<bool>, seq<Token>))
    ensures |r.1| <= |tokens|
    decreases |tokens|
  {
    var (words, rest) := Simple(tokens);
    var result := TestResult(words, links, there);
    if result.None? || rest == [] || rest[0] != Op("||") then (result, rest)
    else if result.value then (result, FromSemicolon(rest))
    else RunList(rest[1..], links, there)
  }

  function RunCommand(tokens: seq<Token>): Ending {
    var words := Simple(tokens).0;
    if |words| == 2 && words[0] == Word("exit") then Exits(words[1].text)
    else if |words| == 7 && words[..4] == [Word("tar"), Word("-cf"), Word("-"), Word("-C")] && words[5] == Word("--")
    then Archives(words[4].text, words[6].text)
    else NotUnderstood
  }

  /** From `if` or `elif` on: the list, and depending on it the first branch or the others. */
  function RunIf(tokens: seq<Token>, links: string -> bool, there: string -> bool): Ending
    decreases |tokens|
  {
    if |tokens| == 0 then NotUnderstood
    else
      var (result, rest) := RunList(tokens[1..], links, there);
      if result.None? || |rest| < 2 || rest[..2] != [Op(";"), Word("then")] then NotUnderstood
      else if result.value then RunCommand(rest[2..])
      else
        var others := FromSemicolon(rest[2..]);
        if |others| < 2 then NotUnderstood
        else if others[1] == Word("elif") then RunIf(others[1..], links, there)
        else if others[1] == Word("else") then RunCommand(others[2..])
        else NotUnderstood
  }

  function RunText(text: string, links: string -> bool, there: string -> bool): Ending {
    var tokens := Lex(text);
    if tokens.None? || tokens.value == [] || tokens.value[0] != Word("if") then NotUnderstood
    else RunIf(tokens.value, links, there)
  }

  // -------------------------------------------------------- the command

  lemma {:induction false} SimpleStops(words: seq<Token>, rest: seq<Token>)
    requires (forall t :: t in words ==> t.Word?) && rest != [] && rest[0].Op?
    ensures Simple(words + rest) == (words, rest)
    decreases words
  {
    if words == [] {
      assert words + rest == rest;
    } else {
      assert words[0] in words && (words + rest)[0] == words[0] && (words + rest)[1..] == words[1..] + rest;
      SimpleStops(words[1..], rest);
      assert words == [words[0]] + words[1..];
    }
  }

  lemma {:induction false} SkipsTo(tokens: seq<Token>, rest: seq<Token>)
    requires Op(";") !in tokens && rest != [] && rest[0] == Op(";")
    ensures FromSemicolon(tokens + rest) == rest
    decreases tokens
  {
    if tokens == [] {
      assert tokens + rest == rest;
    } else {
      assert tokens[0] in tokens && (tokens + rest)[0] == tokens[0] && (tokens + rest)[1..] == tokens[1..] + rest;
      SkipsTo(tokens[1..], rest);
    }
  }

  lemma TokensConcat(a: seq<Piece>, b: seq<Piece>)
    ensures Tokens(a + b) == Tokens(a) + Tokens(b)
  {
    hide PieceToken;
  }

  lemma {:induction false} TestsHoldNoSemicolon(paths: seq<string>)
    requires |paths| >= 1
    ensures Op(";") !in Tokens(TestPieces(paths))
    decreases paths
  {
    var first := [Raw("test"), Raw("-L"), Quoted(paths[0])];
    assert Tokens(first) == [Word("test"), Word("-L"), Word(paths[0])];
    if |paths| == 1 {
      assert TestPieces(paths) == first;
    } else {
      TestsHoldNoSemicolon(paths[1..]);
      TokensConcat(first, [OrOr] + TestPieces(paths[1..]));
      TokensConcat([OrOr], TestPieces(paths[1..]));
      assert Tokens([OrOr]) == [Op("||")];
    }
  }

  predicate AnyLink(paths: seq<string>, links: string -> bool) {
    exists i :: 0 <= i < |paths| && links(paths[i])
  }

  lemma OneTest(path: string, rest: seq<Token>, links: string -> bool, there: string -> bool)
    requires rest != [] && rest[0].Op?
    ensures Simple([Word("test"), Word("-L"), Word(path)] + rest) == ([Word("test"), Word("-L"), Word(path)], rest)
    ensures TestResult([Word("test"), Word("-L"), Word(path)], links, there) == Some(links(path))
  {
    SimpleStops([Word("test"), Word("-L"), Word(path)], rest);
  }

  lemma {:induction false} TestsRun(paths: seq<string>, tail: seq<Token>, links: string -> bool, there: string -> bool)
    requires |paths| >= 1 && tail != [] && tail[0] == Op(";")
    ensures RunList(Tokens(TestPieces(paths)) + tail, links, there) == (Some(AnyLink(paths, links)), tail)
    decreases paths
  {
    hide Simple, TestResult, FromSemicolon;
    var first := [Raw("test"), Raw("-L"), Quoted(paths[0])];
    var words := [Word("test"), Word("-L"), Word(paths[0])];
    assert Tokens(first) == words;
    if |paths| == 1 {
      assert TestPieces(paths) == first;
      OneTest(paths[0], tail, links, there);
    } else {
      var more := Tokens(TestPieces(paths[1..]));
      var rest := [Op("||")] + more + tail;
      TokensConcat(first, [OrOr] + TestPieces(paths[1..]));
      TokensConcat([OrOr], TestPieces(paths[1..]));
      assert Tokens([OrOr]) == [Op("||")];
      assert Tokens(TestPieces(paths)) + tail == words + rest;
      OneTest(paths[0], rest, links, there);
      TestsHoldNoSemicolon(paths[1..]);
      SkipsTo([Op("||")] + more, tail);
      assert rest[1..] == more + tail;
      TestsRun(paths[1..], tail, links, there);
      AnyLinkStep(paths, links);
    }
  }

  lemma AnyLinkStep(paths: seq<string>, links: string -> bool)
    requires |paths| > 1
    ensures AnyLink(paths, links) <==> links(paths[0]) || AnyLink(paths[1..], links)
  {
    if AnyLink(paths[1..], links) {
      var i :| 0 <= i < |paths[1..]| && links(paths[1..][i]);
      assert links(paths[i + 1]);
    }
    if AnyLink(paths, links) && !links(paths[0]) {
      var i :| 0 <= i < |paths| && links(paths[i]);
      assert links(paths[1..][i - 1]);
    }
  }

  /** The tokens behind the link tests, part by part. */
  function LinkExit(): seq<Token> {
    [Op(";"), Word("then"), Word("exit"), Word("74")]
  }

  function MissingTest(path: string): seq<Token> {
    [Op(";"), Word("elif"), Word("!"), Word("test"), Word("-e"), Word(path)]
  }

  function MissingExit(): seq<Token> {
    [Op(";"), Word("then"), Word("exit"), Word("73")]
  }

  function Sending(relative: string): seq<Token> {
    [Op(";"), Word("else"), Word("tar"), Word("-cf"), Word("-"), Word("-C"), Word("/sandbox"), Word("--"),
     Word(relative), Op(";"), Word("fi")]
  }

  lemma CommandTokens(relative: string)
    ensures Tokens(CommandPieces(relative)) ==
      [Word("if")] + Tokens(TestPieces(Prefixes(Split(relative, '/'), 0)))
      + LinkExit() + MissingTest("/sandbox/" + relative) + MissingExit() + Sending(relative)
  {
    hide Prefixes, Split, TestPieces;
    var tests := TestPieces(Prefixes(Split(relative, '/'), 0));
    var a, b := [Raw("if")] + tests, ExitPieces("74");
    var c, d, e := ExistsPieces("/sandbox/" + relative), ExitPieces("73"), ArchivePieces(relative);
    TokensConcat([Raw("if")], tests);
    TokensConcat(a, b);
    TokensConcat(a + b, c);
    TokensConcat(a + b + c, d);
    TokensConcat(a + b + c + d, e);
    assert Tokens([Raw("if")]) == [Word("if")];
    assert Tokens(b) == LinkExit() && Tokens(c) == MissingTest("/sandbox/" + relative);
    assert Tokens(d) == MissingExit() && Tokens(e) == Sending(relative);
  }

  lemma ExitRuns(status: string, rest: seq<Token>)
    requires rest != [] && rest[0] == Op(";")
    ensures RunCommand([Word("exit"), Word(status)] + rest) == Exits(status)
    ensures FromSemicolon([Word("exit"), Word(status)] + rest) == rest
  {
    hide Simple, FromSemicolon;
    SimpleStops([Word("exit"), Word(status)], rest);
    SkipsTo([Word("exit"), Word(status)], rest);
  }

  lemma SendingRuns(relative: string)
    ensures RunCommand(Sending(relative)[2..]) == Archives("/sandbox", relative)
  {
    hide Simple;
    var words := [Word("tar"), Word("-cf"), Word("-"), Word("-C"), Word("/sandbox"), Word("--"), Word(relative)];
    SimpleStops(words, [Op(";"), Word("fi")]);
    assert Sending(relative)[2..] == words + [Op(";"), Word("fi")];
  }

  lemma MissingRuns(path: string, relative: string, links: string -> bool, there: string -> bool)
    ensures RunIf((MissingTest(path) + MissingExit() + Sending(relative))[1..], links, there)
         == if there(path) then Archives("/sandbox", relative) else Exits("73")
  {
    hide Simple, FromSemicolon, RunCommand;
    var tail := MissingExit() + Sending(relative);
    var words := [Word("!"), Word("test"), Word("-e"), Word(path)];
    var tokens := (MissingTest(path) + MissingExit() + Sending(relative))[1..];
    assert tokens == [Word("elif")] + (words + tail);
    assert tokens[1..] == words + tail;
    SimpleStops(words, tail);
    assert TestResult(words, links, there) == Some(!there(path));
    assert RunList(words + tail, links, there) == (Some(!there(path)), tail);
    assert tail[2..] == [Word("exit"), Word("73")] + Sending(relative);
    ExitRuns("73", Sending(relative));
    SendingRuns(relative);
  }

  /** What the remote command does, whatever is on the remote disk: it ends with status 74
      exactly when a component of the requested path is a link, otherwise with status 73
      exactly when the path does not exist, and otherwise it sends exactly that path. */
  lemma CommandRuns(relative: string, links: string -> bool, there: string -> bool)
    ensures RunText(CommandText(relative), links, there) ==
      if AnyLink(Prefixes(Split(relative, '/'), 0), links) then Exits("74")
      else if !there("/sandbox/" + relative) then Exits("73")
      else Archives("/sandbox", relative)
  {
    hide Lex, CommandText, Prefixes, Split, TestPieces, Tokens, RunList, RunCommand, FromSemicolon, Simple,
      CommandPieces, AnyLink;
    CommandTestsEveryPrefix(relative);
    CommandTokens(relative);
    PrefixesExist(relative);
    var paths, path := Prefixes(Split(relative, '/'), 0), "/sandbox/" + relative;
    var after := MissingTest(path) + MissingExit() + Sending(relative);
    var tail := LinkExit() + after;
    var tokens := Tokens(CommandPieces(relative));
    assert tokens == [Word("if")] + (Tokens(TestPieces(paths)) + tail);
    assert tokens[1..] == Tokens(TestPieces(paths)) + tail;
    TestsRun(paths, tail, links, there);
    assert tail[2..] == [Word("exit"), Word("74")] + after;
    ExitRuns("74", after);
    MissingRuns(path, relative, links, there);
  }

  lemma PrefixesExist(relative: string)
    ensures |Prefixes(Split(relative, '/'), 0)| >= 1
  {}
}
