// shellQuote and remoteDownloadCommand, read back by a shell lexer: quoting by
// sections 2.2.1 and 2.2.2, token recognition by section 2.3 of the POSIX.1-2017
// Shell Command Language.
module ShellQuote {
  import opened Strings

  datatype Token = Word(text: string) | Op(text: string)

  datatype Mode = Unquoted | SingleQuoted | Escaped

  /** The lexer: finished tokens and the word or operator being read. `bad` marks
      unquoted characters whose meaning this lexer does not give. */
  datatype Lexer = Lexer(tokens: seq<Token>, word: Option<string>, op: string, mode: Mode, bad: bool)

  const LEXER_START := Lexer([], None, "", Unquoted, false)

  predicate IsOperator(s: string) {
    s in {"|", "||", "&", "&&", ";", ";;", "<", "<<", ">", ">>", "(", ")"}
  }

  /** Characters that only stand for themselves when unquoted. */
  predicate Ordinary(c: char) {
    'a' <= c <= 'z' || 'A' <= c <= 'Z' || '0' <= c <= '9' || c in {'-', '_', '/', '.', '!', ',', '+', ':', '@', '%'}
  }

  /** End the word or operator being read. */
  function Delimit(l: Lexer): Lexer {
    if l.word.Some? then l.(tokens := l.tokens + [Word(l.word.value)], word := None)
    else if l.op != "" then l.(tokens := l.tokens + [Op(l.op)], op := "")
    else l
  }

  function Append(l: Lexer, c: char): Lexer {
    l.(word := Some((if l.word.Some? then l.word.value else "") + [c]))
  }

  /** An unquoted character, when no operator is being read. */
  function LexUnquoted(l: Lexer, c: char): Lexer {
    if c == '\'' then l.(mode := SingleQuoted, word := if l.word.Some? then l.word else Some(""))
    else if c == '\\' then l.(mode := Escaped)
    else if c == ' ' || c == '\t' then Delimit(l)
    else if IsOperator([c]) then Delimit(l).(op := [c])
    else if Ordinary(c) then Append(l, c)
    else l.(bad := true)
  }

  function LexChar(l: Lexer, c: char): Lexer {
    match l.mode
    case SingleQuoted => if c == '\'' then l.(mode := Unquoted) else Append(l, c)
    case Escaped => if c == '\n' then l.(mode := Unquoted) else Append(l, c).(mode := Unquoted)
    case Unquoted =>
      if l.op != "" && IsOperator(l.op + [c]) then l.(op := l.op + [c])
      else LexUnquoted(if l.op != "" then Delimit(l) else l, c)
  }

  function Run(l: Lexer, text: string): Lexer
    decreases text
  {
    if text == "" then l else Run(LexChar(l, text[0]), text[1..])
  }

  /** None for an unterminated quotation or an unsupported character. */
  function Lex(text: string): Option<seq<Token>> {
    var l := Run(LEXER_START, text);
    if l.bad || l.mode != Unquoted then None else Some(Delimit(l).tokens)
  }

  /** strings.ReplaceAll(value, "'", "'\\''"). */
  function EscapeQuotes(value: string): string {
    if value == "" then ""
    else (if value[0] == '\'' then "'\\''" else [value[0]]) + EscapeQuotes(value[1..])
  }

  function Quote(value: string): string {
    "'" + EscapeQuotes(value) + "'"
  }

  lemma {:induction false} RunConcat(l: Lexer, a: string, b: string)
    ensures Run(l, a + b) == Run(Run(l, a), b)
    decreases a
  {
    if a == "" {
      assert a + b == b;
    } else {
      assert (a + b)[1..] == a[1..] + b;
      RunConcat(LexChar(l, a[0]), a[1..], b);
    }
  }

  lemma RunOne(l: Lexer, c: char)
    ensures Run(l, [c]) == LexChar(l, c)
  {
    assert [c][1..] == "";
  }

  /** The four characters that stand for a quote: close, escaped quote, reopen. */
  lemma EscapedQuoteIsRead(l: Lexer)
    requires l.mode == SingleQuoted && l.word.Some? && l.op == ""
    ensures Run(l, ['\'', '\\', '\'', '\'']) == Append(l, '\'')
  {
    var l1, l2 := l.(mode := Unquoted), l.(mode := Escaped);
    var l3 := Append(l, '\'').(mode := Unquoted);
    RunOne(l, '\'');
    RunOne(l1, '\\');
    RunOne(l2, '\'');
    RunOne(l3, '\'');
    RunConcat(l, ['\''], ['\\']);
    RunConcat(l, ['\'', '\\'], ['\'']);
    RunConcat(l, ['\'', '\\', '\''], ['\'']);
    assert ['\''] + ['\\'] == ['\'', '\\'];
    assert ['\'', '\\'] + ['\''] == ['\'', '\\', '\''];
    assert ['\'', '\\', '\''] + ['\''] == ['\'', '\\', '\'', '\''];
  }

  /** Inside quotes an escaped text adds exactly the text. */
  lemma {:induction false} EscapedTextIsRead(l: Lexer, value: string)
    requires l.mode == SingleQuoted && l.word.Some? && l.op == ""
    ensures Run(l, EscapeQuotes(value)) == l.(word := Some(l.word.value + value))
    decreases value
  {
    if value == "" {
      assert l.word.value + value == l.word.value;
    } else {
      var head := if value[0] == '\'' then "'\\''" else [value[0]];
      RunConcat(l, head, EscapeQuotes(value[1..]));
      var next := l.(word := Some(l.word.value + [value[0]]));
      assert Run(l, head) == next by {
        if value[0] == '\'' {
          assert head == ['\'', '\\', '\'', '\''];
          EscapedQuoteIsRead(l);
        } else {
          RunOne(l, value[0]);
        }
      }
      EscapedTextIsRead(next, value[1..]);
      assert l.word.value + value == (l.word.value + [value[0]]) + value[1..];
    }
  }

  lemma QuotedWordIsRead(l: Lexer, value: string)
    requires l.mode == Unquoted && l.word.None? && l.op == ""
    ensures Run(l, Quote(value)) == l.(word := Some(value))
  {
    var inside := l.(mode := SingleQuoted, word := Some(""));
    assert ("'")[1..] == "";
    assert Run(l, "'") == inside;
    RunConcat(l, "'" + EscapeQuotes(value), "'");
    RunConcat(l, "'", EscapeQuotes(value));
    EscapedTextIsRead(inside, value);
    assert "" + value == value;
    assert Run(inside.(word := Some(value)), "'") == l.(word := Some(value));
  }

  /** Quote round trip: a quoted string lexes to one word, the string itself. */
  lemma QuoteRoundTrip(value: string)
    ensures Lex(Quote(value)) == Some([Word(value)])
  {
    QuotedWordIsRead(LEXER_START, value);
    assert [] + [Word(value)] == [Word(value)];
  }

  // ------------------------------------------------------------ the command

  const PATH_MISSING_STATUS := "73"
  const PATH_SYMLINK_STATUS := "74"

  /** The tests of remoteDownloadCommand, one per component, from directory `current` on. */
  function Checks(current: string, components: seq<string>): seq<string>
    decreases components
  {
    if components == [] then []
    else
      var next := current + "/" + components[0];
      ["test -L " + Quote(next)] + Checks(next, components[1..])
  }

  function CommandText(relative: string): string {
    "if " + JoinText(Checks("/sandbox", Split(relative, '/')), " || ")
    + "; then exit " + PATH_SYMLINK_STATUS
    + "; elif ! test -e " + Quote("/sandbox/" + relative)
    + "; then exit " + PATH_MISSING_STATUS
    + "; else tar -cf - -C '/sandbox' -- " + Quote(relative) + "; fi"
  }

  /** remoteDownloadCommand. */
  method RemoteDownloadCommand(relative: string) returns (command: string)
    ensures command == CommandText(relative)
  {
    var components := Split(relative, '/');
    var current := "/sandbox";
    var checks: seq<string> := [];
    var i := 0;
    while i < |components|
      invariant 0 <= i <= |components|
      invariant checks + Checks(current, components[i..]) == Checks("/sandbox", components)
    {
      assert components[i..][0] == components[i] && components[i..][1..] == components[i + 1..];
      current := current + "/" + components[i];
      checks := checks + ["test -L " + Quote(current)];
      i := i + 1;
    }
    assert checks == Checks("/sandbox", components);
    command := "if " + JoinText(checks, " || ")
      + "; then exit " + PATH_SYMLINK_STATUS
      + "; elif ! test -e " + Quote("/sandbox/" + relative)
      + "; then exit " + PATH_MISSING_STATUS
      + "; else tar -cf - -C '/sandbox' -- " + Quote(relative) + "; fi";
  }

  // ---------------------------------------------- what the shell makes of it

  /** The paths of the non-empty prefixes of the requested path, shortest first. */
  function Prefixes(components: seq<string>, n: nat): (paths: seq<string>)
    requires n <= |components|
    ensures |paths| == |components| - n
    ensures forall k :: 0 <= k < |paths| ==> paths[k] == "/sandbox/" + Join(components[..n + k + 1], '/')
    decreases |components| - n
  {
    if n == |components| then []
    else ["/sandbox/" + Join(components[..n + 1], '/')] + Prefixes(components, n + 1)
  }

  /** A piece of command text and the token it should become. */
  datatype Piece = Raw(text: string) | Quoted(text: string) | OrOr | Semi

  function PieceText(p: Piece): string {
    match p
    case Raw(text) => " " + text
    case Quoted(text) => " " + Quote(text)
    case OrOr => " ||"
    case Semi => ";"
  }

  function PieceToken(p: Piece): Token {
    match p
    case Raw(text) => Word(text)
    case Quoted(text) => Word(text)
    case OrOr => Op("||")
    case Semi => Op(";")
  }

  function Text(pieces: seq<Piece>): string {
    if pieces == [] then "" else PieceText(pieces[0]) + Text(pieces[1..])
  }

  function Tokens(pieces: seq<Piece>): seq<Token> {
    seq(|pieces|, i requires 0 <= i < |pieces| => PieceToken(pieces[i]))
  }

  predicate WellFormedPiece(p: Piece) {
    p.Raw? ==> p.text != "" && forall c :: c in p.text ==> Ordinary(c)
  }

  /** No two semicolons touch: they would be read as one operator. */
  predicate WellFormed(pieces: seq<Piece>) {
    && (forall i :: 0 <= i < |pieces| ==> WellFormedPiece(pieces[i]))
    && (forall i :: 0 < i < |pieces| && pieces[i].Semi? ==> !pieces[i - 1].Semi?)
  }

  /** Between pieces the lexer is outside quotes and holds at most one word or operator. */
  predicate Steady(l: Lexer) {
    && l.mode == Unquoted
    && !l.bad
    && (l.op != "" ==> l.word.None? && l.op in {";", "||"})
  }

  lemma SpaceDelimits(l: Lexer)
    requires Steady(l)
    ensures Run(l, " ") == Delimit(l)
  {
    RunOne(l, ' ');
    if l.op != "" {
      assert l.op + [' '] == "; " || l.op + [' '] == "|| ";
    }
  }

  lemma {:induction false} RawIsRead(l: Lexer, text: string)
    requires l.mode == Unquoted && l.op == ""
    requires forall c :: c in text ==> Ordinary(c)
    requires l.word.Some? || text != ""
    ensures Run(l, text) == l.(word := Some((if l.word.Some? then l.word.value else "") + text))
    decreases text
  {
    var before := if l.word.Some? then l.word.value else "";
    if text == "" {
      assert before + text == before;
    } else {
      assert text[0] in text && forall c :: c in text[1..] ==> c in text;
      SingleOperators(text[0]);
      assert LexChar(l, text[0]) == Append(l, text[0]);
      RawIsRead(Append(l, text[0]), text[1..]);
      assert before + text == (before + [text[0]]) + text[1..];
    }
  }

  lemma SingleOperators(c: char)
    ensures IsOperator([c]) ==> c in {'|', '&', ';', '<', '>', '(', ')'}
  {
    assert [c][0] == c;
  }

  lemma OrOrIsRead(l: Lexer)
    requires Steady(l) && l.word.None? && l.op == ""
    ensures Run(l, "||") == l.(op := "||")
  {
    var l1 := l.(op := "|");
    RunOne(l, '|');
    RunOne(l1, '|');
    RunConcat(l, "|", "|");
    assert "|" + "|" == "||";
    assert "|" + ['|'] == "||";
    assert ['|'] == "|";
  }

  lemma SemiIsRead(l: Lexer)
    requires Steady(l) && l.op != ";"
    ensures Run(l, ";") == Delimit(l).(op := ";")
  {
    RunOne(l, ';');
    assert [';'] == ";";
    if l.op != "" {
      assert l.op + [';'] == "||;";
    }
  }

  /** Reading one piece adds exactly its token. */
  lemma PieceIsRead(l: Lexer, p: Piece)
    requires Steady(l) && WellFormedPiece(p) && (p.Semi? ==> l.op != ";")
    ensures var r := Run(l, PieceText(p));
      Steady(r) && (r.op == ";" <==> p.Semi?) && Delimit(r).tokens == Delimit(l).tokens + [PieceToken(p)]
  {
    var d := Delimit(l);
    match p
    case Raw(text) =>
      SpaceDelimits(l); RunConcat(l, " ", text); RawIsRead(d, text);
      assert "" + text == text;
    case Quoted(text) =>
      SpaceDelimits(l); RunConcat(l, " ", Quote(text)); QuotedWordIsRead(d, text);
    case OrOr =>
      SpaceDelimits(l); RunConcat(l, " ", "||"); OrOrIsRead(d);
      assert " " + "||" == " ||";
    case Semi =>
      SemiIsRead(l);
  }

  lemma {:induction false} PiecesAreRead(l: Lexer, pieces: seq<Piece>)
    requires Steady(l) && WellFormed(pieces)
    requires pieces != [] && pieces[0].Semi? ==> l.op != ";"
    ensures var r := Run(l, Text(pieces));
      Steady(r) && Delimit(r).tokens == Delimit(l).tokens + Tokens(pieces)
    decreases pieces
  {
    hide PieceText, PieceToken, WellFormedPiece, LexChar, Delimit;
    if pieces == [] {
      assert Delimit(l).tokens + Tokens(pieces) == Delimit(l).tokens;
    } else {
      var next := Run(l, PieceText(pieces[0]));
      PieceIsRead(l, pieces[0]);
      RunConcat(l, PieceText(pieces[0]), Text(pieces[1..]));
      PiecesAreRead(next, pieces[1..]);
      assert Tokens(pieces) == [PieceToken(pieces[0])] + Tokens(pieces[1..]);
    }
  }

  /** A text that reads as pieces after a leading blank lexes to their tokens. */
  lemma TextLexesToTokens(text: string, pieces: seq<Piece>)
    requires WellFormed(pieces) && " " + text == Text(pieces)
    ensures Lex(text) == Some(Tokens(pieces))
  {
    SpaceDelimits(LEXER_START);
    RunConcat(LEXER_START, " ", text);
    PiecesAreRead(LEXER_START, pieces);
    assert [] + Tokens(pieces) == Tokens(pieces);
  }

  lemma {:induction false} TextConcat(a: seq<Piece>, b: seq<Piece>)
    ensures Text(a + b) == Text(a) + Text(b)
    decreases a
  {
    if a == [] {
      assert a + b == b;
    } else {
      assert (a + b)[1..] == a[1..] + b;
      TextConcat(a[1..], b);
    }
  }

  /** The tests as pieces: `test -L <path>` for each path, joined by "||". */
  function TestPieces(paths: seq<string>): seq<Piece>
    requires |paths| >= 1
  {
    [Raw("test"), Raw("-L"), Quoted(paths[0])]
    + if |paths| == 1 then [] else [OrOr] + TestPieces(paths[1..])
  }

  function CheckTexts(paths: seq<string>): seq<string> {
    if paths == [] then [] else ["test -L " + Quote(paths[0])] + CheckTexts(paths[1..])
  }

  function ExitPieces(status: string): seq<Piece> {
    [Semi, Raw("then"), Raw("exit"), Raw(status)]
  }

  function ExistsPieces(path: string): seq<Piece> {
    [Semi, Raw("elif"), Raw("!"), Raw("test")] + [Raw("-e"), Quoted(path)]
  }

  function ArchivePieces(relative: string): seq<Piece> {
    [Semi, Raw("else"), Raw("tar"), Raw("-cf")] + [Raw("-"), Raw("-C"), Quoted("/sandbox"), Raw("--")]
    + [Quoted(relative), Semi, Raw("fi")]
  }

  /** The whole command: which path each branch tests, the exit statuses, and the archive. */
  function CommandPieces(relative: string): seq<Piece> {
    [Raw("if")] + TestPieces(Prefixes(Split(relative, '/'), 0)) + ExitPieces("74")
    + ExistsPieces("/sandbox/" + relative) + ExitPieces("73") + ArchivePieces(relative)
  }

  lemma Assoc(a: string, b: string, c: string)
    ensures (a + b) + c == a + (b + c)
  {}

  lemma TextOfOne(p: Piece)
    ensures Text([p]) == PieceText(p)
  {
    hide PieceText;
    assert [p][1..] == [];
    assert PieceText(p) + "" == PieceText(p);
  }

  lemma TextOfFew(a: Piece, b: Piece, c: Piece, d: Piece)
    ensures Text([a]) == PieceText(a)
    ensures Text([a, b]) == PieceText(a) + PieceText(b)
    ensures Text([a, b, c]) == PieceText(a) + (PieceText(b) + PieceText(c))
    ensures Text([a, b, c, d]) == PieceText(a) + (PieceText(b) + (PieceText(c) + PieceText(d)))
  {
    hide PieceText, Text;
    TextOfOne(a);
    TextOfOne(b);
    TextOfOne(c);
    TextOfOne(d);
    TextConcat([c], [d]);
    TextConcat([b], [c]);
    TextConcat([a], [b]);
    assert [c] + [d] == [c, d] && [b] + [c] == [b, c] && [a] + [b] == [a, b];
    TextConcat([b], [c, d]);
    TextConcat([a], [b, c]);
    assert [b] + [c, d] == [b, c, d] && [a] + [b, c] == [a, b, c];
    TextConcat([a], [b, c, d]);
    assert [a] + [b, c, d] == [a, b, c, d];
  }

  lemma {:induction false} ChecksFollowPrefixes(components: seq<string>, n: nat)
    requires n <= |components|
    ensures Checks(if n == 0 then "/sandbox" else "/sandbox/" + Join(components[..n], '/'), components[n..])
         == CheckTexts(Prefixes(components, n))
    decreases |components| - n
  {
    if n < |components| {
      var current := if n == 0 then "/sandbox" else "/sandbox/" + Join(components[..n], '/');
      assert components[n..][0] == components[n] && components[n..][1..] == components[n + 1..];
      assert current + "/" + components[n] == "/sandbox/" + Join(components[..n + 1], '/') by {
        assert components[..n + 1] == components[..n] + [components[n]];
        if n == 0 {
          assert components[..1] == [components[0]];
          assert "/sandbox" + "/" == "/sandbox/";
        } else {
          JoinConcat(components[..n], [components[n]], '/');
          assert ['/'] == "/";
        }
      }
      ChecksFollowPrefixes(components, n + 1);
      assert Prefixes(components, n)[1..] == Prefixes(components, n + 1);
    }
  }

  lemma TestText(path: string)
    ensures Text([Raw("test"), Raw("-L"), Quoted(path)]) == " " + ("test -L " + Quote(path))
  {
    hide Quote, Text;
    TextOfFew(Raw("test"), Raw("-L"), Quoted(path), Semi);
    var q := Quote(path);
    assert " " + "test" == " test" && " " + "-L" == " -L" && " -L" + (" " + q) == " -L " + q;
    assert " test" + (" -L " + q) == " " + ("test -L " + q);
  }

  lemma {:induction false} TestsText(paths: seq<string>)
    requires |paths| >= 1
    ensures Text(TestPieces(paths)) == " " + JoinText(CheckTexts(paths), " || ")
    decreases paths
  {
    var head := [Raw("test"), Raw("-L"), Quoted(paths[0])];
    var first := "test -L " + Quote(paths[0]);
    TestText(paths[0]);
    if |paths| == 1 {
      assert TestPieces(paths) == head + [] == head;
      assert CheckTexts(paths) == [first] + [] == [first];
    } else {
      TestsText(paths[1..]);
      var rest := JoinText(CheckTexts(paths[1..]), " || ");
      assert CheckTexts(paths)[1..] == CheckTexts(paths[1..]);
      assert |CheckTexts(paths[1..])| > 0;
      TextConcat([OrOr], TestPieces(paths[1..]));
      TextOfFew(OrOr, OrOr, OrOr, OrOr);
      TextConcat(head, [OrOr] + TestPieces(paths[1..]));
      JoinedByOrOr(first, rest);
    }
  }

  lemma JoinedByOrOr(first: string, rest: string)
    ensures (" " + first) + (" ||" + (" " + rest)) == " " + (first + " || " + rest)
  {
    assert " ||" + (" " + rest) == " || " + rest;
    Assoc(" ", first, " || " + rest);
    Assoc(first, " || ", rest);
  }

  lemma {:induction false} TestsWellFormed(paths: seq<string>)
    requires |paths| >= 1
    ensures WellFormed(TestPieces(paths))
    ensures forall p :: p in TestPieces(paths) ==> !p.Semi?
    decreases paths
  {
    if |paths| > 1 {
      TestsWellFormed(paths[1..]);
    }
  }

  lemma {:induction false} EscapeWithoutQuotes(value: string)
    requires '\'' !in value
    ensures EscapeQuotes(value) == value
    decreases value
  {
    if value != "" {
      assert value[0] in value && forall c :: c in value[1..] ==> c in value;
      EscapeWithoutQuotes(value[1..]);
    }
  }

  lemma ExitText(status: string)
    ensures Text(ExitPieces(status)) == "; then exit " + status
  {
    TextOfFew(Semi, Raw("then"), Raw("exit"), Raw(status));
    assert " exit" + (" " + status) == " exit " + status;
    assert " then" + (" exit " + status) == " then exit " + status;
    assert ";" + (" then exit " + status) == "; then exit " + status;
  }

  lemma ExistsText(path: string)
    ensures Text(ExistsPieces(path)) == "; elif ! test -e " + Quote(path)
  {
    hide Quote, Text;
    var q := Quote(path);
    var l := [Semi, Raw("elif"), Raw("!"), Raw("test")];
    TextOfFew(Semi, Raw("elif"), Raw("!"), Raw("test"));
    assert " " + "!" == " !" && " " + "test" == " test" && " " + "elif" == " elif";
    assert " !" + " test" == " ! test";
    assert " elif" + " ! test" == " elif ! test";
    assert ";" + " elif ! test" == "; elif ! test";
    TextOfFew(Raw("-e"), Quoted(path), Semi, Semi);
    assert " " + "-e" == " -e" && " -e" + (" " + q) == " -e " + q;
    TextConcat(l, [Raw("-e"), Quoted(path)]);
    assert "; elif ! test" + (" -e " + q) == "; elif ! test -e " + q;
  }

  lemma ArchiveLiterals(q: string)
    ensures ";" + ((" " + "else") + ((" " + "tar") + (" " + "-cf"))) == "; else tar -cf"
    ensures (" " + "-") + ((" " + "-C") + ((" " + "'/sandbox'") + (" " + "--"))) == " - -C '/sandbox' --"
    ensures (" " + q) + (";" + (" " + "fi")) == " " + q + "; fi"
  {
    assert ";" + (" " + "fi") == "; fi";
  }

  lemma ArchivePrefixLiteral()
    ensures "; else tar -cf" + " - -C '/sandbox' --" + " " == "; else tar -cf - -C '/sandbox' -- "
  {}

  lemma QuotedSandbox(root: string)
    requires root == "/sandbox"
    ensures Quote(root) == "'/sandbox'"
  {
    hide EscapeQuotes;
    assert forall c :: c in root ==> c != '\'';
    EscapeWithoutQuotes(root);
    assert "'" + root == "'/sandbox";
  }

  lemma ArchiveText(relative: string)
    ensures Text(ArchivePieces(relative)) == "; else tar -cf - -C '/sandbox' -- " + Quote(relative) + "; fi"
  {
    var q := Quote(relative);
    var a := [Semi, Raw("else"), Raw("tar"), Raw("-cf")];
    var b := [Raw("-"), Raw("-C"), Quoted("/sandbox"), Raw("--")];
    ArchiveLiterals(q);
    ArchivePrefixLiteral();
    QuotedSandbox("/sandbox");
    TextOfFew(Semi, Raw("else"), Raw("tar"), Raw("-cf"));
    TextOfFew(Raw("-"), Raw("-C"), Quoted("/sandbox"), Raw("--"));
    TextOfFew(Quoted(relative), Semi, Raw("fi"), Semi);
    ArchiveTextFrom(Text(a), Text(b), q, "; else tar -cf - -C '/sandbox' -- ");
    TextConcat(a, b);
    TextConcat(a + b, [Quoted(relative), Semi, Raw("fi")]);
  }

  lemma ArchiveTextFrom(a: string, b: string, q: string, prefix: string)
    requires a + b + " " == prefix
    ensures (a + b) + (" " + q + "; fi") == prefix + q + "; fi"
  {
    Assoc(a + b, " " + q, "; fi");
    Assoc(a + b, " ", q);
  }

  /** Adding text on the right of a command whose left part is understood. */
  lemma TextGrows(before: string, pieces: seq<Piece>, added: string, more: seq<Piece>)
    requires " " + before == Text(pieces) && added == Text(more)
    ensures " " + (before + added) == Text(pieces + more)
  {
    TextConcat(pieces, more);
    Assoc(" ", before, added);
  }

  lemma WellFormedConcat(a: seq<Piece>, b: seq<Piece>)
    requires WellFormed(a) && WellFormed(b)
    requires a != [] ==> !a[|a| - 1].Semi?
    ensures WellFormed(a + b)
  {}

  lemma ExitWellFormed(status: string)
    requires WellFormedPiece(Raw(status))
    ensures WellFormed(ExitPieces(status))
  {
    hide WellFormedPiece;
    assert WellFormedPiece(Raw("then")) && WellFormedPiece(Raw("exit")) by { WordsWellFormed(); }
    assert WellFormedPiece(Semi) by { WordsWellFormed(); }
  }

  lemma WordsWellFormed()
    ensures WellFormedPiece(Semi)
    ensures WellFormedPiece(Raw("then")) && WellFormedPiece(Raw("exit")) && WellFormedPiece(Raw("74"))
      && WellFormedPiece(Raw("73"))
    ensures WellFormedPiece(Raw("if")) && WellFormedPiece(Raw("elif")) && WellFormedPiece(Raw("!"))
      && WellFormedPiece(Raw("test"))
    ensures WellFormedPiece(Raw("-e"))
  {}

  lemma FewWellFormed(relative: string)
    ensures WellFormed([Raw("if")])
    ensures WellFormed(ExitPieces("74"))
    ensures WellFormed(ExitPieces("73"))
    ensures WellFormed(ExistsPieces("/sandbox/" + relative))
  {
    WordsWellFormed();
    assert WellFormedPiece(Quoted("/sandbox/" + relative));
    hide WellFormedPiece;
    ExitWellFormed("74");
    ExitWellFormed("73");
    WellFormedConcat([Semi, Raw("elif"), Raw("!"), Raw("test")], [Raw("-e"), Quoted("/sandbox/" + relative)]);
  }

  lemma ArchiveWellFormed(relative: string)
    ensures WellFormed(ArchivePieces(relative))
  {
    WellFormedConcat([Semi, Raw("else"), Raw("tar"), Raw("-cf")], [Raw("-"), Raw("-C"), Quoted("/sandbox"), Raw("--")]);
  }

  lemma CommandWellFormed(relative: string)
    ensures WellFormed(CommandPieces(relative))
  {
    var tests := TestPieces(Prefixes(Split(relative, '/'), 0));
    TestsWellFormed(Prefixes(Split(relative, '/'), 0));
    FewWellFormed(relative);
    ArchiveWellFormed(relative);
    assert tests[|tests| - 1] in tests;
    var p0 := [Raw("if")] + tests;
    WellFormedConcat([Raw("if")], tests);
    WellFormedConcat(p0, ExitPieces("74"));
    var p1 := p0 + ExitPieces("74");
    WellFormedConcat(p1, ExistsPieces("/sandbox/" + relative));
    var p2 := p1 + ExistsPieces("/sandbox/" + relative);
    WellFormedConcat(p2, ExitPieces("73"));
    WellFormedConcat(p2 + ExitPieces("73"), ArchivePieces(relative));
  }

  lemma CommandReadsAsPieces(relative: string)
    ensures " " + CommandText(relative) == Text(CommandPieces(relative))
  {
    var paths := Prefixes(Split(relative, '/'), 0);
    var tests := JoinText(Checks("/sandbox", Split(relative, '/')), " || ");
    assert Split(relative, '/')[0..] == Split(relative, '/');
    ChecksFollowPrefixes(Split(relative, '/'), 0);
    TestsText(paths);
    TextOfFew(Raw("if"), Semi, Semi, Semi);
    TextConcat([Raw("if")], TestPieces(paths));
    var c0 := "if " + tests;
    assert " " + c0 == " if" + (" " + tests);
    assert " " + "if" == " if";
    var p0 := [Raw("if")] + TestPieces(paths);
    ExitText("74");
    TextGrows(c0, p0, "; then exit " + "74", ExitPieces("74"));
    Assoc(c0, "; then exit ", "74");
    var c1, p1 := c0 + "; then exit " + "74", p0 + ExitPieces("74");
    var exists1 := "; elif ! test -e " + Quote("/sandbox/" + relative);
    ExistsText("/sandbox/" + relative);
    TextGrows(c1, p1, exists1, ExistsPieces("/sandbox/" + relative));
    Assoc(c1, "; elif ! test -e ", Quote("/sandbox/" + relative));
    var c2, p2 := c1 + exists1, p1 + ExistsPieces("/sandbox/" + relative);
    ExitText("73");
    TextGrows(c2, p2, "; then exit " + "73", ExitPieces("73"));
    Assoc(c2, "; then exit ", "73");
    var c3, p3 := c2 + "; then exit " + "73", p2 + ExitPieces("73");
    CommandTail(c3, p3, relative);
  }

  lemma CommandTail(c: string, p: seq<Piece>, relative: string)
    requires " " + c == Text(p)
    ensures " " + (c + "; else tar -cf - -C '/sandbox' -- " + Quote(relative) + "; fi") ==
      Text(p + ArchivePieces(relative))
  {
    var q := Quote(relative);
    ArchiveText(relative);
    TextGrows(c, p, "; else tar -cf - -C '/sandbox' -- " + q + "; fi", ArchivePieces(relative));
    Assoc(c, "; else tar -cf - -C '/sandbox' -- " + q, "; fi");
    Assoc(c, "; else tar -cf - -C '/sandbox' -- ", q);
  }

  /** The shell reads remoteDownloadCommand as: test every non-empty prefix of the
      path in order and nothing else, exit 74 if one is a link; test that the path
      exists, exit 73 if not; archive exactly that path. */
  lemma CommandTestsEveryPrefix(relative: string)
    ensures Lex(CommandText(relative)) == Some(Tokens(CommandPieces(relative)))
  {
    CommandWellFormed(relative);
    CommandReadsAsPieces(relative);
    TextLexesToTokens(CommandText(relative), CommandPieces(relative));
  }

  /** The last path tested for being a link is the requested path itself. */
  lemma LastPrefixIsThePath(relative: string)
    ensures var paths := Prefixes(Split(relative, '/'), 0);
      |paths| == |Split(relative, '/')| && paths[|paths| - 1] == "/sandbox/" + relative
  {
    var parts := Split(relative, '/');
    assert parts[..|parts|] == parts;
    JoinInvertsSplit(relative, '/');
  }
}
