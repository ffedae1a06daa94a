// The ${VAR} scanner of internal/config/env.go: an index-driven loop, and the
// token list it is shown to follow. The scanner asks a lookup function for values; an
// unset name and one bound to "" are the same to it.
module Expand {

  type Env = map<string, string>

  /** The getenv parameter of the scanner. */
  type Lookup = string -> string

  /** os.Getenv. */
  function Getenv(env: Env, name: string): string {
    if name in env then env[name] else ""
  }

  datatype Piece = Plain(c: char) | DoubleDollar | Ref(name: string)

  /** strings.IndexByte on the text from `i` on; |s| when the byte does not occur. */
  function IndexFrom(s: string, c: char, i: nat): (k: nat)
    requires i <= |s|
    ensures i <= k <= |s|
    ensures forall j :: i <= j < k ==> s[j] != c
    ensures k < |s| ==> s[k] == c
    decreases |s| - i
  {
    if i == |s| || s[i] == c then i else IndexFrom(s, c, i + 1)
  }

  datatype Scanned = Scanned(piece: Piece, end: nat)

  /** The piece that begins at `i`, and where it ends. */
  function Next(raw: string, i: nat): (r: Scanned)
    requires i < |raw|
    ensures i < r.end <= |raw|
  {
    if raw[i] != '$' then Scanned(Plain(raw[i]), i + 1)
    else if i + 1 < |raw| && raw[i + 1] == '$' then Scanned(DoubleDollar, i + 2)
    else if i + 1 < |raw| && raw[i + 1] == '{' && IndexFrom(raw, '}', i + 2) < |raw| then
      var close := IndexFrom(raw, '}', i + 2);
      Scanned(Ref(raw[i + 2..close]), close + 1)
    else Scanned(Plain('$'), i + 1)
  }

  /** The pieces of the text from `i` on. */
  function Tokenise(raw: string, i: nat): seq<Piece>
    requires i <= |raw|
    decreases |raw| - i
  {
    if i == |raw| then [] else [Next(raw, i).piece] + Tokenise(raw, Next(raw, i).end)
  }

  function PieceText(p: Piece): string {
    match p
    case Plain(c) => [c]
    case DoubleDollar => "$$"
    case Ref(name) => "${" + name + "}"
  }

  function Text(pieces: seq<Piece>): string {
    if pieces == [] then "" else PieceText(pieces[0]) + Text(pieces[1..])
  }

  function Value(p: Piece, lookup: Lookup): string {
    if p.Ref? then lookup(p.name) else PieceText(p)
  }

  function Substitute(pieces: seq<Piece>, lookup: Lookup): string {
    if pieces == [] then "" else Value(pieces[0], lookup) + Substitute(pieces[1..], lookup)
  }

  function Unset(p: Piece, lookup: Lookup): seq<string> {
    if p.Ref? && lookup(p.name) == "" then [p.name] else []
  }

  /** The references without a value, left to right. */
  function Missing(pieces: seq<Piece>, lookup: Lookup): seq<string> {
    if pieces == [] then [] else Unset(pieces[0], lookup) + Missing(pieces[1..], lookup)
  }

  function Expanded(raw: string, lookup: Lookup): string {
    Substitute(Tokenise(raw, 0), lookup)
  }

  function Unresolved(raw: string, lookup: Lookup): seq<string> {
    Missing(Tokenise(raw, 0), lookup)
  }

  // ----------------------------------------------------------- the scanner

  /** expand. */
  method Expand(raw: string, lookup: Lookup) returns (out: string, missing: seq<string>)
    ensures out == Expanded(raw, lookup)
    ensures missing == Unresolved(raw, lookup)
  {
    out, missing := "", [];
    var i := 0;
    while i < |raw|
      invariant 0 <= i <= |raw|
      invariant Accounted(raw, lookup, i, out, missing)
    {
      ghost var next, out0, missing0 := Next(raw, i), out, missing;
      StepAccounts(raw, lookup, i, out, missing);
      assert missing0 + [] == missing0 && out0 + "" == out0;
      if raw[i] != '$' {
        out := out + [raw[i]];
        i := i + 1;
      } else if i + 1 < |raw| && raw[i + 1] == '$' {
        out := out + "$$";
        i := i + 2;
      } else if i + 1 < |raw| && raw[i + 1] == '{' {
        var end := IndexFrom(raw, '}', i + 2);
        if end == |raw| {
          out := out + "$";
          i := i + 1;
        } else {
          var name := raw[i + 2..end];
          var val := lookup(name);
          if val != "" {
            out := out + val;
          } else {
            missing := missing + [name];
          }
          i := end + 1;
        }
      } else {
        out := out + "$";
        i := i + 1;
      }
      assert i == next.end;
      assert out == out0 + Value(next.piece, lookup);
      assert missing == missing0 + Unset(next.piece, lookup);
    }
  }

  /** What is written and noted so far, completed by the pieces from `i` on. */
  predicate Accounted(raw: string, lookup: Lookup, i: nat, out: string, missing: seq<string>)
    requires i <= |raw|
  {
    && out + Substitute(Tokenise(raw, i), lookup) == Expanded(raw, lookup)
    && missing + Missing(Tokenise(raw, i), lookup) == Unresolved(raw, lookup)
  }

  lemma StepAccounts(raw: string, lookup: Lookup, i: nat, out: string, missing: seq<string>)
    requires i < |raw| && Accounted(raw, lookup, i, out, missing)
    ensures var next := Next(raw, i);
      Accounted(raw, lookup, next.end, out + Value(next.piece, lookup), missing + Unset(next.piece, lookup))
  {
    hide Value, Unset, Next, Substitute, Missing;
    var next := Next(raw, i);
    var p, rest := next.piece, Tokenise(raw, next.end);
    FirstPiece(p, rest, lookup);
    assert Tokenise(raw, i) == [p] + rest;
    Assoc(out, Value(p, lookup), Substitute(rest, lookup));
    Assoc(missing, Unset(p, lookup), Missing(rest, lookup));
  }

  lemma FirstPiece(p: Piece, rest: seq<Piece>, lookup: Lookup)
    ensures Substitute([p] + rest, lookup) == Value(p, lookup) + Substitute(rest, lookup)
    ensures Missing([p] + rest, lookup) == Unset(p, lookup) + Missing(rest, lookup)
  {
    hide Value, Unset;
    assert ([p] + rest)[1..] == rest;
  }

  // ------------------------------------------------- the tokens are a reading

  /** Text after a '$' that makes a reference with it: "{", a name, "}". */
  predicate OpensReference(after: string) {
    after != "" && after[0] == '{' && '}' in after[1..]
  }

  /** Which token lists are readings: names hold no '}', and a lone '$' stands only
      where neither "$$" nor a reference could be read. */
  predicate Canonical(pieces: seq<Piece>) {
    pieces != [] ==>
      && Canonical(pieces[1..])
      && CanonicalBefore(pieces[0], Text(pieces[1..]))
  }

  predicate CanonicalBefore(p: Piece, after: string) {
    && (p.Ref? ==> '}' !in p.name)
    && (p == Plain('$') ==> !OpensReference(after) && (after != "" ==> after[0] != '$'))
  }

  lemma NextText(raw: string, i: nat)
    requires i < |raw|
    ensures PieceText(Next(raw, i).piece) == raw[i..Next(raw, i).end]
    ensures CanonicalBefore(Next(raw, i).piece, raw[Next(raw, i).end..])
  {
    var next := Next(raw, i);
    if next.piece.Ref? {
      assert raw[i..next.end] == [raw[i], raw[i + 1]] + raw[i + 2..next.end - 1] + [raw[next.end - 1]];
      assert "${" == ['$', '{'];
    } else if next.piece.DoubleDollar? {
      assert raw[i..i + 2] == [raw[i], raw[i + 1]];
    } else if next.piece == Plain('$') && i + 1 < |raw| && raw[i + 1] == '{' {
      assert raw[i + 1..][1..] == raw[i + 2..];
    }
  }

  lemma ConsText(p: Piece, rest: seq<Piece>)
    ensures Text([p] + rest) == PieceText(p) + Text(rest)
    ensures Canonical(rest) && CanonicalBefore(p, Text(rest)) ==> Canonical([p] + rest)
  {
    assert ([p] + rest)[1..] == rest;
  }

  /** Printing the tokens gives back the raw text, and they are canonical. */
  lemma {:induction false} TextInvertsTokenise(raw: string, i: nat)
    requires i <= |raw|
    ensures Text(Tokenise(raw, i)) == raw[i..]
    ensures Canonical(Tokenise(raw, i))
    decreases |raw| - i
  {
    if i < |raw| {
      var next := Next(raw, i);
      NextText(raw, i);
      TextInvertsTokenise(raw, next.end);
      ConsText(next.piece, Tokenise(raw, next.end));
      assert raw[i..] == raw[i..next.end] + raw[next.end..];
    }
  }

  /** And it is the only reading: canonical tokens are recovered from their text. */
  lemma {:induction false} TokeniseInvertsText(pieces: seq<Piece>)
    requires Canonical(pieces)
    ensures Tokenise(Text(pieces), 0) == pieces
  {
    TokensAfter("", pieces);
    assert "" + Text(pieces) == Text(pieces);
  }

  lemma {:induction false} TokensAfter(before: string, pieces: seq<Piece>)
    requires Canonical(pieces)
    ensures Tokenise(before + Text(pieces), |before|) == pieces
    decreases pieces
  {
    if pieces != [] {
      var p, rest := pieces[0], pieces[1..];
      NextIsPiece(before, p, Text(rest));
      TokensAfter(before + PieceText(p), rest);
      Assoc(before, PieceText(p), Text(rest));
      TokeniseStep(before + Text(pieces), |before|, p, |before + PieceText(p)|, rest);
      assert pieces == [p] + rest;
    }
  }

  lemma Assoc<T>(a: seq<T>, b: seq<T>, c: seq<T>)
    ensures a + (b + c) == (a + b) + c
  {}

  lemma TokeniseStep(raw: string, i: nat, p: Piece, end: nat, rest: seq<Piece>)
    requires i < end <= |raw| && Next(raw, i) == Scanned(p, end) && Tokenise(raw, end) == rest
    ensures Tokenise(raw, i) == [p] + rest
  {}

  lemma NextIsPiece(before: string, p: Piece, after: string)
    requires CanonicalBefore(p, after)
    ensures Next((before + PieceText(p)) + after, |before|) == Scanned(p, |before + PieceText(p)|)
  {
    var raw, i := (before + PieceText(p)) + after, |before|;
    if p.Ref? {
      var close := i + 2 + |p.name|;
      assert raw[i] == PieceText(p)[0] && raw[i + 1] == PieceText(p)[1] && raw[close] == PieceText(p)[2 + |p.name|];
      assert raw[i + 2..close] == p.name;
      assert forall j :: i + 2 <= j < close ==> raw[j] == p.name[j - i - 2];
      assert IndexFrom(raw, '}', i + 2) == close;
    } else if p.DoubleDollar? {
      assert raw[i] == "$$"[0] && raw[i + 1] == "$$"[1];
    } else if p == Plain('$') && after != "" {
      assert raw[i + 1] == after[0];
      assert raw[i + 1..] == after;
      assert raw[i + 2..] == after[1..];
    }
  }

  // --------------------------------------------------------- consequences

  /** A value is copied as it is, whatever it contains, and scanning resumes after
      the reference: substituted text is never scanned again. */
  lemma ValuesAreNotRescanned(name: string, after: string, lookup: Lookup)
    requires '}' !in name
    ensures Expanded("${" + name + "}" + after, lookup) == lookup(name) + Expanded(after, lookup)
    ensures Unresolved("${" + name + "}" + after, lookup)
         == (if lookup(name) == "" then [name] else []) + Unresolved(after, lookup)
  {
    var pieces := [Ref(name)] + Tokenise(after, 0);
    TextInvertsTokenise(after, 0);
    ConsText(Ref(name), Tokenise(after, 0));
    assert after[0..] == after;
    TokeniseInvertsText(pieces);
    assert pieces[1..] == Tokenise(after, 0);
  }

  /** Some "${" is followed by a "}". */
  predicate HasClosedReference(raw: string) {
    exists i, j :: 0 <= i < i + 2 <= j < |raw| && raw[i] == '$' && raw[i + 1] == '{' && raw[j] == '}'
  }

  /** Text with no closed reference is unchanged and nothing is missing. */
  lemma NoReferenceIsUnchanged(raw: string, lookup: Lookup)
    requires !HasClosedReference(raw)
    ensures Expanded(raw, lookup) == raw && Unresolved(raw, lookup) == []
  {
    TextInvertsTokenise(raw, 0);
    NoReferencePieces(raw, 0);
    WithoutReferences(Tokenise(raw, 0), lookup);
    assert raw[0..] == raw;
  }

  lemma {:induction false} NoReferencePieces(raw: string, i: nat)
    requires !HasClosedReference(raw) && i <= |raw|
    ensures forall p :: p in Tokenise(raw, i) ==> !p.Ref?
    decreases |raw| - i
  {
    if i < |raw| {
      NoReferencePieces(raw, Next(raw, i).end);
    }
  }

  lemma {:induction false} WithoutReferences(pieces: seq<Piece>, lookup: Lookup)
    requires forall p :: p in pieces ==> !p.Ref?
    ensures Substitute(pieces, lookup) == Text(pieces) && Missing(pieces, lookup) == []
    decreases pieces
  {
    if pieces != [] {
      assert pieces[0] in pieces;
      WithoutReferences(pieces[1..], lookup);
    }
  }

  /** What is reported missing: exactly the referenced names without a value. */
  lemma {:induction false} MissingMembers(pieces: seq<Piece>, lookup: Lookup, name: string)
    ensures name in Missing(pieces, lookup) <==> Ref(name) in pieces && lookup(name) == ""
    decreases pieces
  {
    if pieces != [] {
      MissingMembers(pieces[1..], lookup, name);
      assert pieces == [pieces[0]] + pieces[1..];
    }
  }

  /** Only the values of the names referred to matter. */
  lemma {:induction false} LookupsAgree(pieces: seq<Piece>, lookup: Lookup, other: Lookup)
    requires forall p :: p in pieces && p.Ref? ==> lookup(p.name) == other(p.name)
    ensures Substitute(pieces, lookup) == Substitute(pieces, other) && Missing(pieces, lookup) == Missing(pieces, other)
    decreases pieces
  {
    if pieces != [] {
      assert pieces[0] in pieces;
      LookupsAgree(pieces[1..], lookup, other);
    }
  }
}
