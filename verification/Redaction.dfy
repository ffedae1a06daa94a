// redactPlanString of cmd/plan_redaction.go: successive strings.ReplaceAll passes,
// and when nothing sensitive is left. A redacted text is also tracked as cells,
// characters of the original and tokens, so that "what is left" can be followed
// through the passes.
module Redaction {
  import opened Strings

  const TOKEN := "<redacted>"

  /** strings.ReplaceAll(s, secret, TOKEN) for a non-empty secret: leftmost occurrences,
      not overlapping. */
  function ReplaceAll(s: string, secret: string): string
    requires secret != ""
    decreases s
  {
    if s == "" then ""
    else if secret <= s then TOKEN + ReplaceAll(s[|secret|..], secret)
    else [s[0]] + ReplaceAll(s[1..], secret)
  }

  function Pass(value: string, secret: string): string {
    if secret != "" && Contains(value, secret) then ReplaceAll(value, secret) else value
  }

  function Redacted(value: string, sensitive: seq<string>): string
    decreases sensitive
  {
    if sensitive == [] then value else Redacted(Pass(value, sensitive[0]), sensitive[1..])
  }

  /** redactPlanString. */
  method RedactPlanString(input: string, sensitive: seq<string>) returns (value: string)
    ensures value == Redacted(input, sensitive)
  {
    value := input;
    for i := 0 to |sensitive|
      invariant Redacted(value, sensitive[i..]) == Redacted(input, sensitive)
    {
      assert sensitive[i..][0] == sensitive[i] && sensitive[i..][1..] == sensitive[i + 1..];
      var secret := sensitive[i];
      if secret != "" && Contains(value, secret) {
        value := ReplaceAll(value, secret);
      }
    }
  }

  // ------------------------------------------------------------- touching

  /** `s` laid over the token at offset `d` agrees with it where they overlap. */
  predicate AgreesAt(s: string, d: int) {
    forall j {:trigger s[j]} :: 0 <= j < |s| && 0 <= d + j < |TOKEN| ==> s[j] == TOKEN[d + j]
  }

  /** Some placement of `s` overlaps the token without contradicting it, so an
      occurrence of `s` could use characters the redaction itself wrote. */
  predicate Touches(s: string) {
    exists d :: -|s| < d < |TOKEN| && AgreesAt(s, d)
  }

  predicate BracketFree(s: string) {
    '<' !in s && '>' !in s
  }

  /** An agreeing overlap of a bracket-free text stays strictly between the brackets. */
  lemma OverlapIsInside(s: string, d: int)
    requires BracketFree(s) && -|s| < d < |TOKEN|
    ensures AgreesAt(s, d) ==> 1 <= d && d + |s| <= 9
  {
    if d <= 0 || d + |s| > 9 {
      var j := if d <= 0 then 0 - d else 9 - d;
      assert TOKEN[0] == '<' && TOKEN[9] == '>';
      assert s[j] in s && s[j] != TOKEN[d + j];
    }
  }

  lemma TokenAround(i: int)
    requires 0 <= i < 8
    ensures TOKEN[i + 1] == "redacted"[i]
  {
    assert TOKEN == "<" + "redacted" + ">";
  }

  /** Without angle brackets, touching the token means occurring in "redacted". */
  lemma BracketFreeTouches(s: string)
    requires s != "" && BracketFree(s)
    ensures Touches(s) <==> Contains("redacted", s)
  {
    if Touches(s) {
      var d :| -|s| < d < |TOKEN| && AgreesAt(s, d);
      OverlapIsInside(s, d);
      TouchingOccurs(s, d, "redacted");
    }
    if Contains("redacted", s) {
      var i :| 0 <= i <= |"redacted"| && OccursAt("redacted", s, i);
      OccurringTouches(s, i, "redacted");
    }
  }

  lemma TouchingOccurs(s: string, d: int, word: string)
    requires word == "redacted" && 1 <= d && d + |s| <= 9 && AgreesAt(s, d)
    ensures Contains(word, s)
  {
    forall j | 0 <= j < |s| ensures s[j] == word[d - 1 + j] {
      assert s[j] == TOKEN[d + j];
      TokenAround(d - 1 + j);
    }
    assert word[d - 1..d - 1 + |s|] == s;
    assert OccursAt(word, s, d - 1);
  }

  lemma OccurringTouches(s: string, i: int, word: string)
    requires word == "redacted" && s != "" && OccursAt(word, s, i)
    ensures Touches(s)
  {
    forall j {:trigger s[j]} | 0 <= j < |s| && 0 <= i + 1 + j < |TOKEN| ensures s[j] == TOKEN[i + 1 + j] {
      assert s[j] == word[i..i + |s|][j] == word[i + j];
      TokenAround(i + j);
    }
    assert AgreesAt(s, i + 1);
  }

  // ---------------------------------------------------------------- cells

  /** A character of the original text, or one written token. */
  datatype Cell = Orig(c: char) | Tok

  function CellText(cell: Cell): string {
    if cell.Tok? then TOKEN else [cell.c]
  }

  function Flatten(cells: seq<Cell>): string {
    if cells == [] then "" else CellText(cells[0]) + Flatten(cells[1..])
  }

  function Origs(s: string): (cells: seq<Cell>)
    ensures |cells| == |s|
    ensures forall i :: 0 <= i < |s| ==> cells[i] == Orig(s[i])
  {
    seq(|s|, i requires 0 <= i < |s| => Orig(s[i]))
  }

  /** `s` occurs at cell `k`, in original characters only. */
  predicate CellsAt(cells: seq<Cell>, s: string, k: int) {
    0 <= k && k + |s| <= |cells| && forall j :: 0 <= j < |s| ==> cells[k + j] == Orig(s[j])
  }

  predicate Holds(cells: seq<Cell>, s: string) {
    exists k :: 0 <= k <= |cells| && CellsAt(cells, s, k)
  }

  /** ReplaceAll on cells. */
  function CellReplace(cells: seq<Cell>, secret: string): seq<Cell>
    requires secret != ""
    decreases cells
  {
    if cells == [] then []
    else if CellsAt(cells, secret, 0) then [Tok] + CellReplace(cells[|secret|..], secret)
    else [cells[0]] + CellReplace(cells[1..], secret)
  }

  /** A prefix of the text that overlaps no token is a prefix of original characters. */
  lemma {:induction false} PrefixIsOriginal(cells: seq<Cell>, s: string, done: nat)
    requires done <= |s| && !Touches(s) && s[done..] <= Flatten(cells)
    ensures CellsAt(cells, s[done..], 0)
    decreases cells
  {
    if done < |s| {
      assert s[done..] != "";
      var rest := Flatten(cells[1..]);
      if cells[0].Tok? {
        assert AgreesAt(s, 0 - done) by {
          forall j {:trigger s[j]} | 0 <= j < |s| && 0 <= j - done < |TOKEN| ensures s[j] == TOKEN[j - done] {
            assert s[j] == s[done..][j - done] == (TOKEN + rest)[j - done];
          }
        }
        assert false;
      }
      assert s[done] == s[done..][0] == Flatten(cells)[0] == cells[0].c;
      assert s[done + 1..] == s[done..][1..];
      assert Flatten(cells)[1..] == rest;
      PrefixIsOriginal(cells[1..], s, done + 1);
      assert s[done..] == [s[done]] + s[done + 1..];
    }
  }

  lemma {:induction false} OriginalIsPrefix(cells: seq<Cell>, s: string)
    requires CellsAt(cells, s, 0)
    ensures s <= Flatten(cells) && Flatten(cells)[|s|..] == Flatten(cells[|s|..])
    decreases s
  {
    if s == "" {
      assert cells[0..] == cells;
    } else {
      assert cells[0] == Orig(s[0]);
      assert CellsAt(cells[1..], s[1..], 0);
      OriginalIsPrefix(cells[1..], s[1..]);
      assert s == [s[0]] + s[1..];
      assert cells[|s|..] == cells[1..][|s| - 1..];
    }
  }

  /** Anywhere in the text: an occurrence that cannot touch a token is original. */
  lemma {:induction false} OccurrenceIsOriginal(cells: seq<Cell>, s: string, i: nat)
    requires s != "" && !Touches(s) && OccursAt(Flatten(cells), s, i)
    ensures Holds(cells, s)
    decreases cells
  {
    var text := Flatten(cells);
    var width := |CellText(cells[0])|;
    var rest := Flatten(cells[1..]);
    if i >= width {
      assert text[width..] == rest;
      assert rest[i - width..i - width + |s|] == text[i..i + |s|];
      OccurrenceIsOriginal(cells[1..], s, i - width);
      var k :| 0 <= k <= |cells[1..]| && CellsAt(cells[1..], s, k);
      assert CellsAt(cells, s, k + 1);
    } else if cells[0].Tok? {
      assert AgreesAt(s, i) by {
        forall j {:trigger s[j]} | 0 <= j < |s| && 0 <= i + j < |TOKEN| ensures s[j] == TOKEN[i + j] {
          assert s[j] == text[i..i + |s|][j] == text[i + j] == (TOKEN + rest)[i + j];
        }
      }
      assert false;
    } else {
      assert s[0..] == s == text[..|s|];
      PrefixIsOriginal(cells, s, 0);
    }
  }

  lemma PrefixWithinToken(rest: string, s: string, k: nat)
    requires s != "" && k < |TOKEN|
    ensures s <= TOKEN[k..] + rest ==> Touches(s)
  {
    if s <= TOKEN[k..] + rest {
      forall j {:trigger s[j]} | 0 <= j < |s| && 0 <= k + j < |TOKEN| ensures s[j] == TOKEN[k + j] {
        assert s[j] == (TOKEN[k..] + rest)[j];
      }
      assert AgreesAt(s, k);
    }
  }

  lemma {:induction false} WalkOver(head: string, rest: string, secret: string)
    requires secret != "" && forall k :: 0 <= k < |head| ==> !(secret <= head[k..] + rest)
    ensures ReplaceAll(head + rest, secret) == head + ReplaceAll(rest, secret)
    decreases head
  {
    if head == "" {
      assert head + rest == rest;
    } else {
      assert head[0..] == head;
      assert (head + rest)[1..] == head[1..] + rest;
      forall k | 0 <= k < |head[1..]| ensures !(secret <= head[1..][k..] + rest) {
        assert head[1..][k..] == head[k + 1..];
      }
      WalkOver(head[1..], rest, secret);
      assert head == [head[0]] + head[1..];
    }
  }

  /** A secret that cannot touch the token is not found inside written tokens. */
  lemma WalkToken(rest: string, secret: string)
    requires secret != "" && !Touches(secret)
    ensures ReplaceAll(TOKEN + rest, secret) == TOKEN + ReplaceAll(rest, secret)
  {
    forall k | 0 <= k < |TOKEN| ensures !(secret <= TOKEN[k..] + rest) {
      PrefixWithinToken(rest, secret, k);
    }
    WalkOver(TOKEN, rest, secret);
  }

  /** The character pass and the cell pass agree. */
  lemma {:induction false} ReplaceFollowsCells(cells: seq<Cell>, secret: string)
    requires secret != "" && !Touches(secret)
    ensures ReplaceAll(Flatten(cells), secret) == Flatten(CellReplace(cells, secret))
    decreases cells
  {
    if cells != [] {
      var text, rest := Flatten(cells), Flatten(cells[1..]);
      if CellsAt(cells, secret, 0) {
        OriginalIsPrefix(cells, secret);
        ReplaceFollowsCells(cells[|secret|..], secret);
        assert ([Tok] + CellReplace(cells[|secret|..], secret))[1..] == CellReplace(cells[|secret|..], secret);
      } else {
        assert !(secret <= text) by {
          if secret <= text {
            assert secret[0..] == secret;
            PrefixIsOriginal(cells, secret, 0);
            assert false;
          }
        }
        ReplaceFollowsCells(cells[1..], secret);
        assert ([cells[0]] + CellReplace(cells[1..], secret))[1..] == CellReplace(cells[1..], secret);
        if cells[0].Tok? {
          WalkToken(rest, secret);
        } else {
          assert text[0] == cells[0].c && text[1..] == rest;
        }
      }
    }
  }

  /** Original characters at the front of a pass's result were at the front before it. */
  lemma {:induction false} ReplacedPrefix(cells: seq<Cell>, secret: string, t: string)
    requires secret != "" && CellsAt(CellReplace(cells, secret), t, 0)
    ensures CellsAt(cells, t, 0)
    decreases cells
  {
    if t != "" {
      var r := CellReplace(cells, secret);
      assert r[0 + 0] == Orig(t[0]);
      var after := CellReplace(cells[1..], secret);
      assert r == [cells[0]] + after;
      assert CellsAt(after, t[1..], 0) by {
        forall j | 0 <= j < |t[1..]| ensures after[0 + j] == Orig(t[1..][j]) {
          assert r[0 + (j + 1)] == Orig(t[j + 1]);
        }
      }
      ReplacedPrefix(cells[1..], secret, t[1..]);
      forall j | 0 <= j < |t| ensures cells[0 + j] == Orig(t[j]) {
        if j > 0 {
          assert cells[1..][0 + (j - 1)] == Orig(t[1..][j - 1]);
        }
      }
    }
  }

  lemma HoldsInTail(cells: seq<Cell>, t: string, n: nat)
    requires n <= |cells| && Holds(cells[n..], t)
    ensures Holds(cells, t)
  {
    var k :| 0 <= k <= |cells[n..]| && CellsAt(cells[n..], t, k);
    forall j | 0 <= j < |t| ensures cells[k + n + j] == Orig(t[j]) {
      assert cells[n..][k + j] == Orig(t[j]);
    }
    assert CellsAt(cells, t, k + n);
  }

  lemma HoldsAtHeadOrTail(head: Cell, tail: seq<Cell>, t: string)
    requires Holds([head] + tail, t)
    ensures CellsAt([head] + tail, t, 0) || Holds(tail, t)
  {
    var cells := [head] + tail;
    var k :| 0 <= k <= |cells| && CellsAt(cells, t, k);
    if k > 0 {
      forall j | 0 <= j < |t| ensures tail[k - 1 + j] == Orig(t[j]) {
        assert cells[k + j] == Orig(t[j]);
      }
      assert CellsAt(tail, t, k - 1);
    }
  }

  lemma TokenIsNotText(cells: seq<Cell>, t: string)
    requires t != "" && cells != [] && cells[0].Tok?
    ensures !CellsAt(cells, t, 0)
  {
    assert cells[0 + 0] != Orig(t[0]);
  }

  /** A pass never brings a text back into the original characters. */
  lemma {:induction false} PassAddsNone(cells: seq<Cell>, secret: string, t: string)
    requires secret != "" && t != "" && Holds(CellReplace(cells, secret), t)
    ensures Holds(cells, t)
    decreases cells
  {
    var r := CellReplace(cells, secret);
    assert cells != [];
    if CellsAt(cells, secret, 0) {
      HoldsAtHeadOrTail(Tok, CellReplace(cells[|secret|..], secret), t);
      TokenIsNotText(r, t);
      PassAddsNone(cells[|secret|..], secret, t);
      HoldsInTail(cells, t, |secret|);
    } else {
      HoldsAtHeadOrTail(cells[0], CellReplace(cells[1..], secret), t);
      if CellsAt(r, t, 0) {
        ReplacedPrefix(cells, secret, t);
      } else {
        PassAddsNone(cells[1..], secret, t);
        HoldsInTail(cells, t, 1);
      }
    }
  }

  /** And it leaves no original occurrence of its own secret. */
  lemma {:induction false} PassLeavesNone(cells: seq<Cell>, secret: string)
    requires secret != ""
    ensures !Holds(CellReplace(cells, secret), secret)
    decreases cells
  {
    var r := CellReplace(cells, secret);
    if cells != [] && Holds(r, secret) {
      assert !CellsAt(r, secret, 0) by {
        if CellsAt(r, secret, 0) {
          assert r[0 + 0] == Orig(secret[0]);
          ReplacedPrefix(cells, secret, secret);
          assert false;
        }
      }
      if CellsAt(cells, secret, 0) {
        HoldsAtHeadOrTail(Tok, CellReplace(cells[|secret|..], secret), secret);
        PassLeavesNone(cells[|secret|..], secret);
      } else {
        HoldsAtHeadOrTail(cells[0], CellReplace(cells[1..], secret), secret);
        PassLeavesNone(cells[1..], secret);
      }
    }
  }

  // ------------------------------------------------------- nothing is left

  lemma OccursInTail(s: string, needle: string, i: nat)
    requires s != ""
    ensures OccursAt(s[1..], needle, i) <==> OccursAt(s, needle, i + 1)
  {
    if i + 1 + |needle| <= |s| {
      assert s[1..][i..i + |needle|] == s[i + 1..i + 1 + |needle|];
    }
  }

  lemma {:induction false} ReplaceNothing(s: string, secret: string)
    requires secret != "" && !Contains(s, secret)
    ensures ReplaceAll(s, secret) == s
    decreases s
  {
    if s != "" {
      assert !OccursAt(s, secret, 0);
      forall i | 0 <= i <= |s[1..]| ensures !OccursAt(s[1..], secret, i) {
        assert !OccursAt(s, secret, i + 1);
        OccursInTail(s, secret, i);
      }
      ReplaceNothing(s[1..], secret);
      assert s == [s[0]] + s[1..];
    }
  }

  lemma {:induction false} FlattenOrigs(s: string)
    ensures Flatten(Origs(s)) == s
  {
    if s != "" {
      assert Origs(s)[1..] == Origs(s[1..]);
      FlattenOrigs(s[1..]);
    }
  }

  /** Running the passes on a text given as cells: none of the secrets handled so far
      or later is left in it. */
  lemma {:induction false} PassesLeaveNone(cells: seq<Cell>, before: set<string>, sensitive: seq<string>)
    requires forall s :: s in before || s in sensitive ==> s != "" ==> !Touches(s)
    requires forall s :: s in before && s != "" ==> !Holds(cells, s)
    ensures forall s :: (s in before || s in sensitive) && s != "" ==> !Contains(Redacted(Flatten(cells), sensitive), s)
    decreases sensitive
  {
    if sensitive == [] {
      forall s | s in before && s != "" ensures !Contains(Flatten(cells), s) {
        forall i | 0 <= i <= |Flatten(cells)| ensures !OccursAt(Flatten(cells), s, i) {
          if OccursAt(Flatten(cells), s, i) {
            OccurrenceIsOriginal(cells, s, i);
            assert false;
          }
        }
      }
    } else {
      var secret := sensitive[0];
      var next := if secret == "" then cells else CellReplace(cells, secret);
      assert Pass(Flatten(cells), secret) == Flatten(next) by {
        if secret != "" {
          ReplaceFollowsCells(cells, secret);
          if !Contains(Flatten(cells), secret) { ReplaceNothing(Flatten(cells), secret); }
        }
      }
      var handled := before + {secret};
      forall s | s in handled && s != "" ensures !Holds(next, s) {
        if secret != "" {
          if s == secret {
            PassLeavesNone(cells, secret);
          } else if Holds(next, s) {
            PassAddsNone(cells, secret, s);
          }
        }
      }
      assert sensitive == [secret] + sensitive[1..];
      assert forall s :: s in sensitive <==> s == secret || s in sensitive[1..];
      PassesLeaveNone(next, handled, sensitive[1..]);
    }
  }

  /** Completeness for values that cannot touch the token, in any order. */
  lemma NothingIsLeft(value: string, sensitive: seq<string>)
    requires forall s :: s in sensitive && s != "" ==> !Touches(s)
    ensures forall s :: s in sensitive && s != "" ==> !Contains(Redacted(value, sensitive), s)
  {
    FlattenOrigs(value);
    PassesLeaveNone(Origs(value), {}, sensitive);
  }

  /** The cells are the original text with some occurrences of the secrets hidden: every
      other character stands where it stood, and each token hides one secret. */
  ghost predicate Hides(cells: seq<Cell>, value: string, secrets: seq<string>)
    decreases cells
  {
    if cells == [] then value == ""
    else if cells[0].Tok? then
      exists s :: s in secrets && s != "" && s <= value && Hides(cells[1..], value[|s|..], secrets)
    else value != "" && value[0] == cells[0].c && Hides(cells[1..], value[1..], secrets)
  }

  lemma {:induction false} HidesAfter(cells: seq<Cell>, value: string, secrets: seq<string>, s: string)
    requires Hides(cells, value, secrets) && CellsAt(cells, s, 0)
    ensures s <= value && Hides(cells[|s|..], value[|s|..], secrets)
    decreases s
  {
    if s == "" {
      assert cells[0..] == cells && value[0..] == value;
    } else {
      assert cells[0 + 0] == Orig(s[0]);
      assert CellsAt(cells[1..], s[1..], 0) by {
        forall j | 0 <= j < |s[1..]| ensures cells[1..][0 + j] == Orig(s[1..][j]) {
          assert cells[0 + (j + 1)] == Orig(s[j + 1]);
        }
      }
      HidesAfter(cells[1..], value[1..], secrets, s[1..]);
      assert s == [s[0]] + s[1..] && value == [value[0]] + value[1..];
      assert cells[1..][|s| - 1..] == cells[|s|..] && value[1..][|s| - 1..] == value[|s|..];
    }
  }

  lemma {:induction false} PassHides(cells: seq<Cell>, value: string, secrets: seq<string>, secret: string)
    requires secret != "" && secret in secrets && Hides(cells, value, secrets)
    ensures Hides(CellReplace(cells, secret), value, secrets)
    decreases cells
  {
    if cells != [] {
      var r := CellReplace(cells, secret);
      if CellsAt(cells, secret, 0) {
        HidesAfter(cells, value, secrets, secret);
        PassHides(cells[|secret|..], value[|secret|..], secrets, secret);
        assert r[1..] == CellReplace(cells[|secret|..], secret);
      } else {
        assert r[1..] == CellReplace(cells[1..], secret);
        if cells[0].Tok? {
          var s :| s in secrets && s != "" && s <= value && Hides(cells[1..], value[|s|..], secrets);
          PassHides(cells[1..], value[|s|..], secrets, secret);
        } else {
          PassHides(cells[1..], value[1..], secrets, secret);
        }
      }
    }
  }

  lemma {:induction false} PassesHide(cells: seq<Cell>, value: string, secrets: seq<string>, sensitive: seq<string>)
    returns (shown: seq<Cell>)
    requires forall s :: s in sensitive ==> s in secrets && (s != "" ==> !Touches(s))
    requires Hides(cells, value, secrets)
    ensures Flatten(shown) == Redacted(Flatten(cells), sensitive) && Hides(shown, value, secrets)
    decreases sensitive
  {
    if sensitive == [] {
      shown := cells;
    } else {
      var secret := sensitive[0];
      var next := if secret == "" then cells else CellReplace(cells, secret);
      if secret != "" {
        ReplaceFollowsCells(cells, secret);
        if !Contains(Flatten(cells), secret) { ReplaceNothing(Flatten(cells), secret); }
        PassHides(cells, value, secrets, secret);
      }
      assert forall s :: s in sensitive[1..] ==> s in sensitive;
      shown := PassesHide(next, value, secrets, sensitive[1..]);
    }
  }

  lemma {:induction false} NothingHidden(value: string, secrets: seq<string>)
    ensures Hides(Origs(value), value, secrets)
  {
    if value != "" {
      assert Origs(value)[1..] == Origs(value[1..]);
      NothingHidden(value[1..], secrets);
    }
  }

  /** Redaction changes nothing else: the result is the text with occurrences of the
      values replaced by tokens and every other character kept, in order. */
  lemma RestIsKept(value: string, sensitive: seq<string>)
    requires forall s :: s in sensitive && s != "" ==> !Touches(s)
    ensures exists cells :: Flatten(cells) == Redacted(value, sensitive) && Hides(cells, value, sensitive)
  {
    NothingHidden(value, sensitive);
    FlattenOrigs(value);
    var shown := PassesHide(Origs(value), value, sensitive, sensitive);
  }

  lemma ContainsTransitive(a: string, b: string, c: string)
    requires Contains(a, b) && Contains(b, c)
    ensures Contains(a, c)
  {
    var i :| 0 <= i <= |a| && OccursAt(a, b, i);
    var j :| 0 <= j <= |b| && OccursAt(b, c, j);
    forall k | 0 <= k < |c| ensures a[i + j + k] == c[k] {
      assert b[j + k] == b[j..j + |c|][k];
      assert a[i..i + |b|][j + k] == a[i + j + k];
    }
    assert a[i + j..i + j + |c|] == c;
    assert OccursAt(a, c, i + j);
  }

  lemma {:induction false} ReplaceWritesToken(s: string, secret: string)
    requires secret != "" && Contains(s, secret)
    ensures Contains(ReplaceAll(s, secret), TOKEN)
    decreases s
  {
    var r := ReplaceAll(s, secret);
    if secret <= s {
      assert r[0..0 + |TOKEN|] == TOKEN;
      assert OccursAt(r, TOKEN, 0);
    } else {
      var i :| 0 <= i <= |s| && OccursAt(s, secret, i);
      assert i > 0;
      OccursInTail(s, secret, i - 1);
      ReplaceWritesToken(s[1..], secret);
      var rest := ReplaceAll(s[1..], secret);
      assert r[1..] == rest;
      var k :| 0 <= k <= |rest| && OccursAt(rest, TOKEN, k);
      OccursInTail(r, TOKEN, k);
    }
  }

  lemma {:induction false} TokenStays(value: string, sensitive: seq<string>)
    requires Contains(value, TOKEN)
    ensures Contains(Redacted(value, sensitive), TOKEN)
    decreases sensitive
  {
    if sensitive != [] {
      if sensitive[0] != "" && Contains(value, sensitive[0]) {
        ReplaceWritesToken(value, sensitive[0]);
      }
      TokenStays(Pass(value, sensitive[0]), sensitive[1..]);
    }
  }

  lemma {:induction false} SecretBecomesToken(value: string, sensitive: seq<string>)
    requires value != "" && value in sensitive
    ensures Contains(Redacted(value, sensitive), TOKEN)
    decreases sensitive
  {
    if sensitive[0] != "" && Contains(value, sensitive[0]) {
      ReplaceWritesToken(value, sensitive[0]);
      TokenStays(Pass(value, sensitive[0]), sensitive[1..]);
    } else {
      assert OccursAt(value, value, 0);
      assert sensitive == [sensitive[0]] + sensitive[1..];
      SecretBecomesToken(value, sensitive[1..]);
    }
  }

  /** A value that occurs in the token itself is never fully hidden: shown alone, it
      is replaced by a token that contains it. */
  lemma SecretInTokenIsShown(secret: string, sensitive: seq<string>)
    requires secret != "" && secret in sensitive && Contains(TOKEN, secret)
    ensures Contains(Redacted(secret, sensitive), secret)
  {
    SecretBecomesToken(secret, sensitive);
    ContainsTransitive(Redacted(secret, sensitive), TOKEN, secret);
  }

  /** Whatever the text, no listed value is left after redaction. */
  ghost predicate HidesAll(sensitive: seq<string>) {
    forall value, s :: s in sensitive ==> !Contains(Redacted(value, sensitive), s)
  }

  /** For values without angle brackets redaction is complete, whatever the text,
      exactly when none of them occurs in the word "redacted". */
  lemma RedactionIsComplete(sensitive: seq<string>)
    requires forall s :: s in sensitive ==> s != "" && BracketFree(s)
    ensures HidesAll(sensitive) <==> forall s :: s in sensitive ==> !Contains("redacted", s)
  {
    if forall s :: s in sensitive ==> !Contains("redacted", s) {
      forall s | s in sensitive ensures !Touches(s) { BracketFreeTouches(s); }
      forall value, s | s in sensitive ensures !Contains(Redacted(value, sensitive), s) {
        NothingIsLeft(value, sensitive);
      }
    } else {
      var s :| s in sensitive && Contains("redacted", s);
      SecretInWordIsShown(s, sensitive);
    }
  }

  lemma SecretInWordIsShown(secret: string, sensitive: seq<string>)
    requires secret != "" && secret in sensitive && Contains("redacted", secret)
    ensures !HidesAll(sensitive)
  {
    WordInToken();
    ContainsTransitive(TOKEN, "redacted", secret);
    SecretInTokenIsShown(secret, sensitive);
  }

  lemma WordInToken()
    ensures Contains(TOKEN, "redacted")
  {
    assert TOKEN[1..9] == "redacted";
    assert OccursAt(TOKEN, "redacted", 1);
  }
}
