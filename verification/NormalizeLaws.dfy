/** What normalising guarantees: a second pass changes nothing, and accepted
    plain SQL holds no semicolon that a server could take for a separator. */
module NormalizeLaws {
  import opened Model
  import opened SqlText
  import opened Normalize

  /** Text whose only whitespace is what the scanner skips. */
  predicate OrdinarySpacing(u: Unicode, s: string) {
    forall i | 0 <= i < |s| :: s[i] in u.space ==> s[i] in BLANKS
  }

  // ------------------------------------------------ slashes, piece by piece

  lemma {:induction false} LineBlankOver(u: Unicode, blank: bool, a: string, b: string)
    ensures LineBlank(u, blank, a + b) == LineBlank(u, LineBlank(u, blank, a), b)
  {
    if b == [] {
      assert a + b == a;
    } else {
      assert (a + b)[..|a + b| - 1] == a + b[..|b| - 1];
      LineBlankOver(u, blank, a, b[..|b| - 1]);
    }
  }

  lemma {:induction false} LoneSlashFirst(u: Unicode, blank: bool, p: Piece, ps: seq<Piece>)
    ensures LoneSlashAt(u, blank, [p] + ps, 0) <==> IsPunct(p, "/") && blank && BlankToLineEnd(u, Concat(ps))
  {
    hide BlankToLineEnd, IsPunct;
    var all := [p] + ps;
    assert all[..0] == [] && all[1..] == ps && LineBlank(u, blank, []) == blank;
  }

  lemma {:induction false} LoneSlashLater(u: Unicode, blank: bool, p: Piece, ps: seq<Piece>, k: nat)
    requires k < |ps|
    ensures LoneSlashAt(u, blank, [p] + ps, k + 1) == LoneSlashAt(u, LineBlank(u, blank, p.text), ps, k)
  {
    hide BlankToLineEnd, IsPunct;
    var all := [p] + ps;
    assert all[..k + 1] == [p] + ps[..k] && all[k + 2..] == ps[k + 1..];
    assert ([p] + ps[..k])[1..] == ps[..k];
    LineBlankOver(u, blank, p.text, Concat(ps[..k]));
  }

  lemma {:induction false} LoneSlashCons(u: Unicode, blank: bool, p: Piece, ps: seq<Piece>)
    ensures HasLoneSlash(u, blank, [p] + ps) <==>
              (IsPunct(p, "/") && blank && BlankToLineEnd(u, Concat(ps))) || HasLoneSlash(u, LineBlank(u, blank, p.text), ps)
  {
    hide BlankToLineEnd, IsPunct, LoneSlashAt, LineBlank, Concat;
    var all, later := [p] + ps, LineBlank(u, blank, p.text);
    LoneSlashFirst(u, blank, p, ps);
    if HasLoneSlash(u, blank, all) {
      var k :| 0 <= k < |all| && LoneSlashAt(u, blank, all, k);
      if k > 0 {
        LoneSlashLater(u, blank, p, ps, k - 1);
      }
    }
    if HasLoneSlash(u, later, ps) {
      var k :| 0 <= k < |ps| && LoneSlashAt(u, later, ps, k);
      LoneSlashLater(u, blank, p, ps, k);
    }
  }

  lemma {:induction false} BlankTailIsNoMatter(u: Unicode, x: string, w: string)
    requires forall i | 0 <= i < |w| :: w[i] in u.space
    ensures BlankToLineEnd(u, x + w) == BlankToLineEnd(u, x)
    decreases |x| + |w|
  {
    if x == [] {
      assert x + w == w;
      if w != [] {
        assert [] + w[1..] == w[1..];
        BlankTailIsNoMatter(u, [], w[1..]);
      }
    } else {
      assert (x + w)[1..] == x[1..] + w;
      BlankTailIsNoMatter(u, x[1..], w);
    }
  }

  // ------------------------------------------------------------ stripping

  /** Whitespace the scanner does not skip: a token of its own. */
  predicate IsStray(u: Unicode, p: Piece) {
    p.kind.PUNCT? && |p.text| == 1 && p.text[0] in u.space && p.text[0] !in BLANKS
  }

  predicate AllStray(u: Unicode, ps: seq<Piece>) {
    forall i | 0 <= i < |ps| :: IsStray(u, ps[i])
  }

  predicate AllSpaces(u: Unicode, s: string) {
    forall i | 0 <= i < |s| :: s[i] in u.space
  }

  /** The same words, and the same answer about slashes. */
  ghost predicate SameStatement(u: Unicode, blank: bool, s: string, t: string) {
    && Lex(u, s).Some? && Lex(u, t).Some?
    && Words(u, Lex(u, s).value) == Words(u, Lex(u, t).value)
    && (HasLoneSlash(u, blank, Lex(u, s).value) <==> HasLoneSlash(u, blank, Lex(u, t).value))
  }

  lemma {:induction false} WordsCons(u: Unicode, p: Piece, ps: seq<Piece>)
    ensures Words(u, [p] + ps) == (if p.kind.WORD? then [Upper(u, p.text)] else []) + Words(u, ps)
  {
    assert ([p] + ps)[1..] == ps;
  }

  lemma {:induction false} SignificantCons(p: Piece, ps: seq<Piece>)
    ensures Significant([p] + ps) == (if IsSignificant(p) then [p] else []) + Significant(ps)
  {
    assert ([p] + ps)[1..] == ps;
  }

  lemma {:induction false} LexCons(u: Unicode, s: string)
    requires s != [] && Head(u, s).Some?
    ensures var p := Head(u, s).value;
            && (Lex(u, s).Some? <==> Lex(u, s[|p.text|..]).Some?)
            && (Lex(u, s).Some? ==> Lex(u, s).value == [p] + Lex(u, s[|p.text|..]).value)
  {
  }

  /** Two texts that start with the same piece. */
  lemma {:induction false} SameHead(u: Unicode, blank: bool, s: string, t: string, p: Piece, stray: seq<Piece>)
    requires s != [] && t != [] && Head(u, s) == Some(p) && Head(u, t) == Some(p)
    requires SameStatement(u, LineBlank(u, blank, p.text), s[|p.text|..], t[|p.text|..])
    requires BlankToLineEnd(u, s[|p.text|..]) == BlankToLineEnd(u, t[|p.text|..])
    requires Significant(Lex(u, s[|p.text|..]).value) == Significant(Lex(u, t[|p.text|..]).value) + stray
    ensures SameStatement(u, blank, s, t)
    ensures Significant(Lex(u, s).value) == Significant(Lex(u, t).value) + stray
  {
    hide Head, Lex, BlankToLineEnd, LineBlank, HasLoneSlash, Concat, Significant, Words, IsSignificant;
    var a, b := Lex(u, s[|p.text|..]).value, Lex(u, t[|p.text|..]).value;
    LexCons(u, s);
    LexCons(u, t);
    SignificantCons(p, a);
    SignificantCons(p, b);
    WordsCons(u, p, a);
    WordsCons(u, p, b);
    LoneSlashCons(u, blank, p, a);
    LoneSlashCons(u, blank, p, b);
  }

  /** A character of no class is a token of its own. */
  lemma {:induction false} PunctHead(u: Unicode, c: char, s: string)
    requires c !in BLANKS && c !in u.alpha && c !in u.digit && c !in SPECIALS - {'@', ';', '(', ')', '*', '+', 'e', 'E', '\0'}
    ensures Head(u, [c] + s) == Some(Piece(PUNCT, [c]))
    ensures Lex(u, s).Some? ==> Lex(u, [c] + s) == Some([Piece(PUNCT, [c])] + Lex(u, s).value)
  {
    var t := [c] + s;
    assert t[..1] == [c] && t[1..] == s && t[0] == c;
    assert "--"[0] != t[0] && "/*"[0] != t[0];
  }

  /** One whitespace character at the start. */
  lemma {:induction false} SpaceHead(u: Unicode, s: string)
    requires Standard(u) && s != [] && s[0] in u.space
    ensures Head(u, s).Some? && Head(u, s).value.text == [s[0]]
    ensures if s[0] in BLANKS then Head(u, s).value.kind.SPACE? else IsStray(u, Head(u, s).value)
  {
    hide Standard;
    SpaceIsInert(u);
    assert s == [s[0]] + s[1..];
    if s[0] !in BLANKS {
      PunctHead(u, s[0], s[1..]);
    }
  }

  /** Whitespace lexes to skipped and stray characters only. */
  lemma {:induction false} SpacesScan(u: Unicode, blank: bool, w: string) returns (stray: seq<Piece>)
    requires Standard(u) && AllSpaces(u, w)
    ensures AllStray(u, stray) && SameStatement(u, blank, w, []) && Significant(Lex(u, w).value) == stray
    decreases |w|
  {
    if w == [] {
      stray := [];
    } else {
      hide Head, Lex, Standard, Significant, Words, HasLoneSlash;
      SpaceHead(u, w);
      var p := Head(u, w).value;
      var rest := SpacesScan(u, LineBlank(u, blank, p.text), w[1..]);
      LexCons(u, w);
      var ps := Lex(u, w[1..]).value;
      SignificantCons(p, ps);
      WordsCons(u, p, ps);
      LoneSlashCons(u, blank, p, ps);
      StrayIsNoSlash(u, p);
      NothingScans(u, blank);
      NothingScans(u, LineBlank(u, blank, p.text));
      stray := if IsSignificant(p) then [p] + rest else rest;
    }
  }

  lemma {:induction false} NothingScans(u: Unicode, blank: bool)
    ensures Lex(u, []) == Some([]) && Significant([]) == [] && Words(u, []) == [] && !HasLoneSlash(u, blank, [])
  {
  }

  lemma {:induction false} StrayIsNoSlash(u: Unicode, p: Piece)
    requires Standard(u) && (p.kind.SPACE? || IsStray(u, p))
    ensures !IsPunct(p, "/") && !IsPunct(p, ";") && !IsPunct(p, "@") && !IsPunct(p, "(") && !IsPunct(p, ")") && !IsPunct(p, ".")
    ensures !p.kind.WORD?
  {
    SpaceIsInert(u);
  }

  /** A line comment that runs up to the whitespace loses nothing that counts. */
  lemma {:induction false} CommentBeforeSpaces(u: Unicode, blank: bool, x: string, w: string) returns (stray: seq<Piece>)
    requires Standard(u) && "--" <= x && AllSpaces(u, w)
    requires |Head(u, x + w).value.text| > |x|
    ensures AllStray(u, stray) && SameStatement(u, blank, x + w, x)
    ensures Significant(Lex(u, x + w).value) == Significant(Lex(u, x).value) + stray
  {
    hide Standard, Significant, Words, HasLoneSlash;
    assert "--" <= x + w && x[0] !in BLANKS && (x + w)[0] == x[0] by {
      assert x[0] == "--"[0];
    }
    if Find("\n", x).Some? {
      assert x + [] == x;
      FindLocal("\n", x, [], w);
    }
    var c := Piece(COMMENT, x);
    assert Head(u, x) == Some(c) && x[|x|..] == [];
    var p := Head(u, x + w).value;
    assert p.kind.COMMENT?;
    hide Head, Lex;
    var rest := (x + w)[|p.text|..];
    assert rest == w[|p.text| - |x|..];
    stray := SpacesScan(u, LineBlank(u, blank, p.text), rest);
    LexCons(u, x + w);
    LexCons(u, x);
    NothingScans(u, blank);
    NothingScans(u, LineBlank(u, blank, p.text));
    NothingScans(u, LineBlank(u, blank, x));
    var ps := Lex(u, rest).value;
    SignificantCons(p, ps);
    WordsCons(u, p, ps);
    LoneSlashCons(u, blank, p, ps);
    SignificantCons(c, []);
    WordsCons(u, c, []);
    LoneSlashCons(u, blank, c, []);
  }

  lemma {:induction false} TrailingSpaces(u: Unicode, blank: bool, x: string, w: string) returns (stray: seq<Piece>)
    requires Standard(u) && AllSpaces(u, w) && (x != [] ==> x[|x| - 1] !in u.space)
    requires Lex(u, x + w).Some?
    ensures AllStray(u, stray) && SameStatement(u, blank, x + w, x)
    ensures Significant(Lex(u, x + w).value) == Significant(Lex(u, x).value) + stray
    decreases |x|
  {
    hide Head, Boundary, BlankToLineEnd, LineBlank, SameStatement, Standard, Significant, AllStray;
    if x == [] {
      assert x + w == w;
      NothingScans(u, blank);
      stray := SpacesScan(u, blank, w);
      assert [] + stray == stray;
    } else {
      var p := Head(u, x + w).value;
      TrailBoundary(u, w);
      assert x + [] == x;
      if |p.text| <= |x| {
        HeadIsLocal(u, x, w, []);
        var x' := x[|p.text|..];
        assert (x + w)[|p.text|..] == x' + w;
        stray := TrailingSpaces(u, LineBlank(u, blank, p.text), x', w);
        BlankTailIsNoMatter(u, x', w);
        SameHead(u, blank, x + w, x, p, stray);
      } else {
        OverrunIsComment(u, x, w);
        stray := CommentBeforeSpaces(u, blank, x, w);
      }
    }
  }

  lemma {:induction false} TrailBoundary(u: Unicode, w: string)
    requires AllSpaces(u, w)
    ensures Boundary(u, w) && Boundary(u, [])
  {
  }

  lemma {:induction false} OverrunIsComment(u: Unicode, x: string, w: string)
    requires Standard(u) && AllSpaces(u, w) && x != [] && x[|x| - 1] !in u.space
    requires Head(u, x + w).Some? && |Head(u, x + w).value.text| > |x|
    ensures "--" <= x
  {
    hide Head, Standard;
    var text := Head(u, x + w).value.text;
    assert text[|text| - 1] == (x + w)[|text| - 1] == w[|text| - 1 - |x|];
    if (x + w)[0] in u.space {
      SpaceHead(u, x + w);
      assert false;
    }
    if !("--" <= x + w) {
      EndOfPiece(u, x + w);
      assert false;
    }
    SpaceIsInert(u);
    assert (x + w)[..2] == "--";
    assert (x + w)[1] == "--"[1];
    assert |x| >= 2;
    assert x[..2] == (x + w)[..2];
  }

  lemma {:induction false} LeadingSpace(u: Unicode, s: string)
    requires Standard(u) && s != [] && s[0] in u.space && Lex(u, s).Some?
    ensures SameStatement(u, true, s, s[1..])
    ensures Significant(Lex(u, s).value) == (if s[0] in BLANKS then [] else [Piece(PUNCT, [s[0]])]) + Significant(Lex(u, s[1..]).value)
  {
    hide Head, Lex, HasLoneSlash, Standard, Significant, Words;
    SpaceHead(u, s);
    var p := Head(u, s).value;
    LexCons(u, s);
    var rest := Lex(u, s[1..]).value;
    SignificantCons(p, rest);
    WordsCons(u, p, rest);
    assert LineBlank(u, true, p.text) by {
      assert p.text == [s[0]] && p.text[..0] == [];
    }
    LoneSlashCons(u, true, p, rest);
    StrayIsNoSlash(u, p);
  }

  /** Whitespace in front that the scanner does not skip. */
  predicate LeadStray(u: Unicode, s: string) {
    s != [] && s[0] in u.space && (s[0] !in BLANKS || LeadStray(u, s[1..]))
  }

  lemma {:induction false} TrimLeftKeeps(u: Unicode, s: string) returns (stray: seq<Piece>)
    requires Standard(u) && Lex(u, s).Some?
    ensures AllStray(u, stray) && SameStatement(u, true, s, TrimLeft(u, s))
    ensures Significant(Lex(u, s).value) == stray + Significant(Lex(u, TrimLeft(u, s)).value)
    ensures stray != [] <==> LeadStray(u, s)
  {
    hide Lex, Standard, Significant, HasLoneSlash, Words;
    if s != [] && s[0] in u.space {
      LeadingSpace(u, s);
      var rest := TrimLeftKeeps(u, s[1..]);
      stray := if s[0] in BLANKS then rest else [Piece(PUNCT, [s[0]])] + rest;
    } else {
      stray := [];
    }
  }

  /** Cutting at the right cuts only whitespace. */
  lemma {:induction false} TrimRightCuts(u: Unicode, s: string) returns (w: string)
    ensures s == TrimRight(u, s) + w && AllSpaces(u, w)
    ensures var x := TrimRight(u, s); x != [] ==> x[|x| - 1] !in u.space
  {
    if s != [] && s[|s| - 1] in u.space {
      var v := TrimRightCuts(u, s[..|s| - 1]);
      w := v + [s[|s| - 1]];
      assert s == s[..|s| - 1] + [s[|s| - 1]];
    } else {
      w := [];
    }
  }

  /** Stripping a text takes away stray whitespace at both ends and changes
      nothing else that counts. */
  lemma {:induction false} StripKeeps(u: Unicode, s: string) returns (before: seq<Piece>, after: seq<Piece>)
    requires Standard(u) && Lex(u, s).Some?
    ensures AllStray(u, before) && AllStray(u, after) && SameStatement(u, true, s, Strip(u, s))
    ensures Significant(Lex(u, s).value) == before + Significant(Lex(u, Strip(u, s)).value) + after
    ensures before != [] <==> LeadStray(u, s)
  {
    hide Lex, HasLoneSlash, Significant, Words, Standard, AllStray;
    before := TrimLeftKeeps(u, s);
    var t := TrimLeft(u, s);
    var w := TrimRightCuts(u, t);
    after := TrailingSpaces(u, true, TrimRight(u, t), w);
    var sig := Significant(Lex(u, TrimRight(u, t)).value);
    assert before + (sig + after) == before + sig + after;
  }

  lemma {:induction false} TrimLeftStops(u: Unicode, s: string)
    ensures TrimLeft(u, s) != [] ==> TrimLeft(u, s)[0] !in u.space
  {
    if s != [] && s[0] in u.space {
      TrimLeftStops(u, s[1..]);
    }
  }

  lemma {:induction false} TrimRightIsPrefix(u: Unicode, s: string)
    ensures TrimRight(u, s) <= s
    ensures var x := TrimRight(u, s); x != [] ==> x[|x| - 1] !in u.space
  {
    if s != [] && s[|s| - 1] in u.space {
      TrimRightIsPrefix(u, s[..|s| - 1]);
    }
  }

  lemma {:induction false} StripOnce(u: Unicode, s: string)
    ensures Strip(u, Strip(u, s)) == Strip(u, s)
  {
    TrimLeftStops(u, s);
    TrimRightIsPrefix(u, TrimLeft(u, s));
  }

  // ----------------------------------------------- removing the semicolon

  const SEMICOLON: Piece := Piece(PUNCT, ";")

  lemma {:induction false} SilentWords(u: Unicode, b: seq<Piece>)
    requires Significant(b) == []
    ensures Words(u, b) == [] && forall k | 0 <= k < |b| :: !IsSignificant(b[k])
  {
    if b != [] {
      assert Significant(b[1..]) == [] && !IsSignificant(b[0]);
      SilentWords(u, b[1..]);
      assert forall k | 1 <= k < |b| :: b[k] == b[1..][k - 1];
    }
  }

  /** What can follow the last significant piece. */
  lemma {:induction false} SilentBoundary(u: Unicode, b: seq<Piece>)
    requires Standard(u) && Significant(b) == [] && Lex(u, Concat(b)) == Some(b)
    ensures Boundary(u, Concat(b))
    ensures Concat(b) != [] && Concat(b)[0] == '-' ==> "--" <= Concat(b)
  {
  }

  lemma {:induction false} DashIsNoWord(u: Unicode, s: string)
    requires Standard(u) && s != [] && s[0] == '-' && Head(u, s).Some?
    ensures !Head(u, s).value.kind.WORD?
  {
    hide Find, PlainEnd, Run, NumberEnd, DollarTag, PrefixLength, PrefixedEnd;
  }

  lemma {:induction false} DashComment(u: Unicode, s: string)
    requires "--" <= s
    ensures Head(u, s).Some? && Head(u, "-" + s) == Some(Piece(COMMENT, "-" + Head(u, s).value.text))
  {
    var t := "-" + s;
    assert s[0] == "--"[0] && s[1] == "--"[1];
    assert t[1..] == s && t[0] == '-' && t[1] == '-' && "--" <= t;
    assert !("\n" <= t) by {
      assert "\n"[0] != t[0];
    }
    assert Find("\n", t) == Shift(1, Find("\n", s));
    var n := |Head(u, s).value.text|;
    assert t[..n + 1] == "-" + s[..n];
  }

  /** The join a removed semicolon can make: a dash before a line comment becomes
      part of it. */
  lemma {:induction false} DashJoinsComment(u: Unicode, s: string)
    requires "--" <= s && Lex(u, s).Some?
    ensures Lex(u, "-" + s) == Some([Piece(COMMENT, "-" + Lex(u, s).value[0].text)] + Lex(u, s).value[1..])
  {
    hide Head, Lex;
    DashComment(u, s);
    LexCons(u, s);
    LexCons(u, "-" + s);
    var p := Head(u, s).value;
    assert ("-" + s)[|p.text| + 1..] == s[|p.text|..];
  }

  lemma {:induction false} CommentNeverStopsAtSemicolon(u: Unicode, x: string, rest: string)
    requires "--" <= x && |Head(u, x + (";" + rest)).value.text| <= |x|
    ensures |Head(u, x + (";" + rest)).value.text| < |x|
  {
    var s := x + (";" + rest);
    assert "--" <= s && s[|x|] == ';' && s[0] == "--"[0];
    FindIsFirst("\n", s);
    if Find("\n", s) == Some(|x|) {
      assert s[|x|..][0] == "\n"[0];
    }
  }

  /** Removing the last semicolon leaves every word in place. */
  lemma {:induction false} SemicolonHoldsNoWord(u: Unicode, a: seq<Piece>, b: seq<Piece>)
    requires Standard(u) && Significant(b) == []
    requires Lex(u, Concat(a) + (";" + Concat(b))) == Some(a + ([SEMICOLON] + b))
    ensures Lex(u, Concat(b)) == Some(b)
    ensures Lex(u, Concat(a) + Concat(b)).Some?
    ensures Words(u, Lex(u, Concat(a) + Concat(b)).value) == Words(u, a)
    decreases a
  {
    hide Lex, Head, Boundary, Standard, Significant, Find;
    var x, rest := Concat(a), Concat(b);
    var y := ";" + rest;
    var all := a + ([SEMICOLON] + b);
    SilentWords(u, b);
    HeadOfAll(u, x + y, all);
    if a == [] {
      assert x + y == y && x + rest == rest && all == [SEMICOLON] + b;
      assert y[1..] == rest && all[1..] == b;
    } else {
      var p, a' := a[0], a[1..];
      var x' := Concat(a');
      assert all[0] == p && all[1..] == a' + ([SEMICOLON] + b);
      assert (x + y)[|p.text|..] == x' + y && (x + rest)[|p.text|..] == x' + rest;
      SemicolonHoldsNoWord(u, a', b);
      SilentBoundary(u, b);
      if x == "-" && rest != [] && rest[0] == '-' {
        DashDropped(u, a, b);
      } else {
        SemicolonBoundary(u, rest);
        if "--" <= x {
          CommentNeverStopsAtSemicolon(u, x, rest);
        }
        HeadIsLocal(u, x, y, rest);
        LexCons(u, x + rest);
        WordsCons(u, p, Lex(u, x' + rest).value);
      }
    }
  }

  lemma {:induction false} HeadOfAll(u: Unicode, s: string, ps: seq<Piece>)
    requires s != [] && ps != [] && Lex(u, s) == Some(ps)
    ensures Head(u, s) == Some(ps[0]) && Lex(u, s[|ps[0].text|..]) == Some(ps[1..])
  {
    hide Head;
  }

  lemma {:induction false} SemicolonBoundary(u: Unicode, rest: string)
    ensures Boundary(u, ";" + rest)
  {
  }

  lemma {:induction false} DashDropped(u: Unicode, a: seq<Piece>, b: seq<Piece>)
    requires Standard(u) && a != [] && Concat(a) == "-" && Significant(b) == [] && Lex(u, Concat(b)) == Some(b)
    requires "--" <= Concat(b)
    requires Head(u, "-" + (";" + Concat(b))) == Some(a[0])
    ensures Lex(u, "-" + Concat(b)).Some?
    ensures Words(u, Lex(u, "-" + Concat(b)).value) == []
    ensures !a[0].kind.WORD? && Concat(a[1..]) == []
  {
    DashIsNoWord(u, "-" + (";" + Concat(b)));
    DashJoinsComment(u, Concat(b));
    SilentWords(u, b);
    SilentTail(u, b);
    assert |a[0].text| == 1;
    WordsCons(u, Piece(COMMENT, "-" + b[0].text), b[1..]);
  }

  lemma {:induction false} SilentTail(u: Unicode, b: seq<Piece>)
    requires b != [] && Significant(b) == []
    ensures Words(u, b[1..]) == []
  {
    assert Significant(b[1..]) == [];
    SilentWords(u, b[1..]);
  }

  lemma {:induction false} WordsSplit(u: Unicode, a: seq<Piece>, b: seq<Piece>)
    ensures Words(u, a + b) == Words(u, a) + Words(u, b)
  {
    if a == [] {
      assert a + b == b;
    } else {
      assert (a + b)[1..] == a[1..] + b;
      WordsSplit(u, a[1..], b);
    }
  }

  /** The last significant piece is the piece at `LastIndex`. */
  lemma {:induction false} LastOfSignificant(ps: seq<Piece>)
    requires Significant(ps) != []
    ensures Significant(ps)[|Significant(ps)| - 1] == ps[LastIndex(ps)]
  {
    if Significant(ps[1..]) != [] {
      LastOfSignificant(ps[1..]);
    }
  }

  /** The text to submit has the words of the text that was classified. */
  lemma {:induction false} WithoutSemicolonKeepsWords(u: Unicode, text: string, kind: StatementKind)
    requires Standard(u) && Content(u, text).Some?
    ensures var t := WithoutSemicolon(Content(u, text).value, kind);
            Lex(u, t).Some? && Words(u, Lex(u, t).value) == Words(u, Lex(u, text).value)
  {
    hide Lex;
    var ps := Content(u, text).value;
    var k := LastIndex(ps);
    if kind.SQL? && IsPunct(ps[k], ";") {
      var a, b := ps[..k], ps[k + 1..];
      assert ps == a + ([SEMICOLON] + b);
      ConcatSplits(a, [SEMICOLON] + b);
      ConcatSplits([SEMICOLON], b);
      assert Concat([SEMICOLON]) == ";";
      SemicolonHoldsNoWord(u, a, b);
      WordsSplit(u, a, [SEMICOLON] + b);
      WordsCons(u, SEMICOLON, b);
      SilentWords(u, b);
    }
  }

  // ------------------------------------ what is in front stays in front

  lemma {:induction false} OrdinaryLead(u: Unicode, s: string)
    ensures OrdinarySpacing(u, s) ==> !LeadStray(u, s)
  {
    if LeadStray(u, s) && s[0] in BLANKS && OrdinarySpacing(u, s) {
      assert forall i | 0 <= i < |s[1..]| :: s[1..][i] == s[i + 1];
      OrdinaryLead(u, s[1..]);
    }
  }

  lemma {:induction false} LeadIsInFront(u: Unicode, a: string, x: string)
    requires !AllSpaces(u, a)
    ensures LeadStray(u, a + x) <==> LeadStray(u, a)
  {
    assert a != [] && (a + x)[0] == a[0];
    if a[0] in u.space {
      assert (a + x)[1..] == a[1..] + x;
      var i :| 0 <= i < |a| && a[i] !in u.space;
      assert a[1..][i - 1] == a[i];
      LeadIsInFront(u, a[1..], x);
    }
  }

  lemma {:induction false} SpacesHoldNoWord(u: Unicode, a: string, b: string)
    requires Standard(u) && AllSpaces(u, a) && Lex(u, a + b).Some?
    ensures Lex(u, b).Some? && Words(u, Lex(u, a + b).value) == Words(u, Lex(u, b).value)
  {
    hide Lex, Standard, Words, HasLoneSlash, Significant;
    if a == [] {
      assert a + b == b;
    } else {
      LeadingSpace(u, a + b);
      assert (a + b)[1..] == a[1..] + b;
      SpacesHoldNoWord(u, a[1..], b);
    }
  }

  lemma {:induction false} LexTail(u: Unicode, ps: seq<Piece>, k: nat)
    requires Lex(u, Concat(ps)) == Some(ps) && k <= |ps|
    ensures Lex(u, Concat(ps[k..])) == Some(ps[k..])
  {
    hide Lex;
    if k == 0 {
      assert ps[0..] == ps;
    } else {
      var s := Concat(ps);
      assert s == ps[0].text + Concat(ps[1..]);
      assert s != [] by {
        NothingScans(u, true);
        assert |ps| > 0;
      }
      HeadOfAll(u, s, ps);
      assert s[|ps[0].text|..] == Concat(ps[1..]);
      LexTail(u, ps[1..], k - 1);
      assert ps[1..][k - 1..] == ps[k..];
    }
  }

  /** Dropping the terminator leaves what is in front of the statement alone. */
  lemma {:induction false} CutKeepsLead(u: Unicode, ps: seq<Piece>)
    requires Standard(u) && Significant(ps) != [] && Lex(u, Concat(ps)) == Some(ps)
    requires Lex(u, WithoutLast(ps)).Some? && Words(u, Lex(u, WithoutLast(ps)).value) != []
    ensures LeadStray(u, WithoutLast(ps)) <==> LeadStray(u, Concat(ps))
  {
    hide Lex, Standard, Words, Significant, LeadStray, LastIndex, AllSpaces;
    var k := LastIndex(ps);
    var a, b := Concat(ps[..k]), Concat(ps[k + 1..]);
    LexTail(u, ps, k + 1);
    hide Concat;
    assert WithoutLast(ps) == a + b;
    if AllSpaces(u, a) {
      SpacesHoldNoWord(u, a, b);
      SilentWords(u, ps[k + 1..]);
      assert false;
    }
    assert ps == ps[..k] + ps[k..];
    ConcatSplits(ps[..k], ps[k..]);
    LeadIsInFront(u, a, b);
    LeadIsInFront(u, a, Concat(ps[k..]));
  }

  // ------------------------------------------------------------ the laws

  lemma {:induction false} WordsAreSignificant(u: Unicode, ps: seq<Piece>)
    ensures Words(u, ps) == Words(u, Significant(ps))
  {
    if ps != [] {
      WordsAreSignificant(u, ps[1..]);
      if IsSignificant(ps[0]) {
        WordsCons(u, ps[0], Significant(ps[1..]));
      } else {
        assert Significant(ps) == Significant(ps[1..]);
      }
    }
  }

  /** What is cut out of a text holds no new character. */
  lemma {:induction false} SubmittedSpacing(u: Unicode, ps: seq<Piece>)
    requires Significant(ps) != []
    ensures '\0' !in Concat(ps) ==> '\0' !in WithoutLast(ps)
  {
    var k := LastIndex(ps);
    assert ps == ps[..k] + ([ps[k]] + ps[k + 1..]);
    ConcatSplits(ps[..k], [ps[k]] + ps[k + 1..]);
    ConcatSplits([ps[k]], ps[k + 1..]);
    var a, m, b := Concat(ps[..k]), Concat([ps[k]]), Concat(ps[k + 1..]);
    var s := Concat(ps);
    assert s == a + (m + b);
    forall i | 0 <= i < |a + b| ensures (a + b)[i] in s {
      assert (a + b)[i] == if i < |a| then s[i] else s[i + |m|];
    }
  }

  lemma {:induction false} SomeWord(words: seq<string>)
    requires KindOf(words).Some?
    ensures words != []
  {
  }

  /** The text an accepted statement was finally checked as. */
  lemma {:induction false} Submitted(u: Unicode, sql: string) returns (t: string, kind: StatementKind)
    requires Standard(u)
    requires Normalized(u, sql).Some?
    ensures LeadStray(u, t) <==> LeadStray(u, sql)
    ensures '\0' !in t && Accept(u, t, kind) == Normalized(u, sql)
    ensures Lex(u, t).Some? && KindOf(Words(u, Lex(u, t).value)) == Some(kind)
  {
    hide Lex, Significant, Words, HasLoneSlash, Terminated, KindOf, Concat, Standard, Strip, Build, LeadStray, WithoutLast;
    var text := WithoutSlash(u, sql).value;
    var all := Content(u, sql).value;
    SubmittedSpacing(u, all);
    var ps := Content(u, text).value;
    kind := KindOf(Words(u, ps)).value;
    SomeWord(Words(u, ps));
    if text != sql {
      CutKeepsLead(u, all);
    }
    SubmittedSpacing(u, ps);
    WithoutSemicolonKeepsWords(u, text, kind);
    t := WithoutSemicolon(ps, kind);
    if t != text {
      CutKeepsLead(u, ps);
    }
  }

  // ------------------------------------------- what stray tokens leave alone

  lemma {:induction false} NamesSplit(u: Unicode, a: seq<Piece>, b: seq<Piece>)
    ensures Names(u, a + b) == Names(u, a) + Names(u, b)
  {
    if a == [] {
      assert a + b == b;
    } else {
      assert (a + b)[1..] == a[1..] + b;
      NamesSplit(u, a[1..], b);
    }
  }

  lemma {:induction false} StraysNameNothing(u: Unicode, ps: seq<Piece>)
    requires AllStray(u, ps)
    ensures Names(u, ps) == {} && DoNames(u, ps) == Some({}) && StringNames(u, ps) == {}
  {
    if ps != [] {
      assert IsStray(u, ps[0]) && IsStray(u, ps[|ps| - 1]);
      NamesOfTail(u, ps);
      StraysNameNothing(u, ps[..|ps| - 1]);
    }
  }

  lemma {:induction false} NamesOfTail(u: Unicode, ps: seq<Piece>)
    requires AllStray(u, ps)
    ensures Names(u, ps) == {}
  {
    if ps != [] {
      assert IsStray(u, ps[0]);
      NamesOfTail(u, ps[1..]);
    }
  }

  lemma {:induction false} TrailingStrays(u: Unicode, m: seq<Piece>, after: seq<Piece>)
    requires AllStray(u, after)
    ensures DoNames(u, m + after) == DoNames(u, m) && StringNames(u, m + after) == StringNames(u, m)
  {
    if after == [] {
      assert m + after == m;
    } else {
      var n := |after| - 1;
      assert (m + after)[..|m + after| - 1] == m + after[..n];
      assert IsStray(u, after[n]);
      TrailingStrays(u, m, after[..n]);
      if |m + after| < 2 {
        assert m == [] && StringNames(u, m) == {};
      }
    }
  }

  lemma {:induction false} LeadingStrays(u: Unicode, before: seq<Piece>, m: seq<Piece>)
    requires Standard(u) && AllStray(u, before)
    ensures DoNames(u, before + m) == DoNames(u, m) && StringNames(u, before + m) == StringNames(u, m)
  {
    if m == [] {
      assert before + m == before;
      StraysNameNothing(u, before);
    } else {
      hide DoNames, StringNames, Standard, AllStray;
      var n := |m| - 1;
      assert (before + m)[..|before + m| - 1] == before + m[..n];
      LeadingStrays(u, before, m[..n]);
      DoNamesOn(u, before + m);
      DoNamesOn(u, m);
      StringNamesOn(u, before, m);
    }
  }

  lemma {:induction false} DoNamesOn(u: Unicode, sig: seq<Piece>)
    requires sig != []
    ensures var n := |sig| - 1;
            var rest, p := DoNames(u, sig[..n]), sig[n];
            DoNames(u, sig) == if rest.None? || !p.kind.STRING? then rest
                               else if DoBody(p.text).None? then None
                               else Some(rest.value + BodyNames(u, DoBody(p.text).value))
  {
    hide DoBody, BodyNames;
  }

  lemma {:induction false} StrayBeforeNoName(u: Unicode, p: Piece)
    requires Standard(u) && IsStray(u, p)
    ensures !BeforeName(u, p)
  {
    StrayIsNoSlash(u, p);
  }

  lemma {:induction false} StringNamesOn(u: Unicode, before: seq<Piece>, m: seq<Piece>)
    requires Standard(u) && AllStray(u, before) && m != []
    requires StringNames(u, before + m[..|m| - 1]) == StringNames(u, m[..|m| - 1])
    ensures StringNames(u, before + m) == StringNames(u, m)
  {
    hide Upper, Undoubled, Inner, Standard, BeforeName, IsPlainLiteral, IsStray;
    var n := |m| - 1;
    var all := before + m;
    assert all[..|all| - 1] == before + m[..n];
    assert all[|all| - 1] == m[n];
    if n > 0 {
      assert all[|all| - 2] == m[n - 1];
    } else if before != [] {
      var last := before[|before| - 1];
      assert IsStray(u, last) && all[|all| - 2] == last;
      StrayBeforeNoName(u, last);
    }
  }

  lemma {:induction false} DepthBehindStrays(u: Unicode, before: seq<Piece>, m: seq<Piece>, after: seq<Piece>, k: nat)
    requires Standard(u) && AllStray(u, before) && k <= |m|
    ensures Depth(before + m + after, 0, |before| + k) == Depth(m, 0, k)
  {
    hide Standard;
    var all := before + m + after;
    if k > 0 {
      DepthBehindStrays(u, before, m, after, k - 1);
      assert all[|before| + k - 1] == m[k - 1];
    } else {
      DepthOfStrays(u, all, |before|);
    }
  }

  lemma {:induction false} DepthOfStrays(u: Unicode, all: seq<Piece>, n: nat)
    requires Standard(u) && n <= |all| && AllStray(u, all[..n])
    ensures Depth(all, 0, n) == 0
  {
    if n > 0 {
      assert IsStray(u, all[..n][n - 1]) && all[..n - 1] == all[..n][..n - 1];
      StrayIsNoSlash(u, all[n - 1]);
      DepthOfStrays(u, all, n - 1);
    }
  }

  lemma {:induction false} WordBehindStrays(u: Unicode, before: seq<Piece>, m: seq<Piece>, after: seq<Piece>, j: int)
    requires AllStray(u, before) && AllStray(u, after)
    ensures WordAt(u, before + m + after, |before| + j) == WordAt(u, m, j)
  {
    var all := before + m + after;
    var i := |before| + j;
    if 0 <= i < |before| {
      assert all[i] == before[i] && IsStray(u, before[i]);
    } else if |before| + |m| <= i < |all| {
      assert all[i] == after[i - |before| - |m|] && IsStray(u, after[i - |before| - |m|]);
    }
  }

  lemma {:induction false} BodyBehindStrays(u: Unicode, before: seq<Piece>, m: seq<Piece>, after: seq<Piece>, k: nat)
    requires Standard(u) && AllStray(u, before) && AllStray(u, after) && k < |m|
    ensures DmlBodyAt(u, before + m + after, |before| + k) == DmlBodyAt(u, m, k)
    ensures WordAt(u, before + m + after, |before| + k + 1) == WordAt(u, m, k + 1)
  {
    hide Standard, AllStray, WordAt, Depth;
    var all := before + m + after;
    assert all[|before| + k] == m[k];
    DepthBehindStrays(u, before, m, after, k);
    WordBehindStrays(u, before, m, after, k + 1);
    WordBehindStrays(u, before, m, after, k - 1);
    WordBehindStrays(u, before, m, after, k - 2);
    WordBehindStrays(u, before, m, after, k - 3);
  }

  lemma {:induction false} StrayOpensNoBody(u: Unicode, all: seq<Piece>, k: nat)
    requires Standard(u) && k < |all| && IsStray(u, all[k])
    ensures !DmlBodyAt(u, all, k)
  {
    hide Standard;
    StrayIsNoSlash(u, all[k]);
  }

  lemma {:induction false} BodyVerbsBehindStrays(u: Unicode, before: seq<Piece>, m: seq<Piece>, after: seq<Piece>)
    requires Standard(u) && AllStray(u, before) && AllStray(u, after)
    ensures BodyVerbs(u, before + m + after, |before + m + after|) == BodyVerbs(u, m, |m|)
  {
    hide Standard, DmlBodyAt, WordAt;
    var all := before + m + after;
    var b := |before|;
    forall v | v in BodyVerbs(u, all, |all|) ensures v in BodyVerbs(u, m, |m|) {
      var k :| 0 <= k < |all| && DmlBodyAt(u, all, k) && WordAt(u, all, k + 1) == v;
      if k < b {
        assert all[k] == before[k];
        StrayOpensNoBody(u, all, k);
        assert false;
      } else if k >= b + |m| {
        assert all[k] == after[k - b - |m|];
        StrayOpensNoBody(u, all, k);
        assert false;
      } else {
        BodyBehindStrays(u, before, m, after, k - b);
      }
    }
    forall v | v in BodyVerbs(u, m, |m|) ensures v in BodyVerbs(u, all, |all|) {
      var k :| 0 <= k < |m| && DmlBodyAt(u, m, k) && WordAt(u, m, k + 1) == v;
      BodyBehindStrays(u, before, m, after, k);
      assert DmlBodyAt(u, all, b + k);
    }
  }

  /** A statement built from tokens with strays around them: only the main verb
      of a WITH statement can tell. */
  lemma {:induction false} BuildBehindStrays(u: Unicode, text: string, kind: StatementKind, before: seq<Piece>, m: seq<Piece>, after: seq<Piece>,
                                             words: seq<string>)
    requires Standard(u) && AllStray(u, before) && AllStray(u, after)
    ensures var st := Build(u, text, kind, before + m + after, words);
            && (st.Some? <==> Build(u, text, kind, m, words).Some?)
            && (st.Some? ==> Build(u, text, kind, m, words).value == st.value.(cteVerb := CteVerb(u, words, m)))
  {
    hide Standard, Names, DoNames, StringNames, BodyVerbs, MainVerbFrom, AllStray;
    var sig := before + m + after;
    NamesSplit(u, before + m, after);
    NamesSplit(u, before, m);
    StraysNameNothing(u, before);
    StraysNameNothing(u, after);
    TrailingStrays(u, before + m, after);
    LeadingStrays(u, before, m);
    BodyVerbsBehindStrays(u, before, m, after);
    assert {} + Names(u, m) + {} == Names(u, m);
  }

  // ---------------------------------------------------------- a second pass

  /** The main verb a statement with these tokens reports. */
  function CteVerb(u: Unicode, words: seq<string>, sig: seq<Piece>): string {
    if StartsWith(words, "WITH") then MainVerbFrom(u, sig, 1) else ""
  }

  /** The significant tokens of an accepted text. */
  function Tokens(u: Unicode, text: string): seq<Piece> {
    var ps := Lex(u, text);
    if ps.Some? then Significant(ps.value) else []
  }

  /** The stripped text starts with a script inclusion. */
  predicate Includes(u: Unicode, text: string) {
    Tokens(u, text) != [] && IsPunct(Tokens(u, text)[0], "@")
  }

  /** What a second pass makes of an accepted statement: it refuses a script
      inclusion that stray whitespace had hidden, and it reads the main verb of a
      WITH statement without that whitespace.  Nothing else changes. */
  lemma {:induction false} SecondPass(u: Unicode, sql: string)
    requires Standard(u)
    ensures Normalized(u, sql).Some? ==>
              var st := Normalized(u, sql).value;
              Normalized(u, st.text)
              == if Includes(u, st.text) then None else Some(st.(cteVerb := CteVerb(u, st.lead, Tokens(u, st.text))))
  {
    hide Normalized, Lex, Significant, Words, KindOf, Strip, Standard, MainVerbFrom, Accept;
    if Normalized(u, sql).Some? {
      var t, kind := Submitted(u, sql);
      var before, after := StripKeeps(u, t);
      AcceptedAgain(u, t, kind, before, after);
    }
  }

  /** The first main verb from `k` on at that depth of parentheses. */
  function VerbAt(u: Unicode, m: seq<Piece>, k: nat, depth: int): string
    decreases |m| - k
  {
    if k >= |m| then ""
    else if m[k].kind.WORD? && Upper(u, m[k].text) in MAIN_VERBS && Depth(m, 0, k) == depth then Upper(u, m[k].text)
    else VerbAt(u, m, k + 1, depth)
  }

  predicate IsParenthesis(p: Piece) {
    IsPunct(p, "(") || IsPunct(p, ")")
  }

  /** A WITH statement whose first token is a parenthesis, and whose first main verb
      outside it is not the first one behind it. */
  predicate MovesVerb(u: Unicode, lead: seq<string>, m: seq<Piece>) {
    && StartsWith(lead, "WITH") && m != [] && IsParenthesis(m[0])
    && VerbAt(u, m, 1, 0) != VerbAt(u, m, 1, Depth(m, 0, 1))
  }

  /** So normalising is idempotent unless there is stray whitespace in front of a
      script inclusion, or of such a WITH statement. */
  lemma {:induction false} NormalizeIsIdempotentIff(u: Unicode, sql: string)
    requires Standard(u)
    ensures Normalized(u, sql).Some? ==>
              var st := Normalized(u, sql).value;
              Normalized(u, st.text) == Some(st) <==>
                !(LeadStray(u, sql) && (Includes(u, st.text) || MovesVerb(u, st.lead, Tokens(u, st.text))))
  {
    hide Normalized, Lex, Significant, Words, KindOf, Strip, Standard, MainVerbFrom, Accept, IsPunct, StartsWith, LeadStray, VerbAt, Depth, Lead, AllStray;
    SecondPass(u, sql);
    if Normalized(u, sql).Some? {
      var t, kind := Submitted(u, sql);
      var before, after := StripKeeps(u, t);
      StripOnceIsAccepted(u, t, kind);
      var ps := Lex(u, Strip(u, t)).value;
      var m := Significant(ps);
      HoldsAWord(u, ps, kind);
      var sig, lead := Significant(Lex(u, t).value), Lead(Words(u, ps));
      assert Tokens(u, Strip(u, t)) == m;
      if before == [] {
        assert before + m + after == m + after && (m + after)[0] == m[0];
        MainVerbTail(u, m, after, 1);
      } else if StartsWith(lead, "WITH") {
        FirstIsNoVerb(u, ps);
        VerbBehindStrays(u, before, m, after);
        VerbInside(u, m, 1);
        ParenthesisCounts(m);
      }
    }
  }

  /** Only a parenthesis as the first token makes a difference. */
  lemma {:induction false} ParenthesisCounts(m: seq<Piece>)
    requires m != []
    ensures !IsParenthesis(m[0]) ==> Depth(m, 0, 1) == 0
  {
  }

  /** Where the first word is WITH, the first token is no main verb. */
  lemma {:induction false} FirstIsNoVerb(u: Unicode, ps: seq<Piece>)
    requires Significant(ps) != [] && StartsWith(Lead(Words(u, ps)), "WITH")
    ensures var p := Significant(ps)[0]; !(p.kind.WORD? && Upper(u, p.text) in MAIN_VERBS)
  {
    WordsAreSignificant(u, ps);
    hide Upper;
    assert |"WITH"| == 4 && "WITH" !in MAIN_VERBS by {
      assert "WITH"[0] == 'W';
      assert forall v | v in MAIN_VERBS :: v[0] != 'W';
    }
  }

  lemma {:induction false} VerbInside(u: Unicode, m: seq<Piece>, k: nat)
    requires 1 <= k && m != []
    ensures MainVerbFrom(u, m, k) == VerbAt(u, m, k, Depth(m, 0, 1))
    decreases |m| - k
  {
    if k < |m| {
      DepthFrom(m, k);
      VerbInside(u, m, k + 1);
    }
  }

  lemma {:induction false} DepthFrom(m: seq<Piece>, k: nat)
    requires 1 <= k <= |m|
    ensures Depth(m, 0, k) == Depth(m, 0, 1) + Depth(m, 1, k)
  {
    if k > 1 {
      DepthFrom(m, k - 1);
    }
  }

  /** With stray tokens in front, the first token counts like any other. */
  lemma {:induction false} VerbBehindStrays(u: Unicode, before: seq<Piece>, m: seq<Piece>, after: seq<Piece>)
    requires Standard(u) && AllStray(u, before) && AllStray(u, after) && before != [] && m != []
    requires !(m[0].kind.WORD? && Upper(u, m[0].text) in MAIN_VERBS)
    ensures MainVerbFrom(u, before + m + after, 1) == VerbAt(u, m, 1, 0)
  {
    hide Upper, Standard;
    var all := before + m + after;
    StraysAreNoVerbs(u, before, m + after, 1);
    assert before + (m + after) == all;
    assert all[|before|] == m[0];
    assert MainVerbFrom(u, all, |before|) == MainVerbFrom(u, all, |before| + 1);
    VerbsBehind(u, before, m, after, 1);
  }

  lemma {:induction false} StraysAreNoVerbs(u: Unicode, before: seq<Piece>, rest: seq<Piece>, k: nat)
    requires AllStray(u, before) && 1 <= k <= |before|
    ensures MainVerbFrom(u, before + rest, k) == MainVerbFrom(u, before + rest, |before|)
    decreases |before| - k
  {
    if k < |before| {
      assert (before + rest)[k] == before[k] && IsStray(u, before[k]);
      StraysAreNoVerbs(u, before, rest, k + 1);
    }
  }

  lemma {:induction false} VerbsBehind(u: Unicode, before: seq<Piece>, m: seq<Piece>, after: seq<Piece>, k: nat)
    requires Standard(u) && AllStray(u, before) && AllStray(u, after) && before != [] && k <= |m|
    ensures MainVerbFrom(u, before + m + after, |before| + k) == VerbAt(u, m, k, 0)
    decreases |m| - k
  {
    hide Upper, Standard;
    var all := before + m + after;
    if k < |m| {
      assert all[|before| + k] == m[k];
      DepthBehindStrays(u, before, m, after, k);
      DepthFrom(all, |before| + k);
      DepthOfStrays(u, all, 1);
      VerbsBehind(u, before, m, after, k + 1);
    } else {
      OnlyStraysLeft(u, before + m, after, |before| + |m|);
    }
  }

  lemma {:induction false} OnlyStraysLeft(u: Unicode, x: seq<Piece>, after: seq<Piece>, k: nat)
    requires AllStray(u, after) && 1 <= |x| <= k
    ensures MainVerbFrom(u, x + after, k) == ""
    decreases |x + after| - k
  {
    if k < |x + after| {
      assert (x + after)[k] == after[k - |x|] && IsStray(u, after[k - |x|]);
      OnlyStraysLeft(u, x, after, k + 1);
    }
  }

  /** In particular where the only whitespace is what the scanner skips. */
  lemma {:induction false} NormalizeIsIdempotent(u: Unicode, sql: string)
    requires Standard(u) && OrdinarySpacing(u, sql)
    ensures Normalized(u, sql).Some? ==> Normalized(u, Normalized(u, sql).value.text) == Normalized(u, sql)
  {
    hide Normalized, Includes, MovesVerb, Tokens, Standard;
    NormalizeIsIdempotentIff(u, sql);
    OrdinaryLead(u, sql);
  }

  lemma {:induction false} MainVerbTail(u: Unicode, m: seq<Piece>, after: seq<Piece>, k: nat)
    requires AllStray(u, after) && 1 <= k
    ensures MainVerbFrom(u, m + after, k) == MainVerbFrom(u, m, k)
    decreases |m + after| - k
  {
    if k < |m| {
      DepthPrefix(m, after, 1, k);
      assert (m + after)[k] == m[k];
      MainVerbTail(u, m, after, k + 1);
    } else if k < |m + after| {
      assert (m + after)[k] == after[k - |m|] && IsStray(u, after[k - |m|]);
      MainVerbTail(u, m, after, k + 1);
    }
  }

  lemma {:induction false} DepthPrefix(m: seq<Piece>, after: seq<Piece>, from: nat, to: nat)
    requires from <= to <= |m|
    ensures Depth(m + after, from, to) == Depth(m, from, to)
  {
    if from < to {
      DepthPrefix(m, after, from, to - 1);
      assert (m + after)[to - 1] == m[to - 1];
    }
  }

  lemma {:induction false} StripOnceIsAccepted(u: Unicode, t: string, kind: StatementKind)
    requires Accept(u, t, kind).Some?
    ensures Accept(u, t, kind).value.text == Strip(u, t) && Accept(u, t, kind).value.kind == kind
    ensures Accept(u, t, kind).value.lead == Lead(Words(u, Lex(u, t).value))
    ensures Accept(u, t, kind).value.cteVerb == CteVerb(u, Lead(Words(u, Lex(u, t).value)), Significant(Lex(u, t).value))
    ensures !IsPunct(Significant(Lex(u, t).value)[0], "@")
  {
    hide Lex, Significant, Words, Strip, MainVerbFrom, Names, DoNames, StringNames, BodyVerbs, IsClientCommand;
  }

  /** The last of tokens between strays, and the semicolons among them. */
  lemma {:induction false} TerminatedBehindStrays(u: Unicode, before: seq<Piece>, m: seq<Piece>, after: seq<Piece>, kind: StatementKind)
    requires Standard(u) && AllStray(u, before) && AllStray(u, after) && Terminated(before + m + after, kind)
    ensures Terminated(m, kind)
  {
    hide Standard;
    var all := before + m + after;
    assert forall i | 0 <= i < |m| :: all[|before| + i] == m[i];
    if !kind.SQL? {
      if after != [] {
        assert IsStray(u, after[|after| - 1]) && all[|all| - 1] == after[|after| - 1];
        StrayIsNoSlash(u, after[|after| - 1]);
        assert false;
      }
      if m == [] {
        assert IsStray(u, before[|before| - 1]) && all[|all| - 1] == before[|before| - 1];
        StrayIsNoSlash(u, before[|before| - 1]);
        assert false;
      }
      assert all[|all| - 1] == m[|m| - 1];
    }
  }

  /** A text that passed the final checks passes every other check once stripped. */
  lemma {:induction false} AcceptedAgain(u: Unicode, t: string, kind: StatementKind, before: seq<Piece>, after: seq<Piece>)
    requires Standard(u) && '\0' !in t
    requires Accept(u, t, kind).Some? && KindOf(Words(u, Lex(u, t).value)) == Some(kind)
    requires AllStray(u, before) && AllStray(u, after) && SameStatement(u, true, t, Strip(u, t))
    requires Significant(Lex(u, t).value) == before + Significant(Lex(u, Strip(u, t)).value) + after
    ensures var st := Accept(u, t, kind).value;
            && st.text == Strip(u, t)
            && Normalized(u, st.text)
               == if Includes(u, st.text) then None else Some(st.(cteVerb := CteVerb(u, st.lead, Tokens(u, st.text))))
  {
    hide Lex, Significant, Words, HasLoneSlash, KindOf, Concat, Standard, Strip, MainVerbFrom, BodyVerbs, Build, AllStray, IsClientCommand, Terminated;
    var s := Strip(u, t);
    StripOnce(u, t);
    StripIsWithin(u, t);
    StripOnceIsAccepted(u, t, kind);
    var ps := Lex(u, s).value;
    var m := Significant(ps);
    HoldsAWord(u, ps, kind);
    assert Content(u, s) == Some(ps);
    LastOfSignificant(ps);
    NoneIsLone(u, ps, LastIndex(ps));
    assert WithoutSlash(u, s) == Some(s);
    TerminatedBehindStrays(u, before, m, after, kind);
    assert WithoutSemicolon(ps, kind) == s by {
      NoSemicolonToDrop(ps, kind);
    }
    BuildBehindStrays(u, s, kind, before, m, after, Lead(Words(u, ps)));
    assert Normalized(u, s) == Accept(u, s, kind);
    AcceptedBuild(u, t, kind);
    AcceptedBuild(u, s, kind);
  }

  /** Acceptance is building, once the checks are passed. */
  lemma {:induction false} AcceptedBuild(u: Unicode, t: string, kind: StatementKind)
    requires Lex(u, t).Some?
    ensures var ps := Lex(u, t).value;
            var sig, words := Significant(ps), Lead(Words(u, ps));
            Accept(u, t, kind)
            == if sig == [] || !Terminated(sig, kind) || HasLoneSlash(u, true, ps) || Strip(u, t) == []
                  || IsPunct(sig[0], "@") || IsClientCommand(words, kind) then None
               else Build(u, Strip(u, t), kind, sig, words)
  {
  }

  lemma {:induction false} NoSemicolonToDrop(ps: seq<Piece>, kind: StatementKind)
    requires Significant(ps) != [] && Terminated(Significant(ps), kind)
    ensures WithoutSemicolon(ps, kind) == Concat(ps)
  {
    LastOfSignificant(ps);
  }

  lemma {:induction false} NoneIsLone(u: Unicode, ps: seq<Piece>, k: nat)
    requires !HasLoneSlash(u, true, ps) && k < |ps|
    ensures !LoneSlashAt(u, true, ps, k)
  {
  }

  lemma {:induction false} HoldsAWord(u: Unicode, ps: seq<Piece>, kind: StatementKind)
    requires KindOf(Words(u, ps)) == Some(kind)
    ensures Significant(ps) != []
    ensures |Significant(ps)| == 1 ==> !IsPunct(Significant(ps)[0], ";") && !IsPunct(Significant(ps)[0], "/")
  {
    WordsAreSignificant(u, ps);
  }

  lemma {:induction false} TrimLeftIsSuffix(u: Unicode, s: string)
    ensures forall c | c in TrimLeft(u, s) :: c in s
  {
    if s != [] && s[0] in u.space {
      TrimLeftIsSuffix(u, s[1..]);
    }
  }

  lemma {:induction false} StripIsWithin(u: Unicode, s: string)
    ensures forall c | c in Strip(u, s) :: c in s
  {
    TrimLeftIsSuffix(u, s);
    TrimRightIsPrefix(u, TrimLeft(u, s));
  }

  /** Kinds of piece whose text is not read as statement structure. */
  predicate Enclosed(p: Piece) {
    p.kind.STRING? || p.kind.QUOTED_IDENT? || p.kind.COMMENT?
  }

  /** Outside enclosed text a semicolon is always a token of its own. */
  lemma {:induction false} BareSemicolonIsAToken(u: Unicode, s: string)
    requires Standard(u) && s != [] && Head(u, s).Some?
    ensures var p := Head(u, s).value; ';' in p.text ==> Enclosed(p) || p == SEMICOLON
  {
    hide Find, PlainEnd, Run, NumberEnd, DollarTag, PrefixLength, PrefixedEnd, Standard;
    SpaceIsInert(u);
    var p := Head(u, s).value;
    if p.kind.NUMBER? {
      NumberHoldsDigits(u, s);
    } else if p.kind.WORD? {
      RunIsLongest(IdentPart(u), s[1..]);
      LetterIsNoSemicolon(u);
      forall i | 0 <= i < |p.text| ensures p.text[i] != ';' {
        assert i > 0 ==> p.text[i] == s[1..][i - 1];
      }
    } else if p.kind.PUNCT? || p.kind.SPACE? {
      assert p.text == [s[0]];
    }
  }

  lemma {:induction false} LetterIsNoSemicolon(u: Unicode)
    requires Standard(u)
    ensures ';' !in u.alpha
  {
  }

  lemma {:induction false} NumberHoldsDigits(u: Unicode, s: string)
    requires Standard(u)
    ensures ';' !in s[..NumberEnd(u, s)]
  {
    hide Run, Standard;
    SpaceIsInert(u);
    var n := Run(u.digit + {'.'}, s);
    RunIsLongest(u.digit + {'.'}, s);
    var e := s[n..];
    var m := Exponent(u, e);
    if m > 0 {
      var probe := if |e| > 1 && e[1] in {'+', '-'} then 2 else 1;
      RunIsLongest(u.digit, e[probe..]);
      forall i | probe <= i < m ensures e[i] != ';' {
        assert e[i] == e[probe..][i - probe];
      }
    }
    forall i | 0 <= i < n + m ensures s[i] != ';' {
      assert i >= n ==> s[i] == e[i - n];
    }
  }

  lemma {:induction false} BareSemicolonsAreTokens(u: Unicode, s: string)
    requires Standard(u) && Lex(u, s).Some?
    requires forall i | 0 <= i < |Significant(Lex(u, s).value)| :: !IsPunct(Significant(Lex(u, s).value)[i], ";")
    ensures forall k | 0 <= k < |Lex(u, s).value| && ';' in Lex(u, s).value[k].text :: Enclosed(Lex(u, s).value[k])
    decreases |s|
  {
    hide Head, Concat, Standard;
    if s != [] {
      var p := Head(u, s).value;
      var ps := Lex(u, s).value;
      var rest := s[|p.text|..];
      LexCons(u, s);
      assert ps[1..] == Lex(u, rest).value;
      BareSemicolonIsAToken(u, s);
      var sig, tail := Significant(ps), Significant(ps[1..]);
      var off := |sig| - |tail|;
      forall i | 0 <= i < |tail| ensures !IsPunct(tail[i], ";") {
        assert tail[i] == sig[off + i];
      }
      assert p == SEMICOLON ==> sig[0] == p;
      BareSemicolonsAreTokens(u, rest);
      assert forall k | 1 <= k < |ps| :: ps[k] == ps[1..][k - 1];
    }
  }

  /** The terminators of an accepted text: in plain SQL no semicolon stands
      outside literals, quoted identifiers and comments, a block or definition
      ends in one, and no slash stands alone on a line. */
  ghost predicate WellTerminated(u: Unicode, st: Statement) {
    && Lex(u, st.text).Some?
    && var ps := Lex(u, st.text).value;
    && (st.kind.SQL? ==> forall k | 0 <= k < |ps| && ';' in ps[k].text :: Enclosed(ps[k]))
    && (!st.kind.SQL? ==> Significant(ps) != [] && ps[LastIndex(ps)] == SEMICOLON)
    && !HasLoneSlash(u, true, ps)
  }

  lemma {:induction false} AcceptedTerminators(u: Unicode, sql: string)
    requires Standard(u)
    ensures Normalized(u, sql).Some? ==> WellTerminated(u, Normalized(u, sql).value)
  {
    hide Normalized, Lex, Significant, Words, KindOf, Strip, HasLoneSlash, Standard, Build, AllStray;
    if Normalized(u, sql).Some? {
      var t, kind := Submitted(u, sql);
      var before, after := StripKeeps(u, t);
      StripOnceIsAccepted(u, t, kind);
      AcceptedBuild(u, t, kind);
      var s := Strip(u, t);
      var ps := Lex(u, s).value;
      TerminatedBehindStrays(u, before, Significant(ps), after, kind);
      if kind.SQL? {
        BareSemicolonsAreTokens(u, s);
      } else {
        LastOfSignificant(ps);
      }
    }
  }

  // ------------------------------------------- what a second pass uncovers

  /** Real character databases: the no-break space is whitespace, `x` a letter
      whose upper case is `X`. */
  ghost predicate Real(u: Unicode) {
    Standard(u) && '\U{00A0}' in u.space && 'x' in u.alpha && Upper(u, "x") == "X"
  }

  const INCLUDE: seq<Piece> := [Piece(PUNCT, "@"), Piece(WORD, "x")]
  const HIDDEN: seq<Piece> := [Piece(PUNCT, "\U{00A0}")] + INCLUDE

  lemma {:induction false} LexOfInclusion(u: Unicode)
    requires Real(u)
    ensures Lex(u, "@x") == Some(INCLUDE) && Lex(u, "\U{00A0}@x") == Some(HIDDEN)
  {
    var x := "x";
    SpaceIsInert(u);
    assert '@' !in u.alnum && 'x' !in u.space;
    BlankIsSpace(u);
    assert x[0] == 'x' && x[1..] == [] && x[..1] == x;
    assert Run(IdentPart(u), []) == 0;
    assert 'x' !in u.digit;
    assert Head(u, x) == Some(Piece(WORD, x));
    NothingScans(u, true);
    LexCons(u, x);
    assert Lex(u, x).value == [Piece(WORD, x)] && "@" == ['@'];
    hide Lex, Head, Standard;
    PunctHead(u, '@', x);
    assert INCLUDE == [Piece(PUNCT, ['@'])] + [Piece(WORD, x)] && "@x" == ['@'] + x;
    PunctHead(u, '\U{00A0}', "@x");
    assert "\U{00A0}@x" == ['\U{00A0}'] + "@x";
  }

  lemma {:induction false} PiecesOfInclusion(u: Unicode)
    requires Real(u)
    ensures Significant(HIDDEN) == HIDDEN && Significant(INCLUDE) == INCLUDE && Words(u, HIDDEN) == ["X"]
    ensures !HasLoneSlash(u, true, HIDDEN) && LastIndex(HIDDEN) == 2 && !LoneSlashAt(u, true, HIDDEN, 2)
  {
    var w := Piece(WORD, "x");
    NothingScans(u, true);
    SignificantCons(w, []);
    SignificantCons(INCLUDE[0], [w]);
    SignificantCons(HIDDEN[0], INCLUDE);
    WordsCons(u, w, []);
    WordsCons(u, INCLUDE[0], [w]);
    WordsCons(u, HIDDEN[0], INCLUDE);
    assert [w] + [] == [w] && INCLUDE == [INCLUDE[0]] + [w] && HIDDEN == [HIDDEN[0]] + INCLUDE;
    LastOfSignificant(HIDDEN);
    assert "/"[0] != "\U{00A0}"[0] && "/"[0] != "@"[0] && "/"[0] != "x"[0];
    assert forall k | 0 <= k < |HIDDEN| :: !IsPunct(HIDDEN[k], "/");
  }

  lemma {:induction false} LetterIsNoCommand(x: string)
    requires |x| == 1 && x[0] == 'X'
    ensures x !in CLIENT_COMMANDS
  {
    assert x[0] != "@"[0];
    assert x !in COMMANDS_TO_CLEAR && x !in COMMANDS_TO_EXECUTE && x !in COMMANDS_TO_PROMPT;
    assert x !in COMMANDS_TO_SHUTDOWN && x !in COMMANDS_TO_XQUERY;
  }

  lemma {:induction false} KindOfInclusion(x: string)
    requires |x| == 1 && x[0] == 'X'
    ensures KindOf([x]) == Some(StatementKind.SQL) && Lead([x]) == [x]
    ensures !StartsWith([x], "WITH") && !StartsWith([x], "DO")
  {
    assert |"CREATE"| == 6 && |"DECLARE"| == 7 && |"BEGIN"| == 5 && |"WITH"| == 4 && |"DO"| == 2;
  }

  lemma {:induction false} StripOfInclusion(u: Unicode)
    requires Real(u)
    ensures Strip(u, "\U{00A0}@x") == "@x"
  {
    hide Standard;
    SpaceIsInert(u);
    var s := "\U{00A0}@x";
    assert 'x' !in u.space && '@' !in u.space;
    assert s[1..] == "@x" && "@x"[0] == '@' && "@x"[1] == 'x';
    assert TrimLeft(u, "@x") == "@x";
  }

  /** The first pass accepts a script inclusion behind a no-break space. */
  lemma {:induction false} HiddenIsAccepted(u: Unicode)
    requires Real(u)
    ensures Normalized(u, "\U{00A0}@x").Some? && Normalized(u, "\U{00A0}@x").value.text == "@x"
  {
    hide Lex, Significant, Words, HasLoneSlash, LoneSlashAt, KindOf, Strip, CLIENT_COMMANDS, Concat, LastIndex, Lead, Standard,
         StartsWith, Names, StringNames;
    LexOfInclusion(u);
    PiecesOfInclusion(u);
    KindOfInclusion("X");
    LetterIsNoCommand("X");
    StripOfInclusion(u);
    var s := "\U{00A0}@x";
    assert HIDDEN[0].text[0] != "@"[0] && ";"[0] != HIDDEN[0].text[0] && ";"[0] != "@"[0];
    assert forall i | 0 <= i < |HIDDEN| :: !IsPunct(HIDDEN[i], ";");
    assert WithoutSlash(u, s) == Some(s) && WithoutSemicolon(HIDDEN, StatementKind.SQL) == s;
  }

  /** And the second pass, on what the first returned, refuses it. */
  lemma {:induction false} OtherSpacingHidesInclusion(u: Unicode)
    requires Real(u)
    ensures Normalized(u, "\U{00A0}@x").Some?
    ensures Normalized(u, Normalized(u, "\U{00A0}@x").value.text).None?
  {
    hide Normalized, Lex, Significant, Standard;
    HiddenIsAccepted(u);
    SecondPass(u, "\U{00A0}@x");
    LexOfInclusion(u);
    PiecesOfInclusion(u);
  }

  /** A word of letters that cannot be taken for the prefix of a literal. */
  ghost predicate Spelled(u: Unicode, w: string) {
    w != [] && (forall i | 0 <= i < |w| :: w[i] in u.alpha && IsAsciiLetter(w[i])) && w[0] !in {'n', 'N', 'q', 'Q'}
  }

  lemma {:induction false} RunOver(class_: set<char>, w: string, rest: string)
    requires (forall i | 0 <= i < |w| :: w[i] in class_) && (rest == [] || rest[0] !in class_)
    ensures Run(class_, w + rest) == |w|
  {
    if w == [] {
      assert w + rest == rest;
    } else {
      assert (w + rest)[1..] == w[1..] + rest;
      RunOver(class_, w[1..], rest);
    }
  }

  /** Such a word, up to what cannot belong to it. */
  lemma {:induction false} WordHead(u: Unicode, w: string, rest: string)
    requires Standard(u) && Spelled(u, w) && (rest == [] || rest[0] in u.space)
    ensures Head(u, w + rest) == Some(Piece(WORD, w))
  {
    var s := w + rest;
    SpaceIsInert(u);
    BlankIsSpace(u);
    assert s[0] == w[0] && s[0] !in BLANKS && s[0] !in u.digit;
    assert !("--" <= s) by {
      assert "--"[0] == '-';
    }
    assert !("/*" <= s) by {
      assert "/*"[0] == '/';
    }
    assert s[1..] == w[1..] + rest;
    RunOver(IdentPart(u), w[1..], rest);
    assert s[..|w|] == w;
  }

  lemma {:induction false} LexOfWord(u: Unicode, w: string, rest: string)
    requires Standard(u) && Spelled(u, w) && (rest == [] || rest[0] in u.space) && Lex(u, rest).Some?
    ensures Lex(u, w + rest) == Some([Piece(WORD, w)] + Lex(u, rest).value)
  {
    WordHead(u, w, rest);
    hide Head, Lex, Standard;
    LexCons(u, w + rest);
    assert (w + rest)[|w|..] == rest;
  }

  lemma {:induction false} LexOfSpace(u: Unicode, c: char, rest: string)
    requires Standard(u) && c in u.space && Lex(u, rest).Some?
    ensures Lex(u, [c] + rest) == Some([Piece(if c in BLANKS then SPACE else PUNCT, [c])] + Lex(u, rest).value)
  {
    hide Head, Lex, Standard;
    SpaceHead(u, [c] + rest);
    LexCons(u, [c] + rest);
    assert ([c] + rest)[1..] == rest;
  }

  lemma {:induction false} LexOfOpen(u: Unicode, rest: string)
    requires Standard(u) && Lex(u, rest).Some?
    ensures Lex(u, ['('] + rest) == Some([Piece(PUNCT, ['('])] + Lex(u, rest).value)
  {
    assert '(' !in u.alnum && '(' !in BLANKS && '(' !in u.space;
    hide Head, Lex, Standard;
    PunctHead(u, '(', rest);
  }

  /** A text with a parenthesis, `with` and `verb`, and the pieces of it. */
  function Grouped(with: string, verb: string): string {
    ['('] + (with + ([' '] + verb))
  }

  function GroupedPieces(with: string, verb: string): seq<Piece> {
    [Piece(PUNCT, ['('])] + ([Piece(WORD, with)] + ([Piece(SPACE, [' '])] + [Piece(WORD, verb)]))
  }

  lemma {:induction false} LexOfGrouped(u: Unicode, stray: char, with: string, verb: string)
    requires Standard(u) && Spelled(u, with) && Spelled(u, verb) && stray in u.space && stray !in BLANKS
    ensures Lex(u, Grouped(with, verb)) == Some(GroupedPieces(with, verb))
    ensures Lex(u, [stray] + Grouped(with, verb)) == Some([Piece(PUNCT, [stray])] + GroupedPieces(with, verb))
  {
    BlankIsSpace(u);
    assert ' ' in BLANKS;
    hide Lex, Standard, Spelled;
    NothingScans(u, true);
    LexOfWord(u, verb, []);
    assert verb + [] == verb && [Piece(WORD, verb)] + [] == [Piece(WORD, verb)];
    LexOfSpace(u, ' ', verb);
    LexOfWord(u, with, [' '] + verb);
    LexOfOpen(u, with + ([' '] + verb));
    LexOfSpace(u, stray, Grouped(with, verb));
  }

  /** As pieces, the stray whitespace makes the opening parenthesis count, so that
      the verb behind it is no longer at depth zero. */
  lemma {:induction false} StrayCounts(u: Unicode, stray: Piece, with: Piece, verb: Piece)
    requires Standard(u) && IsStray(u, stray) && with.kind.WORD? && Upper(u, with.text) == "WITH"
    requires verb.kind.WORD? && Upper(u, verb.text) == "SELECT"
    ensures MainVerbFrom(u, [Piece(PUNCT, ['(']), with, verb], 1) == "SELECT"
    ensures MainVerbFrom(u, [stray, Piece(PUNCT, ['(']), with, verb], 1) == ""
  {
    hide Upper, Standard;
    var open := Piece(PUNCT, ['(']);
    var m, n := [open, with, verb], [stray, open, with, verb];
    assert |"WITH"| == 4 && |"SELECT"| == 6 && |"VALUES"| == 6 && "WITH" !in MAIN_VERBS && "SELECT" in MAIN_VERBS;
    assert "(" == ['('];
    assert Depth(m, 1, 1) == 0 && Depth(m, 1, 2) == 0;
    assert Depth(n, 1, 1) == 0 && Depth(n, 1, 2) == 1 && Depth(n, 1, 3) == 1;
    assert MainVerbFrom(u, m, 2) == "SELECT" && MainVerbFrom(u, m, 1) == MainVerbFrom(u, m, 2);
    assert MainVerbFrom(u, n, 4) == "" && MainVerbFrom(u, n, 3) == "" && MainVerbFrom(u, n, 2) == "";
  }

  lemma {:induction false} TokensOfGrouped(u: Unicode, stray: Piece, with: string, verb: string)
    requires IsStray(u, stray)
    ensures var open, w, v := Piece(PUNCT, ['(']), Piece(WORD, with), Piece(WORD, verb);
            var ps := GroupedPieces(with, verb);
            Significant(ps) == [open, w, v] && Significant([stray] + ps) == [stray, open, w, v]
  {
    NothingScans(u, true);
    hide Significant;
    var open, w, space, v := Piece(PUNCT, ['(']), Piece(WORD, with), Piece(SPACE, [' ']), Piece(WORD, verb);
    SignificantCons(v, []);
    assert [v] + [] == [v];
    SignificantCons(space, [v]);
    assert [] + [v] == [v];
    SignificantCons(w, [space] + [v]);
    SignificantCons(open, [w] + ([space] + [v]));
    SignificantCons(stray, GroupedPieces(with, verb));
  }

  lemma {:induction false} WordsOfGrouped(u: Unicode, stray: Piece, with: string, verb: string)
    requires IsStray(u, stray)
    ensures Words(u, [stray] + GroupedPieces(with, verb)) == [Upper(u, with), Upper(u, verb)]
  {
    var all := [stray] + GroupedPieces(with, verb);
    TokensOfGrouped(u, stray, with, verb);
    WordsAreSignificant(u, all);
    NothingScans(u, true);
    hide Words, Significant, Upper;
    var open, w, v := Piece(PUNCT, ['(']), Piece(WORD, with), Piece(WORD, verb);
    WordsCons(u, v, []);
    assert [v] + [] == [v];
    WordsCons(u, w, [v]);
    WordsCons(u, open, [w] + [v]);
    WordsCons(u, stray, [open] + ([w] + [v]));
    assert [stray] + ([open] + ([w] + [v])) == [stray, open, w, v];
  }

  lemma {:induction false} PiecesOfGrouped(u: Unicode, stray: Piece, with: string, verb: string)
    requires IsStray(u, stray) && stray.text[0] !in {'/', ';', '@'}
    ensures var all := [stray] + GroupedPieces(with, verb);
            && Significant(all) != []
            && !HasLoneSlash(u, true, all) && !LoneSlashAt(u, true, all, LastIndex(all)) && all[LastIndex(all)].kind.WORD?
  {
    var all := [stray] + GroupedPieces(with, verb);
    TokensOfGrouped(u, stray, with, verb);
    LastOfSignificant(all);
    hide Significant, LastIndex;
    assert forall k | 0 <= k < |all| :: !IsPunct(all[k], "/") by {
      assert "/"[0] == '/';
    }
  }

  lemma {:induction false} WithIsNoCommand(w: string)
    requires |w| == 4 && w[0] == 'W'
    ensures w !in CLIENT_COMMANDS
  {
    assert w !in COMMANDS_TO_CLEAR && w !in COMMANDS_TO_EXECUTE && w !in COMMANDS_TO_PROMPT;
    assert w !in COMMANDS_TO_SHUTDOWN && w !in COMMANDS_TO_XQUERY;
  }

  lemma {:induction false} WithIsSql(words: seq<string>)
    requires |words| == 2 && words[0] == "WITH"
    ensures KindOf(words) == Some(StatementKind.SQL) && Lead(words) == words && StartsWith(words, "WITH") && !StartsWith(words, "DO")
    ensures !IsClientCommand(words, StatementKind.SQL)
  {
    assert |"CREATE"| == 6 && |"DECLARE"| == 7 && |"BEGIN"| == 5 && |"WITH"| == 4 && |"DO"| == 2;
    WithIsNoCommand(words[0]);
  }

  lemma {:induction false} StripOfGrouped(u: Unicode, stray: char, with: string, verb: string)
    requires Standard(u) && stray in u.space && Spelled(u, verb)
    ensures Strip(u, [stray] + Grouped(with, verb)) == Grouped(with, verb)
  {
    assert '(' !in u.space && verb[|verb| - 1] !in u.space;
    hide Standard, Spelled;
    var s := Grouped(with, verb);
    assert ([stray] + s)[1..] == s && s[0] == '(' && s[|s| - 1] == verb[|verb| - 1];
    assert TrimLeft(u, s) == s;
  }

  lemma {:induction false} NoZero(u: Unicode, stray: char, with: string, verb: string)
    requires Standard(u) && stray in u.space && Spelled(u, with) && Spelled(u, verb)
    ensures '\0' !in [stray] + Grouped(with, verb) && stray !in {'/', ';', '@'}
  {
    SpaceIsInert(u);
    var s := [stray] + Grouped(with, verb);
    forall i | 0 <= i < |s| ensures s[i] != '\0' {
      if 2 <= i < 2 + |with| {
        assert s[i] == with[i - 2];
      } else if 3 + |with| <= i {
        assert s[i] == verb[i - 3 - |with|];
      }
    }
  }

  lemma {:induction false} StrayedIsAccepted(u: Unicode, stray: char, with: string, verb: string)
    requires Standard(u) && stray in u.space && stray !in BLANKS
    requires Spelled(u, with) && Spelled(u, verb) && Upper(u, with) == "WITH" && Upper(u, verb) == "SELECT"
    ensures var first := Normalized(u, [stray] + Grouped(with, verb));
            && first.Some? && first.value.text == Grouped(with, verb) && first.value.cteVerb == "" && StartsWith(first.value.lead, "WITH")
  {
    hide Lex, Significant, Words, HasLoneSlash, LoneSlashAt, Strip, CLIENT_COMMANDS, Concat, LastIndex, Standard, Names, StringNames,
         BodyVerbs, MainVerbFrom, Upper, KindOf, IsClientCommand, StartsWith, Lead, DoNames, Spelled, Grouped, GroupedPieces;
    var s, p := [stray] + Grouped(with, verb), Piece(PUNCT, [stray]);
    var all := [p] + GroupedPieces(with, verb);
    LexOfGrouped(u, stray, with, verb);
    NoZero(u, stray, with, verb);
    TokensOfGrouped(u, p, with, verb);
    WordsOfGrouped(u, p, with, verb);
    PiecesOfGrouped(u, p, with, verb);
    StrayCounts(u, p, Piece(WORD, with), Piece(WORD, verb));
    StripOfGrouped(u, stray, with, verb);
    WithIsSql(["WITH", "SELECT"]);
    var sig := [p, Piece(PUNCT, ['(']), Piece(WORD, with), Piece(WORD, verb)];
    assert forall i | 0 <= i < |sig| :: !IsPunct(sig[i], ";") && !IsPunct(sig[i], "@") by {
      assert ";"[0] == ';' && "@"[0] == '@';
    }
    assert WithoutSlash(u, s) == Some(s) && WithoutSemicolon(all, StatementKind.SQL) == s;
    assert Grouped(with, verb) != [] by {
      GroupedIsSome(with, verb);
    }
  }

  lemma {:induction false} GroupedIsSome(with: string, verb: string)
    ensures Grouped(with, verb) != []
  {
  }

  /** The first pass finds no main verb in a parenthesis behind a whitespace that the
      scanner does not skip; the second pass, on what the first returned, finds it. */
  lemma {:induction false} StrayHidesMainVerb(u: Unicode, stray: char, with: string, verb: string)
    requires Standard(u) && stray in u.space && stray !in BLANKS
    requires Spelled(u, with) && Spelled(u, verb) && Upper(u, with) == "WITH" && Upper(u, verb) == "SELECT"
    ensures var first := Normalized(u, [stray] + Grouped(with, verb));
            && first.Some? && first.value.text == Grouped(with, verb) && first.value.cteVerb == ""
            && Normalized(u, first.value.text) == Some(first.value.(cteVerb := "SELECT"))
  {
    hide Normalized, Lex, Significant, Words, Standard, MainVerbFrom, Upper, Spelled, Grouped, GroupedPieces, HasLoneSlash, LastIndex, LoneSlashAt, StartsWith;
    var p := Piece(PUNCT, [stray]);
    StrayedIsAccepted(u, stray, with, verb);
    SecondPass(u, [stray] + Grouped(with, verb));
    LexOfGrouped(u, stray, with, verb);
    NoZero(u, stray, with, verb);
    TokensOfGrouped(u, p, with, verb);
    WordsOfGrouped(u, p, with, verb);
    PiecesOfGrouped(u, p, with, verb);
    StrayCounts(u, p, Piece(WORD, with), Piece(WORD, verb));
    assert "@"[0] == '@';
  }

  /** A DO statement gets no names at all, and no refusal of its own either,
      exactly when one of its literals is neither plain nor holds a dollar sign. */
  lemma {:induction false} UnreadableDoBody(text: string)
    ensures DoBody(text).None? <==> (text == [] || text[0] != '\'') && forall i | 1 <= i < |text| :: text[i] != '$'
  {
    hide Undoubled;
    if text != [] {
      var rest := text[1..];
      FindIsFirst("$", rest);
      var found := Find("$", rest);
      if found.Some? {
        assert rest[found.value..][0] == "$"[0] && text[found.value + 1] == '$';
      } else {
        forall i | 1 <= i < |text| ensures text[i] != '$' {
          assert !("$" <= rest[i - 1..]) && rest[i - 1..][0] == text[i];
        }
      }
    } else {
      FindIsFirst("$", []);
    }
  }

  // ------------------------------------------- the names a statement carries

  /** The name a piece of text stands for: a bare word, or what is between the quotes
      of a quoted identifier. */
  ghost predicate Spells(u: Unicode, p: Piece, w: string) {
    (p.kind == WORD && p.text == w) || (p.kind == QUOTED_IDENT && p.text == "\"" + w + "\"")
  }

  lemma {:induction false} SignificantIsSome(ps: seq<Piece>, p: Piece)
    ensures p in Significant(ps) <==> p in ps && IsSignificant(p)
  {
    if ps != [] {
      SignificantIsSome(ps[1..], p);
      assert ps == [ps[0]] + ps[1..];
    }
  }

  /** A quoted identifier stands between its two quotes. */
  lemma {:induction false} QuotedHasQuotes(u: Unicode, s: string)
    requires s != [] && Head(u, s).Some? && Head(u, s).value.kind == QUOTED_IDENT
    ensures var t := Head(u, s).value.text; |t| >= 2 && t == "\"" + t[1..|t| - 1] + "\""
  {
    hide PrefixLength, PrefixedEnd, NumberEnd, DollarTag, PlainEnd;
    FindIsFirst("\"", s[1..]);
    var end := Find("\"", s[1..]).value;
    var t := Head(u, s).value.text;
    assert s[1..][end..][0] == "\""[0];
    assert t == s[..end + 2] && s[end + 1] == '"';
    assert [t[0]] == "\"" && [t[|t| - 1]] == "\"" && t == [t[0]] + t[1..|t| - 1] + [t[|t| - 1]];
  }

  lemma {:induction false} AllQuoted(u: Unicode, s: string)
    requires Lex(u, s).Some?
    ensures forall p | p in Lex(u, s).value && p.kind == QUOTED_IDENT :: |p.text| >= 2 && p.text == "\"" + p.text[1..|p.text| - 1] + "\""
    decreases |s|
  {
    hide Head;
    if s != [] {
      var p := Head(u, s).value;
      LexCons(u, s);
      if p.kind == QUOTED_IDENT {
        QuotedHasQuotes(u, s);
      }
      AllQuoted(u, s[|p.text|..]);
    }
  }

  /** What one token names, said by its text. */
  lemma {:induction false} NamesOfPiece(u: Unicode, p: Piece, name: string)
    requires p.kind == QUOTED_IDENT ==> |p.text| >= 2 && p.text == "\"" + p.text[1..|p.text| - 1] + "\""
    ensures name in NamesOf(u, p) <==> exists w :: Spells(u, p, w) && name == Upper(u, w)
  {
    hide Upper;
    if p.kind == QUOTED_IDENT {
      var w := p.text[1..|p.text| - 1];
      assert Inner(p.text) == w && Spells(u, p, w);
      forall v | Spells(u, p, v) ensures v == w {
        assert ("\"" + v + "\"")[1..|v| + 1] == v;
      }
    } else if p.kind == WORD {
      assert Spells(u, p, p.text);
    }
  }

  /** Every name an accepted text spells is among the names of the statement, and
      unless it is a DO statement there are no others. */
  lemma {:induction false} AcceptedNames(u: Unicode, sql: string)
    requires Standard(u)
    ensures Normalized(u, sql).Some? ==>
              var st := Normalized(u, sql).value;
              && Lex(u, st.text).Some?
              && (forall p, w | p in Lex(u, st.text).value && Spells(u, p, w) :: Upper(u, w) in st.names)
              && (st.lead != [] && st.lead[0] != "DO" ==>
                    forall name | name in st.names :: exists p, w :: p in Lex(u, st.text).value && Spells(u, p, w) && name == Upper(u, w))
  {
    hide Normalized, Lex, Significant, Words, KindOf, Strip, Standard, Accept, Upper, Names, Spells, IsSignificant;
    if Normalized(u, sql).Some? {
      var t, kind := Submitted(u, sql);
      var before, after := StripKeeps(u, t);
      StripOnceIsAccepted(u, t, kind);
      var st := Normalized(u, sql).value;
      var ps := Lex(u, st.text).value;
      BuiltNames(u, t, kind);
      NamesOfStripped(u, before, Significant(ps), after);
      forall p, w | p in ps && Spells(u, p, w) ensures Upper(u, w) in st.names {
        SpelledIsNamed(u, st.text, p, w);
      }
      if st.lead != [] && st.lead[0] != "DO" {
        forall name | name in st.names ensures exists p, w :: p in ps && Spells(u, p, w) && name == Upper(u, w) {
          NamedIsSpelled(u, st.text, name);
        }
      }
    }
  }

  lemma {:induction false} BuiltNames(u: Unicode, t: string, kind: StatementKind)
    requires Accept(u, t, kind).Some?
    ensures var st, names := Accept(u, t, kind).value, Names(u, Significant(Lex(u, t).value));
            names <= st.names && (st.lead != [] && st.lead[0] != "DO" ==> st.names == names)
  {
    hide Lex, Significant, Words, Strip, MainVerbFrom, Names, DoNames, StringNames, BodyVerbs, IsClientCommand;
  }

  lemma {:induction false} NamesOfStripped(u: Unicode, before: seq<Piece>, m: seq<Piece>, after: seq<Piece>)
    requires AllStray(u, before) && AllStray(u, after)
    ensures Names(u, before + m + after) == Names(u, m)
  {
    hide Names;
    NamesSplit(u, before + m, after);
    NamesSplit(u, before, m);
    StraysNameNothing(u, before);
    StraysNameNothing(u, after);
  }

  lemma {:induction false} SpelledIsNamed(u: Unicode, text: string, p: Piece, w: string)
    requires Lex(u, text).Some? && p in Lex(u, text).value && Spells(u, p, w)
    ensures Upper(u, w) in Names(u, Significant(Lex(u, text).value))
  {
    hide Lex, Significant, Names, Upper, NamesOf;
    var ps := Lex(u, text).value;
    AllQuoted(u, text);
    SignificantIsSome(ps, p);
    var sig := Significant(ps);
    var i :| 0 <= i < |sig| && sig[i] == p;
    NamesOfPiece(u, p, Upper(u, w));
    NamesAre(u, sig, Upper(u, w));
  }

  lemma {:induction false} NamedIsSpelled(u: Unicode, text: string, name: string)
    requires Lex(u, text).Some? && name in Names(u, Significant(Lex(u, text).value))
    ensures exists p, w :: p in Lex(u, text).value && Spells(u, p, w) && name == Upper(u, w)
  {
    hide Lex, Significant, Names, Upper, NamesOf, Spells;
    var ps := Lex(u, text).value;
    var sig := Significant(ps);
    AllQuoted(u, text);
    NamesAre(u, sig, name);
    var i :| 0 <= i < |sig| && name in NamesOf(u, sig[i]);
    SignificantIsSome(ps, sig[i]);
    NamesOfPiece(u, sig[i], name);
    var w :| Spells(u, sig[i], w) && name == Upper(u, w);
  }
}
