/** The normaliser as written: it works on tokens with places, cuts the text at
    them and scans again. */
module Normalizer {
  import opened Model
  import opened SqlText
  import opened Normalize
  import opened NormalizeLaws

  // ------------------------------------------------------ standalone slash

  /** The place behind the last line break before `at`. */
  function LineStart(text: string, at: nat): (n: nat)
    requires at <= |text|
    ensures n <= at
  {
    if at == 0 || text[at - 1] == '\n' then at else LineStart(text, at - 1)
  }

  predicate AllSpace(u: Unicode, s: string) {
    forall i | 0 <= i < |s| :: s[i] in u.space
  }

  /** Nothing but whitespace on the line before the token or behind it. */
  predicate StandaloneSlash(u: Unicode, text: string, token: Token)
    requires token.start <= token.end <= |text|
  {
    var behind := text[token.end..];
    var lineEnd := Find("\n", behind);
    && AllSpace(u, text[LineStart(text, token.start)..token.start])
    && AllSpace(u, behind[..if lineEnd.Some? then lineEnd.value else |behind|])
  }

  lemma {:induction false} BeforeOnTheLine(u: Unicode, text: string, at: nat)
    requires at <= |text|
    ensures AllSpace(u, text[LineStart(text, at)..at]) <==> LineBlank(u, true, text[..at])
  {
    if at > 0 && text[at - 1] != '\n' {
      BeforeOnTheLine(u, text, at - 1);
      var n := LineStart(text, at);
      assert text[..at][..at - 1] == text[..at - 1];
      assert text[n..at] == text[n..at - 1] + [text[at - 1]];
      assert AllSpace(u, text[n..at]) ==> text[n..at][at - 1 - n] in u.space && AllSpace(u, text[n..at - 1]) by {
        assert forall i | 0 <= i < at - 1 - n :: text[n..at - 1][i] == text[n..at][i];
      }
    }
  }

  lemma {:induction false} BehindOnTheLine(u: Unicode, s: string)
    ensures AllSpace(u, s[..if Find("\n", s).Some? then Find("\n", s).value else |s|]) <==> BlankToLineEnd(u, s)
  {
    if s != [] {
      if s[0] == '\n' {
        assert "\n" <= s;
      } else {
        assert !("\n" <= s) by {
          assert "\n"[0] != s[0];
        }
        BehindOnTheLine(u, s[1..]);
        var rest := s[1..];
        var n := if Find("\n", rest).Some? then Find("\n", rest).value else |rest|;
        assert s[..n + 1] == [s[0]] + rest[..n];
        assert AllSpace(u, s[..n + 1]) ==> s[..n + 1][0] in u.space && AllSpace(u, rest[..n]) by {
          assert forall i | 0 <= i < n :: rest[..n][i] == s[..n + 1][i + 1];
        }
      }
    }
  }

  // ------------------------------------------------- tokens against pieces

  /** The piece at `k` with its place. */
  function TokenAt(start: nat, ps: seq<Piece>, k: nat): Token
    requires k < |ps|
  {
    var at := start + |Concat(ps[..k])|;
    Token(ps[k].kind, ps[k].text, at, at + |ps[k].text|)
  }

  function Kept(tokens: seq<Token>): seq<Token> {
    if tokens == [] then []
    else (if tokens[0].kind.COMMENT? then [] else [tokens[0]]) + Kept(tokens[1..])
  }

  function Bare(tokens: seq<Token>): seq<Piece> {
    seq(|tokens|, i requires 0 <= i < |tokens| => Piece(tokens[i].kind, tokens[i].text))
  }

  /** The significant tokens are the significant pieces, each where it stands. */
  ghost predicate Stand(start: nat, ps: seq<Piece>, sig: seq<Token>) {
    && Bare(sig) == Significant(ps)
    && (forall k | 0 <= k < |ps| && IsSignificant(ps[k]) :: TokenAt(start, ps, k) in sig)
    && (forall t | t in sig :: exists k :: 0 <= k < |ps| && IsSignificant(ps[k]) && t == TokenAt(start, ps, k))
    && (Significant(ps) != [] ==> sig[|sig| - 1] == TokenAt(start, ps, LastIndex(ps)))
  }

  lemma {:induction false} TokenBehind(start: nat, ps: seq<Piece>, k: nat)
    requires 0 < k < |ps|
    ensures TokenAt(start, ps, k) == TokenAt(start + |ps[0].text|, ps[1..], k - 1)
  {
    assert ps[..k][1..] == ps[1..][..k - 1];
  }

  /** The significant tokens of placed pieces. */
  function Sig(start: nat, ps: seq<Piece>): seq<Token> {
    Kept(Placed(start, ps))
  }

  lemma {:induction false} BareSig(start: nat, ps: seq<Piece>)
    ensures Bare(Sig(start, ps)) == Significant(ps)
    decreases ps
  {
    if ps != [] {
      hide Sig;
      KeptCons(start, ps);
      BareSig(start + |ps[0].text|, ps[1..]);
    }
  }

  lemma {:induction false} SigHas(start: nat, ps: seq<Piece>, k: nat)
    requires k < |ps| && IsSignificant(ps[k])
    ensures TokenAt(start, ps, k) in Sig(start, ps)
    decreases ps
  {
    hide Sig, TokenAt;
    KeptCons(start, ps);
    if k == 0 {
      FirstToken(start, ps);
    } else {
      TokenBehind(start, ps, k);
      SigHas(start + |ps[0].text|, ps[1..], k - 1);
    }
  }

  lemma {:induction false} SigFrom(start: nat, ps: seq<Piece>, t: Token) returns (k: nat)
    requires t in Sig(start, ps)
    ensures k < |ps| && IsSignificant(ps[k]) && t == TokenAt(start, ps, k)
    decreases ps
  {
    hide TokenAt;
    KeptCons(start, ps);
    if IsSignificant(ps[0]) && t == Token(ps[0].kind, ps[0].text, start, start + |ps[0].text|) {
      FirstToken(start, ps);
      k := 0;
    } else {
      k := SigFrom(start + |ps[0].text|, ps[1..], t);
      k := k + 1;
      TokenBehind(start, ps, k);
    }
  }

  lemma {:induction false} SigLast(start: nat, ps: seq<Piece>)
    requires Significant(ps) != []
    ensures Sig(start, ps) != [] && Sig(start, ps)[|Sig(start, ps)| - 1] == TokenAt(start, ps, LastIndex(ps))
    decreases ps
  {
    hide Sig, TokenAt, LastIndex;
    KeptCons(start, ps);
    LastToken(start, ps);
    var next := start + |ps[0].text|;
    if Significant(ps[1..]) == [] {
      BareSig(next, ps[1..]);
      assert |Bare(Sig(next, ps[1..]))| == |Sig(next, ps[1..])|;
    } else {
      SigLast(next, ps[1..]);
    }
  }

  lemma {:induction false} SigStands(start: nat, ps: seq<Piece>)
    ensures Stand(start, ps, Sig(start, ps))
  {
    hide Sig, TokenAt, Significant, IsSignificant, Bare, LastIndex;
    BareSig(start, ps);
    forall k | 0 <= k < |ps| && IsSignificant(ps[k]) ensures TokenAt(start, ps, k) in Sig(start, ps) {
      SigHas(start, ps, k);
    }
    forall t | t in Sig(start, ps) ensures exists k :: 0 <= k < |ps| && IsSignificant(ps[k]) && t == TokenAt(start, ps, k) {
      var k := SigFrom(start, ps, t);
    }
    if Significant(ps) != [] {
      SigLast(start, ps);
    }
  }

  lemma {:induction false} FirstToken(start: nat, ps: seq<Piece>)
    requires ps != []
    ensures TokenAt(start, ps, 0) == Token(ps[0].kind, ps[0].text, start, start + |ps[0].text|)
  {
    assert ps[..0] == [];
  }

  lemma {:induction false} KeptCons(start: nat, ps: seq<Piece>)
    requires ps != []
    ensures Sig(start, ps)
         == (if IsSignificant(ps[0]) then [Token(ps[0].kind, ps[0].text, start, start + |ps[0].text|)] else [])
            + Sig(start + |ps[0].text|, ps[1..])
  {
    var tail := Placed(start + |ps[0].text|, ps[1..]);
    if ps[0].kind.SPACE? {
      assert Placed(start, ps) == tail;
    } else {
      assert Placed(start, ps)[1..] == tail;
    }
  }

  lemma {:induction false} LastToken(start: nat, ps: seq<Piece>)
    requires ps != [] && Significant(ps) != []
    ensures TokenAt(start, ps, LastIndex(ps))
         == if Significant(ps[1..]) == [] then Token(ps[0].kind, ps[0].text, start, start + |ps[0].text|)
            else TokenAt(start + |ps[0].text|, ps[1..], LastIndex(ps[1..]))
    ensures Significant(ps[1..]) == [] ==> IsSignificant(ps[0])
  {
    if Significant(ps[1..]) == [] {
      FirstToken(start, ps);
    } else {
      TokenBehind(start, ps, LastIndex(ps));
    }
  }

  /** A text is what stands before a piece, the piece, and what stands behind. */
  lemma {:induction false} CutAt(ps: seq<Piece>, k: nat)
    requires k < |ps|
    ensures var t := TokenAt(0, ps, k);
            && t.start <= t.end <= |Concat(ps)|
            && Concat(ps)[..t.start] == Concat(ps[..k]) && Concat(ps)[t.end..] == Concat(ps[k + 1..])
  {
    assert ps == ps[..k] + ([ps[k]] + ps[k + 1..]);
    ConcatSplits(ps[..k], [ps[k]] + ps[k + 1..]);
    assert ([ps[k]] + ps[k + 1..])[1..] == ps[k + 1..];
  }

  lemma {:induction false} StandaloneIsLone(u: Unicode, ps: seq<Piece>, k: nat)
    requires k < |ps| && TokenAt(0, ps, k).end <= |Concat(ps)|
    ensures IsPunct(ps[k], "/") && StandaloneSlash(u, Concat(ps), TokenAt(0, ps, k)) <==> LoneSlashAt(u, true, ps, k)
  {
    hide LineBlank, BlankToLineEnd, AllSpace, Find;
    var t := TokenAt(0, ps, k);
    CutAt(ps, k);
    BeforeOnTheLine(u, Concat(ps), t.start);
    BehindOnTheLine(u, Concat(ps)[t.end..]);
  }

  // ---------------------------------------------------------- the program

  method SignificantTokens(u: Unicode, text: string) returns (r: Option<seq<Token>>)
    ensures r.Some? <==> Lex(u, text).Some?
    ensures r.Some? ==> Stand(0, Lex(u, text).value, r.value)
  {
    hide Lex, Stand;
    var tokens := Tokenize(u, text);
    if tokens.None? {
      return None;
    }
    SigStands(0, Lex(u, text).value);
    return Some(Kept(tokens.value));
  }

  predicate OnlyTerminator(sig: seq<Token>) {
    |sig| == 1 && sig[0].kind.PUNCT? && sig[0].text in {";", "/"}
  }

  /** The significant tokens of a text that holds more than a terminator. */
  method Scanned(u: Unicode, text: string) returns (r: Option<seq<Token>>)
    ensures r.Some? <==> Content(u, text).Some?
    ensures r.Some? ==> Stand(0, Content(u, text).value, r.value)
  {
    hide Lex;
    r := SignificantTokens(u, text);
    if r.Some? && (r.value == [] || OnlyTerminator(r.value)) {
      assert |Bare(r.value)| == |r.value|;
      r := None;
    }
  }

  ghost predicate SlashAmong(u: Unicode, text: string, sig: seq<Token>, n: nat)
    requires n <= |sig| && forall i | 0 <= i < |sig| :: sig[i].start <= sig[i].end <= |text|
  {
    exists i :: 0 <= i < n && sig[i].kind.PUNCT? && sig[i].text == "/" && StandaloneSlash(u, text, sig[i])
  }

  /** Looking at the tokens finds what there is to find among the pieces. */
  lemma {:induction false} SlashesCorrespond(u: Unicode, ps: seq<Piece>, sig: seq<Token>)
    requires Stand(0, ps, sig)
    ensures forall i | 0 <= i < |sig| :: sig[i].start <= sig[i].end <= |Concat(ps)|
    ensures SlashAmong(u, Concat(ps), sig, |sig|) <==> HasLoneSlash(u, true, ps)
  {
    hide LoneSlashAt, StandaloneSlash, Concat, Bare, Significant, LastIndex, TokenAt;
    forall i | 0 <= i < |sig| ensures sig[i].start <= sig[i].end <= |Concat(ps)| {
      assert sig[i] in sig;
      var k :| 0 <= k < |ps| && IsSignificant(ps[k]) && sig[i] == TokenAt(0, ps, k);
      CutAt(ps, k);
    }
    if SlashAmong(u, Concat(ps), sig, |sig|) {
      var i :| 0 <= i < |sig| && sig[i].kind.PUNCT? && sig[i].text == "/" && StandaloneSlash(u, Concat(ps), sig[i]);
      assert sig[i] in sig;
      var k :| 0 <= k < |ps| && IsSignificant(ps[k]) && sig[i] == TokenAt(0, ps, k);
      TokenIsPiece(ps, k);
      StandaloneIsLone(u, ps, k);
    }
    if HasLoneSlash(u, true, ps) {
      var k :| 0 <= k < |ps| && LoneSlashAt(u, true, ps, k);
      LoneIsSlash(u, ps, k);
      var i :| 0 <= i < |sig| && sig[i] == TokenAt(0, ps, k);
      TokenIsPiece(ps, k);
      StandaloneIsLone(u, ps, k);
    }
  }

  lemma {:induction false} LoneIsSlash(u: Unicode, ps: seq<Piece>, k: nat)
    requires k < |ps| && LoneSlashAt(u, true, ps, k)
    ensures IsPunct(ps[k], "/") && IsSignificant(ps[k])
  {
  }

  lemma {:induction false} TokenIsPiece(ps: seq<Piece>, k: nat)
    requires k < |ps|
    ensures TokenAt(0, ps, k).kind == ps[k].kind && TokenAt(0, ps, k).text == ps[k].text
  {
  }

  /** Whether some token is a slash alone on its line. */
  method AnyStandaloneSlash(u: Unicode, text: string, sig: seq<Token>) returns (found: bool)
    requires Lex(u, text).Some? && Stand(0, Lex(u, text).value, sig)
    ensures found <==> HasLoneSlash(u, true, Lex(u, text).value)
  {
    hide Lex, StandaloneSlash, Stand, HasLoneSlash, Concat;
    SlashesCorrespond(u, Lex(u, text).value, sig);
    for i := 0 to |sig|
      invariant !SlashAmong(u, text, sig, i)
    {
      if sig[i].kind.PUNCT? && sig[i].text == "/" && StandaloneSlash(u, text, sig[i]) {
        return true;
      }
    }
    return false;
  }

  /** The text without a token. */
  function CutOut(text: string, token: Token): string
    requires token.start <= token.end <= |text|
  {
    text[..token.start] + text[token.end..]
  }

  lemma {:induction false} LastCutOut(u: Unicode, ps: seq<Piece>, sig: seq<Token>)
    requires Significant(ps) != [] && Stand(0, ps, sig)
    ensures sig != []
    ensures var last := sig[|sig| - 1];
            && last.start <= last.end <= |Concat(ps)|
            && CutOut(Concat(ps), last) == WithoutLast(ps)
            && Piece(last.kind, last.text) == ps[LastIndex(ps)]
            && (IsPunct(ps[LastIndex(ps)], "/") && StandaloneSlash(u, Concat(ps), last) <==> LoneSlashAt(u, true, ps, LastIndex(ps)))
  {
    hide LoneSlashAt, StandaloneSlash;
    var k := LastIndex(ps);
    assert |Bare(sig)| == |sig|;
    CutAt(ps, k);
    StandaloneIsLone(u, ps, k);
  }

  /** Remove one trailing end-of-file slash. */
  method RemoveSlash(u: Unicode, sql: string) returns (r: Option<(string, seq<Token>)>)
    requires '\0' !in sql
    ensures r.Some? <==> WithoutSlash(u, sql).Some?
    ensures r.Some? ==> r.value.0 == WithoutSlash(u, sql).value && Stand(0, Content(u, r.value.0).value, r.value.1)
  {
    hide Lex, Content, Stand, WithoutLast, LoneSlashAt, StandaloneSlash, Concat;
    var text := sql;
    var significant := Scanned(u, text);
    if significant.None? {
      return None;
    }
    LastCutOut(u, Content(u, text).value, significant.value);
    var last := significant.value[|significant.value| - 1];
    if last.kind.PUNCT? && last.text == "/" && StandaloneSlash(u, text, last) {
      text := CutOut(text, last);
      significant := Scanned(u, text);
      if significant.None? {
        return None;
      }
    }
    return Some((text, significant.value));
  }

  /** Settle the terminators of a text of this kind, or refuse it. */
  method SettleTerminators(u: Unicode, text: string, sig: seq<Token>, kind: StatementKind) returns (r: Option<(string, seq<Token>)>)
    requires Standard(u) && Content(u, text).Some? && Stand(0, Content(u, text).value, sig)
    ensures var t := WithoutSemicolon(Content(u, text).value, kind);
            && Lex(u, t).Some?
            && (r.Some? <==> Terminated(Significant(Lex(u, t).value), kind))
            && (r.Some? ==> r.value.0 == t && Stand(0, Lex(u, t).value, r.value.1))
  {
    hide Lex, WithoutLast, LoneSlashAt, StandaloneSlash, Concat, Standard, IsSignificant, Significant, TokenAt;
    WithoutSemicolonKeepsWords(u, text, kind);
    LastCutOut(u, Content(u, text).value, sig);
    LastOfSignificant(Content(u, text).value);
    var last := sig[|sig| - 1];
    if !kind.SQL? {
      assert |Bare(sig)| == |sig|;
      return if last.kind.PUNCT? && last.text == ";" then Some((text, sig)) else None;
    }
    var t, significant := text, sig;
    if last.kind.PUNCT? && last.text == ";" {
      t := CutOut(text, last);
      var again := SignificantTokens(u, t);
      significant := again.value;
    }
    for i := 0 to |significant|
      invariant forall j | 0 <= j < i :: !IsPunct(Bare(significant)[j], ";")
    {
      if significant[i].kind.PUNCT? && significant[i].text == ";" {
        assert IsPunct(Bare(significant)[i], ";");
        return None;
      }
    }
    return Some((t, significant));
  }

  /** The whole program computes the specified normal form. */
  method NormalizeStatement(u: Unicode, sql: string) returns (r: Option<Statement>)
    requires Standard(u)
    ensures r == Normalized(u, sql)
  {
    hide Lex, LoneSlashAt, StandaloneSlash, Concat, Standard, IsSignificant, Significant, TokenAt, Words, Terminated,
         HasLoneSlash, KindOf, Strip, Build, WithoutSemicolon, IsClientCommand;
    if '\0' in sql {
      return None;
    }
    var scanned := RemoveSlash(u, sql);
    if scanned.None? {
      return None;
    }
    var (text, significant) := scanned.value;
    WordsAreSignificant(u, Content(u, text).value);
    var kind := Classify(Words(u, Bare(significant)));
    if kind.None? {
      return None;
    }
    WithoutSemicolonKeepsWords(u, text, kind.value);
    var settled := SettleTerminators(u, text, significant, kind.value);
    if settled.None? {
      return None;
    }
    text, significant := settled.value.0, settled.value.1;
    var slash := AnyStandaloneSlash(u, text, significant);
    var stripped := Strip(u, text);
    if slash || stripped == [] {
      return None;
    }
    HoldsAWord(u, Lex(u, text).value, kind.value);
    WordsAreSignificant(u, Lex(u, text).value);
    var sig := Bare(significant);
    var words := Lead(Words(u, sig));
    r := BuildStatement(u, stripped, kind.value, sig, words);
    if IsPunct(sig[0], "@") || IsClientCommand(words, kind.value) {
      return None;
    }
  }

  /** Everything a statement carries besides its text. */
  method BuildStatement(u: Unicode, text: string, kind: StatementKind, sig: seq<Piece>, words: seq<string>) returns (r: Option<Statement>)
    requires sig != []
    ensures r == Build(u, text, kind, sig, words)
  {
    hide DoNames, Names, StringNames, MainVerbFrom, BodyVerbs;
    var names := Names(u, sig);
    if StartsWith(words, "DO") {
      var inBody := DoBodyNames(u, sig);
      if inBody.None? {
        return None;
      }
      names := names + inBody.value;
    }
    assert Names(u, sig) + {} == Names(u, sig);
    var stringNames := StringsInIdentifierPosition(u, sig);
    var cteVerb, cteBodyVerbs := "", {};
    if StartsWith(words, "WITH") {
      cteVerb := CteMainVerb(u, sig);
      cteBodyVerbs := CteBodyVerbs(u, sig);
    }
    return Some(Statement(text, kind, words, names, stringNames, cteVerb, cteBodyVerbs));
  }
}
