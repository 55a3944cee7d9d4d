/** Comparing stored CHECK conditions token by token, up to spacing and the case
    of unquoted identifiers. */
module Conditions {
  import opened Model
  import opened SqlText

  /** The decimal digits and the whitespace of the Unicode database. */
  datatype Charset = Charset(decimal: set<char>, space: set<char>)

  const START: set<char> := TAG_START
  const PART: set<char> := TAG_PART + {'$', '#'}
  const DOUBLE: set<string> := {"<>", "!=", "<=", ">=", "||", "::"}
  const SINGLE: set<char> := {'(', ')', '[', ']', ',', '.', '+', '-', '*', '/', '%', '<', '>', '='}

  /** A blank is whitespace, and neither class holds what starts another token. */
  ghost predicate Usual(cs: Charset) {
    && ' ' in cs.space && cs.space !! cs.decimal
    && (forall c | c in cs.space :: c !in START + SINGLE + {'\'', '"', '!', '|', ':'})
    && (forall c | c in cs.decimal :: c !in START + SINGLE + {'\'', '"', '!', '|', ':'})
  }

  datatype Lexeme = Space(text: string) | Literal(text: string) | Delimited(text: string) | Plain(text: string)

  // ------------------------------------------------------------ scanning

  /** Further groups of a number, each behind a dot. */
  function Groups(cs: Charset, s: string): (n: nat)
    ensures n <= |s|
  {
    if |s| > 1 && s[0] == '.' && s[1] in cs.decimal then
      var n := 1 + Run(cs.decimal, s[1..]);
      n + Groups(cs, s[n..])
    else 0
  }

  function Number(cs: Charset, s: string): (n: nat)
    ensures n <= |s|
  {
    var n := Run(cs.decimal, s);
    n + Groups(cs, s[n..])
  }

  function Enclosed(quote: char, s: string): (r: Option<string>)
    requires s != []
    ensures r.Some? ==> |r.value| >= 2 && r.value <= s
  {
    var end := PlainEnd(quote, s[1..]);
    if end.Some? then Some(s[..end.value + 1]) else None
  }

  /** The lexeme at the start of a condition, or nothing if none is recognised. */
  function Match(cs: Charset, s: string): (r: Option<Lexeme>)
    requires s != []
    ensures r.Some? ==> r.value.text <= s && r.value.text != []
    ensures r.Some? && r.value.Delimited? ==> |r.value.text| >= 2
  {
    if s[0] == '\'' then
      var t := Enclosed('\'', s);
      if t.Some? then Some(Literal(t.value)) else None
    else if s[0] == '"' then
      var t := Enclosed('"', s);
      if t.Some? then Some(Delimited(t.value)) else None
    else if s[0] in START then Some(Plain(s[..1 + Run(PART, s[1..])]))
    else if s[0] in cs.decimal then
      assert Run(cs.decimal, s) >= 1;
      Some(Plain(s[..Number(cs, s)]))
    else if |s| > 1 && s[..2] in DOUBLE then Some(Plain(s[..2]))
    else if s[0] in SINGLE then Some(Plain(s[..1]))
    else if s[0] in cs.space then
      assert Run(cs.space, s) >= 1;
      Some(Space(s[..Run(cs.space, s)]))
    else None
  }

  /** No quoted identifier in the condition, as far as it is recognised. */
  predicate Undelimited(cs: Charset, s: string)
    decreases |s|
  {
    s == [] || var l := Match(cs, s); l.None? || (!l.value.Delimited? && Undelimited(cs, s[|l.value.text|..]))
  }

  // ------------------------------------------------------- canonical form

  /** An engine's case folding of an unquoted identifier. */
  datatype Folding = UPPER | LOWER

  function FoldChar(f: Folding, c: char): char {
    if f.UPPER? && 'a' <= c <= 'z' then c - 'a' + 'A'
    else if f.LOWER? && 'A' <= c <= 'Z' then c - 'A' + 'a'
    else c
  }

  function Fold(f: Folding, s: string): (t: string)
    ensures |t| == |s| && forall i | 0 <= i < |s| :: t[i] == FoldChar(f, s[i])
  {
    seq(|s|, i requires 0 <= i < |s| => FoldChar(f, s[i]))
  }

  function Token(f: Folding, l: Lexeme): string
    requires l.Delimited? ==> |l.text| >= 2
  {
    match l
    case Delimited(text) => text[1..|text| - 1]
    case Plain(text) => Fold(f, text)
    case _ => l.text
  }

  /** The folded tokens of a condition. */
  function Tokens(cs: Charset, f: Folding, s: string): Option<seq<string>>
    decreases |s|
  {
    if s == [] then Some([])
    else
      var l := Match(cs, s);
      if l.None? then None
      else
        var rest := Tokens(cs, f, s[|l.value.text|..]);
        if rest.None? then None
        else Some((if l.value.Space? then [] else [Token(f, l.value)]) + rest.value)
  }

  function Join(ts: seq<string>): string {
    if |ts| == 0 then ""
    else if |ts| == 1 then ts[0]
    else ts[0] + " " + Join(ts[1..])
  }

  /** The canonical form, or nothing when the condition is not recognised. */
  function Canonical(cs: Charset, f: Folding, stored: Option<string>): Option<string> {
    if stored.None? then None
    else
      var ts := Tokens(cs, f, stored.value);
      if ts.None? || Join(ts.value) == "" then None else Some(Join(ts.value))
  }

  lemma {:induction false} NoTokens(cs: Charset, f: Folding)
    ensures Tokens(cs, f, []) == Some([])
  {
  }

  lemma {:induction false} TokensCons(cs: Charset, f: Folding, s: string)
    requires s != []
    ensures Match(cs, s).None? ==> Tokens(cs, f, s).None?
    ensures Match(cs, s).Some? ==>
              var l := Match(cs, s).value;
              var rest := Tokens(cs, f, s[|l.text|..]);
              && (Tokens(cs, f, s).Some? <==> rest.Some?)
              && (rest.Some? ==> Tokens(cs, f, s).value == (if l.Space? then [] else [Token(f, l)]) + rest.value)
  {
    hide Match, Token;
  }

  /** What the loop has read, and what is left to read. */
  ghost predicate ReadSoFar(cs: Charset, f: Folding, source: string, position: nat, tokens: seq<string>)
    requires position <= |source|
  {
    var all, rest := Tokens(cs, f, source), Tokens(cs, f, source[position..]);
    (all.Some? <==> rest.Some?) && (all.Some? ==> all.value == tokens + rest.value)
  }

  lemma {:induction false} ReadOn(cs: Charset, f: Folding, source: string, position: nat, tokens: seq<string>)
    requires position < |source| && ReadSoFar(cs, f, source, position, tokens)
    ensures var l := Match(cs, source[position..]);
            if l.None? then Tokens(cs, f, source).None?
            else ReadSoFar(cs, f, source, position + |l.value.text|, tokens + if l.value.Space? then [] else [Token(f, l.value)])
  {
    hide Match, Token, Tokens;
    var s := source[position..];
    TokensCons(cs, f, s);
    var l := Match(cs, s);
    if l.Some? {
      assert s[|l.value.text|..] == source[position + |l.value.text|..];
    }
  }

  /** The matching loop. */
  method ScanTokens(cs: Charset, f: Folding, source: string) returns (r: Option<seq<string>>)
    ensures r == Tokens(cs, f, source)
  {
    hide Match, Token, Tokens, ReadSoFar;
    var tokens: seq<string> := [];
    var position := 0;
    ReadNothing(cs, f, source);
    while position < |source|
      invariant position <= |source| && ReadSoFar(cs, f, source, position, tokens)
    {
      ReadOn(cs, f, source, position, tokens);
      var found := Match(cs, source[position..]);
      if found.None? {
        return None;
      }
      tokens := tokens + if found.value.Space? then [] else [Token(f, found.value)];
      position := position + |found.value.text|;
    }
    ReadAll(cs, f, source, tokens);
    return Some(tokens);
  }

  method CanonicalCondition(cs: Charset, f: Folding, stored: Option<string>) returns (r: Option<string>)
    ensures r == Canonical(cs, f, stored)
  {
    if stored.None? {
      return None;
    }
    hide Tokens, Join;
    var tokens := ScanTokens(cs, f, stored.value);
    return if tokens.None? || Join(tokens.value) == "" then None else Some(Join(tokens.value));
  }

  lemma {:induction false} ReadNothing(cs: Charset, f: Folding, source: string)
    ensures ReadSoFar(cs, f, source, 0, [])
  {
    assert source[0..] == source;
  }

  lemma {:induction false} ReadAll(cs: Charset, f: Folding, source: string, tokens: seq<string>)
    requires ReadSoFar(cs, f, source, |source|, tokens)
    ensures Tokens(cs, f, source) == Some(tokens)
  {
    NoTokens(cs, f);
    assert source[|source|..] == [] && tokens + [] == tokens;
  }

  // ------------------------------------------------------------ locality

  /** A blank, or nothing, follows. */
  predicate Ends(s: string) {
    s == [] || s[0] == ' '
  }

  lemma {:induction false} GroupsStep(cs: Charset, s: string)
    ensures if |s| > 1 && s[0] == '.' && s[1] in cs.decimal then
              var n := 1 + Run(cs.decimal, s[1..]);
              n >= 2 && Groups(cs, s) == n + Groups(cs, s[n..])
            else Groups(cs, s) == 0
  {
  }

  lemma {:induction false} BlankIsNoDigit(cs: Charset)
    requires Usual(cs)
    ensures ' ' !in cs.decimal
  {
  }

  lemma {:induction false} GroupsLocal(cs: Charset, x: string, y: string, z: string)
    requires Usual(cs) && Groups(cs, x + y) == |x| && Ends(z)
    ensures Groups(cs, x + z) == |x|
    decreases |x|
  {
    hide Run, Groups, Usual;
    BlankIsNoDigit(cs);
    GroupsStep(cs, x + y);
    GroupsStep(cs, x + z);
    if x == [] {
      assert x + z == z;
    } else {
      assert (x + y)[1..] == x[1..] + y && (x + z)[1..] == x[1..] + z;
      RunLocal(cs.decimal, x[1..], y, z);
      var n := 1 + Run(cs.decimal, x[1..] + y);
      assert (x + y)[n..] == x[n..] + y && (x + z)[n..] == x[n..] + z;
      GroupsLocal(cs, x[n..], y, z);
    }
  }

  lemma {:induction false} NumberLocalTo(cs: Charset, x: string, y: string, z: string)
    requires Usual(cs) && Number(cs, x + y) == |x| && Ends(z)
    ensures Number(cs, x + z) == |x|
  {
    hide Run, Groups, Usual;
    BlankIsNoDigit(cs);
    RunLocal(cs.decimal, x, y, z);
    var n := Run(cs.decimal, x + y);
    assert (x + y)[n..] == x[n..] + y && (x + z)[n..] == x[n..] + z;
    GroupsLocal(cs, x[n..], y, z);
  }

  /** A token that is found before one continuation is found before an end. */
  lemma {:induction false} MatchIsLocal(cs: Charset, x: string, y: string, z: string)
    requires Usual(cs) && Ends(z) && x != []
    requires Match(cs, x + y).Some? && Match(cs, x + y).value.text == x && !Match(cs, x + y).value.Space?
    ensures Match(cs, x + z) == Match(cs, x + y)
  {
    hide Run, Number, PlainEnd, Usual, DOUBLE;
    assert (x + y)[1..] == x[1..] + y && (x + z)[1..] == x[1..] + z && (x + z)[..|x|] == x;
    if x[0] == '\'' || x[0] == '"' {
      PlainLocal(x[0], x[1..], y, z);
    } else if x[0] in START {
      RunLocal(PART, x[1..], y, z);
    } else if x[0] in cs.decimal {
      NumberLocalTo(cs, x, y, z);
    } else {
      OperatorLocal(cs, x, y, z);
    }
  }

  lemma {:induction false} OperatorLocal(cs: Charset, x: string, y: string, z: string)
    requires Usual(cs) && Ends(z) && x != [] && x[0] !in START + cs.decimal + {'\'', '"'}
    requires Match(cs, x + y) == Some(Plain(x))
    ensures Match(cs, x + z) == Some(Plain(x))
  {
    hide Run, Number, PlainEnd;
    if |x| == 1 {
      assert z != [] ==> (x + z)[1] == ' ';
      assert z != [] ==> (x + z)[..2][1] == ' ';
      assert (x + z)[..1] == x;
      BlankIsNoOperator((x + z)[..if z == [] then 1 else 2]);
    } else {
      assert (x + z)[..2] == x[..2] == (x + y)[..2];
    }
  }

  lemma {:induction false} BlankIsNoOperator(s: string)
    requires |s| == 2 ==> s[1] == ' '
    ensures s !in DOUBLE || |s| != 2
  {
  }

  // ------------------------------------------------------------- folding

  lemma {:induction false} RunFolded(class_: set<char>, f: Folding, s: string)
    requires forall c: char :: c in class_ <==> FoldChar(f, c) in class_
    ensures Run(class_, Fold(f, s)) == Run(class_, s)
  {
    if s != [] {
      assert Fold(f, s)[1..] == Fold(f, s[1..]);
      RunFolded(class_, f, s[1..]);
    }
  }

  /** Folding swaps the 26 letters for the other case and leaves all else alone. */
  lemma {:induction false} FoldIsAsciiCase(f: Folding, i: nat, c: char)
    requires i < 26
    ensures var lower, upper := 'a' + i as char, 'A' + i as char;
            FoldChar(f, lower) == FoldChar(f, upper) == if f == UPPER then upper else lower
    ensures !('a' <= c <= 'z') && !('A' <= c <= 'Z') ==> FoldChar(f, c) == c
  {
  }

  /** The two-character operators are found whole. */
  lemma {:induction false} DoubleOperators(cs: Charset, op: string, rest: string)
    requires Usual(cs) && op in {"<>", "!=", "<=", ">=", "||", "::"}
    ensures Match(cs, op + rest) == Some(Plain(op))
  {
    hide Run, Number, PlainEnd;
    var s := op + rest;
    assert |op| == 2 && s[..2] == op && s[0] == op[0];
    assert op[0] in {'<', '!', '>', '|', ':'};
  }

  lemma {:induction false} FoldKeepsClasses(cs: Charset, f: Folding)
    requires Usual(cs)
    ensures forall c: char :: c in PART <==> FoldChar(f, c) in PART
    ensures forall c: char :: c in START <==> FoldChar(f, c) in START
    ensures forall c: char :: c in cs.decimal <==> FoldChar(f, c) in cs.decimal
    ensures forall c: char | c !in START :: FoldChar(f, c) == c
  {
  }

  lemma {:induction false} GroupsFolded(cs: Charset, f: Folding, s: string)
    requires Usual(cs)
    ensures Groups(cs, Fold(f, s)) == Groups(cs, s)
    decreases |s|
  {
    hide Run, Groups, Usual;
    FoldKeepsClasses(cs, f);
    GroupsStep(cs, s);
    GroupsStep(cs, Fold(f, s));
    if |s| > 1 {
      assert Fold(f, s)[1..] == Fold(f, s[1..]);
      RunFolded(cs.decimal, f, s[1..]);
      var n := 1 + Run(cs.decimal, s[1..]);
      assert Fold(f, s)[n..] == Fold(f, s[n..]);
      assert (s[0] == '.' <==> Fold(f, s)[0] == '.') by {
        DotIsFixed(f, s[0]);
      }
      if n >= 2 {
        GroupsFolded(cs, f, s[n..]);
      }
    }
  }

  lemma {:induction false} DotIsFixed(f: Folding, c: char)
    ensures FoldChar(f, c) == '.' <==> c == '.'
  {
  }

  lemma {:induction false} NumberFolded(cs: Charset, f: Folding, s: string)
    requires Usual(cs)
    ensures Number(cs, Fold(f, s)) == Number(cs, s)
  {
    hide Run, Groups;
    FoldKeepsClasses(cs, f);
    RunFolded(cs.decimal, f, s);
    var n := Run(cs.decimal, s);
    assert Fold(f, s)[n..] == Fold(f, s[n..]);
    GroupsFolded(cs, f, s[n..]);
  }

  /** Folding a token leaves one token. */
  lemma {:induction false} MatchFolded(cs: Charset, f: Folding, t: string)
    requires Usual(cs) && t != [] && Match(cs, t) == Some(Plain(t))
    ensures Match(cs, Fold(f, t)) == Some(Plain(Fold(f, t)))
    ensures Fold(f, Fold(f, t)) == Fold(f, t)
  {
    hide Run, Number, PlainEnd, Usual;
    FoldKeepsClasses(cs, f);
    var r := Fold(f, t);
    assert r[..|r|] == r && t[..|t|] == t;
    assert Fold(f, r) == r;
    if t[0] in START {
      assert r[1..] == Fold(f, t[1..]);
      RunFolded(PART, f, t[1..]);
      LettersAreNoQuotes();
    } else if t[0] in cs.decimal {
      NumberFolded(cs, f, t);
      assert r[0] == t[0];
    } else {
      OperatorHasNoLetter(cs, t);
      assert r == t;
    }
  }

  lemma {:induction false} LettersAreNoQuotes()
    ensures '\'' !in START && '"' !in START
  {
  }

  lemma {:induction false} OperatorHasNoLetter(cs: Charset, t: string)
    requires t != [] && Match(cs, t) == Some(Plain(t)) && t[0] !in START + cs.decimal
    ensures forall i | 0 <= i < |t| :: t[i] !in START
  {
  }

  // ------------------------------------------------------------ the laws

  /** A text that is one token, and its own folded form. */
  ghost predicate Stable(cs: Charset, f: Folding, t: string) {
    && t != [] && Match(cs, t).Some?
    && var l := Match(cs, t).value;
    l.text == t && (l.Literal? || l.Plain?) && Token(f, l) == t
  }

  lemma {:induction false} TokenIsStable(cs: Charset, f: Folding, s: string)
    requires Usual(cs) && s != [] && Match(cs, s).Some?
    requires var l := Match(cs, s).value; l.Literal? || l.Plain?
    ensures Stable(cs, f, Token(f, Match(cs, s).value))
  {
    hide Match, Usual;
    var l := Match(cs, s).value;
    var x, y := l.text, s[|l.text|..];
    assert s == x + y && x + [] == x;
    MatchIsLocal(cs, x, y, []);
    if l.Plain? {
      MatchFolded(cs, f, x);
    }
  }

  lemma {:induction false} TokensAreStable(cs: Charset, f: Folding, s: string)
    requires Usual(cs) && Undelimited(cs, s) && Tokens(cs, f, s).Some?
    ensures forall i | 0 <= i < |Tokens(cs, f, s).value| :: Stable(cs, f, Tokens(cs, f, s).value[i])
    decreases |s|
  {
    hide Match, Usual, Stable, Token, Tokens;
    if s == [] {
      NoTokens(cs, f);
    } else {
      TokensCons(cs, f, s);
      var l := Match(cs, s).value;
      TokensAreStable(cs, f, s[|l.text|..]);
      if !l.Space? {
        TokenIsStable(cs, f, s);
      }
    }
  }

  lemma {:induction false} StableStart(cs: Charset, f: Folding, t: string)
    requires Usual(cs) && Stable(cs, f, t)
    ensures t[0] !in cs.space
  {
  }

  lemma {:induction false} OneBlank(cs: Charset, s: string)
    requires Usual(cs) && s != [] && s[0] !in cs.space
    ensures Match(cs, " " + s) == Some(Space(" "))
  {
    var t := " " + s;
    assert t[0] == ' ' && t[1..] == s && t[..1] == " ";
    assert Run(cs.space, s) == 0 && Run(cs.space, t) == 1;
    BlankStartsNoOperator(t[..2]);
  }

  lemma {:induction false} BlankStartsNoOperator(s: string)
    requires |s| == 2 && s[0] == ' '
    ensures s !in DOUBLE
  {
  }

  /** A token, a blank, and more. */
  lemma {:induction false} TokenThenBlank(cs: Charset, f: Folding, t: string, j: string)
    requires Usual(cs) && Stable(cs, f, t) && j != [] && j[0] !in cs.space && Tokens(cs, f, j).Some?
    ensures Tokens(cs, f, t + (" " + j)) == Some([t] + Tokens(cs, f, j).value)
  {
    hide Match, Usual, Token, Tokens;
    var s, b := t + (" " + j), " " + j;
    assert t + [] == t;
    MatchIsLocal(cs, t, [], b);
    OneBlank(cs, j);
    assert s[|t|..] == b && b[1..] == j;
    TokensCons(cs, f, s);
    TokensCons(cs, f, b);
    assert [] + Tokens(cs, f, j).value == Tokens(cs, f, j).value;
  }

  /** Joined tokens are scanned back one for one. */
  lemma {:induction false} JoinRescans(cs: Charset, f: Folding, ts: seq<string>)
    requires Usual(cs) && forall i | 0 <= i < |ts| :: Stable(cs, f, ts[i])
    ensures Tokens(cs, f, Join(ts)) == Some(ts)
    ensures ts != [] ==> ts[0] != [] && Join(ts) != [] && Join(ts)[0] == ts[0][0]
  {
    hide Match, Usual, Token, Tokens;
    NoTokens(cs, f);
    if |ts| == 1 {
      TokensCons(cs, f, ts[0]);
      assert ts[0][|ts[0]|..] == [] && ts == [ts[0]] + [];
    } else if |ts| > 1 {
      var t, rest := ts[0], ts[1..];
      JoinRescans(cs, f, rest);
      var j := Join(rest);
      StableStart(cs, f, rest[0]);
      TokenThenBlank(cs, f, t, j);
      assert Join(ts) == t + (" " + j) && [t] + rest == ts;
    }
  }

  /** Equal canonical forms mean equal folded tokens, and the other way round. */
  lemma {:induction false} CanonicalComparesTokens(cs: Charset, f: Folding, a: string, b: string)
    requires Usual(cs) && Undelimited(cs, a) && Undelimited(cs, b)
    requires Canonical(cs, f, Some(a)).Some? && Canonical(cs, f, Some(b)).Some?
    ensures Canonical(cs, f, Some(a)) == Canonical(cs, f, Some(b)) <==> Tokens(cs, f, a) == Tokens(cs, f, b)
  {
    hide Tokens, Join, Usual, Stable;
    TokensAreStable(cs, f, a);
    TokensAreStable(cs, f, b);
    JoinRescans(cs, f, Tokens(cs, f, a).value);
    JoinRescans(cs, f, Tokens(cs, f, b).value);
  }

  /** A canonical form is its own canonical form. */
  lemma {:induction false} CanonicalIsFixed(cs: Charset, f: Folding, s: string)
    requires Usual(cs) && Undelimited(cs, s) && Canonical(cs, f, Some(s)).Some?
    ensures Canonical(cs, f, Canonical(cs, f, Some(s))) == Canonical(cs, f, Some(s))
    ensures Tokens(cs, f, Canonical(cs, f, Some(s)).value) == Tokens(cs, f, s)
  {
    hide Tokens, Join, Usual, Stable;
    TokensAreStable(cs, f, s);
    JoinRescans(cs, f, Tokens(cs, f, s).value);
  }

  lemma {:induction false} MatchOfA(cs: Charset, a: string)
    requires |a| == 1 && a[0] == 'a'
    ensures Match(cs, a) == Some(Plain(a))
  {
    assert a[1..] == [] && Run(PART, []) == 0 && a[..1] == a;
  }

  lemma {:induction false} MatchOfQuotedA(cs: Charset, q: string)
    requires |q| == 3 && q[0] == '"' && q[1] == 'a' && q[2] == '"'
    ensures Match(cs, q) == Some(Delimited(q))
  {
    var s := q[1..];
    assert |s[1..]| == 1 && s[1..][0] == '"' && PlainEnd('"', s[1..]) == Some(1);
    assert PlainEnd('"', s) == Some(2);
    assert q[..3] == q;
  }

  /** The quotes of a quoted identifier are dropped and its case is kept, so its
      canonical form is read as an unquoted one and folded the second time. */
  lemma {:induction false} DelimitedIsNotFixed(cs: Charset)
    ensures Canonical(cs, UPPER, Some("\"a\"")) == Some("a")
    ensures Canonical(cs, UPPER, Some("a")) == Some("A")
  {
    hide Match, Tokens;
    var q, a := "\"a\"", "a";
    MatchOfA(cs, a);
    MatchOfQuotedA(cs, q);
    assert q[3..] == [] && q[1..2] == a && a[1..] == [];
    TokensCons(cs, UPPER, q);
    TokensCons(cs, UPPER, a);
    NoTokens(cs, UPPER);
    assert Fold(UPPER, a) == "A";
    assert [Token(UPPER, Delimited(q))] + [] == [a] && [Token(UPPER, Plain(a))] + [] == ["A"];
    assert Tokens(cs, UPPER, q) == Some([a]) && Tokens(cs, UPPER, a) == Some(["A"]);
  }

  /** Text in canonical layout: folded tokens, one blank apart. */
  ghost predicate Spaced(cs: Charset, f: Folding, c: string)
    decreases |c|
  {
    && c != [] && Match(cs, c).Some?
    && var l := Match(cs, c).value;
    && (l.Literal? || l.Plain?) && Token(f, l) == l.text
    && var rest := c[|l.text|..];
    rest == [] || (rest[0] == ' ' && |rest| > 1 && rest[1] !in cs.space && Spaced(cs, f, rest[1..]))
  }

  lemma {:induction false} OneTokenIsSpaced(cs: Charset, f: Folding, t: string)
    requires Stable(cs, f, t)
    ensures Spaced(cs, f, t)
  {
    hide Match, Token;
    assert t[|t|..] == [];
  }

  lemma {:induction false} SpacedCons(cs: Charset, f: Folding, t: string, j: string)
    requires Usual(cs) && Stable(cs, f, t) && Spaced(cs, f, j) && j[0] !in cs.space
    ensures Spaced(cs, f, t + (" " + j))
  {
    hide Match, Usual, Token;
    var b := " " + j;
    assert t + [] == t;
    MatchIsLocal(cs, t, [], b);
    assert (t + b)[|t|..] == b && b[1..] == j;
  }

  lemma {:induction false} JoinIsSpaced(cs: Charset, f: Folding, ts: seq<string>)
    requires Usual(cs) && ts != [] && forall i | 0 <= i < |ts| :: Stable(cs, f, ts[i])
    ensures Spaced(cs, f, Join(ts)) && Join(ts) != [] && ts[0] != [] && Join(ts)[0] == ts[0][0]
  {
    hide Usual, Spaced, Stable;
    StableIsSome(cs, f, ts[0]);
    if |ts| == 1 {
      OneTokenIsSpaced(cs, f, ts[0]);
    } else {
      var rest := ts[1..];
      JoinIsSpaced(cs, f, rest);
      StableStart(cs, f, rest[0]);
      SpacedCons(cs, f, ts[0], Join(rest));
      assert Join(ts) == ts[0] + (" " + Join(rest));
    }
  }

  lemma {:induction false} StableIsSome(cs: Charset, f: Folding, t: string)
    requires Stable(cs, f, t)
    ensures t != []
  {
  }

  lemma {:induction false} TokensOfOne(cs: Charset, f: Folding, t: string)
    requires Stable(cs, f, t)
    ensures Tokens(cs, f, t) == Some([t])
  {
    hide Match, Token, Tokens;
    TokensCons(cs, f, t);
    NoTokens(cs, f);
    assert t[|t|..] == [] && [t] + [] == [t];
  }

  /** The first token of a text in canonical layout, and what follows. */
  lemma {:induction false} SpacedHead(cs: Charset, f: Folding, c: string) returns (t: string, j: string)
    requires Usual(cs) && Spaced(cs, f, c)
    ensures Stable(cs, f, t) && |j| < |c|
    ensures c == t || (c == t + (" " + j) && Spaced(cs, f, j) && j != [] && j[0] !in cs.space)
  {
    hide Match, Usual, Token;
    var l := Match(cs, c).value;
    TokenIsStable(cs, f, c);
    t := l.text;
    var rest := c[|t|..];
    assert c == t + rest;
    j := if rest == [] then [] else rest[1..];
    assert rest != [] ==> rest == " " + j;
  }

  lemma {:induction false} SpacedIsFixed(cs: Charset, f: Folding, c: string)
    requires Usual(cs) && Spaced(cs, f, c)
    ensures Tokens(cs, f, c).Some? && Tokens(cs, f, c).value != [] && Join(Tokens(cs, f, c).value) == c
    decreases |c|
  {
    hide Usual, Spaced, Tokens, Stable;
    var t, j := SpacedHead(cs, f, c);
    if c == t {
      TokensOfOne(cs, f, t);
    } else {
      TokenThenBlank(cs, f, t, j) by {
        SpacedIsFixed(cs, f, j);
      }
      SpacedIsFixed(cs, f, j);
      var ts := Tokens(cs, f, j).value;
      assert ([t] + ts)[1..] == ts && Join([t] + ts) == t + " " + Join(ts);
      assert t + " " + j == t + (" " + j);
    }
  }

  // ------------------------------------------------ counting double quotes

  function Quotes(s: string): nat {
    if s == [] then 0 else (if s[0] == '"' then 1 else 0) + Quotes(s[1..])
  }

  lemma {:induction false} QuotesSplit(a: string, b: string)
    ensures Quotes(a + b) == Quotes(a) + Quotes(b)
  {
    if a == [] {
      assert a + b == b;
    } else {
      assert (a + b)[1..] == a[1..] + b;
      QuotesSplit(a[1..], b);
    }
  }

  lemma {:induction false} QuotesFolded(f: Folding, t: string)
    ensures Quotes(Fold(f, t)) == Quotes(t)
  {
    if t != [] {
      assert Fold(f, t)[1..] == Fold(f, t[1..]);
      QuotesFolded(f, t[1..]);
    }
  }

  lemma {:induction false} QuotesInside(t: string)
    requires |t| >= 2 && t[0] == '"' && t[|t| - 1] == '"'
    ensures Quotes(t[1..|t| - 1]) + 2 == Quotes(t)
  {
    var inner, last := t[1..|t| - 1], [t[|t| - 1]];
    assert t == [t[0]] + (inner + last);
    QuotesSplit([t[0]], inner + last);
    QuotesSplit(inner, last);
    assert last[1..] == [] && [t[0]][1..] == [];
  }

  /** A quoted identifier is found with both its quotes. */
  lemma {:induction false} DelimitedHasQuotes(cs: Charset, s: string)
    requires s != [] && Match(cs, s).Some? && Match(cs, s).value.Delimited?
    ensures var t := Match(cs, s).value.text; t[0] == '"' && t[|t| - 1] == '"'
  {
    hide Run, Number;
    PlainEndsInQuote('"', s[1..]);
  }

  /** A token has the double quotes of its lexeme, but for the two of a quoted
      identifier. */
  lemma {:induction false} TokenQuotes(cs: Charset, f: Folding, s: string)
    requires s != [] && Match(cs, s).Some?
    ensures var l := Match(cs, s).value; Quotes(Token(f, l)) + (if l.Delimited? then 2 else 0) == Quotes(l.text)
  {
    hide Match;
    var l := Match(cs, s).value;
    if l.Delimited? {
      DelimitedHasQuotes(cs, s);
      QuotesInside(l.text);
    } else if l.Plain? {
      QuotesFolded(f, l.text);
    }
  }

  lemma {:induction false} QuotesOfJoin(t: string, ts: seq<string>)
    ensures Quotes(Join([t] + ts)) == Quotes(t) + Quotes(Join(ts))
  {
    if ts == [] {
      assert [t] + ts == [t];
    } else {
      assert ([t] + ts)[1..] == ts && " "[1..] == "" && " "[0] != '"';
      QuotesSplit(t + " ", Join(ts));
      QuotesSplit(t, " ");
    }
  }

  /** So a form that loses none has no quoted identifier. */
  lemma {:induction false} QuotesAreLost(cs: Charset, f: Folding, s: string)
    requires Tokens(cs, f, s).Some?
    ensures Quotes(Join(Tokens(cs, f, s).value)) + (if Undelimited(cs, s) then 0 else 2) <= Quotes(s)
    decreases |s|
  {
    hide Match, Token, Tokens, Join;
    if s == [] {
      NoTokens(cs, f);
      NothingJoined();
    } else {
      TokensCons(cs, f, s);
      var l := Match(cs, s).value;
      var rest := s[|l.text|..];
      QuotesAreLost(cs, f, rest);
      assert s == l.text + rest;
      QuotesSplit(l.text, rest);
      TokenQuotes(cs, f, s);
      var ts := Tokens(cs, f, rest).value;
      assert [] + ts == ts;
      QuotesOfJoin(Token(f, l), ts);
    }
  }

  /** Exactly when a canonical form is its own, whatever it holds: when it is laid
      out canonically itself, with no quoted identifier in it. */
  lemma {:induction false} CanonicalIsFixedIff(cs: Charset, f: Folding, s: string)
    requires Usual(cs)
    ensures Canonical(cs, f, Some(s)).Some? ==>
              (Canonical(cs, f, Canonical(cs, f, Some(s))) == Canonical(cs, f, Some(s)) <==>
                 Spaced(cs, f, Canonical(cs, f, Some(s)).value))
  {
    hide Tokens, Join, Usual, Stable, Spaced, Undelimited, Quotes;
    if Canonical(cs, f, Some(s)).Some? {
      var c := Canonical(cs, f, Some(s)).value;
      if Canonical(cs, f, Some(c)) == Some(c) {
        QuotesAreLost(cs, f, c);
        TokensAreStable(cs, f, c);
        var ts := Tokens(cs, f, c).value;
        assert ts != [] by {
          NothingJoined();
        }
        JoinIsSpaced(cs, f, ts);
      }
      if Spaced(cs, f, c) {
        SpacedIsFixed(cs, f, c);
      }
    }
  }

  lemma {:induction false} NothingJoined()
    ensures Join([]) == ""
  {
  }

  // ---------------------------------------------------- closed comparison

  /** Letters that match `i`, `s` and `k` when case is ignored. */
  function Loose(c: char): char {
    if 'A' <= c <= 'Z' then c - 'A' + 'a'
    else if c == '\U{0130}' || c == '\U{0131}' then 'i'
    else if c == '\U{017F}' then 's'
    else if c == '\U{212A}' then 'k'
    else c
  }

  predicate Alike(s: string, lower: string) {
    |s| == |lower| && forall i | 0 <= i < |s| :: Loose(s[i]) == lower[i]
  }

  /** A name, then IS NOT NULL, whatever the case; one final line break is let pass. */
  predicate IsNotNull(condition: string) {
    && condition != [] && Loose(condition[0]) in START
    && exists n | 1 <= n <= |condition| ::
         && (forall i | 1 <= i < n :: Loose(condition[i]) in PART)
         && (Alike(condition[n..], " is not null") || Alike(condition[n..], " is not null\n"))
  }

  /** What a search that ignores case takes for a letter, a digit or a sign of a name:
      four letters beyond ASCII match one of it. */
  predicate NameChar(c: char, first: bool) {
    || IsAsciiLetter(c) || c == '_' || c in {'\U{0130}', '\U{0131}', '\U{017F}', '\U{212A}'}
    || (!first && (IsAsciiDigit(c) || c in {'$', '#'}))
  }

  /** And for this character of IS NOT NULL. */
  predicate SpeltAs(c: char, lower: char) {
    || c == lower
    || ('a' <= lower <= 'z' && c == lower - 'a' + 'A')
    || (lower == 'i' && c in {'\U{0130}', '\U{0131}'})
    || (lower == 's' && c == '\U{017F}')
    || (lower == 'k' && c == '\U{212A}')
  }

  predicate SpellsOut(s: string, lower: string) {
    |s| == |lower| && forall i | 0 <= i < |s| :: SpeltAs(s[i], lower[i])
  }

  lemma {:induction false} LooseMeans(c: char, lower: char)
    ensures 'a' <= lower <= 'z' || lower in {' ', '\n'} ==> (Loose(c) == lower <==> SpeltAs(c, lower))
    ensures Loose(c) in START <==> NameChar(c, true)
    ensures Loose(c) in PART <==> NameChar(c, false)
  {
  }

  lemma {:induction false} AlikeMeans(s: string, lower: string)
    requires forall i | 0 <= i < |lower| :: 'a' <= lower[i] <= 'z' || lower[i] in {' ', '\n'}
    ensures Alike(s, lower) <==> SpellsOut(s, lower)
  {
    hide Loose, SpeltAs;
    if |s| == |lower| {
      forall i | 0 <= i < |s| ensures Loose(s[i]) == lower[i] <==> SpeltAs(s[i], lower[i]) {
        LooseMeans(s[i], lower[i]);
      }
    }
  }

  /** A constraint is taken for NOT NULL exactly if it is a name and those words. */
  lemma {:induction false} NotNullMeans(condition: string)
    ensures IsNotNull(condition) <==>
              exists name, tail ::
                && condition == name + tail && name != [] && NameChar(name[0], true)
                && (forall i | 1 <= i < |name| :: NameChar(name[i], false))
                && (SpellsOut(tail, " is not null") || SpellsOut(tail, " is not null\n"))
  {
    hide Loose, SpeltAs, NameChar, Alike, SpellsOut;
    var short, long := " is not null", " is not null\n";
    forall s ensures (Alike(s, short) <==> SpellsOut(s, short)) && (Alike(s, long) <==> SpellsOut(s, long)) {
      AlikeMeans(s, short);
      AlikeMeans(s, long);
    }
    forall c: char ensures (Loose(c) in START <==> NameChar(c, true)) && (Loose(c) in PART <==> NameChar(c, false)) {
      LooseMeans(c, ' ');
    }
    if IsNotNull(condition) {
      var n :| 1 <= n <= |condition| && (forall i | 1 <= i < n :: Loose(condition[i]) in PART)
               && (Alike(condition[n..], short) || Alike(condition[n..], long));
      var name, tail := condition[..n], condition[n..];
      assert condition == name + tail && name[0] == condition[0];
      assert forall i | 1 <= i < |name| :: name[i] == condition[i];
    }
    if name, tail :| && condition == name + tail && name != [] && NameChar(name[0], true)
                     && (forall i | 1 <= i < |name| :: NameChar(name[i], false))
                     && (SpellsOut(tail, short) || SpellsOut(tail, long)) {
      var n := |name|;
      assert condition[n..] == tail && condition[0] == name[0];
      assert forall i | 1 <= i < n :: condition[i] == name[i];
    }
  }

  datatype Check = Check(stored: Option<string>, enforced: bool)

  datatype Problem = Unrecognised | Unsupported(condition: string) | NotEnforced(condition: string) | Missing(condition: string)

  /** What a stored check constraint stands for. */
  function Meaning(cs: Charset, f: Folding, equivalents: map<string, string>, check: Check): Option<string> {
    var condition := Canonical(cs, f, check.stored);
    if condition.Some? && condition.value in equivalents then Some(equivalents[condition.value]) else condition
  }

  /** The constraint is one to compare, and this is its condition. */
  predicate Compared(cs: Charset, f: Folding, equivalents: map<string, string>, check: Check, condition: string) {
    Meaning(cs, f, equivalents, check) == Some(condition) && !IsNotNull(condition)
  }

  /** A constraint is recognised and, unless it only says NOT NULL, it is enforced
      and supported. */
  ghost predicate Fine(cs: Charset, f: Folding, equivalents: map<string, string>, check: Check, expected: seq<string>) {
    && Meaning(cs, f, equivalents, check).Some?
    && forall c | Compared(cs, f, equivalents, check, c) :: check.enforced && c in expected
  }

  /** With the NOT NULL ones dropped, the constraints are exactly the supported
      set, all recognised and enforced. */
  ghost predicate Supported(cs: Charset, f: Folding, equivalents: map<string, string>, checks: seq<Check>, expected: seq<string>) {
    && (forall i | 0 <= i < |checks| :: Fine(cs, f, equivalents, checks[i], expected))
    && (forall c | c in expected :: Seen(cs, f, equivalents, checks, |checks|, c))
  }

  /** What one constraint adds to the problems. */
  function Objection(cs: Charset, f: Folding, equivalents: map<string, string>, check: Check, expected: seq<string>): seq<Problem> {
    var condition := Meaning(cs, f, equivalents, check);
    if condition.None? then [Unrecognised]
    else if IsNotNull(condition.value) then []
    else if condition.value !in expected then [Unsupported(condition.value)]
    else if !check.enforced then [NotEnforced(condition.value)]
    else []
  }

  /** Some constraint among the first `n` raises this problem. */
  ghost predicate Objected(cs: Charset, f: Folding, equivalents: map<string, string>, checks: seq<Check>, expected: seq<string>,
                           n: nat, p: Problem)
    requires n <= |checks|
  {
    exists i :: 0 <= i < n && p in Objection(cs, f, equivalents, checks[i], expected)
  }

  /** Some constraint among the first `n` stands for this condition. */
  ghost predicate Seen(cs: Charset, f: Folding, equivalents: map<string, string>, checks: seq<Check>, n: nat, c: string)
    requires n <= |checks|
  {
    exists i :: 0 <= i < n && Compared(cs, f, equivalents, checks[i], c)
  }

  /** Walk over the stored constraints. */
  method Walk(cs: Charset, f: Folding, equivalents: map<string, string>, checks: seq<Check>, expected: seq<string>)
    returns (problems: seq<Problem>, seen: set<string>)
    ensures forall p :: p in problems <==> Objected(cs, f, equivalents, checks, expected, |checks|, p)
    ensures forall c :: c in seen <==> c in expected && Seen(cs, f, equivalents, checks, |checks|, c)
  {
    hide IsNotNull, Canonical;
    problems, seen := [], {};
    for n := 0 to |checks|
      invariant forall p :: p in problems <==> Objected(cs, f, equivalents, checks, expected, n, p)
      invariant forall c :: c in seen <==> c in expected && Seen(cs, f, equivalents, checks, n, c)
    {
      var canonical := CanonicalCondition(cs, f, checks[n].stored);
      var condition := if canonical.Some? && canonical.value in equivalents then Some(equivalents[canonical.value]) else canonical;
      ghost var before := problems;
      if condition.None? {
        problems := problems + [Unrecognised];
      } else if !IsNotNull(condition.value) {
        if condition.value !in expected {
          problems := problems + [Unsupported(condition.value)];
        } else {
          seen := seen + {condition.value};
          if !checks[n].enforced {
            problems := problems + [NotEnforced(condition.value)];
          }
        }
      }
      assert problems == before + Objection(cs, f, equivalents, checks[n], expected);
      ObjectedOn(cs, f, equivalents, checks, expected, n);
      SeenOn(cs, f, equivalents, checks, n);
    }
  }

  lemma {:induction false} ObjectedOn(cs: Charset, f: Folding, equivalents: map<string, string>, checks: seq<Check>,
                                      expected: seq<string>, n: nat)
    requires n < |checks|
    ensures forall p :: Objected(cs, f, equivalents, checks, expected, n + 1, p) <==>
              Objected(cs, f, equivalents, checks, expected, n, p) || p in Objection(cs, f, equivalents, checks[n], expected)
  {
    hide Objection;
  }

  lemma {:induction false} SeenOn(cs: Charset, f: Folding, equivalents: map<string, string>, checks: seq<Check>, n: nat)
    requires n < |checks|
    ensures forall c :: Seen(cs, f, equivalents, checks, n + 1, c) <==>
              Seen(cs, f, equivalents, checks, n, c) || Compared(cs, f, equivalents, checks[n], c)
  {
    hide Compared;
  }

  /** The problems of a table's constraints: none exactly if they are supported. */
  method CheckProblems(cs: Charset, f: Folding, equivalents: map<string, string>, checks: seq<Check>, expected: seq<string>)
    returns (problems: seq<Problem>)
    ensures problems == [] <==> Supported(cs, f, equivalents, checks, expected)
    ensures forall c :: Missing(c) in problems <==> c in expected && !Seen(cs, f, equivalents, checks, |checks|, c)
    ensures forall p: Problem | !p.Missing? :: p in problems <==> Objected(cs, f, equivalents, checks, expected, |checks|, p)
  {
    hide Objected, Seen;
    var objections, seen := Walk(cs, f, equivalents, checks, expected);
    problems := objections;
    NothingMissingYet(cs, f, equivalents, checks, expected);
    for k := 0 to |expected|
      invariant forall p: Problem | !p.Missing? :: p in problems <==> p in objections
      invariant forall c :: Missing(c) in problems <==> c in expected[..k] && c !in seen
    {
      if expected[k] !in seen {
        problems := problems + [Missing(expected[k])];
      }
    }
    assert expected[..|expected|] == expected;
    NoProblemsIff(cs, f, equivalents, checks, expected, problems);
  }

  lemma {:induction false} NothingMissingYet(cs: Charset, f: Folding, equivalents: map<string, string>, checks: seq<Check>,
                                             expected: seq<string>)
    ensures forall c :: !Objected(cs, f, equivalents, checks, expected, |checks|, Missing(c))
  {
  }

  lemma {:induction false} NoObjectionIff(cs: Charset, f: Folding, equivalents: map<string, string>, check: Check, expected: seq<string>)
    ensures Objection(cs, f, equivalents, check, expected) == [] <==> Fine(cs, f, equivalents, check, expected)
  {
  }

  lemma {:induction false} FineIff(cs: Charset, f: Folding, equivalents: map<string, string>, checks: seq<Check>, expected: seq<string>)
    ensures (forall i | 0 <= i < |checks| :: Fine(cs, f, equivalents, checks[i], expected)) <==>
              forall p :: !Objected(cs, f, equivalents, checks, expected, |checks|, p)
  {
    hide Objection, Fine;
    forall i | 0 <= i < |checks|
      ensures !Fine(cs, f, equivalents, checks[i], expected) ==>
                exists p :: Objected(cs, f, equivalents, checks, expected, |checks|, p)
    {
      NoObjectionIff(cs, f, equivalents, checks[i], expected);
      var o := Objection(cs, f, equivalents, checks[i], expected);
      if o != [] {
        assert o[0] in Objection(cs, f, equivalents, checks[i], expected);
        assert Objected(cs, f, equivalents, checks, expected, |checks|, o[0]);
      }
    }
    forall p | Objected(cs, f, equivalents, checks, expected, |checks|, p)
      ensures exists i :: 0 <= i < |checks| && !Fine(cs, f, equivalents, checks[i], expected)
    {
      var i :| 0 <= i < |checks| && p in Objection(cs, f, equivalents, checks[i], expected);
      NoObjectionIff(cs, f, equivalents, checks[i], expected);
    }
  }

  lemma {:induction false} NoProblemsIff(cs: Charset, f: Folding, equivalents: map<string, string>, checks: seq<Check>,
                                         expected: seq<string>, problems: seq<Problem>)
    requires forall c :: Missing(c) in problems <==> c in expected && !Seen(cs, f, equivalents, checks, |checks|, c)
    requires forall p: Problem | !p.Missing? :: p in problems <==> Objected(cs, f, equivalents, checks, expected, |checks|, p)
    ensures problems == [] <==> Supported(cs, f, equivalents, checks, expected)
  {
    hide Objected, Seen, Fine;
    FineIff(cs, f, equivalents, checks, expected);
    NothingMissingYet(cs, f, equivalents, checks, expected);
    assert problems == [] <==> forall p :: p !in problems by {
      assert problems != [] ==> problems[0] in problems;
    }
    assert forall p: Problem | p.Missing? :: p == Missing(p.condition);
  }
}
