/** The lexical scanner of a single SQL statement.  A text is cut into pieces,
    each found by looking only at what follows it; a token is a piece with its
    place. */
module SqlText {
  import opened Model

  /** The character classes of the Unicode database, and its upper-casing.  No
      property here depends on what lies outside ASCII, beyond `Standard`. */
  datatype Unicode = Unicode(alpha: set<char>, digit: set<char>, alnum: set<char>, space: set<char>, upper: map<char, string>)

  /** The whitespace the scanner skips. */
  const BLANKS: set<char> := {' ', '\t', '\r', '\n', '\U{000C}', '\U{000B}'}

  predicate IsAsciiLetter(c: char) {
    'a' <= c <= 'z' || 'A' <= c <= 'Z'
  }

  predicate IsAsciiDigit(c: char) {
    '0' <= c <= '9'
  }

  /** What the classes contain of ASCII, and how they relate. */
  ghost predicate Standard(u: Unicode) {
    && u.alpha <= u.alnum && u.digit <= u.alnum && BLANKS <= u.space && u.space !! u.alnum
    && (forall c | c in u.alnum && c < '\U{0080}' :: IsAsciiLetter(c) || IsAsciiDigit(c))
    && (forall c | c in u.digit && c < '\U{0080}' :: IsAsciiDigit(c))
    && (forall c | c in u.space && c < '\U{0080}' :: c in BLANKS || '\U{001C}' <= c <= '\U{001F}')
  }

  datatype Kind = WORD | NUMBER | STRING | QUOTED_IDENT | PUNCT | COMMENT | SPACE

  datatype Piece = Piece(kind: Kind, text: string)

  // ------------------------------------------------------------ scanners

  /** The longest prefix within a class. */
  function Run(class_: set<char>, s: string): (n: nat)
    ensures n <= |s|
  {
    if s != [] && s[0] in class_ then 1 + Run(class_, s[1..]) else 0
  }

  lemma {:induction false} RunIsLongest(class_: set<char>, s: string)
    ensures var n := Run(class_, s);
            (forall i | 0 <= i < n :: s[i] in class_) && (n < |s| ==> s[n] !in class_)
  {
    if s != [] && s[0] in class_ {
      RunIsLongest(class_, s[1..]);
    }
  }

  /** The first occurrence. */
  function Find(pattern: string, s: string): (r: Option<nat>)
    ensures r.Some? ==> r.value + |pattern| <= |s|
  {
    if pattern <= s then Some(0)
    else if s == [] then None
    else Shift(1, Find(pattern, s[1..]))
  }

  lemma {:induction false} FindIsFirst(pattern: string, s: string)
    ensures var r := Find(pattern, s);
            && (r.Some? ==> pattern <= s[r.value..] && forall j | 0 <= j < r.value :: !(pattern <= s[j..]))
            && (r.None? ==> forall j | 0 <= j <= |s| :: !(pattern <= s[j..]))
  {
    if !(pattern <= s) && s != [] {
      FindIsFirst(pattern, s[1..]);
      assert forall j | 1 <= j <= |s| :: s[j..] == s[1..][j - 1..];
    }
  }

  /** Past the closing quote of a literal whose opening quote is already behind;
      a doubled quote is content. */
  function PlainEnd(quote: char, s: string): (r: Option<nat>)
    ensures r.Some? ==> 1 <= r.value <= |s|
  {
    if s == [] then None
    else if s[0] != quote then Shift(1, PlainEnd(quote, s[1..]))
    else if |s| > 1 && s[1] == quote then Shift(2, PlainEnd(quote, s[2..]))
    else Some(1)
  }

  function Shift(n: nat, r: Option<nat>): Option<nat> {
    if r.Some? then Some(n + r.value) else None
  }

  /** The length of an exponent at the start; without digits it is none. */
  function Exponent(u: Unicode, s: string): (n: nat)
    ensures n <= |s|
  {
    if s != [] && s[0] in {'e', 'E'} then
      var probe := if |s| > 1 && s[1] in {'+', '-'} then 2 else 1;
      if probe < |s| && s[probe] in u.digit then probe + Run(u.digit, s[probe..]) else 0
    else 0
  }

  function NumberEnd(u: Unicode, s: string): (n: nat)
    ensures n <= |s|
    ensures s != [] && (s[0] in u.digit || s[0] == '.') ==> n > 0
  {
    var n := Run(u.digit + {'.'}, s);
    n + Exponent(u, s[n..])
  }

  const TAG_START: set<char> := (set c: char | 'a' <= c <= 'z') + (set c: char | 'A' <= c <= 'Z') + {'_'}
  const TAG_PART: set<char> := TAG_START + (set c: char | '0' <= c <= '9')

  /** The length of a dollar-quoting tag at the start. */
  function DollarTag(s: string): (r: Option<nat>)
    requires s != [] && s[0] == '$'
    ensures r.Some? ==> 2 <= r.value <= |s|
  {
    var n := if |s| > 1 && s[1] in TAG_START then 1 + Run(TAG_PART, s[1..]) else 1;
    if n < |s| && s[n] == '$' then Some(n + 1) else None
  }

  /** How many characters open an N'..', Q'..' or NQ'..' literal, quote included. */
  function PrefixLength(s: string): (n: nat)
    ensures n <= |s|
    ensures n > 0 ==> n >= 2
  {
    if |s| >= 3 && s[0] in {'n', 'N'} && s[1] in {'q', 'Q'} && s[2] == '\'' then 3
    else if |s| >= 2 && s[0] in {'q', 'Q', 'n', 'N'} && s[1] == '\'' then 2
    else 0
  }

  function Closer(opener: char): char {
    match opener
    case '[' => ']'
    case '{' => '}'
    case '(' => ')'
    case '<' => '>'
    case _ => opener
  }

  /** Past an alternative-quoted literal whose delimiter comes first. */
  function AltEnd(s: string): (r: Option<nat>)
    ensures r.Some? ==> 3 <= r.value <= |s|
  {
    if s == [] || s[0] in {' ', '\t', '\r', '\n'} then None
    else Shift(3, Find([Closer(s[0]), '\''], s[1..]))
  }

  /** Past a prefixed literal whose prefix has `n` characters. */
  function PrefixedEnd(s: string, n: nat): (r: Option<nat>)
    requires n == PrefixLength(s) > 0
    ensures r.Some? ==> n < r.value <= |s|
  {
    if n == 2 && s[0] in {'n', 'N'} then Shift(n, PlainEnd('\'', s[n..])) else Shift(n, AltEnd(s[n..]))
  }

  predicate IsIdentStart(u: Unicode, c: char) {
    c in u.alpha || c in {'_', '$', '#', ':'}
  }

  function IdentPart(u: Unicode): set<char> {
    u.alnum + {'_', '$', '#'}
  }

  function Cut(kind: Kind, s: string, end: Option<nat>): (r: Option<Piece>)
    requires end.Some? ==> 0 < end.value <= |s|
    ensures r.Some? <==> end.Some?
    ensures r.Some? ==> r.value == Piece(kind, s[..end.value])
  {
    if end.Some? then Some(Piece(kind, s[..end.value])) else None
  }

  /** The piece at the start of a text, or nothing if it never ends. */
  function Head(u: Unicode, s: string): (r: Option<Piece>)
    requires s != []
    ensures r.Some? ==> r.value.text <= s && r.value.text != []
  {
    if s[0] in BLANKS then Cut(SPACE, s, Some(1))
    else if "--" <= s then
      var end := Find("\n", s);
      Cut(COMMENT, s, Some(if end.Some? then end.value else |s|))
    else if "/*" <= s then Cut(COMMENT, s, Shift(4, Find("*/", s[2..])))
    else if s[0] == '"' then Cut(QUOTED_IDENT, s, Shift(2, Find("\"", s[1..])))
    else if s[0] == '\'' then Cut(STRING, s, Shift(1, PlainEnd('\'', s[1..])))
    else if s[0] == '$' && DollarTag(s).Some? then
      var n := DollarTag(s).value;
      Cut(STRING, s, Shift(2 * n, Find(s[..n], s[n..])))
    else if PrefixLength(s) > 0 then Cut(STRING, s, PrefixedEnd(s, PrefixLength(s)))
    else if s[0] in u.digit || (s[0] == '.' && |s| > 1 && s[1] in u.digit) then Cut(NUMBER, s, Some(NumberEnd(u, s)))
    else if IsIdentStart(u, s[0]) then Cut(WORD, s, Some(1 + Run(IdentPart(u), s[1..])))
    else Cut(PUNCT, s, Some(1))
  }

  /** A skipped character is a piece of its own. */
  lemma {:induction false} HeadSkips(u: Unicode, s: string)
    requires s != [] && Head(u, s).Some?
    ensures Head(u, s).value.kind.SPACE? <==> s[0] in BLANKS
    ensures s[0] in BLANKS ==> Head(u, s).value.text == [s[0]]
  {
  }

  function Concat(ps: seq<Piece>): string {
    if ps == [] then [] else ps[0].text + Concat(ps[1..])
  }

  /** All the pieces of a text, in order and without loss; nothing if one of them
      never ends. */
  function Lex(u: Unicode, s: string): (r: Option<seq<Piece>>)
    ensures r.Some? ==> Concat(r.value) == s
    decreases |s|
  {
    if s == [] then Some([])
    else
      var p := Head(u, s);
      if p.None? then None
      else
        var rest := Lex(u, s[|p.value.text|..]);
        if rest.None? then None
        else
          assert ([p.value] + rest.value)[1..] == rest.value;
          Some([p.value] + rest.value)
  }

  // -------------------------------------------------------------- tokens

  datatype Token = Token(kind: Kind, text: string, start: nat, end: nat)

  /** The pieces that are tokens, each with its place. */
  function Placed(start: nat, ps: seq<Piece>): seq<Token>
    decreases ps
  {
    if ps == [] then []
    else
      var end := start + |ps[0].text|;
      (if ps[0].kind.SPACE? then [] else [Token(ps[0].kind, ps[0].text, start, end)]) + Placed(end, ps[1..])
  }

  /** Tokens from `start` on: ordered, disjoint, non-empty, with exact text, and
      only skipped whitespace before, between and after them. */
  ghost predicate Partitions(s: string, start: nat, tokens: seq<Token>)
    requires start <= |s|
    decreases tokens
  {
    if tokens == [] then forall i | start <= i < |s| :: s[i] in BLANKS
    else
      && start <= tokens[0].start < tokens[0].end <= |s|
      && (forall i | start <= i < tokens[0].start :: s[i] in BLANKS)
      && tokens[0].text == s[tokens[0].start..tokens[0].end]
      && Partitions(s, tokens[0].end, tokens[1..])
  }

  lemma {:induction false} PartitionsFrom(s: string, start: nat, tokens: seq<Token>)
    requires start < |s| && s[start] in BLANKS && Partitions(s, start + 1, tokens)
    ensures Partitions(s, start, tokens)
  {
  }

  /** The placed pieces of a text partition it. */
  lemma {:induction false} LexPartitions(u: Unicode, s: string, start: nat)
    requires start <= |s|
    ensures Lex(u, s[start..]).Some? ==> Partitions(s, start, Placed(start, Lex(u, s[start..]).value))
    decreases |s| - start
  {
    hide Head, Concat, Placed, Partitions;
    var rest := s[start..];
    if rest == [] {
      NoTokens(s);
    } else if Lex(u, rest).Some? {
      var p := Head(u, rest).value;
      HeadSkips(u, rest);
      var end := start + |p.text|;
      assert rest[|p.text|..] == s[end..];
      LexPartitions(u, s, end);
      PartitionsOn(s, start, p, Lex(u, s[end..]).value);
    }
  }

  lemma {:induction false} NoTokens(s: string)
    ensures Partitions(s, |s|, Placed(|s|, []))
  {
  }

  lemma {:induction false} PartitionsOn(s: string, start: nat, p: Piece, tail: seq<Piece>)
    requires start < |s| && p.text <= s[start..] && p.text != []
    requires p.kind.SPACE? ==> |p.text| == 1 && s[start] in BLANKS
    requires Partitions(s, start + |p.text|, Placed(start + |p.text|, tail))
    ensures Partitions(s, start, Placed(start, [p] + tail))
  {
    hide Placed, Partitions;
    var end := start + |p.text|;
    PlacedCons(start, p, tail);
    if p.kind.SPACE? {
      assert [] + Placed(end, tail) == Placed(end, tail);
      PartitionsFrom(s, start, Placed(end, tail));
    } else {
      assert p.text == s[start..][..|p.text|] == s[start..end];
      PartitionsCons(s, start, Token(p.kind, p.text, start, end), Placed(end, tail));
    }
  }

  lemma {:induction false} PlacedCons(start: nat, p: Piece, tail: seq<Piece>)
    ensures Placed(start, [p] + tail)
         == (if p.kind.SPACE? then [] else [Token(p.kind, p.text, start, start + |p.text|)]) + Placed(start + |p.text|, tail)
  {
    assert ([p] + tail)[1..] == tail;
  }

  lemma {:induction false} PartitionsCons(s: string, start: nat, t: Token, rest: seq<Token>)
    requires t.start == start < t.end <= |s| && t.text == s[t.start..t.end] && Partitions(s, t.end, rest)
    ensures Partitions(s, start, [t] + rest)
  {
    assert ([t] + rest)[1..] == rest;
  }

  lemma {:induction false} PlacedSplits(start: nat, a: seq<Piece>, b: seq<Piece>)
    ensures Placed(start, a + b) == Placed(start, a) + Placed(start + |Concat(a)|, b)
    decreases a
  {
    if a == [] {
      assert a + b == b;
    } else {
      assert (a + b)[1..] == a[1..] + b;
      PlacedSplits(start + |a[0].text|, a[1..], b);
    }
  }

  // ---------------------------------------------------- the loops as written

  /** The end of the run of a class that starts at `start`. */
  method SkipRun(class_: set<char>, sql: string, start: nat) returns (index: nat)
    requires start <= |sql|
    ensures index == start + Run(class_, sql[start..])
  {
    index := start;
    while index < |sql| && sql[index] in class_
      invariant start <= index <= |sql|
      invariant Run(class_, sql[start..]) == index - start + Run(class_, sql[index..])
    {
      assert sql[index..][1..] == sql[index + 1..];
      index := index + 1;
    }
  }

  method ScanNumber(u: Unicode, sql: string, start: nat) returns (index: nat)
    requires start <= |sql|
    ensures index == start + NumberEnd(u, sql[start..])
  {
    hide Run;
    index := SkipRun(u.digit + {'.'}, sql, start);
    ghost var s := sql[start..][index - start..];
    assert s == sql[index..];
    if index < |sql| && sql[index] in {'e', 'E'} {
      var probe := index + 1;
      if probe < |sql| && sql[probe] in {'+', '-'} {
        probe := probe + 1;
      }
      if probe < |sql| && sql[probe] in u.digit {
        assert s[probe - index..] == sql[probe..];
        index := SkipRun(u.digit, sql, probe);
      }
    }
  }

  /** Past a literal that opens at `start`. */
  method ScanPlainString(sql: string, start: nat) returns (r: Option<nat>)
    requires start < |sql|
    ensures r == Shift(start + 1, PlainEnd('\'', sql[start + 1..]))
  {
    var index := start + 1;
    while index < |sql|
      invariant start < index
      invariant index <= |sql|
      invariant PlainEnd('\'', sql[start + 1..]) == Shift(index - start - 1, PlainEnd('\'', sql[index..]))
    {
      if sql[index] == '\'' {
        if index + 1 < |sql| && sql[index + 1] == '\'' {
          assert sql[index..][2..] == sql[index + 2..];
          index := index + 2;
          continue;
        }
        return Some(index + 1);
      }
      assert sql[index..][1..] == sql[index + 1..];
      index := index + 1;
    }
    return None;
  }

  /** One turn of the scanning loop: the kind and end of what starts at `index`. */
  method ScanAt(u: Unicode, sql: string, index: nat) returns (r: Option<(Kind, nat)>)
    requires index < |sql|
    ensures var p := Head(u, sql[index..]);
            if p.None? then r.None?
            else r == Some((p.value.kind, index + |p.value.text|))
    ensures r.Some? ==> index < r.value.1 <= |sql|
  {
    var s := sql[index..];
    var ch := sql[index];
    var kind, end := PUNCT, Some(index + 1);
    if ch in BLANKS {
      kind := SPACE;
    } else if "--" <= s {
      var newline := Find("\n", s);
      kind, end := COMMENT, Some(if newline.Some? then index + newline.value else |sql|);
    } else if "/*" <= s {
      kind, end := COMMENT, Shift(index + 4, Find("*/", s[2..]));
    } else if ch == '"' {
      kind, end := QUOTED_IDENT, Shift(index + 2, Find("\"", s[1..]));
    } else if ch == '\'' {
      assert sql[index + 1..] == s[1..];
      kind := STRING;
      end := ScanPlainString(sql, index);
    } else if ch == '$' && DollarTag(s).Some? {
      var n := DollarTag(s).value;
      kind, end := STRING, Shift(index + 2 * n, Find(s[..n], s[n..]));
    } else if PrefixLength(s) > 0 {
      kind, end := STRING, Shift(index, PrefixedEnd(s, PrefixLength(s)));
    } else if ch in u.digit || (ch == '.' && index + 1 < |sql| && sql[index + 1] in u.digit) {
      kind := NUMBER;
      var stop := ScanNumber(u, sql, index);
      end := Some(stop);
    } else if IsIdentStart(u, ch) {
      assert sql[index + 1..] == s[1..];
      kind := WORD;
      var stop := SkipRun(IdentPart(u), sql, index + 1);
      end := Some(stop);
    }
    r := if end.Some? then Some((kind, end.value)) else None;
  }

  lemma {:induction false} NothingToScan(u: Unicode)
    ensures Lex(u, []) == Some([]) && Placed(0, []) == [] && Concat([]) == []
  {
  }

  lemma {:induction false} NothingBehind(u: Unicode, s: string)
    requires s != [] && Head(u, s).None?
    ensures Lex(u, s).None?
  {
  }

  /** One more piece: the pieces so far and the tokens so far grow together. */
  lemma {:induction false} StepsOn(u: Unicode, sql: string, index: nat, seen: seq<Piece>)
    requires index < |sql| && Head(u, sql[index..]).Some? && Concat(seen) == sql[..index]
    ensures var p := Head(u, sql[index..]).value;
            var end := index + |p.text|;
            && p.text == sql[index..end] && Concat(seen + [p]) == sql[..end]
            && Placed(0, seen + [p]) == Placed(0, seen) + (if p.kind.SPACE? then [] else [Token(p.kind, p.text, index, end)])
            && (Lex(u, sql[index..]).Some? <==> Lex(u, sql[end..]).Some?)
            && (Lex(u, sql[index..]).Some? ==> Lex(u, sql[index..]).value == [p] + Lex(u, sql[end..]).value)
  {
    hide Head;
    var p := Head(u, sql[index..]).value;
    var end := index + |p.text|;
    assert sql[index..][|p.text|..] == sql[end..];
    PlacedSplits(0, seen, [p]);
    ConcatSplits(seen, [p]);
    assert [p][1..] == [];
    assert Concat([p]) == p.text + Concat([]);
    assert Placed(index, [p]) == (if p.kind.SPACE? then [] else [Token(p.kind, p.text, index, end)]) + Placed(end, []);
  }

  /** Split a text into tokens; nothing when something in it never ends. */
  method Tokenize(u: Unicode, sql: string) returns (r: Option<seq<Token>>)
    ensures r.Some? <==> Lex(u, sql).Some?
    ensures r.Some? ==> r.value == Placed(0, Lex(u, sql).value)
    ensures r.Some? ==> Partitions(sql, 0, r.value)
  {
    hide Head, Lex, Placed, Concat, Partitions;
    var tokens: seq<Token> := [];
    var index := 0;
    ghost var seen: seq<Piece> := [];
    assert sql[0..] == sql;
    NothingToScan(u);
    while index < |sql|
      invariant index <= |sql|
      invariant Concat(seen) == sql[..index] && tokens == Placed(0, seen)
      invariant Lex(u, sql[index..]).Some? <==> Lex(u, sql).Some?
      invariant Lex(u, sql).Some? ==> Lex(u, sql).value == seen + Lex(u, sql[index..]).value
    {
      ghost var p := Head(u, sql[index..]);
      var next := ScanAt(u, sql, index);
      if next.None? {
        NothingBehind(u, sql[index..]);
        return None;
      }
      var (kind, end) := next.value;
      StepsOn(u, sql, index, seen);
      assert Lex(u, sql).Some? ==> seen + ([p.value] + Lex(u, sql[end..]).value) == seen + [p.value] + Lex(u, sql[end..]).value;
      if !kind.SPACE? {
        tokens := tokens + [Token(kind, sql[index..end], index, end)];
      }
      seen := seen + [p.value];
      index := end;
    }
    assert seen + [] == seen && sql[index..] == [];
    LexPartitions(u, sql, 0);
    return Some(tokens);
  }

  lemma {:induction false} ConcatSplits(a: seq<Piece>, b: seq<Piece>)
    ensures Concat(a + b) == Concat(a) + Concat(b)
  {
    if a == [] {
      assert a + b == b;
    } else {
      assert (a + b)[1..] == a[1..] + b;
      ConcatSplits(a[1..], b);
    }
  }

  // ------------------------------------------------------------ literals

  /** The text of a literal that denotes `v`, without its opening quote. */
  function Quoted(quote: char, v: string): string {
    if v == [] then [quote]
    else (if v[0] == quote then [quote, quote] else [v[0]]) + Quoted(quote, v[1..])
  }

  lemma {:induction false} ContentIsScanned(quote: char, c: char, s: string)
    ensures c != quote ==> PlainEnd(quote, [c] + s) == Shift(1, PlainEnd(quote, s))
    ensures PlainEnd(quote, [quote, quote] + s) == Shift(2, PlainEnd(quote, s))
    ensures s == [] || s[0] != quote ==> PlainEnd(quote, [quote] + s) == Some(1)
  {
    assert ([c] + s)[1..] == s && ([quote, quote] + s)[2..] == s;
  }

  /** Every value has a literal, and the scanner ends exactly behind it. */
  lemma {:induction false} LiteralIsScannedWhole(quote: char, v: string, rest: string)
    requires rest == [] || rest[0] != quote
    ensures PlainEnd(quote, Quoted(quote, v) + rest) == Some(|Quoted(quote, v)|)
  {
    hide PlainEnd;
    if v == [] {
      ContentIsScanned(quote, quote, rest);
    } else {
      LiteralIsScannedWhole(quote, v[1..], rest);
      var inner := Quoted(quote, v[1..]);
      ContentIsScanned(quote, v[0], inner + rest);
      var first := if v[0] == quote then [quote, quote] else [v[0]];
      assert Quoted(quote, v) == first + inner;
      assert first + inner + rest == first + (inner + rest);
    }
  }

  /** And whatever the scanner takes for a literal is one. */
  lemma {:induction false} ScannedIsALiteral(quote: char, s: string) returns (v: string)
    requires PlainEnd(quote, s).Some?
    ensures s[..PlainEnd(quote, s).value] == Quoted(quote, v)
    decreases |s|
  {
    var n := PlainEnd(quote, s).value;
    if s[0] != quote {
      var w := ScannedIsALiteral(quote, s[1..]);
      v := [s[0]] + w;
      assert s[..n] == [s[0]] + s[1..][..n - 1] && v[1..] == w;
    } else if |s| > 1 && s[1] == quote {
      var w := ScannedIsALiteral(quote, s[2..]);
      v := [quote] + w;
      assert s[..n] == [quote, quote] + s[2..][..n - 2] && v[1..] == w;
    } else {
      v := [];
    }
  }

  // ------------------------------------------------------------ locality

  /** Text that cannot continue a token before it. */
  predicate Boundary(u: Unicode, s: string) {
    s == [] || s[0] in u.space || s[0] == ';' || "--" <= s || "/*" <= s
  }

  lemma {:induction false} RunLocal(class_: set<char>, x: string, y: string, z: string)
    requires Run(class_, x + y) <= |x|
    requires z == [] || z[0] !in class_
    ensures Run(class_, x + z) == Run(class_, x + y)
  {
    if x == [] {
      assert x + z == z;
    } else {
      assert (x + y)[1..] == x[1..] + y && (x + z)[1..] == x[1..] + z;
      if x[0] in class_ {
        RunLocal(class_, x[1..], y, z);
      }
    }
  }

  lemma {:induction false} FindLocal(pattern: string, x: string, y: string, z: string)
    requires Find(pattern, x + y).Some? && Find(pattern, x + y).value + |pattern| <= |x|
    ensures Find(pattern, x + z) == Find(pattern, x + y)
  {
    if pattern <= x + y {
      assert pattern == (x + y)[..|pattern|] == x[..|pattern|] == (x + z)[..|pattern|];
    } else {
      assert (x + y)[1..] == x[1..] + y && (x + z)[1..] == x[1..] + z;
      assert (x + y)[..|pattern|] == x[..|pattern|] == (x + z)[..|pattern|];
      FindLocal(pattern, x[1..], y, z);
    }
  }

  lemma {:induction false} PlainLocal(quote: char, x: string, y: string, z: string)
    requires PlainEnd(quote, x + y).Some? && PlainEnd(quote, x + y).value <= |x|
    requires z == [] || z[0] != quote
    ensures PlainEnd(quote, x + z) == PlainEnd(quote, x + y)
    decreases |x|
  {
    assert (x + y)[1..] == x[1..] + y && (x + z)[1..] == x[1..] + z;
    if x[0] != quote {
      PlainLocal(quote, x[1..], y, z);
    } else if |x + y| > 1 && (x + y)[1] == quote {
      assert (x + y)[2..] == x[2..] + y && (x + z)[2..] == x[2..] + z;
      PlainLocal(quote, x[2..], y, z);
    }
  }

  lemma {:induction false} NumberLocal(u: Unicode, x: string, y: string, z: string)
    requires Standard(u) && Boundary(u, y) && Boundary(u, z)
    ensures NumberEnd(u, x + z) == NumberEnd(u, x + y) <= |x|
  {
    hide Run, Exponent, Boundary, Standard;
    var class_ := u.digit + {'.'};
    BoundaryIsInert(u, y);
    BoundaryIsInert(u, z);
    RunWithin(class_, x, y);
    RunLocal(class_, x, y, z);
    var n := Run(class_, x + y);
    assert (x + y)[n..] == x[n..] + y && (x + z)[n..] == x[n..] + z;
    ExponentLocal(u, x[n..], y, z);
  }

  lemma {:induction false} ExponentLocal(u: Unicode, x: string, y: string, z: string)
    requires Standard(u) && Boundary(u, y) && Boundary(u, z)
    ensures Exponent(u, x + z) == Exponent(u, x + y) <= |x|
  {
    hide Run, Boundary, Standard;
    BoundaryIsInert(u, y);
    BoundaryIsInert(u, z);
    if x != [] && x[0] in {'e', 'E'} {
      var probe := if |x| > 1 && x[1] in {'+', '-'} then 2 else 1;
      if probe < |x| && x[probe] in u.digit {
        assert (x + y)[probe..] == x[probe..] + y && (x + z)[probe..] == x[probe..] + z;
        RunWithin(u.digit, x[probe..], y);
        RunLocal(u.digit, x[probe..], y, z);
      }
    }
  }

  /** Characters with a meaning of their own to the scanner. */
  const SPECIALS: set<char> :=
    {'-', '/', '"', '\'', '$', '.', '_', '#', ':', '*', ';', '@', '+', '(', ')', 'n', 'N', 'q', 'Q', 'e', 'E', '\0'}

  /** No whitespace is part of a word or a number, or means anything else. */
  lemma {:induction false} SpaceIsInert(u: Unicode)
    requires Standard(u)
    ensures forall c | c in u.space :: c !in u.digit && c !in u.alpha && c !in u.alnum && c !in IdentPart(u) && c !in SPECIALS && c !in TAG_PART
    ensures ';' !in u.digit && ';' !in u.alpha && ';' !in u.alnum && ';' !in IdentPart(u)
    ensures '-' !in u.alnum && '-' !in u.digit
  {
    forall c | c in u.space ensures c !in SPECIALS && c !in TAG_PART {
      if c < '\U{0080}' {
        assert c in BLANKS || '\U{001C}' <= c <= '\U{001F}';
      }
    }
  }

  /** What a boundary starts with continues no token. */
  lemma {:induction false} BoundaryIsInert(u: Unicode, s: string)
    requires Standard(u) && Boundary(u, s)
    ensures s != [] ==> s[0] !in u.alnum && s[0] !in u.digit && s[0] !in IdentPart(u) && s[0] !in TAG_PART
    ensures s != [] ==> s[0] !in SPECIALS - {'-', '/', ';'}
    ensures |s| > 1 && s[0] == '-' ==> s[1] == '-'
    ensures |s| > 0 && s[0] == '-' ==> |s| > 1
    ensures '-' !in u.alnum && '-' !in u.digit
  {
    SpaceIsInert(u);
    if s != [] && s[0] !in u.space && s[0] != ';' {
      assert s[0] == "--"[0] || s[0] == "/*"[0];
      assert s[0] in {'-', '/'};
    }
  }

  lemma {:induction false} DollarLocal(u: Unicode, x: string, y: string, z: string)
    requires Standard(u) && Boundary(u, y) && Boundary(u, z) && x != [] && x[0] == '$'
    ensures DollarTag(x + y) == DollarTag(x + z)
  {
    hide Standard, Boundary, Run;
    BoundaryIsInert(u, y);
    BoundaryIsInert(u, z);
    if |x| > 1 && x[1] in TAG_START {
      assert (x + y)[1..] == x[1..] + y && (x + z)[1..] == x[1..] + z;
      RunWithin(TAG_PART, x[1..], y);
      RunLocal(TAG_PART, x[1..], y, z);
    }
  }

  lemma {:induction false} RunWithin(class_: set<char>, x: string, y: string)
    requires y == [] || y[0] !in class_
    ensures Run(class_, x + y) <= |x|
  {
    RunIsLongest(class_, x + y);
    assert y != [] ==> (x + y)[|x|] !in class_;
  }

  /** A piece that ends inside `x` is found there whatever boundary follows --
      except that a `-` would join a following `-`, and that a line comment
      running up to the end of `x` may run further. */
  lemma {:induction false} HeadIsLocal(u: Unicode, x: string, y: string, z: string)
    requires Standard(u) && Boundary(u, y) && Boundary(u, z) && x != []
    requires Head(u, x + y).Some? && |Head(u, x + y).value.text| <= |x|
    requires !(x == "-" && z != [] && z[0] == '-')
    requires "--" <= x && z != [] ==> |Head(u, x + y).value.text| < |x|
    ensures Head(u, x + z) == Head(u, x + y)
  {
    hide Find, PlainEnd, Run, NumberEnd, DollarTag, PrefixLength, PrefixedEnd, Standard;
    var p := Head(u, x + y).value;
    var n := |p.text|;
    assert (x + y)[..n] == x[..n] == (x + z)[..n];
    if x[0] in BLANKS {
    } else if "--" <= x {
      LineCommentLocal(u, x, y, z);
    } else if "/*" <= x {
      assert "/*" <= x + y && "/*" <= x + z && !("--" <= x + y) && !("--" <= x + z);
      assert (x + y)[2..] == x[2..] + y && (x + z)[2..] == x[2..] + z;
      FindLocal("*/", x[2..], y, z);
    } else {
      assert !("--" <= x + y) && !("--" <= x + z) && !("/*" <= x + y) && !("/*" <= x + z) by {
        if "--" <= x + y {
          CommentHasItsMarker(x + y);
        }
        StartLocal(u, x, y, z, n);
      }
      PlainHeadLocal(u, x, y, z);
    }
  }

  lemma {:induction false} CommentHasItsMarker(s: string)
    requires "--" <= s
    ensures Find("\n", s).Some? ==> Find("\n", s).value >= 2
  {
    assert s[0] == "--"[0] && s[1..][0] == "--"[1];
    assert "\n"[0] != s[0] && !("\n" <= s);
    assert "\n"[0] != s[1..][0] && !("\n" <= s[1..]);
  }

  lemma {:induction false} StartLocal(u: Unicode, x: string, y: string, z: string, n: nat)
    requires Standard(u) && Boundary(u, y) && Boundary(u, z) && x != [] && !("--" <= x) && !("/*" <= x)
    requires !(x == "-" && z != [] && z[0] == '-')
    requires 1 <= n <= |x| && ("--" <= x + y ==> n >= 2)
    ensures !("--" <= x + y) && !("--" <= x + z) && !("/*" <= x + y) && !("/*" <= x + z)
  {
    hide Standard, Boundary;
    BoundaryIsInert(u, y);
    BoundaryIsInert(u, z);
    if |x| >= 2 {
      assert (x + y)[..2] == x[..2] == (x + z)[..2];
    } else {
      assert (x + y)[..1] == x == (x + z)[..1];
    }
  }

  lemma {:induction false} LineCommentLocal(u: Unicode, x: string, y: string, z: string)
    requires "--" <= x && |Head(u, x + y).value.text| <= |x|
    requires z != [] ==> |Head(u, x + y).value.text| < |x|
    ensures Head(u, x + y).Some? && Head(u, x + z) == Head(u, x + y)
  {
    assert "--" <= x + y && "--" <= x + z;
    var end := Find("\n", x + y);
    if end.Some? && end.value < |x| {
      FindLocal("\n", x, y, z);
      assert (x + y)[..end.value] == x[..end.value] == (x + z)[..end.value];
    } else {
      assert z == [] && x + z == x;
      assert end.Some? ==> end.value == |x|;
      var found := Find("\n", x);
      assert x + [] == x;
      if found.Some? {
        FindLocal("\n", x, [], y);
      }
      assert (x + y)[..|x|] == x[..|x|];
    }
  }

  lemma {:induction false} PlainHeadLocal(u: Unicode, x: string, y: string, z: string)
    requires Standard(u) && Boundary(u, y) && Boundary(u, z) && x != [] && x[0] !in BLANKS
    requires !("--" <= x + y) && !("--" <= x + z) && !("/*" <= x + y) && !("/*" <= x + z)
    requires Head(u, x + y).Some? && |Head(u, x + y).value.text| <= |x|
    ensures Head(u, x + z) == Head(u, x + y)
  {
    hide Find, PlainEnd, Run, NumberEnd, DollarTag, PrefixLength, PrefixedEnd, Boundary, Standard;
    var n := |Head(u, x + y).value.text|;
    assert (x + y)[..n] == x[..n] == (x + z)[..n];
    assert (x + y)[1..] == x[1..] + y && (x + z)[1..] == x[1..] + z;
    BoundaryIsInert(u, z);
    if x[0] == '"' {
      FindLocal("\"", x[1..], y, z);
    } else if x[0] == '\'' {
      PlainLocal('\'', x[1..], y, z);
    } else if x[0] == '$' && DollarTag(x + y).Some? {
      DollarQuoteLocal(u, x, y, z);
    } else {
      if x[0] == '$' {
        DollarLocal(u, x, y, z);
      }
      BareHeadLocal(u, x, y, z);
    }
  }

  /** The pieces that open with no quote of their own. */
  lemma {:induction false} BareHeadLocal(u: Unicode, x: string, y: string, z: string)
    requires Standard(u) && Boundary(u, y) && Boundary(u, z) && x != [] && x[0] !in BLANKS && x[0] !in {'"', '\''}
    requires !("--" <= x + y) && !("--" <= x + z) && !("/*" <= x + y) && !("/*" <= x + z)
    requires x[0] == '$' ==> DollarTag(x + y).None? && DollarTag(x + z).None?
    requires Head(u, x + y).Some? && |Head(u, x + y).value.text| <= |x|
    ensures Head(u, x + z) == Head(u, x + y)
  {
    hide Find, PlainEnd, Run, NumberEnd, DollarTag, PrefixLength, PrefixedEnd, Boundary, Standard;
    var n := |Head(u, x + y).value.text|;
    assert (x + y)[..n] == x[..n] == (x + z)[..n];
    BoundaryIsInert(u, y);
    BoundaryIsInert(u, z);
    PrefixLocal(u, x, y, z);
    if PrefixLength(x + y) > 0 {
      PrefixedLocal(u, x, y, z);
    } else if x[0] in u.digit || (x[0] == '.' && |x| > 1 && x[1] in u.digit) {
      NumberLocal(u, x, y, z);
    } else if IsIdentStart(u, x[0]) {
      assert (x + y)[1..] == x[1..] + y && (x + z)[1..] == x[1..] + z;
      RunWithin(IdentPart(u), x[1..], y);
      RunLocal(IdentPart(u), x[1..], y, z);
    }
  }

  lemma {:induction false} DollarQuoteLocal(u: Unicode, x: string, y: string, z: string)
    requires Standard(u) && Boundary(u, y) && Boundary(u, z) && x != [] && x[0] == '$' && DollarTag(x + y).Some?
    requires Head(u, x + y).Some? && |Head(u, x + y).value.text| <= |x|
    ensures Head(u, x + z) == Head(u, x + y)
  {
    hide Find, DollarTag, Boundary;
    DollarLocal(u, x, y, z);
    var k := DollarTag(x + y).value;
    var n := |Head(u, x + y).value.text|;
    assert (x + y)[..n] == x[..n] == (x + z)[..n];
    assert (x + y)[..k] == x[..k] == (x + z)[..k];
    assert (x + y)[k..] == x[k..] + y && (x + z)[k..] == x[k..] + z;
    FindLocal(x[..k], x[k..], y, z);
  }

  lemma {:induction false} PrefixLocal(u: Unicode, x: string, y: string, z: string)
    requires Standard(u) && Boundary(u, y) && Boundary(u, z) && x != []
    ensures PrefixLength(x + y) == PrefixLength(x + z)
  {
    hide Standard, Boundary;
    BoundaryIsInert(u, y);
    BoundaryIsInert(u, z);
  }

  lemma {:induction false} PrefixedLocal(u: Unicode, x: string, y: string, z: string)
    requires Standard(u) && Boundary(u, y) && Boundary(u, z) && x != []
    requires PrefixLength(x + y) == PrefixLength(x + z) > 0
    requires PrefixedEnd(x + y, PrefixLength(x + y)).Some? && PrefixedEnd(x + y, PrefixLength(x + y)).value <= |x|
    ensures PrefixedEnd(x + z, PrefixLength(x + z)) == PrefixedEnd(x + y, PrefixLength(x + y))
  {
    hide Standard, Boundary, Find, PlainEnd;
    BoundaryIsInert(u, y);
    BoundaryIsInert(u, z);
    var n := PrefixLength(x + y);
    assert (x + y)[n..] == x[n..] + y && (x + z)[n..] == x[n..] + z;
    if n == 2 && x[0] in {'n', 'N'} {
      PlainLocal('\'', x[n..], y, z);
    } else {
      var b := x[n..];
      assert (b + y)[1..] == b[1..] + y && (b + z)[1..] == b[1..] + z;
      FindLocal([Closer(b[0]), '\''], b[1..], y, z);
    }
  }

  // -------------------------------------------------------- how pieces end

  lemma {:induction false} PlainEndsInQuote(quote: char, s: string)
    requires PlainEnd(quote, s).Some?
    ensures s[PlainEnd(quote, s).value - 1] == quote
    decreases |s|
  {
    if s[0] != quote {
      PlainEndsInQuote(quote, s[1..]);
    } else if |s| > 1 && s[1] == quote {
      PlainEndsInQuote(quote, s[2..]);
    }
  }

  lemma {:induction false} FoundEndsAlike(pattern: string, s: string)
    requires pattern != [] && Find(pattern, s).Some?
    ensures s[Find(pattern, s).value + |pattern| - 1] == pattern[|pattern| - 1]
  {
    FindIsFirst(pattern, s);
    var k := Find(pattern, s).value;
    assert s[k..][|pattern| - 1] == pattern[|pattern| - 1];
  }

  lemma {:induction false} PrefixedEndsInQuote(s: string)
    requires PrefixLength(s) > 0 && PrefixedEnd(s, PrefixLength(s)).Some?
    ensures s[PrefixedEnd(s, PrefixLength(s)).value - 1] == '\''
  {
    hide Find, PlainEnd;
    var n := PrefixLength(s);
    var body := s[n..];
    if n == 2 && s[0] in {'n', 'N'} {
      PlainEndsInQuote('\'', body);
    } else {
      FoundEndsAlike([Closer(body[0]), '\''], body[1..]);
    }
  }

  lemma {:induction false} NumberEndsInDigit(u: Unicode, s: string)
    requires NumberEnd(u, s) > 0
    ensures s[NumberEnd(u, s) - 1] in u.digit || s[NumberEnd(u, s) - 1] == '.'
  {
    hide Run;
    var n := Run(u.digit + {'.'}, s);
    RunIsLongest(u.digit + {'.'}, s);
    var e := s[n..];
    if Exponent(u, e) > 0 {
      var probe := if |e| > 1 && e[1] in {'+', '-'} then 2 else 1;
      RunIsLongest(u.digit, e[probe..]);
      OneMore(u.digit, e[probe..]);
      assert e[probe..][Run(u.digit, e[probe..]) - 1] == s[NumberEnd(u, s) - 1];
    }
  }

  lemma {:induction false} OneMore(class_: set<char>, s: string)
    requires s != [] && s[0] in class_
    ensures Run(class_, s) > 0
  {
  }

  /** No token but a line comment ends in a skipped character. */
  lemma {:induction false} EndOfPiece(u: Unicode, s: string)
    requires Standard(u) && s != [] && Head(u, s).Some? && s[0] !in u.space && !("--" <= s)
    ensures var text := Head(u, s).value.text; text[|text| - 1] !in u.space
  {
    hide Find, PlainEnd, Run, NumberEnd, PrefixLength, PrefixedEnd, Standard;
    SpaceIsInert(u);
    assert s[0] !in BLANKS by {
      BlankIsSpace(u);
    }
    var n := |Head(u, s).value.text|;
    if "/*" <= s {
      FoundEndsAlike("*/", s[2..]);
    } else if s[0] == '"' {
      FoundEndsAlike("\"", s[1..]);
    } else if s[0] == '\'' {
      PlainEndsInQuote('\'', s[1..]);
    } else if s[0] == '$' && DollarTag(s).Some? {
      FoundEndsAlike(s[..DollarTag(s).value], s[DollarTag(s).value..]);
    } else if PrefixLength(s) > 0 {
      PrefixedEndsInQuote(s);
    } else if s[0] in u.digit || (s[0] == '.' && |s| > 1 && s[1] in u.digit) {
      NumberEndsInDigit(u, s);
    } else if IsIdentStart(u, s[0]) {
      RunIsLongest(IdentPart(u), s[1..]);
      assert n > 1 ==> s[n - 1] == s[1..][n - 2];
    }
  }

  lemma {:induction false} BlankIsSpace(u: Unicode)
    requires Standard(u)
    ensures BLANKS <= u.space
  {
  }
}
