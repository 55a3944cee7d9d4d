/** Every lexical form is scanned to its own end, whatever follows it. */
module ScanLaws {
  import opened Model
  import opened SqlText

  /** The pattern does not occur before the end of `body`. */
  ghost predicate EndsOnlyBehind(body: string, pattern: string) {
    forall j | 0 <= j < |body| :: !(pattern <= (body + pattern)[j..])
  }

  lemma {:induction false} FoundAtItsEnd(body: string, pattern: string, rest: string)
    requires pattern != [] && EndsOnlyBehind(body, pattern)
    ensures Find(pattern, body + pattern + rest) == Some(|body|)
  {
    var s := body + pattern + rest;
    if body == [] {
      assert s == pattern + rest;
    } else {
      assert !(pattern <= (body + pattern)[0..]);
      assert (body + pattern)[0..] == body + pattern && s[..|body + pattern|] == body + pattern;
      assert s[..|pattern|] == (body + pattern)[..|pattern|];
      var shorter := body[1..];
      assert s[1..] == shorter + pattern + rest;
      forall j | 0 <= j < |shorter| ensures !(pattern <= (shorter + pattern)[j..]) {
        assert (shorter + pattern)[j..] == (body + pattern)[j + 1..];
      }
      FoundAtItsEnd(shorter, pattern, rest);
    }
  }

  lemma {:induction false} RunsOver(class_: set<char>, w: string, rest: string)
    requires (forall i | 0 <= i < |w| :: w[i] in class_) && (rest == [] || rest[0] !in class_)
    ensures Run(class_, w + rest) == |w|
  {
    if w == [] {
      assert w + rest == rest;
    } else {
      assert (w + rest)[1..] == w[1..] + rest;
      RunsOver(class_, w[1..], rest);
    }
  }

  /** A quoted identifier ends at its first double quote. */
  lemma {:induction false} QuotedIdentifier(u: Unicode, body: string, rest: string)
    requires '"' !in body
    ensures Head(u, "\"" + body + "\"" + rest) == Some(Piece(QUOTED_IDENT, "\"" + body + "\""))
  {
    var s := "\"" + body + "\"" + rest;
    assert s[1..] == body + "\"" + rest;
    forall j | 0 <= j < |body| ensures !("\"" <= (body + "\"")[j..]) {
      assert (body + "\"")[j..][0] == body[j];
    }
    FoundAtItsEnd(body, "\"", rest);
    assert s[0] == '"' && s[..|body| + 2] == "\"" + body + "\"";
    assert "--"[0] == '-' && "/*"[0] == '/';
  }

  /** A comment between slash-star and the first star-slash. */
  lemma {:induction false} BlockComment(u: Unicode, body: string, rest: string)
    requires EndsOnlyBehind(body, "*/")
    ensures Head(u, "/*" + body + "*/" + rest) == Some(Piece(COMMENT, "/*" + body + "*/"))
  {
    var s := "/*" + body + "*/" + rest;
    assert s[2..] == body + "*/" + rest;
    FoundAtItsEnd(body, "*/", rest);
    assert s[0] == '/' && s[..|body| + 4] == "/*" + body + "*/";
    assert "--"[0] == '-' && "/*" <= s;
  }

  /** A comment up to the end of its line, which does not belong to it. */
  lemma {:induction false} LineComment(u: Unicode, body: string, rest: string)
    requires '\n' !in body && (rest == [] || rest[0] == '\n')
    ensures Head(u, "--" + body + rest) == Some(Piece(COMMENT, "--" + body))
  {
    var s, text := "--" + body + rest, "--" + body;
    assert s[0] == '-' && "--" <= s && s[..|text|] == text;
    FindIsFirst("\n", s);
    var found := Find("\n", s);
    forall j | 0 <= j < |text| ensures !("\n" <= s[j..]) {
      assert s[j..][0] == text[j] && "\n"[0] == '\n';
    }
    if rest != [] {
      assert s[|text|..] == rest && "\n" <= s[|text|..];
    }
  }

  /** A dollar-quoted literal ends at its own tag, with a name or without. */
  lemma {:induction false} DollarQuoted(u: Unicode, tag: string, body: string, rest: string)
    requires tag == [] || (tag[0] in TAG_START && forall i | 0 <= i < |tag| :: tag[i] in TAG_PART)
    requires EndsOnlyBehind(body, "$" + tag + "$")
    ensures var d := "$" + tag + "$"; Head(u, d + body + d + rest) == Some(Piece(STRING, d + body + d))
  {
    var d := "$" + tag + "$";
    var s := d + body + d + rest;
    TagLength(tag, body + d + rest);
    assert s == d + (body + d + rest);
    FoundAtItsEnd(body, d, rest);
    assert s[..|d|] == d && s[|d|..] == body + d + rest;
    assert s[..2 * |d| + |body|] == d + body + d;
    assert s[0] == '$' && "--"[0] == '-' && "/*"[0] == '/';
    hide Find, DollarTag;
  }

  lemma {:induction false} TagLength(tag: string, rest: string)
    requires tag == [] || (tag[0] in TAG_START && forall i | 0 <= i < |tag| :: tag[i] in TAG_PART)
    ensures var s := "$" + tag + "$" + rest; s[0] == '$' && DollarTag(s) == Some(|tag| + 2)
  {
    var s := "$" + tag + "$" + rest;
    var after := "$" + rest;
    assert s[1..] == tag + after && after[0] == '$';
    if tag != [] {
      RunsOver(TAG_PART, tag, after);
      assert s[1] == tag[0] && s[|tag| + 1] == '$';
    } else {
      assert s[1] == '$';
    }
  }

  /** What closes an alternative-quoted literal. */
  ghost predicate Brackets(opener: char, closer: char) {
    match opener
    case '[' => closer == ']'
    case '(' => closer == ')'
    case '{' => closer == '}'
    case '<' => closer == '>'
    case _ => closer == opener
  }

  lemma {:induction false} AlternativePrefix(prefix: string, rest: string)
    requires prefix in {"q", "Q", "nq", "nQ", "Nq", "NQ"}
    ensures PrefixLength(prefix + ['\''] + rest) == |prefix| + 1
    ensures |prefix| == 1 ==> prefix[0] !in {'n', 'N'}
    ensures prefix[0] in {'n', 'N', 'q', 'Q'}
  {
    var s := prefix + ['\''] + rest;
    if |prefix| == 1 {
      assert s[0] == prefix[0] && s[1] == '\'';
      assert prefix[0] == "q"[0] || prefix[0] == "Q"[0];
    } else {
      assert s[0] == prefix[0] && s[1] == prefix[1] && s[2] == '\'';
      assert |"q"| == 1 && |"Q"| == 1;
      assert prefix[0] in {'n', 'N'} && prefix[1] in {'q', 'Q'};
    }
  }

  lemma {:induction false} AlternativeEnd(opener: char, closer: char, body: string, rest: string)
    requires opener !in {' ', '\t', '\r', '\n'} && Brackets(opener, closer) && EndsOnlyBehind(body, [closer, '\''])
    ensures AltEnd([opener] + body + [closer, '\''] + rest) == Some(|body| + 3)
  {
    var s := [opener] + body + [closer, '\''] + rest;
    assert s[1..] == body + [closer, '\''] + rest && Closer(opener) == closer;
    FoundAtItsEnd(body, [closer, '\''], rest);
  }

  /** `q'[..]'` and its kin, in either case, with `n` in front or without, end at the
      closing delimiter that a quote follows. */
  lemma {:induction false} AlternativeQuoted(u: Unicode, prefix: string, opener: char, closer: char, body: string, rest: string)
    requires prefix in {"q", "Q", "nq", "nQ", "Nq", "NQ"}
    requires opener !in {' ', '\t', '\r', '\n'} && Brackets(opener, closer) && EndsOnlyBehind(body, [closer, '\''])
    ensures var text := prefix + ['\'', opener] + body + [closer, '\'']; Head(u, text + rest) == Some(Piece(STRING, text))
  {
    var text := prefix + ['\'', opener] + body + [closer, '\''];
    var s, inner := text + rest, [opener] + body + [closer, '\''] + rest;
    AlternativePrefix(prefix, inner);
    AlternativeEnd(opener, closer, body, rest);
    hide PrefixLength, AltEnd, EndsOnlyBehind, Brackets, Head;
    var n := |prefix| + 1;
    assert s == prefix + ['\''] + inner;
    assert s[n..] == inner && s[0] == prefix[0];
    PrefixedHead(u, s, text);
  }

  lemma {:induction false} PrefixedHead(u: Unicode, s: string, text: string)
    requires s != [] && s[0] in {'n', 'N', 'q', 'Q'} && text <= s && text != []
    requires PrefixLength(s) > 0 && PrefixedEnd(s, PrefixLength(s)) == Some(|text|)
    ensures Head(u, s) == Some(Piece(STRING, text))
  {
    hide PrefixLength, PrefixedEnd, Find, NumberEnd, DollarTag, PlainEnd, Run;
    assert "--"[0] == '-' && "/*"[0] == '/' && s[..|text|] == text;
  }

  /** Whitespace cannot open one. */
  lemma {:induction false} BlankOpensNothing(u: Unicode, prefix: char, blank: char, rest: string)
    requires prefix in {'q', 'Q'} && blank in {' ', '\t', '\r', '\n'}
    ensures Head(u, [prefix, '\'', blank] + rest).None?
  {
    var s := [prefix, '\'', blank] + rest;
    assert s[2..][0] == blank;
    assert "--"[0] == '-' && "/*"[0] == '/';
  }

  /** `n'..'` is a plain literal behind its prefix. */
  lemma {:induction false} NationalLiteral(u: Unicode, prefix: char, v: string, rest: string)
    requires prefix in {'n', 'N'} && (rest == [] || rest[0] != '\'')
    ensures var text := [prefix, '\''] + Quoted('\'', v); Head(u, text + rest) == Some(Piece(STRING, text))
  {
    var text := [prefix, '\''] + Quoted('\'', v);
    var s := text + rest;
    LiteralIsScannedWhole('\'', v, rest);
    assert s[2..] == Quoted('\'', v) + rest;
    assert s[..|text|] == text && s[0] == prefix && s[1] == '\'';
    assert "--"[0] == '-' && "/*"[0] == '/';
    hide PlainEnd;
  }

  /** A word goes on over letters, digits, underscores, dollar and number signs; it
      may also start with a colon. */
  lemma {:induction false} WordIsScannedWhole(u: Unicode, first: char, more: string, rest: string)
    requires Standard(u) && (first in u.alpha || first in {'_', '#', ':'}) && first !in {'n', 'N', 'q', 'Q'}
    requires forall i | 0 <= i < |more| :: more[i] in u.alnum || more[i] in {'_', '$', '#'}
    requires rest == [] || (rest[0] !in u.alnum && rest[0] !in {'_', '$', '#'})
    requires first in u.alpha ==> first !in u.digit
    ensures Head(u, [first] + more + rest) == Some(Piece(WORD, [first] + more))
  {
    var s := [first] + more + rest;
    SpaceIsInert(u);
    BlankIsSpace(u);
    assert s[1..] == more + rest;
    RunsOver(IdentPart(u), more, rest);
    assert s[..|more| + 1] == [first] + more;
    assert "--"[0] == '-' && "/*"[0] == '/';
    assert first !in BLANKS && first !in u.digit;
    hide Run;
  }
}
