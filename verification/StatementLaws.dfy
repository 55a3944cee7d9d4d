/** What the fields of an accepted statement say about its text. */
module StatementLaws {
  import opened Model
  import opened SqlText
  import opened ScanLaws
  import opened Normalize
  import opened NormalizeLaws

  // ----------------------------------------------------------- upper case

  /** Upper-casing goes character by character, as the database has it. */
  lemma {:induction false} UpperByCharacter(u: Unicode, a: string, c: char)
    ensures Upper(u, []) == [] && Upper(u, a + [c]) == Upper(u, a) + if c in u.upper then u.upper[c] else [c]
  {
    if a == [] {
      assert a + [c] == [c] && [c][1..] == [];
      assert Upper(u, [c]) == (if c in u.upper then u.upper[c] else [c]) + Upper(u, []);
    } else {
      assert (a + [c])[1..] == a[1..] + [c];
      UpperByCharacter(u, a[1..], c);
    }
  }

  // ------------------------------------------------- the code in a DO body

  lemma {:induction false} UndoubledIsTheValue(v: string)
    ensures Quoted('\'', v) != [] && Undoubled(Quoted('\'', v)[..|Quoted('\'', v)| - 1]) == v
  {
    var q := Quoted('\'', v);
    if v != [] {
      UndoubledIsTheValue(v[1..]);
      var inner := Quoted('\'', v[1..]);
      var s := q[..|q| - 1];
      if v[0] == '\'' {
        assert q == ['\'', '\''] + inner;
        assert s == ['\'', '\''] + inner[..|inner| - 1] && s[2..] == inner[..|inner| - 1] && "''" <= s;
      } else {
        assert q == [v[0]] + inner;
        assert s == [v[0]] + inner[..|inner| - 1] && s[1..] == inner[..|inner| - 1];
        assert "''"[0] == '\'';
      }
    }
  }

  /** The body of a plain literal is its value. */
  lemma {:induction false} BodyOfLiteral(v: string)
    ensures DoBody("'" + Quoted('\'', v)) == Some(v)
  {
    var text := "'" + Quoted('\'', v);
    UndoubledIsTheValue(v);
    assert text[0] == '\'' && Inner(text) == Quoted('\'', v)[..|Quoted('\'', v)| - 1];
  }

  /** The body of a dollar-quoted one is what stands between its tags. */
  lemma {:induction false} BodyOfDollars(tag: string, body: string)
    requires '$' !in tag
    ensures DoBody("$" + tag + "$" + body + "$" + tag + "$") == Some(body)
  {
    var d := "$" + tag + "$";
    var text := "$" + tag + "$" + body + "$" + tag + "$";
    assert text == d + body + d;
    forall j | 0 <= j < |tag| ensures !("$" <= (tag + "$")[j..]) {
      assert (tag + "$")[j..][0] == tag[j] && "$"[0] == '$';
    }
    FoundAtItsEnd(tag, "$", body + d);
    assert text[1..] == tag + "$" + (body + d);
    assert text[|d|..|text| - |d|] == body;
    assert text[0] == '$';
  }

  // ------------------------------------------ words of text without tokens

  /** A word, as the search for words takes it. */
  ghost predicate AsciiWord(w: string) {
    && w != [] && (IsAsciiLetter(w[0]) || w[0] == '_')
    && forall i | 0 <= i < |w| :: IsAsciiLetter(w[i]) || IsAsciiDigit(w[i]) || w[i] in {'_', '$', '#'}
  }

  lemma {:induction false} AsciiWordsOf(u: Unicode, w: string, rest: string)
    requires AsciiWord(w) && (rest == [] || !(IsAsciiLetter(rest[0]) || IsAsciiDigit(rest[0]) || rest[0] in {'_', '$', '#'}))
    ensures AsciiWords(u, w + rest) == {Upper(u, w)} + AsciiWords(u, rest)
  {
    var s := w + rest;
    assert s[1..] == w[1..] + rest;
    RunsOver(TAG_PART + {'$', '#'}, w[1..], rest);
    assert s[..|w|] == w && s[|w|..] == rest && s[0] in TAG_START;
  }

  lemma {:induction false} AsciiWordsSkip(u: Unicode, c: char, rest: string)
    requires !IsAsciiLetter(c) && c != '_'
    ensures AsciiWords(u, []) == {} && AsciiWords(u, [c] + rest) == AsciiWords(u, rest)
  {
    assert ([c] + rest)[1..] == rest && ([c] + rest)[0] == c;
  }

  // --------------------------------------------------- names in DO bodies

  /** The code of a DO statement is looked into: its names are among the statement's,
      whether it can be tokenized or not. */
  lemma {:induction false} AcceptedDoNames(u: Unicode, sql: string, p: Piece, body: string)
    requires Standard(u) && Normalized(u, sql).Some?
    requires var st := Normalized(u, sql).value; st.lead != [] && st.lead[0] == "DO" && Lex(u, st.text).Some? && p in Lex(u, st.text).value
    requires p.kind == STRING && DoBody(p.text) == Some(body)
    ensures var names := Normalized(u, sql).value.names;
            && (Lex(u, body).Some? ==> forall q, w | q in Lex(u, body).value && Spells(u, q, w) :: Upper(u, w) in names)
            && (Lex(u, body).None? ==> AsciiWords(u, body) <= names)
  {
    hide Normalized, Lex, Significant, Words, KindOf, Strip, Standard, Accept, Upper, Names, Spells, IsSignificant, DoBody, AsciiWords, BodyNames, DoNames;
    var st := Normalized(u, sql).value;
    var t, kind := Submitted(u, sql);
    var before, after := StripKeeps(u, t);
    StripOnceIsAccepted(u, t, kind);
    BuiltDoNames(u, t, kind);
    var ps, sig := Lex(u, st.text).value, Significant(Lex(u, t).value);
    InSignificant(ps, p);
    assert p in sig by {
      var i :| 0 <= i < |Significant(ps)| && Significant(ps)[i] == p;
      assert sig[|before| + i] == p;
    }
    DoNamesHold(u, sig, p, body);
    if Lex(u, body).Some? {
      forall q, w | q in Lex(u, body).value && Spells(u, q, w) ensures Upper(u, w) in st.names {
        BodyIsNamed(u, body, q, w);
      }
    } else {
      BodyIsSearched(u, body);
    }
  }

  lemma {:induction false} InSignificant(ps: seq<Piece>, p: Piece)
    requires p in ps && p.kind == STRING
    ensures p in Significant(ps)
  {
    SignificantIsSome(ps, p);
  }

  lemma {:induction false} BuiltDoNames(u: Unicode, t: string, kind: StatementKind)
    requires Accept(u, t, kind).Some?
    ensures var st, sig := Accept(u, t, kind).value, Significant(Lex(u, t).value);
            st.lead != [] && st.lead[0] == "DO" ==> DoNames(u, sig).Some? && DoNames(u, sig).value <= st.names
  {
    hide Lex, Significant, Words, Strip, MainVerbFrom, Names, DoNames, StringNames, BodyVerbs, IsClientCommand;
  }

  lemma {:induction false} DoNamesHold(u: Unicode, sig: seq<Piece>, p: Piece, body: string)
    requires DoNames(u, sig).Some? && p in sig && p.kind == STRING && DoBody(p.text) == Some(body)
    ensures BodyNames(u, body) <= DoNames(u, sig).value
  {
    hide BodyNames, DoBody, DoNames;
    var i :| 0 <= i < |sig| && sig[i] == p;
    forall name | name in BodyNames(u, body) ensures name in DoNames(u, sig).value {
      assert NamedInBody(u, sig[i], name);
      DoNamesAre(u, sig, name);
    }
  }

  lemma {:induction false} BodyIsNamed(u: Unicode, body: string, q: Piece, w: string)
    requires Lex(u, body).Some? && q in Lex(u, body).value && Spells(u, q, w)
    ensures Upper(u, w) in BodyNames(u, body)
  {
    hide Lex, Names, Upper, NamesOf, AsciiWords;
    var ps := Lex(u, body).value;
    AllQuoted(u, body);
    var i :| 0 <= i < |ps| && ps[i] == q;
    NamesOfPiece(u, q, Upper(u, w));
    NamesAre(u, ps, Upper(u, w));
  }

  lemma {:induction false} BodyIsSearched(u: Unicode, body: string)
    requires Lex(u, body).None?
    ensures BodyNames(u, body) == AsciiWords(u, body)
  {
    hide Lex, AsciiWords;
  }

  // ------------------------------------------------- strings used as names

  /** A literal with value `v` stands at place `i`, behind a word that a name follows,
      or behind a dot. */
  ghost predicate StandsForName(u: Unicode, sig: seq<Piece>, i: int, v: string) {
    && 1 <= i < |sig|
    && (|| (sig[i - 1].kind == WORD && Upper(u, sig[i - 1].text) in POSITION_WORDS)
        || (sig[i - 1].kind == PUNCT && sig[i - 1].text == "."))
    && sig[i].kind == STRING && sig[i].text == "'" + Quoted('\'', v)
  }

  /** Every plain literal is that of a value, in which doubled quotes count once. */
  lemma {:induction false} PlainLiteralHasValue(u: Unicode, s: string) returns (v: string)
    requires s != [] && s[0] == '\'' && Head(u, s).Some? && Head(u, s).value.kind == STRING
    ensures Head(u, s).value.text == "'" + Quoted('\'', v)
  {
    hide PrefixLength, PrefixedEnd, NumberEnd, DollarTag, Find, Run;
    assert "--"[0] == '-' && "/*"[0] == '/';
    v := ScannedIsALiteral('\'', s[1..]);
    var n := PlainEnd('\'', s[1..]).value;
    assert s[..n + 1] == [s[0]] + s[1..][..n] && [s[0]] == "'";
  }

  lemma {:induction false} LiteralNamesIts(u: Unicode, v: string)
    ensures Undoubled(Inner("'" + Quoted('\'', v))) == v
  {
    BodyOfLiteral(v);
  }

  /** Its value is among the names in string position, and so is no other. */
  lemma {:induction false} StringNamesOnText(u: Unicode, text: string, name: string)
    requires Lex(u, text).Some?
    ensures var sig := Tokens(u, text);
            name in StringNames(u, sig) <==> exists i, v :: StandsForName(u, sig, i, v) && name == Upper(u, v)
  {
    hide Lex, Upper, Significant, Undoubled, Inner, Quoted;
    var sig := Tokens(u, text);
    StringNamesAre(u, sig, name);
    if i :| 1 <= i < |sig| && NamedAt(u, sig, i, name) {
      assert sig[i] in sig;
      SignificantIsSome(Lex(u, text).value, sig[i]);
      var v := ValueIn(u, text, sig[i]);
      LiteralNamesIts(u, v);
      assert StandsForName(u, sig, i, v);
    }
    if i, v :| StandsForName(u, sig, i, v) && name == Upper(u, v) {
      LiteralNamesIts(u, v);
      assert sig[i].text[0] == '\'';
      assert NamedAt(u, sig, i, name);
    }
  }

  lemma {:induction false} ValueIn(u: Unicode, s: string, p: Piece) returns (v: string)
    requires Lex(u, s).Some? && p in Lex(u, s).value && IsPlainLiteral(p)
    ensures p.text == "'" + Quoted('\'', v)
    decreases |s|
  {
    hide Head, Quoted;
    var first := Head(u, s).value;
    LexCons(u, s);
    if p == first {
      HeadStarts(u, s);
      v := PlainLiteralHasValue(u, s);
    } else {
      v := ValueIn(u, s[|first.text|..], p);
    }
  }

  lemma {:induction false} HeadStarts(u: Unicode, s: string)
    requires s != [] && Head(u, s).Some?
    ensures Head(u, s).value.text[0] == s[0]
  {
    hide Head;
  }

  /** These are the string names of an accepted statement. */
  lemma {:induction false} AcceptedStringNames(u: Unicode, sql: string, name: string)
    requires Standard(u) && Normalized(u, sql).Some?
    ensures var st := Normalized(u, sql).value;
            name in st.stringNames <==> exists i, v :: StandsForName(u, Tokens(u, st.text), i, v) && name == Upper(u, v)
  {
    hide Normalized, Lex, Significant, Words, KindOf, Strip, Standard, Accept, Upper, StringNames, StandsForName;
    var st := Normalized(u, sql).value;
    var t, kind := Submitted(u, sql);
    var before, after := StripKeeps(u, t);
    StripOnceIsAccepted(u, t, kind);
    BuiltStringNames(u, t, kind);
    var m := Significant(Lex(u, st.text).value);
    TrailingStrays(u, before + m, after);
    LeadingStrays(u, before, m);
    StringNamesOnText(u, st.text, name);
  }

  lemma {:induction false} BuiltStringNames(u: Unicode, t: string, kind: StatementKind)
    requires Accept(u, t, kind).Some?
    ensures Accept(u, t, kind).value.stringNames == StringNames(u, Significant(Lex(u, t).value))
  {
    hide Lex, Significant, Words, Strip, MainVerbFrom, Names, DoNames, StringNames, BodyVerbs, IsClientCommand;
  }

  // --------------------------------------- data changed in WITH expressions

  /** The words before place `k` end with these. */
  ghost predicate Behind(u: Unicode, sig: seq<Piece>, k: nat, words: seq<string>)
    requires k <= |sig|
    decreases |words|
  {
    || words == []
    || (&& k > 0 && sig[k - 1].kind == WORD && Upper(u, sig[k - 1].text) == words[|words| - 1]
        && Behind(u, sig, k - 1, words[..|words| - 1]))
  }

  /** A parenthesis at place `k`, outside any other, opens the body of an expression,
      and the body starts with `verb`. */
  ghost predicate BodyStarts(u: Unicode, sig: seq<Piece>, k: nat, verb: string) {
    && k + 1 < |sig| && sig[k].kind == PUNCT && sig[k].text == "(" && Depth(sig, 0, k) == 0
    && (Behind(u, sig, k, ["AS"]) || Behind(u, sig, k, ["AS", "MATERIALIZED"]) || Behind(u, sig, k, ["AS", "NOT", "MATERIALIZED"]))
    && sig[k + 1].kind == WORD && Upper(u, sig[k + 1].text) == verb && verb in {"INSERT", "UPDATE", "DELETE", "MERGE"}
  }

  lemma {:induction false} FollowsAsMeans(u: Unicode, sig: seq<Piece>, k: nat)
    requires k <= |sig|
    ensures FollowsAs(u, sig, k) <==>
              Behind(u, sig, k, ["AS"]) || Behind(u, sig, k, ["AS", "MATERIALIZED"]) || Behind(u, sig, k, ["AS", "NOT", "MATERIALIZED"])
  {
    hide Upper;
    assert |"AS"| == 2 && |"NOT"| == 3 && |"MATERIALIZED"| == 12;
    var a, m, n := "AS", "MATERIALIZED", "NOT";
    BehindOne(u, sig, k, a);
    BehindTwo(u, sig, k, a, m);
    BehindThree(u, sig, k, a, n, m);
  }

  lemma {:induction false} BehindOne(u: Unicode, sig: seq<Piece>, k: nat, a: string)
    requires k <= |sig| && a != ""
    ensures Behind(u, sig, k, [a]) <==> WordAt(u, sig, k - 1) == a
  {
    hide Upper;
    assert [a][..0] == [];
  }

  lemma {:induction false} BehindTwo(u: Unicode, sig: seq<Piece>, k: nat, a: string, b: string)
    requires k <= |sig| && a != "" && b != ""
    ensures Behind(u, sig, k, [a, b]) <==> WordAt(u, sig, k - 2) == a && WordAt(u, sig, k - 1) == b
  {
    hide Upper;
    assert [a, b][..1] == [a];
    if k > 0 {
      BehindOne(u, sig, k - 1, a);
    }
  }

  lemma {:induction false} BehindThree(u: Unicode, sig: seq<Piece>, k: nat, a: string, b: string, c: string)
    requires k <= |sig| && a != "" && b != "" && c != ""
    ensures Behind(u, sig, k, [a, b, c]) <==> WordAt(u, sig, k - 3) == a && WordAt(u, sig, k - 2) == b && WordAt(u, sig, k - 1) == c
  {
    hide Upper;
    assert [a, b, c][..2] == [a, b];
    if k > 0 {
      BehindTwo(u, sig, k - 1, a, b);
    }
  }

  lemma {:induction false} BodyStartsAt(u: Unicode, sig: seq<Piece>, k: nat, verb: string)
    requires k < |sig|
    ensures DmlBodyAt(u, sig, k) && verb == WordAt(u, sig, k + 1) <==> BodyStarts(u, sig, k, verb)
  {
    hide Upper, FollowsAs, Behind, Depth;
    FollowsAsMeans(u, sig, k);
    assert "" !in DML_VERBS by {
      assert |"INSERT"| == 6 && |"UPDATE"| == 6 && |"DELETE"| == 6 && |"MERGE"| == 5;
    }
    assert verb in DML_VERBS <==> verb in {"INSERT", "UPDATE", "DELETE", "MERGE"};
  }

  lemma {:induction false} BodyVerbsAre(u: Unicode, sig: seq<Piece>, verb: string)
    ensures verb in BodyVerbs(u, sig, |sig|) <==> exists k: nat :: BodyStarts(u, sig, k, verb)
  {
    hide DmlBodyAt, BodyStarts;
    if verb in BodyVerbs(u, sig, |sig|) {
      var k :| 0 <= k < |sig| && DmlBodyAt(u, sig, k) && WordAt(u, sig, k + 1) == verb;
      BodyStartsAt(u, sig, k, verb);
    }
    if k: nat :| BodyStarts(u, sig, k, verb) {
      BodyIsWithin(u, sig, k, verb);
      BodyStartsAt(u, sig, k, verb);
    }
  }

  lemma {:induction false} BodyIsWithin(u: Unicode, sig: seq<Piece>, k: nat, verb: string)
    requires BodyStarts(u, sig, k, verb)
    ensures k < |sig|
  {
    hide Behind, Depth, Upper;
  }

  /** The body verbs of an accepted WITH statement are exactly those of its text. */
  lemma {:induction false} AcceptedBodyVerbs(u: Unicode, sql: string, verb: string)
    requires Standard(u) && Normalized(u, sql).Some?
    ensures var st := Normalized(u, sql).value;
            verb in st.cteBodyVerbs <==>
              st.lead != [] && st.lead[0] == "WITH" && exists k: nat :: BodyStarts(u, Tokens(u, st.text), k, verb)
  {
    hide Normalized, Lex, Significant, Words, KindOf, Strip, Standard, Accept, Upper, BodyVerbs, BodyStarts;
    var st := Normalized(u, sql).value;
    var t, kind := Submitted(u, sql);
    var before, after := StripKeeps(u, t);
    StripOnceIsAccepted(u, t, kind);
    BuiltBodyVerbs(u, t, kind);
    var m := Significant(Lex(u, st.text).value);
    BodyVerbsBehindStrays(u, before, m, after);
    BodyVerbsAre(u, m, verb);
    assert Tokens(u, st.text) == m && Significant(Lex(u, t).value) == before + m + after;
  }

  lemma {:induction false} BuiltBodyVerbs(u: Unicode, t: string, kind: StatementKind)
    requires Accept(u, t, kind).Some?
    ensures var st, sig := Accept(u, t, kind).value, Significant(Lex(u, t).value);
            st.cteBodyVerbs == if st.lead != [] && st.lead[0] == "WITH" then BodyVerbs(u, sig, |sig|) else {}
  {
    hide Lex, Significant, Words, Strip, MainVerbFrom, Names, DoNames, StringNames, BodyVerbs, IsClientCommand;
  }

  // ------------------------------------------------------ what is refused

  /** Accepted plain SQL does not start with a command of the client, unless it is one
      of the three SET statements that servers know too; it starts with no script
      inclusion and holds no NUL; `lead` is its first words, at most four. */
  lemma {:induction false} AcceptedIsNoCommand(u: Unicode, sql: string)
    requires Standard(u)
    ensures Normalized(u, sql).Some? ==>
              var st := Normalized(u, sql).value;
              && '\0' !in sql && Lex(u, sql).Some?
              && (st.kind == StatementKind.SQL && st.lead != [] && st.lead[0] in CLIENT_COMMANDS ==>
                    |st.lead| > 1 && st.lead[0] == "SET" && st.lead[1] in {"ROLE", "CONSTRAINT", "CONSTRAINTS", "TRANSACTION"})
              && Lex(u, st.text).Some?
              && (var words := Words(u, Lex(u, st.text).value);
                  st.lead <= words && |st.lead| == if |words| < 4 then |words| else 4)
  {
    hide Lex, Significant, Words, KindOf, Strip, Standard, MainVerbFrom, CLIENT_COMMANDS, Names, DoNames, StringNames, BodyVerbs, HasLoneSlash, Concat;
    if Normalized(u, sql).Some? {
      var t, kind := Submitted(u, sql);
      var before, after := StripKeeps(u, t);
      StripOnceIsAccepted(u, t, kind);
    }
  }

  /** The same words in front of a server's SET are no reason to refuse it. */
  lemma {:induction false} ServerSetIsNoCommand(words: seq<string>, kind: StatementKind)
    requires |words| > 1 && words[0] == "SET" && words[1] in {"ROLE", "CONSTRAINT", "CONSTRAINTS", "TRANSACTION"}
    ensures !IsClientCommand(words, kind)
  {
  }
}
