/** Normalising one statement for submission: which terminators are removed, what
    is refused, and how the statement is classified. */
module Normalize {
  import opened Model
  import opened SqlText

  datatype StatementKind = SQL | PLSQL_BLOCK | PLSQL_DEFINITION

  datatype Statement = Statement(
    text: string,
    kind: StatementKind,
    lead: seq<string>,
    names: set<string>,
    stringNames: set<string>,
    cteVerb: string,
    cteBodyVerbs: set<string>)

  predicate IsSignificant(p: Piece) {
    !p.kind.SPACE? && !p.kind.COMMENT?
  }

  function Significant(ps: seq<Piece>): seq<Piece> {
    if ps == [] then []
    else (if IsSignificant(ps[0]) then [ps[0]] else []) + Significant(ps[1..])
  }

  predicate IsPunct(p: Piece, text: string) {
    p.kind.PUNCT? && p.text == text
  }

  function Upper(u: Unicode, s: string): string {
    if s == [] then []
    else (if s[0] in u.upper then u.upper[s[0]] else [s[0]]) + Upper(u, s[1..])
  }

  function Words(u: Unicode, ps: seq<Piece>): seq<string> {
    if ps == [] then []
    else (if ps[0].kind.WORD? then [Upper(u, ps[0].text)] else []) + Words(u, ps[1..])
  }

  // ------------------------------------------------------ classification

  const BLOCK_WORDS: set<string> := {"DECLARE", "BEGIN"}
  const CREATE_MODIFIERS: set<string> := {"OR", "REPLACE", "EDITIONABLE", "NONEDITIONABLE", "EDITIONING"}
  const DEFINITION_OBJECTS: set<string> := {"PROCEDURE", "FUNCTION", "PACKAGE", "TRIGGER", "TYPE"}

  /** CREATE, any modifiers, then an object whose body is PL/SQL. */
  predicate IsDefinition(words: seq<string>) {
    && |words| > 0 && words[0] == "CREATE"
    && exists k | 1 <= k < |words| :: words[k] in DEFINITION_OBJECTS && forall j | 1 <= j < k :: words[j] in CREATE_MODIFIERS
  }

  function KindOf(words: seq<string>): Option<StatementKind> {
    if words == [] then None
    else if words[0] in BLOCK_WORDS then Some(PLSQL_BLOCK)
    else if IsDefinition(words) then Some(PLSQL_DEFINITION)
    else Some(StatementKind.SQL)
  }

  method Classify(words: seq<string>) returns (r: Option<StatementKind>)
    ensures r == KindOf(words)
  {
    if words == [] {
      return None;
    }
    if words[0] in BLOCK_WORDS {
      return Some(PLSQL_BLOCK);
    }
    if words[0] == "CREATE" {
      var index := 1;
      while index < |words| && words[index] in CREATE_MODIFIERS
        invariant 1 <= index <= |words|
        invariant forall j | 1 <= j < index :: words[j] in CREATE_MODIFIERS
      {
        index := index + 1;
      }
      assert CREATE_MODIFIERS !! DEFINITION_OBJECTS;
      if index < |words| && words[index] in DEFINITION_OBJECTS {
        return Some(PLSQL_DEFINITION);
      }
    }
    return Some(StatementKind.SQL);
  }

  // ------------------------------------------------ common table expressions

  const MAIN_VERBS: set<string> := {"SELECT", "VALUES", "INSERT", "REPLACE", "UPDATE", "DELETE", "MERGE"}
  const DML_VERBS: set<string> := {"INSERT", "UPDATE", "DELETE", "MERGE"}

  /** The parenthesis depth before `to`, counted from `from`. */
  function Depth(sig: seq<Piece>, from: nat, to: nat): int
    requires from <= to <= |sig|
  {
    if from == to then 0
    else Depth(sig, from, to - 1)
         + (if IsPunct(sig[to - 1], "(") then 1 else if IsPunct(sig[to - 1], ")") then -1 else 0)
  }

  predicate MainVerbAt(u: Unicode, sig: seq<Piece>, k: nat)
    requires 1 <= k < |sig|
  {
    sig[k].kind.WORD? && Upper(u, sig[k].text) in MAIN_VERBS && Depth(sig, 1, k) == 0
  }

  /** The first main verb from `k` on. */
  function MainVerbFrom(u: Unicode, sig: seq<Piece>, k: nat): string
    requires 1 <= k
    decreases |sig| - k
  {
    if k >= |sig| then ""
    else if MainVerbAt(u, sig, k) then Upper(u, sig[k].text)
    else MainVerbFrom(u, sig, k + 1)
  }

  method CteMainVerb(u: Unicode, sig: seq<Piece>) returns (verb: string)
    requires |sig| > 0
    ensures verb == MainVerbFrom(u, sig, 1)
  {
    var depth := 0;
    for k := 1 to |sig|
      invariant depth == Depth(sig, 1, k)
      invariant MainVerbFrom(u, sig, 1) == MainVerbFrom(u, sig, k)
    {
      if sig[k].kind.PUNCT? {
        if sig[k].text == "(" {
          depth := depth + 1;
        } else if sig[k].text == ")" {
          depth := depth - 1;
        }
      } else if depth == 0 && sig[k].kind.WORD? && Upper(u, sig[k].text) in MAIN_VERBS {
        return Upper(u, sig[k].text);
      }
    }
    return "";
  }

  /** The word at `k`, upper-cased, or nothing. */
  function WordAt(u: Unicode, sig: seq<Piece>, k: int): string {
    if 0 <= k < |sig| && sig[k].kind.WORD? then Upper(u, sig[k].text) else ""
  }

  predicate FollowsAs(u: Unicode, sig: seq<Piece>, k: nat) {
    || WordAt(u, sig, k - 1) == "AS"
    || (WordAt(u, sig, k - 2) == "AS" && WordAt(u, sig, k - 1) == "MATERIALIZED")
    || (WordAt(u, sig, k - 3) == "AS" && WordAt(u, sig, k - 2) == "NOT" && WordAt(u, sig, k - 1) == "MATERIALIZED")
  }

  /** A body opens at `k`: a parenthesis at depth zero behind AS. */
  predicate OpensBody(u: Unicode, sig: seq<Piece>, k: nat)
    requires k < |sig|
  {
    IsPunct(sig[k], "(") && Depth(sig, 0, k) == 0 && FollowsAs(u, sig, k)
  }

  predicate DmlBodyAt(u: Unicode, sig: seq<Piece>, k: nat)
    requires k < |sig|
  {
    OpensBody(u, sig, k) && WordAt(u, sig, k + 1) in DML_VERBS
  }

  /** The data-modifying verbs that open a body before place `n`. */
  function BodyVerbs(u: Unicode, sig: seq<Piece>, n: nat): set<string>
    requires n <= |sig|
  {
    set k | 0 <= k < n && DmlBodyAt(u, sig, k) :: WordAt(u, sig, k + 1)
  }

  lemma {:induction false} BodyVerbsGrow(u: Unicode, sig: seq<Piece>, n: nat)
    requires n < |sig|
    ensures BodyVerbs(u, sig, n + 1) == BodyVerbs(u, sig, n) + if DmlBodyAt(u, sig, n) then {WordAt(u, sig, n + 1)} else {}
  {
  }

  method CteBodyVerbs(u: Unicode, sig: seq<Piece>) returns (found: set<string>)
    ensures found == BodyVerbs(u, sig, |sig|)
  {
    found := {};
    var depth := 0;
    for k := 0 to |sig|
      invariant depth == Depth(sig, 0, k)
      invariant found == BodyVerbs(u, sig, k)
    {
      BodyVerbsGrow(u, sig, k);
      if IsPunct(sig[k], "(") {
        if depth == 0 && FollowsAs(u, sig, k) && WordAt(u, sig, k + 1) in DML_VERBS {
          found := found + {WordAt(u, sig, k + 1)};
        }
        depth := depth + 1;
      } else if IsPunct(sig[k], ")") {
        depth := depth - 1;
      }
    }
  }

  // ----------------------------------------------------------------- names

  /** The text without its first and last character. */
  function Inner(text: string): string {
    if |text| >= 2 then text[1..|text| - 1] else ""
  }

  /** What one token names: a bare word, or a quoted identifier without quotes. */
  function NamesOf(u: Unicode, p: Piece): set<string> {
    if p.kind.WORD? then {Upper(u, p.text)} else if p.kind.QUOTED_IDENT? then {Upper(u, Inner(p.text))} else {}
  }

  function Names(u: Unicode, ps: seq<Piece>): set<string> {
    if ps == [] then {} else NamesOf(u, ps[0]) + Names(u, ps[1..])
  }

  /** The names are those of the tokens, whatever their order. */
  lemma {:induction false} NamesAre(u: Unicode, ps: seq<Piece>, name: string)
    ensures name in Names(u, ps) <==> exists i :: 0 <= i < |ps| && name in NamesOf(u, ps[i])
  {
    if ps != [] {
      NamesAre(u, ps[1..], name);
      if i :| 0 <= i < |ps| && name in NamesOf(u, ps[i]) {
        assert i > 0 ==> ps[1..][i - 1] == ps[i];
      }
      if j :| 0 <= j < |ps[1..]| && name in NamesOf(u, ps[1..][j]) {
        assert ps[j + 1] == ps[1..][j];
      }
    }
  }

  /** Doubled quotes read as one. */
  function Undoubled(s: string): string {
    if s == [] then []
    else if "''" <= s then ['\''] + Undoubled(s[2..])
    else [s[0]] + Undoubled(s[1..])
  }

  /** All the words of a text that cannot be tokenized. */
  function AsciiWords(u: Unicode, s: string): set<string>
    decreases |s|
  {
    if s == [] then {}
    else if s[0] in TAG_START then
      var n := 1 + Run(TAG_PART + {'$', '#'}, s[1..]);
      {Upper(u, s[..n])} + AsciiWords(u, s[n..])
    else AsciiWords(u, s[1..])
  }

  /** The code inside a string token of a DO statement: a plain literal's value,
      or what stands between dollar tags.  Any other literal without a dollar
      sign has none, and the program ends in an error that is not its own. */
  function DoBody(text: string): Option<string> {
    if text != [] && text[0] == '\'' then Some(Undoubled(Inner(text)))
    else
      var dollar := Find("$", if text == [] then [] else text[1..]);
      if dollar.None? then None
      else
        var tag := dollar.value + 2;
        Some(if 2 * tag <= |text| then text[tag..|text| - tag] else "")
  }

  function BodyNames(u: Unicode, body: string): set<string> {
    var ps := Lex(u, body);
    if ps.Some? then Names(u, ps.value) else AsciiWords(u, body)
  }

  /** Names inside the string tokens of a DO statement. */
  function DoNames(u: Unicode, sig: seq<Piece>): Option<set<string>> {
    if sig == [] then Some({})
    else
      var rest := DoNames(u, sig[..|sig| - 1]);
      var p := sig[|sig| - 1];
      if rest.None? || !p.kind.STRING? then rest
      else
        var body := DoBody(p.text);
        if body.None? then None else Some(rest.value + BodyNames(u, body.value))
  }

  /** A string token whose code can be read, and names this. */
  predicate NamedInBody(u: Unicode, p: Piece, name: string) {
    p.kind.STRING? && DoBody(p.text).Some? && name in BodyNames(u, DoBody(p.text).value)
  }

  /** Every string token must be readable. */
  lemma {:induction false} DoNamesReadable(u: Unicode, sig: seq<Piece>)
    ensures DoNames(u, sig).Some? <==> forall i | 0 <= i < |sig| && sig[i].kind.STRING? :: DoBody(sig[i].text).Some?
    decreases |sig|
  {
    hide BodyNames, DoBody;
    if sig != [] {
      var front := sig[..|sig| - 1];
      DoNamesReadable(u, front);
      assert forall i | 0 <= i < |front| :: front[i] == sig[i];
    }
  }

  /** Then the names are all of theirs. */
  lemma {:induction false} DoNamesAre(u: Unicode, sig: seq<Piece>, name: string)
    requires DoNames(u, sig).Some?
    ensures name in DoNames(u, sig).value <==> exists i :: 0 <= i < |sig| && NamedInBody(u, sig[i], name)
    decreases |sig|
  {
    hide BodyNames, DoBody;
    if sig != [] {
      var front, n := sig[..|sig| - 1], |sig| - 1;
      DoNamesAre(u, front, name);
      if i :| 0 <= i < |sig| && NamedInBody(u, sig[i], name) {
        assert i < n ==> NamedInBody(u, front[i], name);
      }
      if j :| 0 <= j < n && NamedInBody(u, front[j], name) {
        assert NamedInBody(u, sig[j], name);
      } else if name in DoNames(u, sig).value {
        assert NamedInBody(u, sig[n], name);
      }
    }
  }

  method DoBodyNames(u: Unicode, sig: seq<Piece>) returns (r: Option<set<string>>)
    ensures r == DoNames(u, sig)
    ensures r.Some? <==> forall i | 0 <= i < |sig| && sig[i].kind.STRING? :: DoBody(sig[i].text).Some?
    ensures r.Some? ==> forall name :: name in r.value <==> exists i :: 0 <= i < |sig| && NamedInBody(u, sig[i], name)
  {
    DoNamesReadable(u, sig);
    if DoNames(u, sig).Some? {
      forall name ensures name in DoNames(u, sig).value <==> exists i :: 0 <= i < |sig| && NamedInBody(u, sig[i], name) {
        DoNamesAre(u, sig, name);
      }
    }
    var names: set<string> := {};
    for n := 0 to |sig|
      invariant DoNames(u, sig[..n]) == Some(names)
    {
      assert sig[..n + 1][..n] == sig[..n];
      if sig[n].kind.STRING? {
        var body := DoBody(sig[n].text);
        if body.None? {
          NoNamesBehind(u, sig, n + 1);
          return None;
        }
        names := names + BodyNames(u, body.value);
      }
    }
    assert sig[..|sig|] == sig;
    return Some(names);
  }

  lemma {:induction false} NoNamesBehind(u: Unicode, sig: seq<Piece>, n: nat)
    requires n <= |sig| && DoNames(u, sig[..n]).None?
    ensures DoNames(u, sig).None?
    decreases |sig| - n
  {
    if n < |sig| {
      assert sig[..n + 1][..n] == sig[..n];
      NoNamesBehind(u, sig, n + 1);
    } else {
      assert sig[..n] == sig;
    }
  }

  const POSITION_WORDS: set<string> :=
    {"FROM", "INTO", "UPDATE", "JOIN", "TABLE", "VIEW", "INDEX", "TRIGGER", "EXISTS"}
    + {"ON", "TO", "REFERENCES", "REPLACE", "ROLLBACK", "ABORT", "FAIL", "IGNORE"}

  /** A token behind which a string names an object. */
  predicate BeforeName(u: Unicode, p: Piece) {
    (p.kind.WORD? && Upper(u, p.text) in POSITION_WORDS) || IsPunct(p, ".")
  }

  predicate IsPlainLiteral(p: Piece) {
    p.kind.STRING? && p.text != [] && p.text[0] == '\''
  }

  /** Values of plain literals in the place of a name. */
  function StringNames(u: Unicode, sig: seq<Piece>): set<string> {
    if |sig| < 2 then {}
    else
      var n := |sig| - 1;
      StringNames(u, sig[..n])
      + if BeforeName(u, sig[n - 1]) && IsPlainLiteral(sig[n]) then {Upper(u, Undoubled(Inner(sig[n].text)))} else {}
  }

  /** The literal at place `i` stands where a name is expected, and is this one. */
  predicate NamedAt(u: Unicode, sig: seq<Piece>, i: nat, name: string)
    requires 1 <= i < |sig|
  {
    BeforeName(u, sig[i - 1]) && IsPlainLiteral(sig[i]) && name == Upper(u, Undoubled(Inner(sig[i].text)))
  }

  lemma {:induction false} StringNamesAre(u: Unicode, sig: seq<Piece>, name: string)
    ensures name in StringNames(u, sig) <==> exists i :: 1 <= i < |sig| && NamedAt(u, sig, i, name)
    decreases |sig|
  {
    hide BeforeName, IsPlainLiteral, Undoubled, Inner, Upper;
    if |sig| >= 2 {
      var n := |sig| - 1;
      var front := sig[..n];
      StringNamesAre(u, front, name);
      if i :| 1 <= i < |sig| && NamedAt(u, sig, i, name) {
        assert i < n ==> NamedAt(u, front, i, name);
        assert name in StringNames(u, sig);
      }
      if j :| 1 <= j < n && NamedAt(u, front, j, name) {
        assert NamedAt(u, sig, j, name);
      } else if name in StringNames(u, sig) {
        assert NamedAt(u, sig, n, name);
      }
    }
  }

  method StringsInIdentifierPosition(u: Unicode, sig: seq<Piece>) returns (found: set<string>)
    ensures found == StringNames(u, sig)
    ensures forall name :: name in found <==> exists i :: 1 <= i < |sig| && NamedAt(u, sig, i, name)
  {
    forall name ensures name in StringNames(u, sig) <==> exists i :: 1 <= i < |sig| && NamedAt(u, sig, i, name) {
      StringNamesAre(u, sig, name);
    }
    found := {};
    if sig == [] {
      return;
    }
    for n := 1 to |sig|
      invariant found == StringNames(u, sig[..n])
    {
      assert sig[..n + 1][..n] == sig[..n];
      if BeforeName(u, sig[n - 1]) && IsPlainLiteral(sig[n]) {
        found := found + {Upper(u, Undoubled(Inner(sig[n].text)))};
      }
    }
    assert sig[..|sig|] == sig;
  }

  // --------------------------------------------------- lines and slashes

  /** Whether the current line is blank so far; `blank` says how it began. */
  predicate LineBlank(u: Unicode, blank: bool, s: string) {
    if s == [] then blank
    else s[|s| - 1] == '\n' || (s[|s| - 1] in u.space && LineBlank(u, blank, s[..|s| - 1]))
  }

  predicate BlankToLineEnd(u: Unicode, s: string) {
    s == [] || s[0] == '\n' || (s[0] in u.space && BlankToLineEnd(u, s[1..]))
  }

  /** A slash alone on its line. */
  predicate LoneSlashAt(u: Unicode, blank: bool, ps: seq<Piece>, k: nat)
    requires k < |ps|
  {
    IsPunct(ps[k], "/") && LineBlank(u, blank, Concat(ps[..k])) && BlankToLineEnd(u, Concat(ps[k + 1..]))
  }

  predicate HasLoneSlash(u: Unicode, blank: bool, ps: seq<Piece>) {
    exists k | 0 <= k < |ps| :: LoneSlashAt(u, blank, ps, k)
  }

  // ---------------------------------------------------------- normalising

  function TrimLeft(u: Unicode, s: string): string {
    if s != [] && s[0] in u.space then TrimLeft(u, s[1..]) else s
  }

  function TrimRight(u: Unicode, s: string): string {
    if s != [] && s[|s| - 1] in u.space then TrimRight(u, s[..|s| - 1]) else s
  }

  function Strip(u: Unicode, s: string): string {
    TrimRight(u, TrimLeft(u, s))
  }

  /** The place of the last significant piece. */
  function LastIndex(ps: seq<Piece>): (k: nat)
    requires Significant(ps) != []
    ensures k < |ps| && IsSignificant(ps[k]) && Significant(ps[k + 1..]) == []
  {
    if Significant(ps[1..]) == [] then 0 else 1 + LastIndex(ps[1..])
  }

  function WithoutLast(ps: seq<Piece>): string
    requires Significant(ps) != []
  {
    Concat(ps[..LastIndex(ps)]) + Concat(ps[LastIndex(ps) + 1..])
  }

  /** The pieces of a text that holds more than a terminator. */
  function Content(u: Unicode, text: string): (r: Option<seq<Piece>>)
    ensures r.Some? ==> Lex(u, text) == r && Significant(r.value) != []
  {
    var ps := Lex(u, text);
    if ps.None? then None
    else
      var sig := Significant(ps.value);
      if sig == [] || (|sig| == 1 && (IsPunct(sig[0], ";") || IsPunct(sig[0], "/"))) then None else ps
  }

  /** A final slash alone on its line is an end-of-file convenience. */
  function WithoutSlash(u: Unicode, sql: string): (r: Option<string>)
    ensures r.Some? ==> Content(u, r.value).Some?
  {
    var ps := Content(u, sql);
    if '\0' in sql || ps.None? then None
    else if !LoneSlashAt(u, true, ps.value, LastIndex(ps.value)) then Some(sql)
    else if Content(u, WithoutLast(ps.value)).None? then None
    else Some(WithoutLast(ps.value))
  }

  /** Plain SQL loses one final semicolon; a block or definition keeps it. */
  function WithoutSemicolon(ps: seq<Piece>, kind: StatementKind): string
    requires Significant(ps) != []
  {
    if kind.SQL? && IsPunct(ps[LastIndex(ps)], ";") then WithoutLast(ps) else Concat(ps)
  }

  const COMMANDS_TO_CLEAR: set<string> :=
    {"@", "@@", "ACCEPT", "APPEND", "ARCHIVE", "ATTRIBUTE", "BREAK", "BTITLE", "CHANGE", "CLEAR"}
  const COMMANDS_TO_EXECUTE: set<string> :=
    {"COLUMN", "COMPUTE", "CONNECT", "COPY", "DEFINE", "DESC", "DESCRIBE", "DISCONNECT", "EDIT", "EXECUTE"}
  const COMMANDS_TO_PROMPT: set<string> :=
    {"EXIT", "GET", "HELP", "HOST", "INPUT", "LIST", "PASSWORD", "PAUSE", "PRINT", "PROMPT"}
  const COMMANDS_TO_SHUTDOWN: set<string> :=
    {"QUIT", "RECOVER", "REMARK", "REPFOOTER", "REPHEADER", "RUN", "SAVE", "SET", "SHOW", "SHUTDOWN"}
  const COMMANDS_TO_XQUERY: set<string> :=
    {"SPOOL", "STARTUP", "STORE", "TIMING", "TTITLE", "UNDEFINE", "VARIABLE", "WHENEVER", "XQUERY"}
  const CLIENT_COMMANDS: set<string> :=
    COMMANDS_TO_CLEAR + COMMANDS_TO_EXECUTE + COMMANDS_TO_PROMPT + COMMANDS_TO_SHUTDOWN + COMMANDS_TO_XQUERY

  /** SET ROLE, SET CONSTRAINT(S) and SET TRANSACTION are statements too. */
  predicate IsAlsoValidSql(words: seq<string>) {
    |words| > 1 && words[0] == "SET" && words[1] in {"ROLE", "CONSTRAINT", "CONSTRAINTS", "TRANSACTION"}
  }

  predicate IsClientCommand(words: seq<string>, kind: StatementKind) {
    words != [] && words[0] in CLIENT_COMMANDS && kind.SQL? && !IsAlsoValidSql(words)
  }

  function Lead(words: seq<string>): seq<string> {
    if |words| < 4 then words else words[..4]
  }

  /** What the terminators of a statement of this kind must look like. */
  predicate Terminated(sig: seq<Piece>, kind: StatementKind) {
    if kind.SQL? then forall i | 0 <= i < |sig| :: !IsPunct(sig[i], ";")
    else sig != [] && IsPunct(sig[|sig| - 1], ";")
  }

  predicate StartsWith(words: seq<string>, word: string) {
    words != [] && words[0] == word
  }

  /** The statement that a checked text becomes; none if a DO body has no end. */
  function Build(u: Unicode, text: string, kind: StatementKind, sig: seq<Piece>, words: seq<string>): Option<Statement>
  {
    var inBody := if StartsWith(words, "DO") then DoNames(u, sig) else Some({});
    if inBody.None? then None
    else
      var with := StartsWith(words, "WITH");
      Some(Statement(text, kind, words, Names(u, sig) + inBody.value, StringNames(u, sig),
                     if with then MainVerbFrom(u, sig, 1) else "", if with then BodyVerbs(u, sig, |sig|) else {}))
  }

  /** The checks on the text to submit, and the statement it becomes. */
  function Accept(u: Unicode, text: string, kind: StatementKind): Option<Statement> {
    var ps := Lex(u, text);
    if ps.None? then None
    else
      var sig, words, stripped := Significant(ps.value), Lead(Words(u, ps.value)), Strip(u, text);
      if sig == [] || !Terminated(sig, kind) || HasLoneSlash(u, true, ps.value) || stripped == [] then None
      else if IsPunct(sig[0], "@") || IsClientCommand(words, kind) then None
      else Build(u, stripped, kind, sig, words)
  }

  /** One statement, normalised; nothing when it is refused. */
  function Normalized(u: Unicode, sql: string): Option<Statement> {
    var text := WithoutSlash(u, sql);
    if text.None? then None
    else
      var ps := Content(u, text.value).value;
      var kind := KindOf(Words(u, ps));
      if kind.None? then None else Accept(u, WithoutSemicolon(ps, kind.value), kind.value)
  }
}
