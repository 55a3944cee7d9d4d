/** The `fp1` canonical encoding.  Text is given as its UTF-8 bytes. */
module Fingerprint {
  import opened Model

  type Byte = b: int | 0 <= b < 256
  type Bytes = seq<Byte>
  type Pair = (Bytes, Bytes)

  /** Everything the fingerprint covers, in whatever order it was declared. */
  datatype Input = Input(
    language: Bytes,
    mode: Bytes,
    entry: Bytes,
    required: seq<Pair>,
    files: seq<Pair>)

  // ------------------------------------------------- fixed-width integers

  function Power(width: nat): (p: nat)
    ensures p >= 1
  {
    if width == 0 then 1 else 256 * Power(width - 1)
  }

  function BigEndian(n: nat, width: nat): (bytes: Bytes)
    ensures |bytes| == width
  {
    if width == 0 then [] else BigEndian(n / 256, width - 1) + [n % 256]
  }

  function ReadBigEndian(bytes: Bytes): nat {
    if bytes == [] then 0 else ReadBigEndian(bytes[..|bytes| - 1]) * 256 + bytes[|bytes| - 1]
  }

  lemma {:induction false} BigEndianRoundTrip(n: nat, width: nat)
    requires n < Power(width)
    ensures ReadBigEndian(BigEndian(n, width)) == n
  {
    if width > 0 {
      BigEndianRoundTrip(n / 256, width - 1);
      var bytes := BigEndian(n, width);
      assert bytes[..width - 1] == BigEndian(n / 256, width - 1);
    }
  }

  // ----------------------------------------------------------- one field

  function Ascii(name: string): Bytes {
    seq(|name|, i requires 0 <= i < |name| => name[i] as int % 256)
  }

  /** A length-prefixed name followed by a length-prefixed value. */
  function Field(name: string, value: Bytes): Bytes {
    BigEndian(|name|, 4) + Ascii(name) + BigEndian(|value|, 8) + value
  }

  /** Read back a field of the given name, and what follows it. */
  function TakeField(bytes: Bytes, name: string): Option<(Bytes, Bytes)> {
    var prefix := BigEndian(|name|, 4) + Ascii(name);
    if |bytes| < |prefix| + 8 || bytes[..|prefix|] != prefix then None
    else
      var size := ReadBigEndian(bytes[|prefix|..|prefix| + 8]);
      var rest := bytes[|prefix| + 8..];
      if |rest| < size then None else Some((rest[..size], rest[size..]))
  }

  lemma {:induction false} FieldRoundTrip(name: string, value: Bytes, rest: Bytes)
    requires |value| < Power(8)
    ensures TakeField(Field(name, value) + rest, name) == Some((value, rest))
  {
    var prefix := BigEndian(|name|, 4) + Ascii(name);
    var size := BigEndian(|value|, 8);
    var bytes := Field(name, value) + rest;
    assert bytes == prefix + size + value + rest;
    assert bytes[|prefix|..|prefix| + 8] == size;
    assert bytes[|prefix| + 8..] == value + rest;
    BigEndianRoundTrip(|value|, 8);
  }

  // ------------------------------------------------------- lists of pairs

  /** The two fields of one pair. */
  function PairBytes(first: string, second: string, p: Pair): Bytes {
    Field(first, p.0) + Field(second, p.1)
  }

  /** Two fields for each pair, in order. */
  function Fields(first: string, second: string, pairs: seq<Pair>): Bytes {
    if pairs == [] then []
    else Fields(first, second, pairs[..|pairs| - 1]) + PairBytes(first, second, pairs[|pairs| - 1])
  }

  function TakeFields(bytes: Bytes, first: string, second: string, count: nat): Option<(seq<Pair>, Bytes)> {
    if count == 0 then Some(([], bytes))
    else
      var a := TakeField(bytes, first);
      if a.None? then None
      else
        var b := TakeField(a.value.1, second);
        if b.None? then None
        else
          var more := TakeFields(b.value.1, first, second, count - 1);
          if more.None? then None else Some(([(a.value.0, b.value.0)] + more.value.0, more.value.1))
  }

  predicate Short(pairs: seq<Pair>) {
    |pairs| < Power(8) && forall i | 0 <= i < |pairs| :: |pairs[i].0| < Power(8) && |pairs[i].1| < Power(8)
  }

  /** Concatenation in three parts. */
  lemma {:induction false} Regroup(a: Bytes, b: Bytes, c: Bytes)
    ensures a + b + c == a + (b + c)
  {
  }

  /** Read from the front, the list is its first pair and the rest. */
  lemma {:induction false} FieldsSplit(first: string, second: string, pairs: seq<Pair>)
    requires pairs != []
    ensures Fields(first, second, pairs) == PairBytes(first, second, pairs[0]) + Fields(first, second, pairs[1..])
  {
    hide PairBytes, Fields;
    var n := |pairs| - 1;
    var front, rest := pairs[..n], pairs[1..];
    FieldsOn(first, second, pairs);
    if n == 0 {
      OnePair(first, second, pairs);
    } else {
      FieldsSplit(first, second, front);
      FieldsOn(first, second, rest);
      assert front[0] == pairs[0] && front[1..] == rest[..n - 1] && rest[n - 1] == pairs[n];
      Regroup(PairBytes(first, second, pairs[0]), Fields(first, second, front[1..]), PairBytes(first, second, pairs[n]));
    }
  }

  lemma {:induction false} OnePair(first: string, second: string, pairs: seq<Pair>)
    requires |pairs| == 1
    ensures Fields(first, second, pairs) == PairBytes(first, second, pairs[0]) + Fields(first, second, pairs[1..])
  {
    hide PairBytes;
    assert pairs[..0] == [] && pairs[1..] == [];
  }

  lemma {:induction false} FieldsOn(first: string, second: string, pairs: seq<Pair>)
    requires pairs != []
    ensures Fields(first, second, pairs)
            == Fields(first, second, pairs[..|pairs| - 1]) + PairBytes(first, second, pairs[|pairs| - 1])
  {
  }

  /** The two fields of a pair are read back, whatever follows. */
  lemma {:induction false} PairRoundTrip(first: string, second: string, p: Pair, rest: Bytes)
    requires |p.0| < Power(8) && |p.1| < Power(8)
    ensures TakeField(PairBytes(first, second, p) + rest, first) == Some((p.0, Field(second, p.1) + rest))
    ensures TakeField(Field(second, p.1) + rest, second) == Some((p.1, rest))
  {
    hide Field, TakeField, Power;
    var after := Field(second, p.1) + rest;
    assert PairBytes(first, second, p) + rest == Field(first, p.0) + after;
    FieldRoundTrip(first, p.0, after);
    FieldRoundTrip(second, p.1, rest);
  }

  /** Reading one pair, then the others. */
  lemma {:induction false} TakeFieldsOn(bytes: Bytes, first: string, second: string, p: Pair, middle: Bytes, after: Bytes, pairs: seq<Pair>, rest: Bytes)
    requires TakeField(bytes, first) == Some((p.0, middle)) && TakeField(middle, second) == Some((p.1, after))
    requires TakeFields(after, first, second, |pairs|) == Some((pairs, rest))
    ensures TakeFields(bytes, first, second, |pairs| + 1) == Some(([p] + pairs, rest))
  {
    hide TakeField;
  }

  lemma {:induction false} FieldsRoundTrip(first: string, second: string, pairs: seq<Pair>, rest: Bytes)
    requires Short(pairs)
    ensures TakeFields(Fields(first, second, pairs) + rest, first, second, |pairs|) == Some((pairs, rest))
  {
    if pairs == [] {
      NoFields(first, second, rest);
    } else {
      hide Field, TakeField, TakeFields, Power, PairBytes, Fields;
      FieldsSplit(first, second, pairs);
      var p, others := pairs[0], pairs[1..];
      var tail := Fields(first, second, others) + rest;
      Regroup(PairBytes(first, second, p), Fields(first, second, others), rest);
      PairRoundTrip(first, second, p, tail);
      FieldsRoundTrip(first, second, others, rest);
      TakeFieldsOn(PairBytes(first, second, p) + tail, first, second, p, Field(second, p.1) + tail, tail, others, rest);
      assert [p] + others == pairs;
    }
  }

  lemma {:induction false} NoFields(first: string, second: string, rest: Bytes)
    ensures TakeFields(Fields(first, second, []) + rest, first, second, 0) == Some(([], rest))
  {
    assert Fields(first, second, []) + rest == rest;
  }

  // -------------------------------------------------------------- ordering

  /** Lexicographic order of byte strings. */
  predicate LessEq(a: Bytes, b: Bytes) {
    a == [] || (b != [] && (a[0] < b[0] || (a[0] == b[0] && LessEq(a[1..], b[1..]))))
  }

  lemma {:induction false} LessEqTotal(a: Bytes, b: Bytes)
    ensures LessEq(a, b) || LessEq(b, a)
    ensures LessEq(a, b) && LessEq(b, a) ==> a == b
  {
    if a != [] && b != [] && a[0] == b[0] {
      LessEqTotal(a[1..], b[1..]);
      if LessEq(a, b) && LessEq(b, a) {
        assert a == [a[0]] + a[1..] && b == [b[0]] + b[1..];
      }
    }
  }

  lemma {:induction false} LessEqTransitive(a: Bytes, b: Bytes, c: Bytes)
    requires LessEq(a, b) && LessEq(b, c)
    ensures LessEq(a, c)
  {
    if a != [] && a[0] == b[0] && b[0] == c[0] {
      LessEqTransitive(a[1..], b[1..], c[1..]);
    }
  }

  /** The order of pairs: by the first component alone (files, by path), or by
      both (required objects, by type then name). */
  predicate Ordered(both: bool, p: Pair, q: Pair) {
    LessEq(p.0, q.0) && (both && p.0 == q.0 ==> LessEq(p.1, q.1))
  }

  lemma {:induction false} OrderedTotal(both: bool, p: Pair, q: Pair)
    ensures Ordered(both, p, q) || Ordered(both, q, p)
    ensures both && Ordered(both, p, q) && Ordered(both, q, p) ==> p == q
    ensures Ordered(both, p, q) && Ordered(both, q, p) ==> p.0 == q.0
  {
    LessEqTotal(p.0, q.0);
    LessEqTotal(p.1, q.1);
  }

  lemma {:induction false} OrderedTransitive(both: bool, p: Pair, q: Pair, r: Pair)
    requires Ordered(both, p, q) && Ordered(both, q, r)
    ensures Ordered(both, p, r)
  {
    LessEqTransitive(p.0, q.0, r.0);
    LessEqTotal(p.0, q.0);
    if both && p.0 == r.0 {
      assert p.0 == q.0;
      LessEqTransitive(p.1, q.1, r.1);
    }
  }

  ghost predicate Sorted(both: bool, s: seq<Pair>) {
    forall i, j | 0 <= i < j < |s| :: Ordered(both, s[i], s[j])
  }

  function Insert(both: bool, s: seq<Pair>, p: Pair): seq<Pair> {
    if s == [] || Ordered(both, s[|s| - 1], p) then s + [p]
    else Insert(both, s[..|s| - 1], p) + [s[|s| - 1]]
  }

  /** Stable ascending order. */
  function Sort(both: bool, s: seq<Pair>): seq<Pair> {
    if s == [] then [] else Insert(both, Sort(both, s[..|s| - 1]), s[|s| - 1])
  }

  lemma {:induction false} InsertPermutes(both: bool, s: seq<Pair>, p: Pair)
    ensures multiset(Insert(both, s, p)) == multiset(s) + multiset{p}
  {
    hide Ordered;
    if s != [] && !Ordered(both, s[|s| - 1], p) {
      assert s == s[..|s| - 1] + [s[|s| - 1]];
      InsertPermutes(both, s[..|s| - 1], p);
    }
  }

  /** Everything inserted below a bound stays below it. */
  lemma {:induction false} InsertedBelow(both: bool, s: seq<Pair>, p: Pair, last: Pair)
    requires (forall i | 0 <= i < |s| :: Ordered(both, s[i], last)) && Ordered(both, p, last)
    ensures var r := Insert(both, s, p); forall i | 0 <= i < |r| :: Ordered(both, r[i], last)
  {
    hide Ordered;
    InsertPermutes(both, s, p);
    var r := Insert(both, s, p);
    forall i | 0 <= i < |r| ensures Ordered(both, r[i], last) {
      assert r[i] in multiset(r);
      assert r[i] in s || r[i] == p;
    }
  }

  lemma {:induction false} SortedOn(both: bool, s: seq<Pair>, p: Pair)
    requires Sorted(both, s) && forall i | 0 <= i < |s| :: Ordered(both, s[i], p)
    ensures Sorted(both, s + [p])
  {
    hide Ordered;
  }

  lemma {:induction false} InsertSorts(both: bool, s: seq<Pair>, p: Pair)
    requires Sorted(both, s)
    ensures Sorted(both, Insert(both, s, p))
  {
    hide Ordered;
    if s == [] {
      return;
    }
    var front, last := s[..|s| - 1], s[|s| - 1];
    if Ordered(both, last, p) {
      forall i | 0 <= i < |s| ensures Ordered(both, s[i], p) {
        if i < |s| - 1 {
          OrderedTransitive(both, s[i], last, p);
        }
      }
      SortedOn(both, s, p);
    } else {
      OrderedTotal(both, last, p);
      InsertSorts(both, front, p);
      InsertedBelow(both, front, p, last);
      SortedOn(both, Insert(both, front, p), last);
    }
  }

  lemma {:induction false} SortSorts(both: bool, s: seq<Pair>)
    ensures Sorted(both, Sort(both, s)) && multiset(Sort(both, s)) == multiset(s)
  {
    if s != [] {
      SortSorts(both, s[..|s| - 1]);
      InsertSorts(both, Sort(both, s[..|s| - 1]), s[|s| - 1]);
      InsertPermutes(both, Sort(both, s[..|s| - 1]), s[|s| - 1]);
      assert s == s[..|s| - 1] + [s[|s| - 1]];
    }
  }

  ghost predicate DistinctFirst(s: seq<Pair>) {
    forall p, q | p in s && q in s && p.0 == q.0 :: p == q
  }

  lemma {:induction false} LastsAgree(both: bool, a: seq<Pair>, b: seq<Pair>)
    requires a != [] && b != [] && Sorted(both, a) && Sorted(both, b)
    requires a[|a| - 1] in b && b[|b| - 1] in a
    requires both || (a[|a| - 1].0 == b[|b| - 1].0 ==> a[|a| - 1] == b[|b| - 1])
    ensures a[|a| - 1] == b[|b| - 1]
  {
    hide Ordered;
    var x, y := a[|a| - 1], b[|b| - 1];
    var i :| 0 <= i < |b| && b[i] == x;
    var j :| 0 <= j < |a| && a[j] == y;
    OrderedTotal(both, x, y);
    if i < |b| - 1 && j < |a| - 1 {
      assert Ordered(both, b[i], b[|b| - 1]) && Ordered(both, a[j], a[|a| - 1]);
    }
  }

  /** Sorted arrangements of the same pairs are equal, as soon as the order
      separates different pairs. */
  lemma {:induction false} SortedIsUnique(both: bool, a: seq<Pair>, b: seq<Pair>)
    requires Sorted(both, a) && Sorted(both, b) && multiset(a) == multiset(b)
    requires both || DistinctFirst(a)
    ensures a == b
  {
    hide Ordered;
    SameSize(a, b);
    if a != [] {
      var n := |a| - 1;
      assert a[n] in multiset(b) && b[n] in multiset(a);
      LastsAgree(both, a, b);
      SameFront(a, b);
      SortedIsUnique(both, a[..n], b[..n]);
      assert a == a[..n] + [a[n]] && b == b[..n] + [b[n]];
    }
  }

  lemma {:induction false} SameSize(a: seq<Pair>, b: seq<Pair>)
    requires multiset(a) == multiset(b)
    ensures |a| == |b|
  {
    assert |a| == |multiset(a)| && |b| == |multiset(b)|;
  }

  lemma {:induction false} SameFront(a: seq<Pair>, b: seq<Pair>)
    requires multiset(a) == multiset(b) && |a| == |b| > 0 && a[|a| - 1] == b[|b| - 1]
    ensures multiset(a[..|a| - 1]) == multiset(b[..|b| - 1])
  {
    FrontBag(a);
    FrontBag(b);
  }

  lemma {:induction false} FrontBag(a: seq<Pair>)
    requires a != []
    ensures multiset(a[..|a| - 1]) == multiset(a) - multiset{a[|a| - 1]}
  {
    assert a == a[..|a| - 1] + [a[|a| - 1]];
  }

  // ------------------------------------------------------------ the encoding

  const HEADER := "migr8-fingerprint/1\n"

  function RequiredBytes(ordered: seq<Pair>): Bytes {
    BigEndian(|ordered|, 8) + Fields("type", "name", ordered)
  }

  /** The canonical bytes of an input whose lists are already in order. */
  function Encoded(data: Input): Bytes {
    Ascii(HEADER) + Field("language", data.language) + Field("mode", data.mode) + Field("entry", data.entry)
    + Field("require_valid", RequiredBytes(data.required)) + Field("count", BigEndian(|data.files|, 8))
    + Fields("path", "data", data.files)
  }

  /** The same input with its two lists in canonical order. */
  function Canonical(data: Input): Input {
    data.(required := Sort(true, data.required), files := Sort(false, data.files))
  }

  /** What the fixed-width length prefixes can hold. */
  predicate Encodable(data: Input) {
    && |data.language| < Power(8) && |data.mode| < Power(8) && |data.entry| < Power(8)
    && Short(data.required) && Short(data.files)
    && |RequiredBytes(Sort(true, data.required))| < Power(8)
  }

  /** Read canonical bytes back. */
  function Decode(bytes: Bytes): Option<Input> {
    var header := Ascii(HEADER);
    if |bytes| < |header| || bytes[..|header|] != header then None
    else
      var language := TakeField(bytes[|header|..], "language");
      if language.None? then None
      else
        var mode := TakeField(language.value.1, "mode");
        if mode.None? then None
        else
          var entry := TakeField(mode.value.1, "entry");
          if entry.None? then None else DecodeLists(language.value.0, mode.value.0, entry.value.0, entry.value.1)
  }

  function DecodeLists(language: Bytes, mode: Bytes, entry: Bytes, bytes: Bytes): Option<Input> {
    var required := TakeField(bytes, "require_valid");
    if required.None? || |required.value.0| < 8 then None
    else
      var objects := TakeFields(required.value.0[8..], "type", "name", ReadBigEndian(required.value.0[..8]));
      var count := TakeField(required.value.1, "count");
      if objects.None? || count.None? then None
      else
        var files := TakeFields(count.value.1, "path", "data", ReadBigEndian(count.value.0));
        if files.None? then None else Some(Input(language, mode, entry, objects.value.0, files.value.0))
  }

  lemma {:induction false} SortKeepsShort(both: bool, s: seq<Pair>)
    requires Short(s)
    ensures Short(Sort(both, s))
  {
    SortSorts(both, s);
    var t := Sort(both, s);
    assert |t| == |multiset(t)| == |multiset(s)| == |s|;
    forall i | 0 <= i < |t| ensures |t[i].0| < Power(8) && |t[i].1| < Power(8) {
      assert t[i] in multiset(t);
      assert t[i] in s;
    }
  }

  lemma {:induction false} ListsRoundTrip(data: Input)
    requires Short(data.required) && Short(data.files) && |RequiredBytes(data.required)| < Power(8)
    ensures DecodeLists(data.language, data.mode, data.entry,
                        Field("require_valid", RequiredBytes(data.required)) + (Field("count", BigEndian(|data.files|, 8))
                        + Fields("path", "data", data.files))) == Some(data)
  {
    hide Field, TakeField, Fields, TakeFields, Power, BigEndian, ReadBigEndian;
    var required, count := RequiredBytes(data.required), BigEndian(|data.files|, 8);
    var files := Fields("path", "data", data.files);
    FieldRoundTrip("require_valid", required, Field("count", count) + files);
    assert required[..8] == BigEndian(|data.required|, 8);
    assert required[8..] == Fields("type", "name", data.required);
    assert required[8..] + [] == required[8..] && files + [] == files;
    BigEndianRoundTrip(|data.required|, 8);
    FieldsRoundTrip("type", "name", data.required, []);
    EightIsShort();
    FieldRoundTrip("count", count, files);
    BigEndianRoundTrip(|data.files|, 8);
    FieldsRoundTrip("path", "data", data.files, []);
  }

  lemma {:induction false} EightIsShort()
    ensures 8 < Power(8)
  {
    assert Power(2) == 65536;
  }

  /** Decoding recovers everything that was encoded. */
  lemma {:induction false} DecodeRecovers(data: Input)
    requires |data.language| < Power(8) && |data.mode| < Power(8) && |data.entry| < Power(8)
    requires Short(data.required) && Short(data.files) && |RequiredBytes(data.required)| < Power(8)
    ensures Decode(Encoded(data)) == Some(data)
  {
    hide Field, TakeField, Fields, TakeFields, RequiredBytes, Power, BigEndian, Ascii, DecodeLists;
    var lists := Field("require_valid", RequiredBytes(data.required)) + (Field("count", BigEndian(|data.files|, 8))
                 + Fields("path", "data", data.files));
    var afterMode := Field("entry", data.entry) + lists;
    var afterLanguage := Field("mode", data.mode) + afterMode;
    var body := Field("language", data.language) + afterLanguage;
    assert Encoded(data) == Ascii(HEADER) + body;
    assert Encoded(data)[|Ascii(HEADER)|..] == body;
    FieldRoundTrip("language", data.language, afterLanguage);
    FieldRoundTrip("mode", data.mode, afterMode);
    FieldRoundTrip("entry", data.entry, lists);
    ListsRoundTrip(data);
  }

  /** The same definition, up to the order its lists were declared in. */
  ghost predicate SameDefinition(a: Input, b: Input) {
    && a.language == b.language && a.mode == b.mode && a.entry == b.entry
    && multiset(a.required) == multiset(b.required)
    && multiset(a.files) == multiset(b.files)
  }

  lemma {:induction false} CanonicalAgrees(a: Input, b: Input)
    requires DistinctFirst(a.files) && DistinctFirst(b.files)
    ensures Canonical(a) == Canonical(b) <==> SameDefinition(a, b)
  {
    SortSorts(true, a.required);
    SortSorts(true, b.required);
    SortSorts(false, a.files);
    SortSorts(false, b.files);
    assert DistinctFirst(Sort(false, a.files)) by {
      assert forall p :: p in Sort(false, a.files) <==> p in multiset(a.files);
    }
    if SameDefinition(a, b) {
      SortedIsUnique(true, Sort(true, a.required), Sort(true, b.required));
      SortedIsUnique(false, Sort(false, a.files), Sort(false, b.files));
    }
  }

  /** Two inputs encode to the same bytes exactly when they are the same
      definition up to reordering of required objects and files. */
  lemma {:induction false} EncodingIdentifiesDefinitions(a: Input, b: Input)
    requires Encodable(a) && Encodable(b) && DistinctFirst(a.files) && DistinctFirst(b.files)
    ensures Encoded(Canonical(a)) == Encoded(Canonical(b)) <==> SameDefinition(a, b)
  {
    CanonicalAgrees(a, b);
    SortKeepsShort(true, a.required);
    SortKeepsShort(true, b.required);
    SortKeepsShort(false, a.files);
    SortKeepsShort(false, b.files);
    DecodeRecovers(Canonical(a));
    DecodeRecovers(Canonical(b));
  }

  /** The list of required objects, accumulated in order. */
  method EncodeRequired(required: seq<Pair>) returns (out: Bytes)
    ensures out == RequiredBytes(Sort(true, required))
  {
    hide Field, Sort, BigEndian, Ascii;
    var ordered := Sort(true, required);
    out := BigEndian(|ordered|, 8);
    for n := 0 to |ordered|
      invariant out == BigEndian(|ordered|, 8) + Fields("type", "name", ordered[..n])
    {
      ghost var before := out;
      out := out + Field("type", ordered[n].0);
      out := out + Field("name", ordered[n].1);
      assert out == before + PairBytes("type", "name", ordered[n]);
      assert ordered[..n + 1][..n] == ordered[..n];
    }
    assert ordered[..|ordered|] == ordered;
  }

  /** The exact bytes that are hashed: whoever decodes them gets the input back,
      with its lists in canonical order. */
  method CanonicalBytes(data: Input) returns (out: Bytes)
    ensures out == Encoded(Canonical(data))
    ensures Encodable(data) ==> Decode(out) == Some(Canonical(data))
  {
    hide Field, Sort, BigEndian, Ascii, Power, Decode, Short, RequiredBytes;
    var files := Sort(false, data.files);
    out := Ascii(HEADER) + Field("language", data.language) + Field("mode", data.mode) + Field("entry", data.entry);
    var required := EncodeRequired(data.required);
    out := out + Field("require_valid", required) + Field("count", BigEndian(|files|, 8));
    ghost var lead := out;
    for n := 0 to |files|
      invariant out == lead + Fields("path", "data", files[..n])
    {
      ghost var before := out;
      out := out + Field("path", files[n].0);
      out := out + Field("data", files[n].1);
      assert out == before + PairBytes("path", "data", files[n]);
      assert files[..n + 1][..n] == files[..n];
    }
    assert files[..|files|] == files;
    if Encodable(data) {
      SortKeepsShort(true, data.required);
      SortKeepsShort(false, data.files);
      DecodeRecovers(Canonical(data));
    }
  }

  // -------------------------------------------------------- the text of one

  function HexDigit(n: nat): char
    requires n < 16
  {
    if n < 10 then '0' + n as char else 'a' + (n - 10) as char
  }

  function Hex(digest: Bytes): string {
    if digest == [] then "" else [HexDigit(digest[0] / 16), HexDigit(digest[0] % 16)] + Hex(digest[1..])
  }

  /** The text of a fingerprint. */
  function Text(digest: Bytes): string {
    "fp1:" + Hex(digest)
  }

  function HexValue(c: char): (n: nat)
    requires LowerHexDigit(c)
    ensures n < 16 && HexDigit(n) == c
  {
    if c <= '9' then c as int - '0' as int else c as int - 'a' as int + 10
  }

  lemma {:induction false} DigitsAreHex(n: nat)
    requires n < 16
    ensures LowerHexDigit(HexDigit(n)) && HexValue(HexDigit(n)) == n
  {
  }

  lemma {:induction false} HexIsHex(digest: Bytes)
    ensures |Hex(digest)| == 2 * |digest| && forall i | 0 <= i < |Hex(digest)| :: LowerHexDigit(Hex(digest)[i])
  {
    if digest != [] {
      HexIsHex(digest[1..]);
      DigitsAreHex(digest[0] / 16);
      DigitsAreHex(digest[0] % 16);
    }
  }

  /** Every text of hexadecimal pairs is that of some bytes. */
  lemma {:induction false} Unhex(s: string) returns (digest: Bytes)
    requires |s| % 2 == 0 && forall i | 0 <= i < |s| :: LowerHexDigit(s[i])
    ensures Hex(digest) == s
    decreases |s|
  {
    if s == [] {
      digest := [];
    } else {
      var rest := Unhex(s[2..]);
      var first := 16 * HexValue(s[0]) + HexValue(s[1]);
      digest := [first] + rest;
      assert digest[1..] == rest && first / 16 == HexValue(s[0]) && first % 16 == HexValue(s[1]);
      assert s == [s[0], s[1]] + s[2..];
    }
  }

  /** A recorded fingerprint is supported if and only if it is the text of some
      32-byte digest. */
  lemma {:induction false} SupportedIsText(value: string)
    ensures SupportedFingerprint(value) <==> exists digest: Bytes :: |digest| == 32 && value == Text(digest)
  {
    if SupportedFingerprint(value) {
      var hex := value[4..];
      assert value == value[..4] + hex;
      assert forall i | 0 <= i < |hex| :: hex[i] == value[i + 4];
      var digest := Unhex(hex);
      HexIsHex(digest);
      assert value == Text(digest);
    }
    forall digest: Bytes | |digest| == 32 && value == Text(digest) ensures SupportedFingerprint(value) {
      HexIsHex(digest);
      assert value[..4] == "fp1:";
      assert forall i | 4 <= i < 68 :: value[i] == Hex(digest)[i - 4];
    }
  }

  /** And different digests have different texts. */
  lemma {:induction false} TextIdentifies(a: Bytes, b: Bytes)
    requires Hex(a) == Hex(b)
    ensures a == b
  {
    HexIsHex(a);
    HexIsHex(b);
    if a != [] {
      DigitsAreHex(a[0] / 16);
      DigitsAreHex(a[0] % 16);
      DigitsAreHex(b[0] / 16);
      DigitsAreHex(b[0] % 16);
      assert Hex(a)[0] == Hex(b)[0] && Hex(a)[1] == Hex(b)[1];
      assert Hex(a)[2..] == Hex(a[1..]) && Hex(b)[2..] == Hex(b[1..]);
      TextIdentifies(a[1..], b[1..]);
      assert a == [a[0]] + a[1..] && b == [b[0]] + b[1..];
    }
  }
}
