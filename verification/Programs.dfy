/** Author code as the facade meets it: a program is whatever decides on its next
    call from the answers it has had, and what it would do if nothing failed is a
    function of the data it finds. */
module Programs {
  import opened Model
  import opened Durable
  import opened Driver
  import opened Adapter

  /** One facade call.  `legal` is the verdict of normalisation and admission
      that does not depend on the mode; `procedural` marks a block with
      transactions of its own.  Batch objects are numbered as they are made; entering
      and leaving them is not bound to a `with` block, so an author may exit any
      of them at any time, and any number of times. */
  datatype FacadeCall =
    | Execute(write: Option<Write>, procedural: bool, legal: bool)
    | ProgressGet(key: string)
    | ProgressSet(key: string, value: string)
    | NewBatch
    | EnterBatch(batch: nat)
    | ExitBatch(batch: nat, failed: bool)
    | Ddl(write: Option<Write>, legal: bool)

  datatype Value = Nothing | Rows(rows: seq<Write>) | Text(text: Option<string>)

  /** What author code does next, given every answer it has had so far: it may
      carry on after any error, raise any error, or return. */
  datatype Action = Do(call: FacadeCall) | Return | ReturnValue | Raise(error: Error)

  type Strategy = seq<Result<Value>> -> Action

  /** The data author code can see: application data and checkpoints. */
  datatype Store = Store(app: seq<Write>, progress: seq<ProgressRow>)

  function StoreOf(t: Tables): Store {
    Store(t.app, t.progress)
  }

  /** A whole author program.  It ends within a number of actions that depends on
      the data it starts from; past that an interrupt cuts it off. */
  datatype Author = Author(next: Strategy, budget: Store -> nat)

  // ---------------------------------------------------------- progress rules

  const PROGRESS_KEY_MAX_CHARS := 128
  const PROGRESS_VALUE_MAX_BYTES := 4000

  predicate ValidKey(key: string) {
    0 < |key| <= PROGRESS_KEY_MAX_CHARS && forall i | 0 <= i < |key| :: key[i] as int < 128
  }

  function Utf8Length(value: string): nat {
    if value == [] then 0
    else
      var c := value[0] as int;
      (if c < 0x80 then 1 else if c < 0x800 then 2 else if c < 0x1_0000 then 3 else 4) + Utf8Length(value[1..])
  }

  predicate ValidValue(value: string) {
    value != "" && Utf8Length(value) <= PROGRESS_VALUE_MAX_BYTES
  }

  /** The UTF-8 bytes of one character, and of a text. */
  function Utf8Char(c: char): seq<int> {
    var n := c as int;
    if n < 0x80 then [n]
    else if n < 0x800 then [0xC0 + n / 0x40, 0x80 + n % 0x40]
    else if n < 0x1_0000 then [0xE0 + n / 0x1000, 0x80 + n / 0x40 % 0x40, 0x80 + n % 0x40]
    else [0xF0 + n / 0x4_0000, 0x80 + n / 0x1000 % 0x40, 0x80 + n / 0x40 % 0x40, 0x80 + n % 0x40]
  }

  function Utf8(s: string): seq<int> {
    if s == [] then [] else Utf8Char(s[0]) + Utf8(s[1..])
  }

  /** A key is 1 to 128 ASCII characters. */
  lemma {:induction false} KeysAreShortAscii(key: string)
    ensures ValidKey(key) <==> 1 <= |key| <= 128 && forall c | c in key :: 0 <= c as int <= 127
  {
    if ValidKey(key) {
      forall c | c in key ensures c as int <= 127 {
        var i :| 0 <= i < |key| && key[i] == c;
      }
    }
    assert forall i | 0 <= i < |key| :: key[i] in key;
  }

  lemma {:induction false} Utf8LengthCounts(value: string)
    ensures |Utf8(value)| == Utf8Length(value)
  {
    if value != [] {
      Utf8LengthCounts(value[1..]);
    }
  }

  /** A value is 1 to 4000 bytes of UTF-8. */
  lemma {:induction false} ValuesAreShort(value: string)
    ensures ValidValue(value) <==> 1 <= |Utf8(value)| <= 4000
  {
    Utf8LengthCounts(value);
  }

  // ------------------------------------------------------- if nothing fails

  /** Where a program stands: what is durable, what is pending in the transaction it
      is in, the batch it has open, and how many batch objects it has made. */
  datatype View = View(durable: Store, work: Option<Store>, open: Option<nat>, made: nat)

  function Seen(v: View): Store {
    if v.work.Some? then v.work.value else v.durable
  }

  function Put(v: View, store: Store): View {
    if v.work.Some? then v.(work := Some(store)) else v.(durable := store)
  }

  function Written(store: Store, write: Option<Write>): Store {
    if write.Some? then store.(app := store.app + [write.value]) else store
  }

  /** A call that is in order here. */
  predicate Fits(call: FacadeCall, restartable: bool, v: View) {
    match call
    case Execute(write, procedural, legal) => legal && (restartable && v.open.None? ==> write.None? || procedural)
    case ProgressGet(key) => restartable && ValidKey(key)
    case ProgressSet(key, value) => v.open.Some? && restartable && ValidKey(key) && ValidValue(value)
    case NewBatch => restartable
    case EnterBatch(batch) => restartable && v.open.None? && batch < v.made
    case ExitBatch(batch, failed) => v.open == Some(batch) && v.work.Some? && !failed
    case Ddl(write, legal) => restartable && v.open.None? && legal
  }

  /** Where such a call leads, if it does not fail. */
  function NextView(id: string, v: View, call: FacadeCall): View {
    match call
    case Execute(write, _, _) => Put(v, Written(Seen(v), write))
    case ProgressGet(_) => v
    case ProgressSet(key, value) => Put(v, Seen(v).(progress := Upsert(Seen(v).progress, ProgressRow(id, key, value))))
    case NewBatch => v.(made := v.made + 1)
    case EnterBatch(batch) => v.(work := Some(v.durable), open := Some(batch))
    case ExitBatch(_, _) => v.(durable := Seen(v), work := None, open := None)
    case Ddl(write, _) => v.(durable := Written(v.durable, write))
  }

  /** And what it answers. */
  function AnswerOf(id: string, v: View, call: FacadeCall): Value {
    match call
    case Execute(_, _, _) => Rows(Seen(NextView(id, v, call)).app)
    case ProgressGet(key) => Text(Lookup(Seen(v).progress, id, key))
    case _ => Nothing
  }

  /** Where a program ends when nothing fails, if it returns normally within its
      budget with every batch exited and every call in order. */
  ghost function Play(next: Strategy, id: string, restartable: bool, replies: seq<Result<Value>>, v: View, budget: nat): Option<View>
    decreases budget
  {
    if budget == 0 then None
    else
      match next(replies)
      case Return => if v.open.None? then Some(v) else None
      case ReturnValue => None
      case Raise(_) => None
      case Do(call) =>
        if !Fits(call, restartable, v) then None
        else Play(next, id, restartable, replies + [Returned(AnswerOf(id, v, call))], NextView(id, v, call), budget - 1)
  }

  lemma {:induction false} Playing(next: Strategy, id: string, restartable: bool, replies: seq<Result<Value>>, v: View, budget: nat)
    ensures var play := Play(next, id, restartable, replies, v, budget);
            play.Some? ==>
              budget > 0 && match next(replies)
              case Return => v.open.None? && play == Some(v)
              case ReturnValue => false
              case Raise(_) => false
              case Do(call) =>
                && Fits(call, restartable, v)
                && Play(next, id, restartable, replies + [Returned(AnswerOf(id, v, call))], NextView(id, v, call), budget - 1) == play
  {
  }

  /** A program enters a transaction that holds nothing yet, or none. */
  function EntryView(restartable: bool, store: Store): View {
    View(store, if restartable then None else Some(store), None, 0)
  }

  /** Durable data that the program passes through when nothing fails. */
  ghost predicate Passes(next: Strategy, id: string, restartable: bool, replies: seq<Result<Value>>, v: View, budget: nat, store: Store)
    decreases budget
  {
    || store == v.durable
    || (budget > 0 && next(replies).Do? &&
        var call := next(replies).call;
        && Fits(call, restartable, v)
        && Passes(next, id, restartable, replies + [Returned(AnswerOf(id, v, call))], NextView(id, v, call), budget - 1, store))
  }

  /** At most one durable state was added, and its data is `store`. */
  ghost predicate Within(before: seq<Tables>, after: seq<Tables>, store: Store) {
    || after == before
    || (|after| == |before| + 1 && before <= after && StoreOf(Last(after)) == store)
  }

  // --------------------------------------------------------------- manners

  /** The batch a program that uses `with` blocks is in. */
  function BlockAfter(call: FacadeCall, block: Option<nat>, reply: Result<Value>): Option<nat> {
    if call.EnterBatch? && reply.Returned? then Some(call.batch)
    else if call.ExitBatch? then None
    else block
  }

  /** A program that leaves a batch with an exception only while it is inside it,
      as a `with` block does, whatever it is answered. */
  ghost predicate Bracketed(next: Strategy, replies: seq<Result<Value>>, block: Option<nat>, budget: nat)
    decreases budget
  {
    budget > 0 && next(replies).Do? ==>
      var call := next(replies).call;
      && (call.ExitBatch? && call.failed ==> block == Some(call.batch))
      && forall reply: Result<Value> :: Bracketed(next, replies + [reply], BlockAfter(call, block, reply), budget - 1)
  }

  /** A program that never returns normally once it has been answered with an
      interrupt or an outcome in doubt. */
  ghost predicate Candid(next: Strategy, replies: seq<Result<Value>>, shaken: bool, budget: nat)
    decreases budget
  {
    budget > 0 ==>
      && (next(replies).Return? ==> !shaken)
      && (next(replies).Do? ==>
            forall reply: Result<Value> ::
              Candid(next, replies + [reply], shaken || (reply.Threw? && Grave(reply.error)), budget - 1))
  }

  lemma {:induction false} StillBracketed(next: Strategy, replies: seq<Result<Value>>, block: Option<nat>, budget: nat, reply: Result<Value>)
    requires budget > 0 && next(replies).Do?
    ensures var call := next(replies).call;
            Bracketed(next, replies, block, budget) ==>
              && (call.ExitBatch? && call.failed ==> block == Some(call.batch))
              && Bracketed(next, replies + [reply], BlockAfter(call, block, reply), budget - 1)
  {
  }

  lemma {:induction false} StillCandid(next: Strategy, replies: seq<Result<Value>>, shaken: bool, budget: nat, reply: Result<Value>)
    requires budget > 0
    ensures Candid(next, replies, shaken, budget) && next(replies).Return? ==> !shaken
    ensures Candid(next, replies, shaken, budget) && next(replies).Do? ==>
              Candid(next, replies + [reply], shaken || (reply.Threw? && Grave(reply.error)), budget - 1)
  {
  }

  /** A program that, once a call has failed, makes no call but the exit of its batch
      with that exception, and never returns normally. */
  ghost predicate Straight(next: Strategy, replies: seq<Result<Value>>, broken: bool, budget: nat)
    decreases budget
  {
    budget > 0 ==>
      && (next(replies).Return? ==> !broken)
      && (next(replies).Do? ==>
            && (broken ==> next(replies).call.ExitBatch? && next(replies).call.failed)
            && forall reply: Result<Value> :: Straight(next, replies + [reply], broken || reply.Threw?, budget - 1))
  }

  lemma {:induction false} StraightIsCandid(next: Strategy, replies: seq<Result<Value>>, broken: bool, shaken: bool, budget: nat)
    requires Straight(next, replies, broken, budget) && (shaken ==> broken)
    ensures Candid(next, replies, shaken, budget)
    decreases budget
  {
    if budget > 0 && next(replies).Do? {
      forall reply: Result<Value>
        ensures Candid(next, replies + [reply], shaken || (reply.Threw? && Grave(reply.error)), budget - 1)
      {
        StraightIsCandid(next, replies + [reply], broken || reply.Threw?, shaken || (reply.Threw? && Grave(reply.error)), budget - 1);
      }
    }
  }

  /** A program that started at `v0` and stands at `v`: every durable state it has
      added is one that it passes through when nothing fails, and until a call has
      failed it is where it would be then. */
  ghost predicate OnTrack(next: Strategy, id: string, restartable: bool, v0: View, budget: nat, before: seq<Tables>,
                          replies: seq<Result<Value>>, v: View, left: nat, broken: bool, after: seq<Tables>)
  {
    && Straight(next, replies, broken, left)
    && before <= after
    && (forall i | |before| <= i < |after| :: Passes(next, id, restartable, [], v0, budget, StoreOf(after[i])))
    && (!broken ==>
          && Play(next, id, restartable, replies, v, left) == Play(next, id, restartable, [], v0, budget)
          && forall store :: Passes(next, id, restartable, replies, v, left, store) ==> Passes(next, id, restartable, [], v0, budget, store))
  }

  lemma {:induction false} TrackMeans(next: Strategy, id: string, restartable: bool, v0: View, budget: nat, before: seq<Tables>,
                                      replies: seq<Result<Value>>, v: View, left: nat, broken: bool, after: seq<Tables>)
    requires OnTrack(next, id, restartable, v0, budget, before, replies, v, left, broken, after)
    ensures !broken ==> Play(next, id, restartable, replies, v, left) == Play(next, id, restartable, [], v0, budget)
    ensures broken && left > 0 && next(replies).Do? ==> next(replies).call.ExitBatch? && next(replies).call.failed
  {
  }

  lemma {:induction false} OnTrackAtFirst(next: Strategy, id: string, restartable: bool, v: View, budget: nat, trail: seq<Tables>)
    requires Straight(next, [], false, budget)
    ensures OnTrack(next, id, restartable, v, budget, trail, [], v, budget, false, trail)
  {
  }

  /** One more call, whether it returns or fails, keeps the program on its track. */
  lemma {:induction false} OnTrackStill(next: Strategy, id: string, restartable: bool, v0: View, budget: nat, before: seq<Tables>,
                                        replies: seq<Result<Value>>, v: View, left: nat, broken: bool, after: seq<Tables>,
                                        reply: Result<Value>, v': View, after': seq<Tables>)
    requires OnTrack(next, id, restartable, v0, budget, before, replies, v, left, broken, after)
    requires left > 0 && next(replies).Do? && (!broken ==> Play(next, id, restartable, replies, v, left).Some?)
    requires var call := next(replies).call;
             && (call.ExitBatch? && call.failed ==> after' == after)
             && (!broken && Fits(call, restartable, v) ==>
                   && Within(after, after', NextView(id, v, call).durable)
                   && (reply.Returned? ==> v' == NextView(id, v, call) && reply.value == AnswerOf(id, v, call)))
    ensures OnTrack(next, id, restartable, v0, budget, before, replies + [reply], v', left - 1, broken || reply.Threw?, after')
  {
    var call := next(replies).call;
    assert Straight(next, replies + [reply], broken || reply.Threw?, left - 1);
    if !broken {
      Playing(next, id, restartable, replies, v, left);
      hide Straight, Play, Fits, NextView, AnswerOf;
      var on, onward := Returned(AnswerOf(id, v, call)), NextView(id, v, call);
      assert Passes(next, id, restartable, replies + [on], onward, left - 1, onward.durable);
      forall store | Passes(next, id, restartable, replies + [on], onward, left - 1, store)
        ensures Passes(next, id, restartable, [], v0, budget, store)
      {
        assert Passes(next, id, restartable, replies, v, left, store);
      }
    }
  }
}
