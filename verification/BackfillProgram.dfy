/** The backfill as author code: the facade calls it makes, one after the other,
    and what it does with each answer. */
module BackfillProgram {
  import opened Model
  import opened Durable
  import opened Driver
  import opened Adapter
  import opened Programs
  import opened Engine
  import opened Backfill
  import opened StateValidate
  import opened Runners

  // ----------------------------------------------------------- the selection

  lemma {:induction false} LeastExists(ids: set<int>)
    requires ids != {}
    ensures exists least :: least in ids && forall id | id in ids :: least <= id
    decreases |ids|
  {
    NonEmpty(ids);
    var some :| some in ids;
    if ids != {some} {
      var rest := ids - {some};
      assert rest != {} by {
        assert rest == {} ==> ids == {some};
      }
      LeastExists(rest);
      var other :| other in rest && forall id | id in rest :: other <= id;
      var least := if some < other then some else other;
      assert least in ids && forall id | id in ids :: id == some || id in rest;
    }
  }

  function LeastOf(ids: set<int>): (least: int)
    requires ids != {}
    ensures least in ids && forall id | id in ids :: least <= id
  {
    LeastExists(ids);
    var least :| least in ids && forall id | id in ids :: least <= id;
    least
  }

  /** The query's answer: the lowest of these ids, in order. */
  function Lowest(ids: set<int>, limit: nat): seq<int> {
    if limit == 0 || ids == {} then []
    else var least := LeastOf(ids); [least] + Lowest(ids - {least}, limit - 1)
  }

  lemma {:induction false} LowestAre(ids: set<int>, limit: nat)
    ensures var lowest := Lowest(ids, limit);
            && Ascending(lowest) && Members(lowest) <= ids && |lowest| <= limit
            && (lowest == [] ==> limit == 0 || ids == {})
            && (lowest != [] ==> forall id | id in ids - Members(lowest) :: lowest[|lowest| - 1] < id)
  {
    if limit > 0 && ids != {} {
      var least := LeastOf(ids);
      var rest := Lowest(ids - {least}, limit - 1);
      LowestAre(ids - {least}, limit - 1);
      var lowest := [least] + rest;
      assert Lowest(ids, limit) == lowest;
      forall id | id in Members(lowest) ensures id in ids {
        assert id == least || id in Members(rest);
      }
      forall i, j | 0 <= i < j < |lowest| ensures lowest[i] < lowest[j] {
        assert lowest[j] == rest[j - 1] && rest[j - 1] in Members(rest);
      }
      forall id | id in ids - Members(lowest) ensures lowest[|lowest| - 1] < id {
        assert least in Members(lowest) && id != least;
        assert id in (ids - {least}) - Members(rest) && least <= id;
        if rest == [] {
          assert lowest[|lowest| - 1] == least;
        } else {
          assert lowest[|lowest| - 1] == rest[|rest| - 1];
        }
      }
    }
  }

  // -------------------------------------------------------------- the program

  datatype Stage =
    | Loading
    | Making(last: int)
    | Entering(last: int)
    | Selecting(last: int)
    | Updating(ids: seq<int>, at: nat, changed: nat)
    | Saving(ids: seq<int>)
    | Leaving(next: Option<int>)
    | Failing(error: Error)
    | Stopped(error: Error)
    | Over

  /** Where the program is, and how many batch objects it has made. */
  datatype State = State(stage: Stage, made: nat)

  function Current(s: State): nat {
    if s.made == 0 then 0 else s.made - 1
  }

  function ActionOf(s: State): Action {
    match s.stage
    case Loading => Do(ProgressGet(KEY))
    case Making(_) => Do(NewBatch)
    case Entering(_) => Do(EnterBatch(Current(s)))
    case Selecting(_) => Do(FacadeCall.Execute(None, false, true))
    case Updating(ids, at, _) =>
      if at < |ids| && ids[at] >= 0 then Do(FacadeCall.Execute(Some(ids[at]), false, true)) else Raise(AuthorError)
    case Saving(ids) =>
      if ids != [] && ids[|ids| - 1] >= 0 then Do(ProgressSet(KEY, Show(ids[|ids| - 1]))) else Raise(AuthorError)
    case Leaving(_) => Do(ExitBatch(Current(s), false))
    case Failing(_) => Do(ExitBatch(Current(s), true))
    case Stopped(e) => Raise(e)
    case Over => Return
  }

  /** On to the next row that is still NULL; after the last one, compare the count. */
  function Advance(job: Job, ids: seq<int>, at: nat, changed: nat, rows: seq<Write>): Stage
    decreases |ids| - at
  {
    if at >= |ids| then
      if changed == |ids| then Saving(ids) else Failing(AuthorError)
    else
      var table := Table(job, Store(rows, []));
      if ids[at] in table && table[ids[at]].None? then Updating(ids, at, changed) else Advance(job, ids, at + 1, changed, rows)
  }

  function RowsOf(value: Value): seq<Write> {
    if value.Rows? then value.rows else []
  }

  function After(job: Job, s: State, reply: Result<Value>): State {
    match reply
    case Threw(e) =>
      s.(stage := if s.stage.Selecting? || s.stage.Updating? || s.stage.Saving? then Failing(e) else Stopped(e))
    case Returned(value) =>
      match s.stage
      case Loading =>
        s.(stage := Making(if value.Text? && value.text.Some? then Read(value.text.value) else 0))
      case Making(last) => State(Entering(last), s.made + 1)
      case Entering(last) => s.(stage := Selecting(last))
      case Selecting(last) =>
        var ids := Lowest(Candidates(Table(job, Store(RowsOf(value), [])), last), job.batchSize);
        s.(stage := if ids == [] then Leaving(None) else Advance(job, ids, 0, 0, RowsOf(value)))
      case Updating(ids, at, changed) => s.(stage := Advance(job, ids, at + 1, changed + 1, RowsOf(value)))
      case Saving(ids) => s.(stage := if ids == [] then Over else Leaving(Some(ids[|ids| - 1])))
      case Leaving(next) => s.(stage := if next.Some? then Making(next.value) else Over)
      case Failing(e) => s.(stage := Stopped(e))
      case Stopped(_) => s
      case Over => s
  }

  function StateAfter(job: Job, replies: seq<Result<Value>>): State {
    if replies == [] then State(Loading, 0)
    else After(job, StateAfter(job, replies[..|replies| - 1]), replies[|replies| - 1])
  }

  /** Enough for every row that may be left: how often the loop turns depends on
      the data. */
  function Needed(job: Job, store: Store): nat {
    6 + 6 * |Beyond(job, Checkpoint(job, store))|
  }

  function Program(job: Job): Author {
    Author(replies => ActionOf(StateAfter(job, replies)), store => Needed(job, store))
  }

  lemma {:induction false} OneMoreReply(job: Job, replies: seq<Result<Value>>, reply: Result<Value>)
    ensures StateAfter(job, replies + [reply]) == After(job, StateAfter(job, replies), reply)
  {
    assert (replies + [reply])[..|replies|] == replies;
  }

  // -------------------------------------------------------------- its manners

  predicate WithinBlock(stage: Stage) {
    stage.Selecting? || stage.Updating? || stage.Saving? || stage.Leaving? || stage.Failing?
  }

  /** It leaves a batch with an exception only from inside the block. */
  lemma {:induction false} IsBracketed(job: Job, replies: seq<Result<Value>>, block: Option<nat>, budget: nat)
    requires var s := StateAfter(job, replies); WithinBlock(s.stage) && !s.stage.Leaving? ==> block == Some(Current(s))
    ensures Bracketed(Program(job).next, replies, block, budget)
    decreases budget
  {
    var s := StateAfter(job, replies);
    if budget > 0 && ActionOf(s).Do? {
      forall reply: Result<Value> ensures
        Bracketed(Program(job).next, replies + [reply], BlockAfter(ActionOf(s).call, block, reply), budget - 1)
      {
        OneMoreReply(job, replies, reply);
        AdvanceStays(job, s, reply);
        IsBracketed(job, replies + [reply], BlockAfter(ActionOf(s).call, block, reply), budget - 1);
      }
    }
  }

  lemma {:induction false} Advancing(job: Job, ids: seq<int>, at: nat, changed: nat, rows: seq<Write>)
    ensures var stage := Advance(job, ids, at, changed, rows);
            || (stage.Updating? && stage.ids == ids && at <= stage.at < |ids| && stage.changed == changed)
            || (stage == Saving(ids) && changed == |ids|)
            || stage == Failing(AuthorError)
    decreases |ids| - at
  {
    if at < |ids| {
      Advancing(job, ids, at + 1, changed, rows);
    }
  }

  /** Which stages can follow which. */
  lemma {:induction false} AdvanceStays(job: Job, s: State, reply: Result<Value>)
    ensures var t := After(job, s, reply);
            && (WithinBlock(t.stage) && !t.stage.Leaving? ==>
                  Current(t) == Current(s) && (s.stage.Entering? || s.stage.Selecting? || s.stage.Updating?
                                               || (s.stage.Saving? && reply.Threw?)))
            && (s.stage.Entering? && WithinBlock(t.stage) ==> reply.Returned?)
            && (reply.Threw? ==> t.stage.Failing? || t.stage.Stopped?)
            && (s.stage.Failing? || s.stage.Stopped? ==> t.stage.Stopped?)
  {
    if reply.Returned? {
      match s.stage {
        case Selecting(last) =>
          var ids := Lowest(Candidates(Table(job, Store(RowsOf(reply.value), [])), last), job.batchSize);
          Advancing(job, ids, 0, 0, RowsOf(reply.value));
        case Updating(ids, at, changed) => Advancing(job, ids, at + 1, changed + 1, RowsOf(reply.value));
        case _ =>
      }
    }
  }

  /** After any error it only cleans up and raises. */
  lemma {:induction false} IsCandid(job: Job, replies: seq<Result<Value>>, shaken: bool, budget: nat)
    requires var s := StateAfter(job, replies); shaken ==> s.stage.Failing? || s.stage.Stopped?
    ensures Candid(Program(job).next, replies, shaken, budget)
    decreases budget
  {
    var s := StateAfter(job, replies);
    if budget > 0 && ActionOf(s).Do? {
      forall reply: Result<Value> ensures
        Candid(Program(job).next, replies + [reply], shaken || (reply.Threw? && Grave(reply.error)), budget - 1)
      {
        OneMoreReply(job, replies, reply);
        AdvanceStays(job, s, reply);
        IsCandid(job, replies + [reply], shaken || (reply.Threw? && Grave(reply.error)), budget - 1);
      }
    }
  }

  /** Not even after any other error. */
  lemma {:induction false} IsStraight(job: Job, replies: seq<Result<Value>>, broken: bool, budget: nat)
    requires var s := StateAfter(job, replies); broken ==> s.stage.Failing? || s.stage.Stopped?
    ensures Straight(Program(job).next, replies, broken, budget)
    decreases budget
  {
    var s := StateAfter(job, replies);
    if budget > 0 && ActionOf(s).Do? {
      forall reply: Result<Value> ensures Straight(Program(job).next, replies + [reply], broken || reply.Threw?, budget - 1) {
        OneMoreReply(job, replies, reply);
        AdvanceStays(job, s, reply);
        IsStraight(job, replies + [reply], broken || reply.Threw?, budget - 1);
      }
    }
  }

  // ------------------------------------------------------ what it plays to

  /** The play, told by the stages. */
  ghost function Follow(job: Job, s: State, v: View, budget: nat): Option<View>
    decreases budget
  {
    if budget == 0 then None
    else
      match ActionOf(s)
      case Return => if v.open.None? then Some(v) else None
      case ReturnValue => None
      case Raise(_) => None
      case Do(call) =>
        if !Fits(call, true, v) then None
        else Follow(job, After(job, s, Returned(AnswerOf(job.id, v, call))), NextView(job.id, v, call), budget - 1)
  }

  lemma {:induction false} PlayFollows(job: Job, replies: seq<Result<Value>>, v: View, budget: nat)
    ensures Play(Program(job).next, job.id, true, replies, v, budget) == Follow(job, StateAfter(job, replies), v, budget)
    decreases budget
  {
    hide After, StateAfter, ActionOf, Fits, NextView, AnswerOf, Needed;
    var s := StateAfter(job, replies);
    if budget > 0 && ActionOf(s).Do? && Fits(ActionOf(s).call, true, v) {
      var call := ActionOf(s).call;
      var reply := Returned(AnswerOf(job.id, v, call));
      OneMoreReply(job, replies, reply);
      PlayFollows(job, replies + [reply], NextView(job.id, v, call), budget - 1);
    }
  }

  /** One call, in order, and on. */
  lemma {:induction false} Goes(job: Job, s: State, v: View, budget: nat)
    requires budget > 0 && ActionOf(s).Do? && Fits(ActionOf(s).call, true, v)
    ensures var call := ActionOf(s).call;
            Follow(job, s, v, budget)
              == Follow(job, After(job, s, Returned(AnswerOf(job.id, v, call))), NextView(job.id, v, call), budget - 1)
  {
  }

  lemma {:induction false} UpdatePlays(job: Job, made: nat, ids: seq<int>, n: nat, v: View, budget: nat)
    requires n < |ids| && ids[n] >= 0 && budget > 0 && v.open.Some? && v.work.Some?
    ensures var now := v.work.value.(app := v.work.value.app + [ids[n]]);
            Follow(job, State(Updating(ids, n, n), made), v, budget)
              == Follow(job, State(Advance(job, ids, n + 1, n + 1, now.app), made), v.(work := Some(now)), budget - 1)
  {
    hide Follow, Advance;
    Goes(job, State(Updating(ids, n, n), made), v, budget);
  }

  /** The next row of a batch is still NULL. */
  lemma {:induction false} NextRow(job: Job, store: Store, ids: seq<int>, n: nat)
    requires Progressed(job, store) && Selected(job, store, ids) && (forall i | 0 <= i < |ids| :: ids[i] >= 0) && n < |ids|
    ensures Advance(job, ids, n, n, store.app + Naturals(ids[..n])) == Updating(ids, n, n)
    ensures store.app + Naturals(ids[..n]) + [ids[n]] == store.app + Naturals(ids[..n + 1])
  {
    hide Progressed, Selected, Table;
    StillNull(job, store, ids, n);
    SameTable(job, store.(app := store.app + Naturals(ids[..n])));
  }

  /** The rows of a batch, one by one. */
  lemma {:induction false} UpdatesPlay(job: Job, made: nat, store: Store, ids: seq<int>, n: nat, v: View, budget: nat)
    requires Progressed(job, store) && Selected(job, store, ids) && (forall i | 0 <= i < |ids| :: ids[i] >= 0)
    requires n < |ids| && budget >= |ids| - n
    requires v.open.Some? && v.work == Some(store.(app := store.app + Naturals(ids[..n])))
    ensures Follow(job, State(Updating(ids, n, n), made), v, budget)
              == Follow(job, State(Saving(ids), made), v.(work := Some(store.(app := store.app + Naturals(ids)))), budget - (|ids| - n))
    decreases |ids| - n
  {
    hide Follow, Progressed, Selected, Naturals, Table;
    UpdatePlays(job, made, ids, n, v, budget);
    NextRow(job, store, ids, n);
    if n + 1 < |ids| {
      NextRow(job, store, ids, n + 1);
      UpdatesPlay(job, made, store, ids, n + 1, v.(work := Some(store.(app := store.app + Naturals(ids[..n + 1])))), budget - 1);
    } else {
      assert ids[..n + 1] == ids;
    }
  }

  /** The table is a matter of the application data alone. */
  lemma {:induction false} SameTable(job: Job, store: Store)
    ensures Table(job, Store(store.app, [])) == Table(job, store)
  {
  }

  lemma {:induction false} AscendingMembers(ids: seq<int>)
    requires Ascending(ids)
    ensures |Members(ids)| == |ids|
  {
    if ids == [] {
      assert Members(ids) == {};
    } else {
      var front, top := ids[..|ids| - 1], ids[|ids| - 1];
      AscendingMembers(front);
      assert ids == front + [top];
      assert Members(ids) == Members(front) + {top};
      assert top !in Members(front);
    }
  }

  /** A batch takes its rows from what is left. */
  lemma {:induction false} BatchCounts(job: Job, store: Store, ids: seq<int>)
    requires Progressed(job, store) && Selected(job, store, ids)
    ensures |Beyond(job, ids[|ids| - 1])| + |ids| <= |Beyond(job, Checkpoint(job, store))|
  {
    var last, top := Checkpoint(job, store), ids[|ids| - 1];
    SelectedAreToFill(job, store, ids);
    AscendingMembers(ids);
    forall id | id in Members(ids) ensures id in Beyond(job, last) && id !in Beyond(job, top) {
      var i :| 0 <= i < |ids| && ids[i] == id;
    }
    assert Beyond(job, top) <= Beyond(job, last) by {
      assert top > last;
    }
    Subset(Beyond(job, top) + Members(ids), Beyond(job, last));
  }

  /** From the loop head, with nothing open. */
  lemma {:induction false} LoopPlays(job: Job, store: Store, made: nat, budget: nat)
    requires job.batchSize >= 1 && Storable(job) && Progressed(job, store)
    requires budget >= 5 + 6 * |Beyond(job, Checkpoint(job, store))|
    ensures var end := Follow(job, State(Making(Checkpoint(job, store)), made), View(store, None, None, made), budget);
            end.Some? && end.value.work.None? && Finished(job, end.value.durable)
    decreases |Beyond(job, Checkpoint(job, store))|
  {
    hide Follow, Progressed, Finished, Selected, Table, Checkpoint, Candidates, Lowest, Advance, Storable, Beyond, AfterBatch, Members, Ascending;
    var last := Checkpoint(job, store);
    var ids := Lowest(Candidates(Table(job, store), last), job.batchSize);
    SelectPlays(job, store, made, budget);
    LowestAre(Candidates(Table(job, store), last), job.batchSize);
    if ids == [] {
      NothingLeft(job, store);
      EndPlays(job, store, made, budget - 3);
    } else {
      SelectedBy(job, store, ids);
      BatchCounts(job, store, ids);
      BatchPlays(job, store, ids, made, budget);
      BatchKeepsProgress(job, store, ids);
      LoopPlays(job, AfterBatch(job, store, ids), made + 1, budget - 5 - |ids|);
    }
  }

  /** Leave, and return. */
  lemma {:induction false} EndPlays(job: Job, store: Store, made: nat, budget: nat)
    requires budget >= 2
    ensures Follow(job, State(Leaving(None), made + 1), View(store, Some(store), Some(made), made + 1), budget)
              == Some(View(store, None, None, made + 1))
  {
    Goes(job, State(Leaving(None), made + 1), View(store, Some(store), Some(made), made + 1), budget);
  }

  /** Make, enter, select. */
  lemma {:induction false} SelectPlays(job: Job, store: Store, made: nat, budget: nat)
    requires budget >= 5
    ensures var last := Checkpoint(job, store);
            var v := View(store, Some(store), Some(made), made + 1);
            var ids := Lowest(Candidates(Table(job, store), last), job.batchSize);
            Follow(job, State(Making(last), made), View(store, None, None, made), budget)
              == Follow(job, State(if ids == [] then Leaving(None) else Advance(job, ids, 0, 0, store.app), made + 1), v, budget - 3)
  {
    var last := Checkpoint(job, store);
    var ids := Lowest(Candidates(Table(job, store), last), job.batchSize);
    hide Follow, Table, Checkpoint, Advance, Lowest;
    Goes(job, State(Making(last), made), View(store, None, None, made), budget);
    Goes(job, State(Entering(last), made + 1), View(store, None, None, made + 1), budget - 1);
    Goes(job, State(Selecting(last), made + 1), View(store, Some(store), Some(made), made + 1), budget - 2);
    SameTable(job, store);
  }

  /** The rest of a batch that selected something. */
  lemma {:induction false} BatchPlays(job: Job, store: Store, ids: seq<int>, made: nat, budget: nat)
    requires Storable(job) && Progressed(job, store) && Selected(job, store, ids) && budget >= 5 + |ids|
    ensures forall i | 0 <= i < |ids| :: ids[i] >= 0
    ensures Follow(job, State(Advance(job, ids, 0, 0, store.app), made + 1), View(store, Some(store), Some(made), made + 1), budget - 3)
              == Follow(job, State(Making(ids[|ids| - 1]), made + 1), View(AfterBatch(job, store, ids), None, None, made + 1), budget - 5 - |ids|)
  {
    hide Follow, Progressed, Selected, Table, Checkpoint, Advance, Naturals, ToFill, AfterBatch, Storable;
    SelectedSome(job, store, ids);
    SelectedAreToFill(job, store, ids);
    ToFillIsPositive(job, ids);
    NothingWritten(store, ids);
    NextRow(job, store, ids, 0);
    UpdatesPlay(job, made + 1, store, ids, 0, View(store, Some(store), Some(made), made + 1), budget - 3);
    SavePlays(job, store, ids, made, budget - 3 - |ids|);
  }

  lemma {:induction false} NothingWritten(store: Store, ids: seq<int>)
    ensures ids[..0] == [] && store.app + Naturals([]) == store.app
  {
  }

  /** The checkpoint of a batch, and its exit. */
  lemma {:induction false} SavePlays(job: Job, store: Store, ids: seq<int>, made: nat, budget: nat)
    requires Storable(job) && ids != [] && Natural(ids) && ToFill(job, ids[|ids| - 1]) && budget >= 2
    ensures var written := store.(app := store.app + Naturals(ids));
            Follow(job, State(Saving(ids), made + 1), View(store, Some(written), Some(made), made + 1), budget)
              == Follow(job, State(Making(ids[|ids| - 1]), made + 1), View(AfterBatch(job, store, ids), None, None, made + 1), budget - 2)
  {
    var top := ids[|ids| - 1];
    assert |Show(top)| <= PROGRESS_VALUE_MAX_BYTES;
    ShownIsRead(top);
    KeyIsValid();
    hide Follow, Upsert, Show, Naturals, ToFill, Storable, Utf8Length;
    var v := View(store, Some(store.(app := store.app + Naturals(ids))), Some(made), made + 1);
    Goes(job, State(Saving(ids), made + 1), v, budget);
    Goes(job, State(Leaving(Some(top)), made + 1), v.(work := Some(AfterBatch(job, store, ids))), budget - 1);
  }

  /** Wherever earlier entries left the data, the program runs through if nothing
      fails, and leaves the work finished. */
  lemma {:induction false} BackfillPlays(job: Job, store: Store)
    requires job.batchSize >= 1 && Storable(job) && Progressed(job, store)
    ensures var end := Play(Program(job).next, job.id, true, [], EntryView(true, store), Program(job).budget(store));
            end.Some? && Finished(job, Seen(end.value))
  {
    var v, budget := EntryView(true, store), Needed(job, store);
    PlayFollows(job, [], v, budget);
    KeyIsValid();
    hide Follow, Progressed, Finished, Storable, Beyond;
    Goes(job, State(Loading, 0), v, budget);
    LoopPlays(job, store, 0, budget - 1);
  }

  // ------------------------------------------------ what it passes through

  ghost predicate Natural(ids: seq<int>) {
    forall i | 0 <= i < |ids| :: ids[i] >= 0
  }

  /** How the program's stage goes with the data, while nothing fails. */
  ghost predicate Consistent(job: Job, s: State, v: View) {
    var d, inside := v.durable, View(v.durable, v.work, Some(Current(s)), s.made);
    && Progressed(job, d)
    && match s.stage
       case Loading => v == View(d, None, None, 0) && s.made == 0
       case Making(last) => v == View(d, None, None, s.made) && last == Checkpoint(job, d)
       case Entering(last) => v == View(d, None, None, s.made) && s.made > 0 && last == Checkpoint(job, d)
       case Selecting(last) => v == inside && v.work == Some(d) && last == Checkpoint(job, d)
       case Updating(ids, at, changed) =>
         && v == inside && Selected(job, d, ids) && Natural(ids) && at == changed < |ids|
         && v.work == Some(d.(app := d.app + Naturals(ids[..at])))
       case Saving(ids) => v == inside && Selected(job, d, ids) && Natural(ids) && v.work == Some(d.(app := d.app + Naturals(ids)))
       case Leaving(next) =>
         && v == inside && v.work.Some? && Progressed(job, v.work.value)
         && (next.Some? ==> next.value == Checkpoint(job, v.work.value))
       case _ => true
  }

  ghost predicate StaysConsistent(job: Job, s: State, v: View)
    requires ActionOf(s).Do?
  {
    var call := ActionOf(s).call;
    Consistent(job, After(job, s, Returned(AnswerOf(job.id, v, call))), NextView(job.id, v, call))
  }

  lemma {:induction false} SelectingStays(job: Job, s: State, v: View)
    requires Consistent(job, s, v) && s.stage.Selecting?
    ensures StaysConsistent(job, s, v)
  {
    var d, last := v.durable, s.stage.last;
    var left := Candidates(Table(job, d), last);
    var ids := Lowest(left, job.batchSize);
    SameTable(job, d);
    LowestAre(left, job.batchSize);
    if ids != [] {
      SelectedBy(job, d, ids);
      SelectedAreToFill(job, d, ids);
      ToFillIsPositive(job, ids);
      NextRow(job, d, ids, 0);
      assert d.app + Naturals(ids[..0]) == d.app;
    }
  }

  lemma {:induction false} UpdatingStays(job: Job, s: State, v: View)
    requires Consistent(job, s, v) && s.stage.Updating?
    ensures StaysConsistent(job, s, v)
  {
    hide Progressed, Selected, Table, Naturals, Checkpoint;
    var d, ids, n := v.durable, s.stage.ids, s.stage.at;
    NextRow(job, d, ids, n);
    if n + 1 < |ids| {
      NextRow(job, d, ids, n + 1);
    } else {
      assert ids[..n + 1] == ids;
    }
  }

  lemma {:induction false} SelectedSome(job: Job, store: Store, ids: seq<int>)
    requires Selected(job, store, ids)
    ensures ids != []
  {
  }

  lemma {:induction false} SavingStays(job: Job, s: State, v: View)
    requires Consistent(job, s, v) && s.stage.Saving?
    ensures StaysConsistent(job, s, v)
  {
    hide Progressed, Selected, Table, Naturals, Checkpoint, Show, Upsert, ToFill;
    assert s.stage.ids != [] by {
      SelectedSome(job, v.durable, s.stage.ids);
    }
    BatchKeepsProgress(job, v.durable, s.stage.ids);
  }

  lemma {:induction false} Stays(job: Job, s: State, v: View)
    requires Consistent(job, s, v) && ActionOf(s).Do? && Fits(ActionOf(s).call, true, v)
    ensures StaysConsistent(job, s, v)
  {
    hide Progressed, Selected, Table, Naturals, Lowest, Advance;
    match s.stage {
      case Selecting(_) => SelectingStays(job, s, v);
      case Updating(_, _, _) => UpdatingStays(job, s, v);
      case Saving(_) => SavingStays(job, s, v);
      case _ =>
    }
  }

  /** All durable data it passes through is data it can be entered from again. */
  lemma {:induction false} PassesProgressed(job: Job, replies: seq<Result<Value>>, v: View, budget: nat, x: Store)
    requires Consistent(job, StateAfter(job, replies), v) && Passes(Program(job).next, job.id, true, replies, v, budget, x)
    ensures Progressed(job, x)
    decreases budget
  {
    hide Progressed;
    var s := StateAfter(job, replies);
    if x != v.durable {
      var call := ActionOf(s).call;
      var reply := Returned(AnswerOf(job.id, v, call));
      OneMoreReply(job, replies, reply);
      Stays(job, s, v);
      PassesProgressed(job, replies + [reply], NextView(job.id, v, call), budget - 1, x);
    }
  }

  /** So it is a source that an engine run takes to its end, and whose every clean
      exit is durable once its migration is SUCCESS. */
  lemma {:induction false} BackfillRunsThrough(job: Job, unit: Unit, store: Store)
    requires job.batchSize >= 1 && Storable(job) && Progressed(job, store)
    requires unit.mode.RESTARTABLE? && unit.id == job.id
    ensures var source := PythonFile(Program(job));
            && PlaySource(source, unit, store).Some? && Finished(job, PlaySource(source, unit, store).value)
            && BracketedSource(source, store) && CandidSource(source, store) && StraightSource(source, store)
  {
    BackfillPlays(job, store);
    IsBracketed(job, [], None, Needed(job, store));
    IsCandid(job, [], false, Needed(job, store));
    IsStraight(job, [], false, Needed(job, store));
  }

  /** The course of the backfill: something to go on from, and then the work done. */
  ghost function CourseOf(job: Job): Course {
    [iset store: Store | Progressed(job, store), iset store: Store | Finished(job, store)]
  }

  lemma {:induction false} BackfillSteers(job: Job, unit: Unit)
    requires job.batchSize >= 1 && Storable(job) && unit.mode.RESTARTABLE? && unit.id == job.id
    ensures Steers([unit], [PythonFile(Program(job))], CourseOf(job))
  {
    var source := PythonFile(Program(job));
    hide Progressed, Finished, Storable, Straight, Play, PlaySource, StraightSource;
    forall k, store | 0 <= k < 1 && store in CourseOf(job)[k]
      ensures Steered([source][k], [unit][k], store, CourseOf(job)[k], CourseOf(job)[k + 1])
    {
      BackfillRunsThrough(job, unit, store);
      FinishedIsTold(job, PlaySource(source, unit, store).value);
      forall x | PassesSource(source, unit, store, x) ensures Progressed(job, x) {
        if x != store {
          PassesProgressed(job, [], EntryView(true, store), Needed(job, store), x);
        }
      }
    }
  }

  lemma {:induction false} FinishedIsTold(job: Job, store: Store)
    requires Finished(job, store)
    ensures Finished(job, Store(store.app, []))
  {
    SameTable(job, store);
  }

  /** Any number of engine runs over an empty namespace, each with anything going
      wrong and its process dying anywhere, then one that is left alone: the
      migration is SUCCESS, every row to fill has been filled exactly once, and no
      other was touched. */
  method Converge(job: Job, unit: Unit, start: Tables, crashes: nat, knowsRollback: bool) returns (final: Tables)
    requires job.batchSize >= 1 && Storable(job) && job.base == |start.app|
    requires EmptyNamespace(start) && WellFormedCapture([unit]) && unit.mode.RESTARTABLE? && unit.id == job.id
    ensures Finished(job, StoreOf(final))
    ensures |final.history| == 1 && final.history[0].id == job.id && final.history[0].status.SUCCESS?
  {
    var command := Command(Run([unit], None), [PythonFile(Program(job))]);
    var commands := seq(crashes, _ => command);
    ghost var course := CourseOf(job);
    BackfillSteers(job, unit);
    NothingDone(job, StoreOf(start));
    hide Progressed, Finished, Storable, Steers, PlayedOut, WellFormedCapture;
    var left, executed, again;
    left, executed, again, final := Runners.Converge(commands, command, start, false, knowsRollback, course);
  }
}
