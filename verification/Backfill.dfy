/** A client of the batch protocol: the bounded, checkpointed backfill, run
    through the migration facade.  That a batch's rows and its checkpoint land
    together is what the facade guarantees; the process may die at any moment, and
    each re-entry starts from the durable checkpoint. */
module Backfill {
  import opened Model
  import opened Durable
  import opened Driver
  import opened Latch
  import opened Adapter
  import opened Programs
  import opened Context

  /** `orders.region` by id; `None` is NULL. */
  type Orders = map<int, Option<string>>

  /** Ids a query for NULL regions beyond `last` ranges over. */
  function Candidates(orders: Orders, last: int): set<int> {
    set id | id in orders && id > last && orders[id].None?
  }

  function Filled(orders: Orders, ids: set<int>, region: string): Orders {
    map id | id in orders :: if id in ids && orders[id].None? then Some(region) else orders[id]
  }

  function Members(ids: seq<int>): set<int> {
    set id | id in ids
  }

  ghost predicate Ascending(ids: seq<int>) {
    forall i, j | 0 <= i < j < |ids| :: ids[i] < ids[j]
  }

  lemma {:induction false} NonEmpty(ids: set<int>)
    ensures ids != {} ==> exists id :: id in ids
  {
    assert (forall id :: id !in ids) ==> ids == {};
  }

  method Least(ids: set<int>) returns (least: int)
    requires ids != {}
    ensures least in ids && forall id | id in ids :: least <= id
  {
    NonEmpty(ids);
    least :| least in ids;
    var seen := {least};
    while seen != ids
      invariant least in seen && seen <= ids
      invariant forall id | id in seen :: least <= id
      decreases ids - seen
    {
      assert seen + (ids - seen) == ids;
      NonEmpty(ids - seen);
      var id :| id in ids - seen;
      seen := seen + {id};
      if id < least {
        least := id;
      }
    }
  }

  lemma {:induction false} Append(ids: seq<int>, id: int)
    requires Ascending(ids) && (ids != [] ==> ids[|ids| - 1] < id)
    ensures Ascending(ids + [id]) && Members(ids + [id]) == Members(ids) + {id}
  {
  }

  /** `SELECT id ... WHERE id > last AND region IS NULL ORDER BY id LIMIT n`. */
  method Select(orders: Orders, last: int, limit: nat) returns (ids: seq<int>)
    ensures Ascending(ids) && Members(ids) <= Candidates(orders, last)
    ensures |ids| <= limit
    ensures ids == [] ==> limit == 0 || Candidates(orders, last) == {}
    ensures ids != [] ==> forall id | id in Candidates(orders, last) - Members(ids) :: ids[|ids| - 1] < id
  {
    ids := [];
    assert Members(ids) == {};
    hide Candidates, Members, Ascending;
    var rest := Candidates(orders, last);
    while rest != {} && |ids| < limit
      invariant Ascending(ids) && |ids| <= limit
      invariant Members(ids) <= Candidates(orders, last)
      invariant rest == Candidates(orders, last) - Members(ids)
      invariant ids != [] ==> forall id | id in rest :: ids[|ids| - 1] < id
      decreases limit - |ids|
    {
      var least := Least(rest);
      Append(ids, least);
      ids := ids + [least];
      rest := rest - {least};
    }
  }

  // ------------------------------------------------ the checkpoint's text

  /** `str(n)`. */
  function Show(n: nat): (s: string)
    ensures s != []
  {
    var digit := ['0' + (n % 10) as char];
    if n < 10 then digit else Show(n / 10) + digit
  }

  /** `int(s)`, for text that `Show` writes. */
  function Read(s: string): int {
    if s == [] then 0 else Read(s[..|s| - 1]) * 10 + (s[|s| - 1] as int - '0' as int)
  }

  lemma {:induction false} ShownIsRead(n: nat)
    ensures Read(Show(n)) == n
    ensures Utf8Length(Show(n)) == |Show(n)|
  {
    var s := Show(n);
    if n >= 10 {
      ShownIsRead(n / 10);
      assert s[..|s| - 1] == Show(n / 10);
      AsciiAppend(Show(n / 10), s[|s| - 1]);
      assert s == Show(n / 10) + [s[|s| - 1]];
    } else {
      assert s[..0] == [] && s[1..] == [];
    }
  }

  lemma {:induction false} AsciiAppend(s: string, c: char)
    requires (c as int) < 0x80
    ensures Utf8Length(s + [c]) == Utf8Length(s) + 1
  {
    if s == [] {
      assert s + [c] == [c] && [c][1..] == [];
    } else {
      assert (s + [c])[1..] == s[1..] + [c];
      AsciiAppend(s[1..], c);
    }
  }

  // ---------------------------------------------------------- what is stored

  const KEY: string := "last_id"

  /** One backfill: the migration, the table before it first ran, and how many
      application writes there were by then.  A write of this migration is the id
      of the row it fills. */
  datatype Job = Job(id: string, initial: Orders, base: nat, region: string, batchSize: nat)

  function Ids(writes: seq<Write>): set<int> {
    set i | 0 <= i < |writes| :: writes[i] as int
  }

  /** The table as the application data has it. */
  function Table(job: Job, t: Store): (orders: Orders)
    ensures orders.Keys == job.initial.Keys
  {
    if job.base <= |t.app| then Filled(job.initial, Ids(t.app[job.base..]), job.region) else job.initial
  }

  /** `int(progress.get("last_id", "0"))`. */
  function Checkpoint(job: Job, t: Store): int {
    var value := Lookup(t.progress, job.id, KEY);
    if value.None? then 0 else Read(value.value)
  }

  /** A row this migration is to fill. */
  predicate ToFill(job: Job, id: int) {
    id > 0 && id in job.initial && job.initial[id].None?
  }

  /** What holds of every durable state: each write filled a row that was to be
      filled, none twice, and nothing at or below the checkpoint is left to do. */
  ghost predicate Progressed(job: Job, t: Store) {
    && job.base <= |t.app| && Checkpoint(job, t) >= 0
    && (forall i | job.base <= i < |t.app| :: ToFill(job, t.app[i]))
    && (forall i, j | job.base <= i < j < |t.app| :: t.app[i] != t.app[j])
    && (forall id | id in job.initial && 0 < id <= Checkpoint(job, t) :: Table(job, t)[id].Some?)
  }

  /** Every row is filled that was to be filled -- once, and no other. */
  ghost predicate Finished(job: Job, t: Store) {
    && job.base <= |t.app|
    && (forall id: nat | ToFill(job, id) :: multiset(t.app[job.base..])[id] == 1)
    && (forall id: nat | !ToFill(job, id) :: multiset(t.app[job.base..])[id] == 0)
    && Table(job, t).Keys == job.initial.Keys
    && (forall id | id in job.initial :: Table(job, t)[id] == if ToFill(job, id) then Some(job.region) else job.initial[id])
  }

  lemma {:induction false} DistinctCount(writes: seq<Write>, id: nat)
    requires forall i, j | 0 <= i < j < |writes| :: writes[i] != writes[j]
    ensures multiset(writes)[id] == if id in writes then 1 else 0
  {
    if writes != [] {
      var front, last := writes[..|writes| - 1], writes[|writes| - 1];
      assert writes == front + [last];
      DistinctCount(front, id);
    }
  }

  /** With nothing left beyond the checkpoint, the work is finished. */
  lemma {:induction false} NothingLeft(job: Job, t: Store)
    requires Progressed(job, t) && Candidates(Table(job, t), Checkpoint(job, t)) == {}
    ensures Finished(job, t)
  {
    var writes := t.app[job.base..];
    assert forall i | 0 <= i < |writes| :: writes[i] == t.app[job.base + i];
    forall id: nat ensures multiset(writes)[id] == if ToFill(job, id) then 1 else 0 {
      DistinctCount(writes, id);
      if ToFill(job, id) {
        assert id !in Candidates(Table(job, t), Checkpoint(job, t));
        assert Table(job, t)[id].Some?;
        assert id in Ids(writes);
      }
    }
  }

  function Naturals(ids: seq<int>): seq<Write>
    requires forall i | 0 <= i < |ids| :: ids[i] >= 0
  {
    seq(|ids|, i requires 0 <= i < |ids| => ids[i] as nat)
  }

  /** What a batch over these ids leaves. */
  function AfterBatch(job: Job, t: Store, ids: seq<int>): Store
    requires ids != [] && forall i | 0 <= i < |ids| :: ids[i] >= 0
  {
    t.(app := t.app + Naturals(ids), progress := Upsert(t.progress, ProgressRow(job.id, KEY, Show(ids[|ids| - 1]))))
  }

  /** The ids a query selects: the lowest rows left beyond the checkpoint. */
  ghost predicate Selected(job: Job, t: Store, ids: seq<int>) {
    && Ascending(ids) && ids != [] && Members(ids) <= Candidates(Table(job, t), Checkpoint(job, t))
    && forall id | id in Candidates(Table(job, t), Checkpoint(job, t)) - Members(ids) :: ids[|ids| - 1] < id
  }

  lemma {:induction false} SelectedAreToFill(job: Job, t: Store, ids: seq<int>)
    requires Progressed(job, t) && Selected(job, t, ids)
    ensures forall i | 0 <= i < |ids| :: ids[i] > Checkpoint(job, t) && ToFill(job, ids[i]) && Table(job, t)[ids[i]].None?
  {
    forall i | 0 <= i < |ids| ensures ids[i] > Checkpoint(job, t) && ToFill(job, ids[i]) && Table(job, t)[ids[i]].None? {
      assert ids[i] in Members(ids);
    }
  }

  lemma {:induction false} CheckpointMoves(job: Job, t: Store, ids: seq<int>)
    requires ids != [] && forall i | 0 <= i < |ids| :: ids[i] >= 0
    ensures Checkpoint(job, AfterBatch(job, t, ids)) == ids[|ids| - 1]
  {
    var top := ids[|ids| - 1];
    CheckpointReadsBack(t.progress, ProgressRow(job.id, KEY, Show(top)), job.id, KEY);
    ShownIsRead(top);
  }

  /** Up to the last id of a batch, no row stays NULL. */
  lemma {:induction false} BatchCovers(job: Job, t: Store, ids: seq<int>, id: int)
    requires Progressed(job, t) && Selected(job, t, ids) && (forall i | 0 <= i < |ids| :: ids[i] >= 0)
    requires id in job.initial && 0 < id <= ids[|ids| - 1]
    ensures Table(job, AfterBatch(job, t, ids))[id].Some?
  {
    WritesOf(job, t, ids);
    if id > Checkpoint(job, t) && Table(job, t)[id].None? {
      assert id in Candidates(Table(job, t), Checkpoint(job, t));
      assert id !in Candidates(Table(job, t), Checkpoint(job, t)) - Members(ids);
      assert id in Members(ids);
    }
  }

  /** No row is filled a second time. */
  lemma {:induction false} BatchIsNew(job: Job, t: Store, ids: seq<int>, i: nat, j: nat)
    requires Progressed(job, t) && Selected(job, t, ids) && (forall i | 0 <= i < |ids| :: ids[i] >= 0)
    requires job.base <= i < j < |t.app| + |ids|
    ensures (t.app + Naturals(ids))[i] != (t.app + Naturals(ids))[j]
  {
    SelectedAreToFill(job, t, ids);
    var app := t.app + Naturals(ids);
    if i < |t.app| <= j {
      assert app[j] == ids[j - |t.app|];
      assert t.app[job.base..][i - job.base] == t.app[i];
      assert t.app[i] as int in Ids(t.app[job.base..]);
      assert ToFill(job, t.app[i]);
      assert Table(job, t)[t.app[i] as int].Some?;
    } else if |t.app| <= i {
      assert app[i] == ids[i - |t.app|] && app[j] == ids[j - |t.app|];
    }
  }

  /** A batch that lands keeps what holds, and moves the checkpoint to its end. */
  lemma {:induction false} BatchKeepsProgress(job: Job, t: Store, ids: seq<int>)
    requires Progressed(job, t) && Selected(job, t, ids)
    ensures forall i | 0 <= i < |ids| :: ids[i] > Checkpoint(job, t) && ToFill(job, ids[i]) && Table(job, t)[ids[i]].None?
    ensures Progressed(job, AfterBatch(job, t, ids)) && Checkpoint(job, AfterBatch(job, t, ids)) == ids[|ids| - 1]
  {
    SelectedAreToFill(job, t, ids);
    WritesAreNew(job, t, ids);
    BatchCoversAll(job, t, ids);
    CheckpointMoves(job, t, ids);
    hide Selected, Table, Checkpoint, ToFill;
  }

  lemma {:induction false} BatchCoversAll(job: Job, t: Store, ids: seq<int>)
    requires Progressed(job, t) && Selected(job, t, ids) && forall i | 0 <= i < |ids| :: ids[i] >= 0
    ensures forall id | id in job.initial && 0 < id <= ids[|ids| - 1] :: Table(job, AfterBatch(job, t, ids))[id].Some?
  {
    assert ids != [];
    hide Progressed, Selected, Table, AfterBatch;
    forall id | id in job.initial && 0 < id <= ids[|ids| - 1] ensures Table(job, AfterBatch(job, t, ids))[id].Some? {
      BatchCovers(job, t, ids, id);
    }
  }

  /** The writes after a batch are of rows to fill, each once. */
  lemma {:induction false} WritesAreNew(job: Job, t: Store, ids: seq<int>)
    requires Progressed(job, t) && Selected(job, t, ids) && forall i | 0 <= i < |ids| :: ids[i] >= 0
    ensures var app := AfterBatch(job, t, ids).app;
            && |app| == |t.app| + |ids|
            && (forall i | job.base <= i < |app| :: ToFill(job, app[i]))
            && (forall i, j | job.base <= i < j < |app| :: app[i] != app[j])
  {
    var app := t.app + Naturals(ids);
    SelectedAreToFill(job, t, ids);
    forall i | job.base <= i < |app| ensures ToFill(job, app[i]) {
      if i >= |t.app| {
        assert app[i] == ids[i - |t.app|];
      }
    }
    hide Selected, Progressed, Naturals, Upsert, Show, Table;
    forall i, j | job.base <= i < j < |app| ensures app[i] != app[j] {
      BatchIsNew(job, t, ids, i, j);
    }
  }

  /** The writes after a batch are those before and the batch's own. */
  lemma {:induction false} WritesOf(job: Job, t: Store, ids: seq<int>)
    requires job.base <= |t.app| && ids != [] && forall i | 0 <= i < |ids| :: ids[i] >= 0
    ensures var t' := AfterBatch(job, t, ids);
            Ids(t'.app[job.base..]) == Ids(t.app[job.base..]) + Members(ids)
  {
    var t' := AfterBatch(job, t, ids);
    var before, after := t.app[job.base..], t'.app[job.base..];
    assert after == before + Naturals(ids);
    forall id | id in Members(ids) ensures id in Ids(after) {
      var i :| 0 <= i < |ids| && ids[i] == id;
      assert after[|before| + i] == id;
    }
    forall id | id in Ids(before) ensures id in Ids(after) {
      var i :| 0 <= i < |before| && before[i] as int == id;
      assert after[i] == before[i];
    }
  }

  // ------------------------------------------------------------ the program

  /** In a batch whose transaction is open, on a server that ends transactions
      only by failing. */
  ghost predicate Inside(ctx: MigrationContext)
    reads ctx, ctx.adapter, ctx.adapter.db, ctx.adapter.latch
  {
    && ctx.Valid() && ctx.inBatch && !ctx.adapter.db.severing && ctx.adapter.db.server.txn.Open?
  }

  /** The rows of a batch are NULL until it fills them. */
  lemma {:induction false} StillNull(job: Job, t: Store, ids: seq<int>, n: nat)
    requires Progressed(job, t) && Selected(job, t, ids) && n < |ids|
    requires forall i | 0 <= i < |ids| :: ids[i] >= 0
    ensures var now := t.(app := t.app + Naturals(ids[..n])); ids[n] in Table(job, now) && Table(job, now)[ids[n]].None?
  {
    SelectedAreToFill(job, t, ids);
    var now := t.(app := t.app + Naturals(ids[..n]));
    var before, after := t.app[job.base..], now.app[job.base..];
    assert after == before + Naturals(ids[..n]);
    assert ids[n] !in Ids(before);
    forall i | 0 <= i < |after| ensures after[i] as int != ids[n] {
      if i < |before| {
        assert after[i] == before[i] && before[i] as int in Ids(before);
      } else {
        assert after[i] as int == ids[i - |before|];
      }
    }
  }

  /** `executemany`: the conditional UPDATE for each selected id, with the number
      of rows it changed. */
  method UpdateRows(ctx: MigrationContext, job: Job, ids: seq<int>) returns (r: Result<nat>)
    requires Inside(ctx) && Progressed(job, StoreOf(ctx.adapter.db.server.txn.work)) && Selected(job, StoreOf(ctx.adapter.db.server.txn.work), ids)
    requires forall i | 0 <= i < |ids| :: ids[i] >= 0
    modifies ctx`spans, ctx.adapter, ctx.adapter.db, ctx.adapter.latch
    ensures ctx.Valid() && ctx.adapter.db.trail == old(ctx.adapter.db.trail) && ctx.adapter.db.server.durable == old(ctx.adapter.db.server).durable
    ensures r.Returned? ==>
              && r.value == |ids| && Inside(ctx) && ctx.adapter.latch.state == old(ctx.adapter.latch.state)
              && StoreOf(ctx.adapter.db.server.txn.work) == StoreOf(old(ctx.adapter.db.server).txn.work).(app := old(ctx.adapter.db.server).txn.work.app + Naturals(ids))
    ensures old(ctx.Tidy()) && !ctx.adapter.db.faulty ==> r.Returned? && ctx.Tidy()
  {
    hide Recorded, SpanHolds, Ended, Orderly, Authors, Authored, Extends, Harmless, Selected, Progressed, Table;
    ghost var start := StoreOf(ctx.adapter.db.server.txn.work);
    var changed := 0;
    assert start.app + Naturals(ids[..0]) == start.app;
    for n := 0 to |ids|
      invariant Inside(ctx) && changed == n && ctx.adapter.latch.state == old(ctx.adapter.latch.state)
      invariant ctx.adapter.db.trail == old(ctx.adapter.db.trail) && ctx.adapter.db.server.durable == old(ctx.adapter.db.server).durable
      invariant StoreOf(ctx.adapter.db.server.txn.work) == start.(app := start.app + Naturals(ids[..n]))
      invariant old(ctx.Tidy()) && !ctx.adapter.db.faulty ==> ctx.Tidy()
    {
      StillNull(job, start, ids, n);
      var table := Table(job, StoreOf(ctx.adapter.db.server.Visible()));
      if ids[n] in table && table[ids[n]].None? {
        var written := ctx.ExecuteSql(Some(ids[n] as nat), false, true);
        if written.Threw? {
          return Threw(written.error);
        }
        changed := changed + 1;
        assert start.app + Naturals(ids[..n]) + [ids[n] as nat] == start.app + Naturals(ids[..n + 1]);
      }
    }
    assert ids[..|ids|] == ids;
    return Returned(changed);
  }

  /** Checkpoints fit the progress store: ids have at most 4000 digits. */
  ghost predicate Storable(job: Job) {
    forall id | ToFill(job, id) :: |Show(id)| <= PROGRESS_VALUE_MAX_BYTES
  }

  /** `progress_set`: the highest id of the batch is its checkpoint. */
  method SaveCheckpoint(ctx: MigrationContext, job: Job, top: nat) returns (r: Result<Value>)
    requires Inside(ctx) && ctx.id == job.id && Storable(job) && ToFill(job, top)
    modifies ctx`spans, ctx.adapter, ctx.adapter.db, ctx.adapter.latch
    ensures ctx.Valid() && ctx.adapter.db.trail == old(ctx.adapter.db.trail) && ctx.adapter.db.server.durable == old(ctx.adapter.db.server).durable
    ensures r.Returned? ==>
              && Inside(ctx) && ctx.adapter.latch.state == old(ctx.adapter.latch.state)
              && var start := StoreOf(old(ctx.adapter.db.server).txn.work);
              && StoreOf(ctx.adapter.db.server.txn.work) == start.(progress := Upsert(start.progress, ProgressRow(job.id, KEY, Show(top))))
    ensures old(ctx.Tidy()) && !ctx.adapter.db.faulty ==> r.Returned? && ctx.Tidy()
  {
    hide Recorded, SpanHolds, Ended, Orderly, Authors, Authored, Extends, Harmless, Upsert, Show, ToFill, Quiet, Attended, Suspect;
    ShownIsRead(top);
    KeyIsValid();
    r := ctx.SetProgress(KEY, Show(top));
  }

  /** The inside of one batch: select, update, checkpoint. */
  method BatchBody(ctx: MigrationContext, job: Job, last: int) returns (r: Result<seq<int>>)
    requires Inside(ctx) && ctx.id == job.id && job.batchSize >= 1 && Storable(job)
    requires Progressed(job, StoreOf(ctx.adapter.db.server.txn.work)) && last == Checkpoint(job, StoreOf(ctx.adapter.db.server.txn.work))
    modifies ctx`spans, ctx.adapter, ctx.adapter.db, ctx.adapter.latch
    ensures ctx.Valid() && ctx.adapter.db.trail == old(ctx.adapter.db.trail) && ctx.adapter.db.server.durable == old(ctx.adapter.db.server).durable
    ensures r.Returned? ==>
              && Inside(ctx) && ctx.adapter.latch.state == old(ctx.adapter.latch.state)
              && var start, now := StoreOf(old(ctx.adapter.db.server).txn.work), StoreOf(ctx.adapter.db.server.txn.work);
              && (r.value == [] ==> now == start && Candidates(Table(job, start), last) == {})
              && (r.value != [] ==>
                    && Selected(job, start, r.value) && (forall i | 0 <= i < |r.value| :: r.value[i] >= 0)
                    && now == AfterBatch(job, start, r.value))
    ensures old(ctx.Tidy()) && !ctx.adapter.db.faulty ==> r.Returned? && ctx.Tidy()
  {
    hide Recorded, SpanHolds, Ended, Orderly, Authors, Authored, Extends, Harmless, Selected, Progressed, Table, Checkpoint, Upsert, Show, ToFill, Quiet, Attended, Suspect, Candidates, ValidKey;
    ghost var start := StoreOf(ctx.adapter.db.server.txn.work);
    var rows := ctx.ExecuteSql(None, false, true);
    if rows.Threw? {
      return Threw(rows.error);
    }
    assert StoreOf(ctx.adapter.db.server.txn.work) == start;
    var ids := Select(Table(job, StoreOf(ctx.adapter.db.server.Visible())), last, job.batchSize);
    if ids == [] {
      return Returned([]);
    }
    SelectedBy(job, start, ids);
    SelectedAreToFill(job, start, ids);
    ToFillIsPositive(job, ids);
    var changed := UpdateRows(ctx, job, ids);
    if changed.Threw? {
      return Threw(changed.error);
    }
    if changed.value != |ids| {
      return Threw(AuthorError);
    }
    assert ToFill(job, ids[|ids| - 1]);
    var saved := SaveCheckpoint(ctx, job, ids[|ids| - 1]);
    if saved.Threw? {
      return Threw(saved.error);
    }
    return Returned(ids);
  }

  lemma {:induction false} KeyIsValid()
    ensures ValidKey(KEY)
  {
    assert |KEY| == 7;
    assert forall i | 0 <= i < 7 :: KEY[i] as int < 128;
  }

  lemma {:induction false} SelectedBy(job: Job, t: Store, ids: seq<int>)
    requires ids != [] && Ascending(ids) && Members(ids) <= Candidates(Table(job, t), Checkpoint(job, t))
    requires forall id | id in Candidates(Table(job, t), Checkpoint(job, t)) - Members(ids) :: ids[|ids| - 1] < id
    ensures Selected(job, t, ids)
  {
  }

  lemma {:induction false} ToFillIsPositive(job: Job, ids: seq<int>)
    requires forall i | 0 <= i < |ids| :: ToFill(job, ids[i])
    ensures forall i | 0 <= i < |ids| :: ids[i] > 0
  {
  }

  /** Every durable state since is one that re-entry can start from. */
  ghost predicate TrailProgressed(job: Job, before: seq<Tables>, after: seq<Tables>) {
    before <= after && forall i | |before| <= i < |after| :: Progressed(job, StoreOf(after[i]))
  }

  /** One `with ctx.transaction()` block. */
  method OneBatch(ctx: MigrationContext, job: Job, last: int) returns (r: Result<seq<int>>)
    requires ctx.Valid() && ctx.restartable && ctx.id == job.id && !ctx.inBatch && ctx.openBatch.None?
    requires !ctx.adapter.db.severing && !ctx.adapter.latch.Latched() && job.batchSize >= 1 && Storable(job)
    requires Progressed(job, StoreOf(ctx.adapter.db.server.durable)) && last == Checkpoint(job, StoreOf(ctx.adapter.db.server.durable))
    modifies ctx, ctx.adapter, ctx.adapter.db, ctx.adapter.latch
    ensures ctx.Valid() && TrailProgressed(job, old(ctx.adapter.db.trail), ctx.adapter.db.trail)
    ensures r.Returned? ==>
              && Idle(ctx.adapter.At()) && !ctx.inBatch && ctx.openBatch.None? && !ctx.adapter.latch.Latched()
              && var start, now := StoreOf(old(ctx.adapter.db.server).durable), StoreOf(ctx.adapter.db.server.durable);
              && (r.value == [] ==> now == start && Candidates(Table(job, start), last) == {})
              && (r.value != [] ==>
                    && Selected(job, start, r.value) && (forall i | 0 <= i < |r.value| :: r.value[i] >= 0)
                    && now == AfterBatch(job, start, r.value))
    ensures old(Idle(ctx.adapter.At())) && !ctx.adapter.db.faulty ==> r.Returned?
  {
    hide Authored, MigrationContext.Steady, MigrationContext.Evident, Selected, Progressed, Table, Checkpoint, AfterBatch, ToFill;
    ctx.NothingYet();
    ghost var start := StoreOf(ctx.adapter.db.server.durable);
    var o := ctx.MakeBatch();
    if o.Raised? {
      return Threw(o.error);
    }
    var batch := |ctx.batches| - 1;
    o := ctx.Enter(batch);
    ctx.NothingYet();
    if o.Raised? {
      return Threw(o.error);
    }
    r := BatchBody(ctx, job, last);
    if r.Threw? {
      o := ctx.Exit(batch, true);
      return if o.Raised? then Threw(o.error) else r;
    }
    if r.value != [] {
      BatchKeepsProgress(job, start, r.value);
    }
    o := ctx.Exit(batch, false);
    ctx.NothingYet();
    if o.Raised? {
      return Threw(o.error);
    }
  }

  function Beyond(job: Job, last: int): set<int> {
    set id | id in job.initial && id > last
  }

  lemma {:induction false} Shrinks(a: set<int>, b: set<int>, gone: int)
    requires a <= b && gone in b && gone !in a
    ensures |a| < |b|
  {
    Subset(a, b - {gone});
  }

  lemma {:induction false} Subset(a: set<int>, b: set<int>)
    requires a <= b
    ensures |a| <= |b|
  {
    if a != {} {
      NonEmpty(a);
      var x :| x in a;
      Subset(a - {x}, b - {x});
    }
  }

  /** The migration, over whatever session: every durable state it leaves can be
      re-entered from; if it returns, the work is finished; and if nothing fails,
      it returns. */
  method Migrate(ctx: MigrationContext, job: Job) returns (o: Outcome)
    requires ctx.Valid() && ctx.restartable && ctx.id == job.id && !ctx.inBatch && ctx.openBatch.None? && Idle(ctx.adapter.At())
    requires !ctx.adapter.db.severing && !ctx.adapter.latch.Latched() && job.batchSize >= 1 && Storable(job)
    requires Progressed(job, StoreOf(ctx.adapter.db.server.durable))
    modifies ctx, ctx.adapter, ctx.adapter.db, ctx.adapter.latch
    ensures ctx.Valid() && TrailProgressed(job, old(ctx.adapter.db.trail), ctx.adapter.db.trail)
    ensures o.Done? ==> Finished(job, StoreOf(ctx.adapter.db.server.durable))
    ensures !ctx.adapter.db.faulty ==> o.Done?
  {
    hide Recorded, SpanHolds, Ended, Orderly, Authors, Authored, Extends, Harmless, Selected, Progressed, Table, AfterBatch, ToFill, Finished;
    KeyIsValid();
    var saved := ctx.GetProgress(KEY);
    if saved.Threw? {
      return Raised(saved.error);
    }
    var last := if saved.value.text.None? then 0 else Read(saved.value.text.value);
    assert last == Checkpoint(job, StoreOf(ctx.adapter.db.server.durable));
    hide Checkpoint;
    while true
      invariant ctx.Valid() && !ctx.inBatch && ctx.openBatch.None? && Idle(ctx.adapter.At()) && !ctx.adapter.latch.Latched()
      invariant Progressed(job, StoreOf(ctx.adapter.db.server.durable)) && last == Checkpoint(job, StoreOf(ctx.adapter.db.server.durable))
      invariant TrailProgressed(job, old(ctx.adapter.db.trail), ctx.adapter.db.trail)
      decreases |Beyond(job, last)|
    {
      ghost var before, lastBefore := StoreOf(ctx.adapter.db.server.durable), last;
      var ids := OneBatch(ctx, job, last);
      if ids.Threw? {
        return Raised(ids.error);
      }
      if ids.value == [] {
        NothingLeft(job, before);
        return Done;
      }
      BatchKeepsProgress(job, before, ids.value);
      last := ids.value[|ids.value| - 1];
      LessBeyond(job, lastBefore, last);
    }
  }

  lemma {:induction false} LessBeyond(job: Job, last: int, next: int)
    requires next > last && ToFill(job, next)
    ensures |Beyond(job, next)| < |Beyond(job, last)|
  {
    Shrinks(Beyond(job, next), Beyond(job, last), next);
  }

  lemma {:induction false} NothingDone(job: Job, t: Store)
    requires job.base == |t.app| && Lookup(t.progress, job.id, KEY).None?
    ensures Progressed(job, t)
  {
  }
}
