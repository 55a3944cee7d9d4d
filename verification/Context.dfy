/** The migration facade: what author code can reach, and what it cannot undo. */
module Context {
  import opened Model
  import opened StateValidate
  import opened Durable
  import opened Driver
  import opened Latch
  import opened Adapter
  import opened Programs

  // ------------------------------------------------- what author SQL can do

  /** Whatever is pending may be committed at any moment without harm. */
  ghost predicate Harmless(owner: Option<string>, s: Server) {
    s.txn.Open? ==> Authors(owner, s.durable, s.txn.work)
  }

  /** Statements that touch application data, or the owner's own checkpoints. */
  predicate OwnSql(owner: Option<string>, sql: Sql) {
    sql.AuthorStatement? || (sql.UpsertProgress? && owner == Some(sql.entry.id) && sql.entry.value != "")
  }

  /** Every durable state since `a` is one author step from the one before. */
  ghost predicate AuthorTrail(owner: Option<string>, a: seq<Tables>, b: seq<Tables>) {
    && a != [] && a <= b
    && forall i | |a| <= i < |b| :: Authors(owner, b[i - 1], b[i])
  }

  /** A transaction that is open now and was not just begun has been open all
      along, and nothing became durable meanwhile. */
  ghost predicate KeepsTxn(a: Session, b: Session) {
    b.server.txn.Open? && b.server.txn.id < a.server.nextId ==>
      a.server.TxnId() == b.server.TxnId() && b.trail == a.trail
  }

  /** Without server code that ends transactions, none is ever opened behind
      the facade's back. */
  ghost predicate NoneReopened(s: Server, t: Server) {
    t.txn.Open? ==> t.TxnId() == s.TxnId()
  }

  /** A transaction whose begin was cut short is none of the facade's making. */
  ghost predicate NoneCut(s: Server, t: Server) {
    t.txn.Open? && t.txn.cut ==> s.txn.Open? && s.txn.cut
  }

  lemma {:induction false} SameServer(s: Server)
    ensures NoneCut(s, s) && NoneReopened(s, s)
  {
  }

  /** The engine's transaction is left to the engine, as atomic code must. */
  ghost predicate Passive(a: Session, b: Session, severing: bool) {
    b.flag == a.flag && NoneCut(a.server, b.server) && (!severing ==> NoneReopened(a.server, b.server))
  }

  lemma {:induction false} PassiveNothing(a: Session, severing: bool)
    ensures Passive(a, a, severing)
  {
  }

  lemma {:induction false} PassiveComposes(a: Session, b: Session, c: Session, severing: bool)
    ensures Passive(a, b, severing) && Passive(b, c, severing) ==> Passive(a, c, severing)
  {
  }

  ghost predicate Authored(owner: Option<string>, a: Session, b: Session) {
    Extends(a, b) && AuthorTrail(owner, a.trail, b.trail) && KeepsTxn(a, b)
  }

  lemma {:induction false} AuthorsCompose(owner: Option<string>, s: Tables, t: Tables, u: Tables)
    requires Authors(owner, s, t) && Authors(owner, t, u)
    ensures Authors(owner, s, u)
  {
  }

  lemma {:induction false} UpsertMembers(rows: seq<ProgressRow>, row: ProgressRow, r: ProgressRow)
    requires r in Upsert(rows, row)
    ensures r in rows || r == row
  {
    if rows != [] && (rows[0].id, rows[0].key) != (row.id, row.key) && r != rows[0] {
      assert r in Upsert(rows[1..], row);
      UpsertMembers(rows[1..], row, r);
    }
  }

  /** Writing a checkpoint never leaves two rows under one key. */
  lemma {:induction false} UpsertKeepsKeysDistinct(rows: seq<ProgressRow>, row: ProgressRow)
    requires DistinctKeys(rows)
    ensures DistinctKeys(Upsert(rows, row))
  {
    if rows == [] {
      return;
    }
    var rest := rows[1..];
    assert forall i | 0 <= i < |rest| :: rest[i] == rows[i + 1];
    if (rows[0].id, rows[0].key) == (row.id, row.key) {
      var up := [row] + rest;
      assert forall i | 0 < i < |up| :: up[i] == rows[i];
      return;
    }
    UpsertKeepsKeysDistinct(rest, row);
    var up := Upsert(rest, row);
    forall j | 0 <= j < |up|
      ensures (up[j].id, up[j].key) != (rows[0].id, rows[0].key)
    {
      assert up[j] in up;
      UpsertMembers(rest, row, up[j]);
      if up[j] in rest {
        var k :| 0 <= k < |rest| && rest[k] == up[j];
        assert rows[k + 1] == up[j];
      }
    }
  }

  /** A checkpoint reads back as written, and no other checkpoint changes. */
  lemma {:induction false} CheckpointReadsBack(rows: seq<ProgressRow>, row: ProgressRow, id: string, key: string)
    ensures Lookup(Upsert(rows, row), id, key) == if (id, key) == (row.id, row.key) then Some(row.value) else Lookup(rows, id, key)
  {
    if rows != [] && (rows[0].id, rows[0].key) != (row.id, row.key) {
      CheckpointReadsBack(rows[1..], row, id, key);
      assert Upsert(rows, row)[1..] == Upsert(rows[1..], row);
    }
  }

  lemma {:induction false} OwnEffectAuthors(owner: Option<string>, sql: Sql, t: Tables)
    requires OwnSql(owner, sql)
    ensures Authors(owner, t, Effect(sql, t))
  {
    if sql.UpsertProgress? {
      forall r | r in Effect(sql, t).progress
        ensures r in t.progress || (r.id == owner.value && r.value != "")
      {
        UpsertMembers(t.progress, sql.entry, r);
      }
      if DistinctKeys(t.progress) {
        UpsertKeepsKeysDistinct(t.progress, sql.entry);
      }
    }
  }

  /** Running one author statement, whatever the server makes of it. */
  lemma {:induction false} ExecutionIsAuthored(owner: Option<string>, s: Server, sql: Sql, reply: Reply, t: Server, severing: bool)
    requires OwnSql(owner, sql) && Harmless(owner, s) && Executes(s, sql, reply, t, severing)
    ensures Harmless(owner, t) && Authors(owner, s.durable, t.durable)
    ensures s.nextId <= t.nextId
    ensures t.txn.Open? ==> t.TxnId() == s.TxnId() || t.txn.id == s.nextId
    ensures t.txn.Open? && t.TxnId() == s.TxnId() && s.txn.id < s.nextId ==> t.durable == s.durable
    ensures !severing && t.txn.Open? ==> t.TxnId() == s.TxnId()
    ensures !severing && s.txn.Open? ==> t.durable == s.durable
  {
    OwnEffectAuthors(owner, sql, s.durable);
    OwnEffectAuthors(owner, sql, t.durable);
    if s.txn.Open? {
      OwnEffectAuthors(owner, sql, s.txn.work);
      AuthorsCompose(owner, s.durable, s.txn.work, Effect(sql, s.txn.work));
    }
  }

  /** Pass in the established transaction, or in one whose begin was cut short and
      that shares its identity.  In any other a violation is latched, unless the
      read fails or an interrupt cuts the latching short. */
  method CheckTransactionIdentity(adapter: SessionAdapter, established: Option<nat>) returns (o: Outcome)
    requires adapter.Valid()
    modifies adapter.db`calls, adapter.db`interrupts, adapter.latch
    ensures adapter.Valid() && Extends(old(adapter.At()), adapter.At()) && Unmoved(old(adapter.At()), adapter.At())
    ensures o.Done? && established.Some? ==>
              adapter.latch.error.None? && adapter.db.server.txn.Open? && (adapter.db.server.TxnId() == established || adapter.db.server.txn.cut)
    ensures o.Done? ==> adapter.latch.error == old(adapter.latch.error) && adapter.latch.state == old(adapter.latch.state)
    ensures o.Raised? && (o.error.ContractViolation? || o.error.UnknownOutcome?) ==> adapter.latch.Latched()
    ensures o == Raised(Rejected) ==> adapter.latch.error == old(adapter.latch.error) && adapter.latch.state == old(adapter.latch.state)
    ensures o.Raised? && old(adapter.latch.error).None? ==>
              o.error.ContractViolation? || o.error.UnknownOutcome? || o.error.Rejected? || o.error.Interrupt?
    ensures old(adapter.latch.error).Some? && established.Some? ==> o == Raised(old(adapter.latch.error).value)
    ensures !adapter.db.faulty && old(adapter.latch.error).None? && adapter.db.server.TxnId() == established ==> o.Done?
    ensures o.Raised? && (o.error.ContractViolation? || o.error.UnknownOutcome?) && !old(adapter.latch.Latched()) ==> adapter.latch.error.Some?
    ensures adapter.latch.Half() && !old(adapter.latch.Half()) ==> o.Raised? && Grave(o.error)
  {
    hide Ended, Orderly, Quiet, Attended, Suspect;
    if established.None? {
      return Done;
    }
    :- adapter.Fetch(Identifying(ACK), "reading the transaction identity");
    var same := adapter.db.CarriesIdentity(established.value);
    if same {
      return Done;
    }
    var e := ContractViolation("transaction_identity");
    var cut := adapter.Cut();
    :- adapter.latch.LatchViolation(e, cut);
    return Raised(e);
  }

  lemma {:induction false} WrittenStore(t: Tables, write: Option<Write>)
    ensures StoreOf(Effect(AuthorStatement(write), t)) == Written(StoreOf(t), write)
  {
  }

  /** A statement that applies stays in its transaction. */
  lemma {:induction false} AppliedInPlace(s: Server, sql: Sql, t: Server)
    requires Applies(s, sql, t)
    ensures t.TxnId() == s.TxnId() && t.Visible() == Effect(sql, s.Visible())
    ensures s.txn.Open? ==> t.txn.Open? && t.durable == s.durable && t.txn.work == Effect(sql, s.txn.work)
    ensures s.txn.NoTxn? ==> t.txn.NoTxn? && t.durable == Effect(sql, s.durable)
  {
  }

  /** A statement of the author's as a session sees it. */
  lemma {:induction false} StatementIsAuthored(owner: Option<string>, a: Session, sql: Sql, reply: Reply, b: Session, severing: bool)
    requires OwnSql(owner, sql) && Harmless(owner, a.server) && Orderly(a.server) && Extends(a, b)
    requires a.trail != [] && Last(a.trail) == a.server.durable
    requires Executes(a.server, sql, reply, b.server, severing) && Records(a.server, a.trail, b.server, b.trail)
    ensures Authored(owner, a, b) && Harmless(owner, b.server)
    ensures !severing ==> NoneReopened(a.server, b.server)
    ensures NoneCut(a.server, b.server)
    ensures !severing && a.server.txn.Open? ==> b.trail == a.trail
  {
    hide Authors, Ended, Effect;
    ExecutionIsAuthored(owner, a.server, sql, reply, b.server, severing);
  }

  /** A commit of what is pending is a step of the author's. */
  lemma {:induction false} CommitIsAuthored(owner: Option<string>, a: Session, reply: Reply, b: Session)
    requires Harmless(owner, a.server) && Orderly(a.server) && Extends(a, b)
    requires a.trail != [] && Last(a.trail) == a.server.durable
    requires Commits(a.server, reply, b.server) && Records(a.server, a.trail, b.server, b.trail)
    ensures Authored(owner, a, b) && Harmless(owner, b.server)
  {
    hide Authors, Ended;
  }

  lemma {:induction false} AuthoredNothing(owner: Option<string>, a: Session)
    requires a.trail != []
    ensures Authored(owner, a, a)
  {
  }

  // --------------------------------------------------- cleanly exited batches

  /** What became of a cleanly exited batch.  `Kept` until an exit rolls it back:
      `Withdrawn` by an exit that carried an exception, `Unlatched` by a clean one.
      `Replaced` when another transaction was committed in its stead. */
  datatype Fate = Kept | Withdrawn | Unlatched | Replaced

  /** One clean exit of a batch while an engine transaction is in progress: the
      transaction it was in, what that held, and how many durable states there
      had been.  `strayed` says that, before it landed, a batch object was exited
      with an exception outside any batch; `gap` that an interrupt came between the
      rollback that gave it up and the latching of its failure. */
  datatype Exited = Exited(txn: Option<nat>, content: Tables, since: nat, fate: Fate, strayed: bool, gap: bool)

  /** Rows and checkpoints of a batch are all there. */
  predicate Contains(content: Tables, t: Tables) {
    content.app <= t.app && t.progress == content.progress && t.history == content.history && SameLayout(content, t)
  }

  /** The batch's own transaction was committed. */
  predicate Landed(s: Server, b: Exited) {
    b.txn.Some? && b.txn.value in s.committed
  }

  /** What is known of an exited batch: if its transaction was committed, all of
      it is in a durable state since; if it was given up, it never will be. */
  ghost predicate Recorded(s: Server, trail: seq<Tables>, severing: bool, b: Exited) {
    && 1 <= b.since <= |trail|
    && (b.txn.Some? ==>
          && b.txn.value < s.nextId
          && (Landed(s, b) ==> Contains(b.content, s.committed[b.txn.value]) && s.committed[b.txn.value] in trail[b.since - 1..])
          && (s.TxnId() == b.txn ==> Contains(b.content, s.txn.work))
          && (!b.fate.Kept? ==> Ended(s, b.txn.value)))
    && (b.fate.Replaced? ==> severing)
    && (b.fate.Withdrawn? ==> b.strayed)
    && (!severing && b.fate.Kept? && !Landed(s, b) && s.txn.Open? ==> s.TxnId() == b.txn)
  }

  /** Give up every batch that has not landed. */
  function GiveUp(exits: seq<Exited>, s: Server, cause: Fate): seq<Exited> {
    seq(|exits|, i requires 0 <= i < |exits| =>
      if exits[i].fate.Kept? && !Landed(s, exits[i]) then exits[i].(fate := cause) else exits[i])
  }

  /** An exit with an exception outside any batch concerns all that is on its way. */
  function Strayed(exits: seq<Exited>, s: Server): seq<Exited> {
    seq(|exits|, i requires 0 <= i < |exits| =>
      if exits[i].fate.Kept? && !Landed(s, exits[i]) then exits[i].(strayed := true) else exits[i])
  }

  /** An interrupt kept the loss of these from being latched. */
  function Gapped(exits: seq<Exited>): seq<Exited> {
    seq(|exits|, i requires 0 <= i < |exits| => if exits[i].fate.Unlatched? then exits[i].(gap := true) else exits[i])
  }

  /** All that can be said of a clean exit once its migration is SUCCESS: the batch
      is durable, whole, exactly if it was not given up; and it was given up only by
      a stray exit, or by a clean one whose latching an interrupt prevented, or
      because server code put another transaction in its place. */
  ghost predicate Explained(s: Session, severing: bool, b: Exited) {
    && (Landed(s.server, b) <==> b.fate.Kept?)
    && (b.txn.Some? && !b.fate.Kept? ==> Ended(s.server, b.txn.value))
    && (Landed(s.server, b) ==>
          && Contains(b.content, s.server.committed[b.txn.value])
          && 1 <= b.since <= |s.trail|
          && s.server.committed[b.txn.value] in s.trail[b.since - 1..])
    && (b.fate.Withdrawn? ==> b.strayed)
    && (b.fate.Unlatched? ==> b.gap || s.half)
    && (b.fate.Replaced? ==> severing)
  }

  /** What is explained stays explained. */
  lemma {:induction false} StillExplained(a: Session, b: Session, severing: bool, exit: Exited)
    requires Explained(a, severing, exit) && Onward(a.server, b.server) && a.trail <= b.trail && (a.half ==> b.half)
    ensures Explained(b, severing, exit)
  {
    if Landed(a.server, exit) {
      StillThere(a.trail, b.trail, exit.since, a.server.committed[exit.txn.value]);
    } else if exit.txn.Some? {
      assert Ended(b.server, exit.txn.value);
    }
  }

  /** The same exits, whatever has become of them. */
  ghost predicate SameExits(a: seq<Exited>, b: seq<Exited>) {
    |a| == |b| && forall i | 0 <= i < |a| :: a[i] == b[i].(fate := a[i].fate, gap := a[i].gap)
  }

  lemma {:induction false} StillThere(trail: seq<Tables>, trail': seq<Tables>, since: nat, t: Tables)
    requires trail <= trail' && 1 <= since <= |trail|
    ensures t in trail[since - 1..] ==> t in trail'[since - 1..]
    ensures t == Last(trail') ==> t in trail'[since - 1..]
  {
    assert trail[since - 1..] <= trail'[since - 1..];
    assert Last(trail'[since - 1..]) == Last(trail');
  }

  /** Whatever the server makes of a statement, it keeps every record.  Only
      checkpoints may not be written into an exited batch's transaction. */
  lemma {:induction false} ExecutionKeepsRecord(s: Server, trail: seq<Tables>, sql: Sql, reply: Reply, t: Server, trail': seq<Tables>, severing: bool, b: Exited)
    requires Orderly(s) && trail != [] && Last(trail) == s.durable && Recorded(s, trail, severing, b)
    requires Executes(s, sql, reply, t, severing) && Records(s, trail, t, trail') && Onward(s, t)
    requires sql.AuthorStatement? || (sql.UpsertProgress? && (b.txn.None? || s.TxnId() != b.txn))
    ensures Recorded(t, trail', severing, b)
  {
    if b.txn.Some? {
      var id := b.txn.value;
      if id in t.committed {
        StillThere(trail, trail', b.since, t.committed[id]);
      }
    }
  }

  lemma {:induction false} CommitKeepsRecord(s: Server, trail: seq<Tables>, reply: Reply, t: Server, trail': seq<Tables>, severing: bool, b: Exited)
    requires Orderly(s) && trail != [] && Last(trail) == s.durable && Recorded(s, trail, severing, b)
    requires Commits(s, reply, t) && Records(s, trail, t, trail') && Onward(s, t)
    ensures Recorded(t, trail', severing, b)
  {
    if b.txn.Some? {
      var id := b.txn.value;
      if id in t.committed {
        StillThere(trail, trail', b.since, t.committed[id]);
      }
    }
  }

  /** Ending or beginning a transaction keeps a record too; a beginning needs the
      batch to be settled. */
  lemma {:induction false} ControlKeepsRecord(s: Server, t: Server, trail: seq<Tables>, severing: bool, b: Exited)
    requires Orderly(s) && Recorded(s, trail, severing, b) && Onward(s, t) && t.committed == s.committed
    requires t == s || t.txn.NoTxn? || (t.txn.Open? && t.txn.id == s.nextId && (b.fate.Kept? ==> Landed(s, b)))
    ensures Recorded(t, trail, severing, b)
  {
  }

  lemma {:induction false} JustExited(s: Server, trail: seq<Tables>, severing: bool, b: Exited)
    requires Orderly(s) && trail != [] && b == Exited(s.TxnId(), s.Visible(), |trail|, Kept, false, false)
    ensures Recorded(s, trail, severing, b)
  {
  }

  /** A settled batch's transaction is over. */
  lemma {:induction false} SettledIsOver(s: Server, trail: seq<Tables>, severing: bool, b: Exited)
    requires Orderly(s) && Recorded(s, trail, severing, b)
    ensures (b.fate.Kept? ==> Landed(s, b)) ==> b.txn.None? || s.TxnId() != b.txn
  {
  }

  lemma {:induction false} GivenUpIsRecorded(s: Server, trail: seq<Tables>, severing: bool, b: Exited, cause: Fate)
    requires Recorded(s, trail, severing, b) && s.txn.NoTxn? && !Landed(s, b) && (cause.Replaced? ==> severing) && (cause.Withdrawn? ==> b.strayed)
    ensures Recorded(s, trail, severing, b.(fate := cause))
  {
  }

  // -------------------------------------------------------------- the facade

  /** The driver calls made in one batch: from its entry on, up to `to`. */
  datatype Span = Span(txn: nat, from: nat, to: nat)

  /** A statement or read submitted in a transaction: in the batch's own, where no
      server code can end a transaction and open another behind the facade.  The
      latching of an unknown outcome is no call. */
  predicate SubmittedIn(call: Call, txn: nat, severing: bool) {
    || call.Latching?
    || ((call.Sent? || call.Reading?) && call.inside.Some? && (!severing ==> call.inside == Some(txn)))
  }

  ghost predicate SpanHolds(calls: seq<Call>, span: Span, severing: bool) {
    && span.from <= span.to <= |calls|
    && forall i | span.from <= i < span.to :: SubmittedIn(calls[i], span.txn, severing)
  }

  /** A program as it was started: where, with what budget, and after which durable
      states. */
  datatype Outset = Outset(author: Author, v: View, budget: nat, trail: seq<Tables>)

  /** What is claimed of a program, and what it has done about it so far. */
  datatype Claims = Claims(bracketed: bool, candid: bool, tidy: bool, straight: bool)

  datatype Conduct = Conduct(block: Option<nat>, shaken: bool, broken: bool)

  /** Statements sent since were taken to be able to commit, or not to. */
  ghost predicate SentAs(before: seq<Call>, after: seq<Call>, capable: bool) {
    forall i | |before| <= i < |after| && after[i].Sent? :: after[i].capable <==> capable
  }

  lemma {:induction false} NothingSent(calls: seq<Call>, capable: bool)
    ensures SentAs(calls, calls, capable)
  {
  }

  class MigrationContext {
    const adapter: SessionAdapter
    const id: string
    /** Restartable contexts have batches, DDL and progress; atomic ones do not. */
    const restartable: bool

    var inBatch: bool
    var openBatch: Option<nat>
    /** The identity each batch object established when it was last entered. */
    var batches: seq<Option<nat>>

    /** Every clean exit of a batch so far. */
    ghost var exits: seq<Exited>
    ghost var spans: seq<Span>
    /** Length of the trail when the current batch was entered. */
    ghost var enteredAt: nat

    ghost function Owner(): Option<string> {
      if restartable then Some(id) else None
    }

    /** A cleanly exited batch that was not given up is durable, or the engine
        transaction is still marked open, so that no `begin` can succeed. */
    ghost predicate Accounted()
      reads this, adapter, adapter.db
    {
      forall b | b in exits && b.fate.Kept? :: Landed(adapter.db.server, b) || (adapter.engineTransaction && !inBatch)
    }

    /** Nothing exited is still on its way. */
    ghost predicate AllSettled()
      reads this, adapter.db
    {
      forall b | b in exits && b.fate.Kept? :: Landed(adapter.db.server, b)
    }

    /** Nothing exited is on its way but what a stray exit may withdraw. */
    ghost predicate AllStrayed()
      reads this, adapter.db
    {
      forall b | b in exits && b.fate.Kept? && !Landed(adapter.db.server, b) :: b.strayed
    }

    /** A clean exit rolls back only where it goes on to latch: if the latch is
        empty after all, an interrupt came first. */
    ghost predicate Evident()
      reads this, adapter, adapter.latch
    {
      forall b | b in exits && b.fate.Unlatched? :: b.gap || adapter.latch.Latched()
    }

    /** No interrupt has fallen into a latching. */
    ghost predicate Smooth()
      reads this, adapter, adapter.latch
    {
      !adapter.latch.Half() && forall b | b in exits :: !b.gap
    }

    /** No exit with an exception was made outside a batch. */
    ghost predicate Unstrayed()
      reads this
    {
      forall b | b in exits :: !b.strayed
    }

    /** Where the program stands, for a program that knows of no failure. */
    ghost function ViewOf(): View
      reads this, adapter, adapter.db
    {
      var s := adapter.db.server;
      View(StoreOf(s.durable), if s.txn.Open? then Some(StoreOf(s.txn.work)) else None, openBatch, |batches|)
    }

    ghost predicate Valid()
      reads this, adapter, adapter.db, adapter.latch
    {
      Steady() && Evident() && adapter.Valid()
    }

    ghost predicate Steady()
      reads this, adapter, adapter.db, adapter.latch
    {
      var db := adapter.db;
      && adapter.Working()
      && Harmless(Owner(), db.server)
      && (inBatch ==> restartable && adapter.engineTransaction && spans != [] && Last(spans).to == |db.calls|)
      && (forall span | span in spans :: SpanHolds(db.calls, span, db.severing))
      && (inBatch && !db.severing ==>
            |db.trail| == enteredAt && (db.server.txn.Open? ==> db.server.TxnId() == Some(Last(spans).txn)))
      && (forall b | b in exits :: Recorded(db.server, db.trail, db.severing, b))
      && Accounted()
    }

    /** All that completion needs to know of the exits. */
    ghost predicate Closing()
      reads this, adapter, adapter.db, adapter.latch
    {
      (forall b | b in exits :: Recorded(adapter.db.server, adapter.db.trail, adapter.db.severing, b)) && Accounted() && Evident()
    }

    /** Everything as a well-behaved program leaves it between calls. */
    ghost predicate Tidy()
      reads this, adapter, adapter.db, adapter.latch
    {
      var s := adapter.At();
      && inBatch == openBatch.Some?
      && !s.half
      && if inBatch then
           && s.latch.None? && s.flag && s.server.txn.Open?
           && openBatch.value < |batches| && batches[openBatch.value] == s.server.TxnId()
         else if restartable then Idle(s)
         else s.latch.None? && s.flag && s.server.txn.Open?
    }

    constructor (adapter: SessionAdapter, id: string, restartable: bool)
      requires adapter.Valid()
      requires restartable ==> adapter.db.server.txn.NoTxn?
      requires adapter.db.server.txn.Open? ==> adapter.db.server.txn.work == adapter.db.server.durable
      ensures Valid() && this.adapter == adapter && this.id == id && this.restartable == restartable
      ensures !inBatch && openBatch.None? && batches == [] && exits == [] && spans == []
    {
      this.adapter, this.id, this.restartable := adapter, id, restartable;
      inBatch, openBatch, batches := false, None, [];
      exits, spans, enteredAt := [], [], 0;
    }

    /** Refuse a facade call when something is latched or when the transaction of
        the current batch is over, and latch the latter. */
    method AdmitCall() returns (o: Outcome)
      requires Valid()
      modifies adapter.db`interrupts, adapter.latch
      ensures Valid() && Authored(Owner(), old(adapter.At()), adapter.At())
      ensures Unmoved(old(adapter.At()), adapter.At()) && adapter.db.calls == old(adapter.db.calls)
      ensures o.Done? ==> adapter.latch.error.None? && (inBatch ==> adapter.db.server.txn.Open?)
      ensures o.Raised? ==> adapter.latch.error == Some(o.error) || adapter.latch.Half()
      ensures old(Tidy()) ==> o.Done? && Tidy()
      ensures o.Done? ==> adapter.latch.state == old(adapter.latch.state)
      ensures adapter.latch.Half() && !old(adapter.latch.Half()) ==> o.Raised? && Grave(o.error)
      ensures o.Raised? && !old(adapter.latch.Latched()) && adapter.db.interrupts == old(adapter.db.interrupts) ==>
                && adapter.latch.error == Some(o.error)
                && (if adapter.db.knowsRollback then o.error.MigrationFailed? else o.error.ContractViolation?)
    {
      hide Authors, Recorded, SpanHolds, Ended, Orderly, Quiet, Attended, Suspect;
      o := adapter.latch.Check();
      :- o;
      if !inBatch {
        return Done;
      }
      var state := adapter.db.BatchTransactionState();
      if state.OPEN? {
        return Done;
      }
      var cut := adapter.Cut();
      if state.ROLLED_BACK? {
        var e := MigrationFailed("restartable_batch");
        :- adapter.latch.LatchFailure(e, cut);
        return Raised(e);
      }
      var e := ContractViolation("restartable_batch");
      :- adapter.latch.LatchViolation(e, cut);
      return Raised(e);
    }

    /** One more driver call in the current batch, if it was made. */
    ghost method Extend(before: seq<Call>)
      requires adapter.db.Valid() && (forall span | span in spans :: SpanHolds(before, span, adapter.db.severing))
      requires before <= adapter.db.calls
      requires inBatch ==> spans != [] && Last(spans).to == |before|
      requires inBatch ==> forall i | |before| <= i < |adapter.db.calls| :: SubmittedIn(adapter.db.calls[i], Last(spans).txn, adapter.db.severing)
      modifies this`spans
      ensures forall span | span in spans :: SpanHolds(adapter.db.calls, span, adapter.db.severing)
      ensures inBatch ==> spans != [] && Last(spans).to == |adapter.db.calls| && Last(spans).txn == Last(old(spans)).txn
      ensures !inBatch ==> spans == old(spans)
    {
      if inBatch {
        var last := Last(spans);
        assert SpanHolds(before, last, adapter.db.severing);
        spans := Front(spans) + [last.(to := |adapter.db.calls|)];
        assert forall span | span in Front(old(spans)) :: span in old(spans);
      }
    }

    /** Submit one of the author's statements, already admitted. */
    method SubmitOwn(sql: Sql, operation: string, commitCapable: bool) returns (r: Result<nat>)
      requires Valid() && OwnSql(Owner(), sql) && (sql.UpsertProgress? ==> inBatch)
      requires inBatch ==> adapter.db.server.txn.Open?
      modifies this`spans, adapter.db, adapter.latch
      ensures Valid() && Authored(Owner(), old(adapter.At()), adapter.At())
      ensures adapter.engineTransaction == old(adapter.engineTransaction)
      ensures r.Returned? ==> adapter.latch.error.None?
      ensures r.Returned? && (sql.UpsertProgress? || !adapter.db.severing) ==> Applies(old(adapter.db.server), sql, adapter.db.server)
      ensures !adapter.db.severing ==> NoneReopened(old(adapter.db.server), adapter.db.server)
      ensures !adapter.db.severing && old(adapter.db.server).txn.Open? ==> adapter.db.trail == old(adapter.db.trail)
      ensures old(Tidy()) && !adapter.db.faulty ==> r.Returned?
      ensures old(Tidy()) && !adapter.db.severing && r.Returned? ==> Tidy()
      ensures Executes(old(adapter.db.server), sql, if r.Returned? then ACK else REJECTION, adapter.db.server, adapter.db.severing)
      ensures Records(old(adapter.db.server), old(adapter.db.trail), adapter.db.server, adapter.db.trail)
      ensures r.Returned? ==> adapter.latch.state == old(adapter.latch.state)
      ensures adapter.latch.Half() && !old(adapter.latch.Half()) ==> r.Threw? && Grave(r.error)
      ensures NoneCut(old(adapter.db.server), adapter.db.server)
      ensures SentAs(old(adapter.db.calls), adapter.db.calls, commitCapable)
    {
      hide Effect, Affected, Applies, Severs, Recorded, SpanHolds, Ended, Orderly, Quiet, Attended, Suspect, Authored, Harmless;
      ghost var before := adapter.At();
      r := adapter.Submit(sql, operation, commitCapable);
      ghost var reply := if r.Returned? then ACK else REJECTION;
      StatementIsAuthored(Owner(), before, sql, reply, adapter.At(), adapter.db.severing);
      AfterStatement(before, sql, reply);
      if r.Returned? && !adapter.db.severing {
        AppliedInPlace(before.server, sql, adapter.db.server);
      }
    }

    /** Bring records and spans up to date after a statement. */
    ghost method AfterStatement(before: Session, sql: Sql, reply: Reply)
      requires adapter.Valid() && Harmless(Owner(), adapter.db.server) && adapter.engineTransaction == before.flag
      requires Orderly(before.server) && before.trail != [] && Last(before.trail) == before.server.durable
      requires Executes(before.server, sql, reply, adapter.db.server, adapter.db.severing) && Extends(before, adapter.At())
      requires Records(before.server, before.trail, adapter.db.server, adapter.db.trail)
      requires !adapter.db.severing ==> NoneReopened(before.server, adapter.db.server) && (before.server.txn.Open? ==> adapter.db.trail == before.trail)
      requires sql.AuthorStatement? || (sql.UpsertProgress? && inBatch)
      requires forall span | span in spans :: SpanHolds(before.calls, span, adapter.db.severing)
      requires forall b | b in exits :: Recorded(before.server, before.trail, adapter.db.severing, b)
      requires forall b | b in exits && b.fate.Kept? :: Landed(before.server, b) || (before.flag && !inBatch)
      requires forall b | b in exits && b.fate.Unlatched? :: b.gap || before.half || before.latch.Some?
      requires inBatch ==>
                 && restartable && before.flag && spans != [] && Last(spans).to == |before.calls| && before.server.txn.Open?
                 && (forall i | |before.calls| <= i < |adapter.db.calls| :: SubmittedIn(adapter.db.calls[i], Last(spans).txn, adapter.db.severing))
                 && (!adapter.db.severing ==> |before.trail| == enteredAt && before.server.TxnId() == Some(Last(spans).txn))
      modifies this`spans
      ensures Valid()
    {
      hide Executes, Recorded, SpanHolds, Ended, Orderly, Quiet, Attended, Suspect, Harmless;
      StatementKeepsRecords(before.server, before.trail, sql, reply);
      Extend(before.calls);
    }

    /** A statement keeps every record; a checkpoint does when all are settled. */
    lemma {:induction false} StatementKeepsRecords(before: Server, trail: seq<Tables>, sql: Sql, reply: Reply)
      requires Orderly(before) && trail != [] && Last(trail) == before.durable
      requires forall b | b in exits :: Recorded(before, trail, adapter.db.severing, b)
      requires sql.AuthorStatement? || (sql.UpsertProgress? && forall b | b in exits && b.fate.Kept? :: Landed(before, b))
      requires Executes(before, sql, reply, adapter.db.server, adapter.db.severing) && Onward(before, adapter.db.server)
      requires Records(before, trail, adapter.db.server, adapter.db.trail)
      ensures forall b | b in exits :: Recorded(adapter.db.server, adapter.db.trail, adapter.db.severing, b)
    {
      hide Recorded, Executes, Onward, Orderly, Ended;
      forall b | b in exits ensures Recorded(adapter.db.server, adapter.db.trail, adapter.db.severing, b) {
        SettledIsOver(before, trail, adapter.db.severing, b);
        ExecutionKeepsRecord(before, trail, sql, reply, adapter.db.server, adapter.db.trail, adapter.db.severing, b);
      }
    }

    /** `ctx.execute`, `ctx.executemany` and `ctx.query`. */
    method ExecuteSql(write: Option<Write>, procedural: bool, legal: bool) returns (r: Result<Value>)
      requires Valid()
      modifies this`spans, adapter.db, adapter.latch
      ensures Valid() && Authored(Owner(), old(adapter.At()), adapter.At())
      ensures adapter.engineTransaction == old(adapter.engineTransaction)
      ensures !restartable && !adapter.db.severing ==> NoneReopened(old(adapter.db.server), adapter.db.server)
      ensures r.Returned? && !adapter.db.severing ==>
                && Applies(old(adapter.db.server), AuthorStatement(write), adapter.db.server)
                && r.value == Rows(adapter.db.server.Visible().app)
      ensures inBatch && !adapter.db.severing ==> adapter.db.trail == old(adapter.db.trail)
      ensures old(Tidy()) && Fits(FacadeCall.Execute(write, procedural, legal), restartable, old(ViewOf())) && !adapter.db.faulty ==> r.Returned?
      ensures old(Tidy()) && Fits(FacadeCall.Execute(write, procedural, legal), restartable, old(ViewOf())) && !adapter.db.severing ==>
                && (r.Returned? ==> Tidy() && ViewOf() == NextView(id, old(ViewOf()), FacadeCall.Execute(write, procedural, legal)) && r.value == AnswerOf(id, old(ViewOf()), FacadeCall.Execute(write, procedural, legal)))
                && Within(old(adapter.db.trail), adapter.db.trail, NextView(id, old(ViewOf()), FacadeCall.Execute(write, procedural, legal)).durable)
      ensures r.Returned? ==> adapter.latch.state == old(adapter.latch.state)
      ensures adapter.latch.Half() && !old(adapter.latch.Half()) ==> r.Threw? && Grave(r.error)
      ensures NoneCut(old(adapter.db.server), adapter.db.server)
      ensures !legal || (restartable && !inBatch && write.Some? && !procedural) ==>
                r.Threw? && adapter.db.calls == old(adapter.db.calls) && Unmoved(old(adapter.At()), adapter.At())
      ensures SentAs(old(adapter.db.calls), adapter.db.calls, restartable && !inBatch)
    {
      hide Authored, Extends, Steady, Evident, SessionAdapter.Valid, NoneCut, NoneReopened, SentAs;
      NothingSent(adapter.db.calls, restartable && !inBatch);
      NothingYet();
      SameServer(adapter.db.server);
      var o := AdmitCall();
      ghost var admitted := adapter.At();
      if o.Raised? {
        return Threw(o.error);
      }
      if !legal || (restartable && !inBatch && write.Some? && !procedural) {
        return Threw(Usage("statement is not admitted here"));
      }
      var n := SubmitOwn(AuthorStatement(write), "execute", restartable && !inBatch);
      AuthoredComposes(Owner(), old(adapter.At()), admitted, adapter.At());
      NothingYet();
      if n.Threw? {
        return Threw(n.error);
      }
      return Returned(Rows(adapter.db.server.Visible().app));
    }

    method GetProgress(key: string) returns (r: Result<Value>)
      requires Valid()
      modifies this`spans, adapter.db, adapter.latch
      ensures Valid() && Authored(Owner(), old(adapter.At()), adapter.At())
      ensures Unmoved(old(adapter.At()), adapter.At())
      ensures r.Returned? ==> ValidKey(key) && r.value == Text(Lookup(old(adapter.db.server).Visible().progress, id, key))
      ensures old(Tidy()) && Fits(ProgressGet(key), restartable, old(ViewOf())) && !adapter.db.faulty ==> r.Returned?
      ensures old(Tidy()) && Fits(ProgressGet(key), restartable, old(ViewOf())) && !adapter.db.severing ==>
                && (r.Returned? ==> Tidy() && ViewOf() == NextView(id, old(ViewOf()), ProgressGet(key)) && r.value == AnswerOf(id, old(ViewOf()), ProgressGet(key)))
                && Within(old(adapter.db.trail), adapter.db.trail, NextView(id, old(ViewOf()), ProgressGet(key)).durable)
      ensures r.Returned? ==> adapter.latch.state == old(adapter.latch.state)
      ensures adapter.latch.Half() && !old(adapter.latch.Half()) ==> r.Threw? && Grave(r.error)
    {
      hide Authored, Extends, Steady, Evident, SessionAdapter.Valid;
      NothingYet();
      if !restartable {
        return Threw(AuthorError);
      }
      var o := AdmitCall();
      ghost var admitted := adapter.At();
      if o.Raised? {
        return Threw(o.error);
      }
      if !ValidKey(key) {
        return Threw(Usage("progress key"));
      }
      o := Look("progress read");
      AuthoredComposes(Owner(), old(adapter.At()), admitted, adapter.At());
      if o.Raised? {
        return Threw(o.error);
      }
      return Returned(Text(Lookup(adapter.db.server.Visible().progress, id, key)));
    }

    /** One guarded read, already admitted. */
    method Look(operation: string) returns (o: Outcome)
      requires Valid() && (inBatch ==> adapter.db.server.txn.Open?)
      modifies this`spans, adapter.db`calls, adapter.db`interrupts, adapter.latch
      ensures Valid() && Authored(Owner(), old(adapter.At()), adapter.At()) && Unmoved(old(adapter.At()), adapter.At())
      ensures o.Done? ==> adapter.latch.state == old(adapter.latch.state) && adapter.latch.error == old(adapter.latch.error)
      ensures !adapter.db.faulty && old(adapter.latch.error).None? ==> o.Done?
      ensures adapter.latch.Half() && !old(adapter.latch.Half()) ==> o.Raised? && Grave(o.error)
    {
      hide Authors, Recorded, SpanHolds, Ended, Orderly, Quiet, Attended, Suspect;
      ghost var calls := adapter.db.calls;
      o := adapter.Fetch(Reading(adapter.db.server.TxnId(), ACK), operation);
      Extend(calls);
    }

    /** A checkpoint joins the pending work of the current batch, and only there. */
    method SetProgress(key: string, value: string) returns (r: Result<Value>)
      requires Valid()
      modifies this`spans, adapter.db, adapter.latch
      ensures Valid() && Authored(Owner(), old(adapter.At()), adapter.At())
      ensures adapter.engineTransaction == old(adapter.engineTransaction)
      ensures r.Returned? ==>
                && inBatch && ValidKey(key) && ValidValue(value)
                && Applies(old(adapter.db.server), UpsertProgress(ProgressRow(id, key, value)), adapter.db.server)
      ensures inBatch && !adapter.db.severing ==> adapter.db.trail == old(adapter.db.trail)
      ensures !restartable && !adapter.db.severing ==> NoneReopened(old(adapter.db.server), adapter.db.server)
      ensures old(Tidy()) && Fits(ProgressSet(key, value), restartable, old(ViewOf())) && !adapter.db.faulty ==> r.Returned?
      ensures old(Tidy()) && Fits(ProgressSet(key, value), restartable, old(ViewOf())) && !adapter.db.severing ==>
                && (r.Returned? ==> Tidy() && ViewOf() == NextView(id, old(ViewOf()), ProgressSet(key, value)) && r.value == AnswerOf(id, old(ViewOf()), ProgressSet(key, value)))
                && Within(old(adapter.db.trail), adapter.db.trail, NextView(id, old(ViewOf()), ProgressSet(key, value)).durable)
      ensures r.Returned? ==> adapter.latch.state == old(adapter.latch.state)
      ensures adapter.latch.Half() && !old(adapter.latch.Half()) ==> r.Threw? && Grave(r.error)
      ensures NoneCut(old(adapter.db.server), adapter.db.server)
    {
      hide Authored, Extends, Steady, Evident, SessionAdapter.Valid, Applies, Executes, NoneCut, NoneReopened;
      NothingYet();
      SameServer(adapter.db.server);
      if !restartable {
        return Threw(AuthorError);
      }
      var o := AdmitCall();
      ghost var admitted := adapter.At();
      if o.Raised? {
        return Threw(o.error);
      }
      if !ValidKey(key) || !ValidValue(value) {
        return Threw(Usage("progress key or value"));
      }
      if !inBatch {
        return Threw(Usage("ctx.progress.set() is only available inside a ctx.transaction() block"));
      }
      var sql := UpsertProgress(ProgressRow(id, key, value));
      var n := SubmitOwn(sql, "progress write", false);
      AuthoredComposes(Owner(), old(adapter.At()), admitted, adapter.At());
      if n.Returned? {
        AppliedInPlace(old(adapter.db.server), sql, adapter.db.server);
      }
      return if n.Threw? then Threw(n.error) else Returned(Nothing);
    }

    /** Once the engine transaction is not marked open, all that has not landed is
        given up. */
    ghost method Relinquish(cause: Fate)
      requires adapter.db.Valid() && !adapter.engineTransaction && adapter.db.server.txn.NoTxn? && !cause.Kept?
      requires forall b | b in exits :: Recorded(adapter.db.server, adapter.db.trail, adapter.db.severing, b)
      requires cause.Replaced? ==> adapter.db.severing || AllSettled()
      requires cause.Withdrawn? ==> AllStrayed()
      modifies this`exits
      ensures forall b | b in exits :: Recorded(adapter.db.server, adapter.db.trail, adapter.db.severing, b)
      ensures AllSettled() && SameExits(exits, old(exits))
      ensures old(AllSettled()) ==> exits == old(exits)
      ensures forall i | 0 <= i < |exits| :: exits[i] == old(exits)[i] || (exits[i] == old(exits)[i].(fate := cause) && !Landed(adapter.db.server, exits[i]))
      ensures cause.Withdrawn? && old(Evident()) ==> Evident()
      ensures old(Smooth()) ==> Smooth()
      ensures AllStrayed()
    {
      hide Recorded;
      var s := adapter.db.server;
      var after := GiveUp(exits, s, cause);
      forall i | 0 <= i < |exits| ensures Recorded(s, adapter.db.trail, adapter.db.severing, after[i]) {
        assert exits[i] in exits;
        if exits[i].fate.Kept? && !Landed(s, exits[i]) {
          GivenUpIsRecorded(s, adapter.db.trail, adapter.db.severing, exits[i], cause);
        }
      }
      if AllSettled() {
        assert forall i | 0 <= i < |exits| :: exits[i] in exits;
        assert after == exits;
      }
      exits := after;
    }

    /** Roll back what remains, for the given reason; an ordinary failure of the
        rollback is ignored. */
    method RollbackBatch(cause: Fate) returns (o: Outcome)
      requires Steady() && adapter.Valid() && !adapter.Silent() && !inBatch && (cause.Unlatched? || (cause.Withdrawn? && AllStrayed()))
      modifies this`exits, adapter`engineTransaction, adapter.db`server, adapter.db`calls
      ensures Steady() && adapter.Valid() && Authored(Owner(), old(adapter.At()), adapter.At())
      ensures adapter.db.trail == old(adapter.db.trail)
      ensures adapter.db.server == old(adapter.db.server) || adapter.db.server == old(adapter.db.server).(txn := NoTxn)
      ensures o.Done? || (o == Raised(Interrupt) && adapter.engineTransaction == old(adapter.engineTransaction))
      ensures adapter.engineTransaction ==> exits == old(exits)
      ensures !adapter.engineTransaction ==> AllSettled()
      ensures SameExits(exits, old(exits))
      ensures cause.Withdrawn? || old(AllSettled()) ==> old(Evident()) ==> Evident()
      ensures !adapter.db.faulty ==> o.Done? && !adapter.engineTransaction && adapter.db.server.txn.NoTxn?
      ensures old(Smooth()) ==> Smooth()
      ensures old(AllStrayed()) ==> AllStrayed()
      ensures |adapter.db.calls| == |old(adapter.db.calls)| + 1 && Last(adapter.db.calls).RollingBack?
    {
      hide Authors, Recorded, SpanHolds, Ended, Orderly, Quiet, Attended, Suspect;
      ghost var before := adapter.db.server;
      o := adapter.Rollback();
      forall b | b in exits ensures Recorded(adapter.db.server, adapter.db.trail, adapter.db.severing, b) {
        ControlKeepsRecord(before, adapter.db.server, adapter.db.trail, adapter.db.severing, b);
      }
      assert forall span | span in spans :: SpanHolds(adapter.db.calls, span, adapter.db.severing) by {
        SpansStay(old(adapter.db.calls));
      }
      if o.Done? {
        Relinquish(cause);
      }
      if o.Raised? && o.error.IsException() {
        o := Done;
      }
    }

    lemma {:induction false} NothingYet()
      requires Valid()
      ensures Authored(Owner(), adapter.At(), adapter.At()) && (inBatch ==> restartable) && adapter.Valid()
      ensures !adapter.db.faulty ==> !adapter.db.severing
      ensures adapter.db.trail != [] && Last(adapter.db.trail) == adapter.db.server.durable
    {
      hide SpanHolds, Recorded;
    }

    /** A point where a signal handler may run between two statements. */
    method Pause() returns (o: Outcome)
      requires Valid()
      modifies adapter.db`interrupts
      ensures Valid() && (o.Done? || (o == Raised(Interrupt) && adapter.db.faulty))
    {
      hide Recorded, SpanHolds, Harmless, Orderly;
      o := adapter.Tick();
    }

    /** Calls made since do not change what a span holds. */
    lemma {:induction false} SpansStay(before: seq<Call>)
      requires before <= adapter.db.calls && forall span | span in spans :: SpanHolds(before, span, adapter.db.severing)
      ensures forall span | span in spans :: SpanHolds(adapter.db.calls, span, adapter.db.severing)
    {
    }

    /** Batches and DDL both start with no transaction open. */
    method RefuseOpenTransaction() returns (o: Outcome)
      requires Valid() && !inBatch
      modifies adapter.db`calls, adapter.db`interrupts, adapter.latch
      ensures Valid() && Authored(Owner(), old(adapter.At()), adapter.At())
      ensures Unmoved(old(adapter.At()), adapter.At())
      ensures o.Done? ==> adapter.latch.error.None? && adapter.db.server.txn.NoTxn?
      ensures !adapter.db.faulty && old(Idle(adapter.At())) ==> o.Done?
      ensures o.Done? ==> adapter.latch.state == old(adapter.latch.state)
      ensures adapter.latch.Half() && !old(adapter.latch.Half()) ==> o.Raised? && Grave(o.error)
      ensures old(Smooth()) && !(o.Raised? && Grave(o.error)) ==> Smooth()
    {
      hide Authors, Recorded, SpanHolds, Ended, Orderly, Quiet, Attended, Suspect;
      var open := adapter.HasOpenTransaction();
      SpansStay(old(adapter.db.calls));
      if open.Threw? {
        return Raised(open.error);
      }
      return if open.value then Raised(Usage("a transaction is already open")) else Done;
    }

    /** A transaction of the engine's own.  That it could be begun says that every
        batch exited before is settled. */
    method BeginOwn() returns (o: Outcome)
      requires Valid() && !inBatch
      modifies adapter, adapter.db, adapter.latch
      ensures Valid() && Authored(Owner(), old(adapter.At()), adapter.At()) && adapter.db.trail == old(adapter.db.trail)
      ensures o.Done? ==>
                && adapter.latch.error.None? && adapter.engineTransaction && adapter.db.server.txn.Open?
                && !old(adapter.engineTransaction) && AllSettled()
                && adapter.db.server.txn.work == adapter.db.server.durable
      ensures old(Idle(adapter.At())) && !adapter.db.faulty ==> o.Done?
      ensures o.Done? ==> adapter.latch.state == old(adapter.latch.state)
      ensures adapter.latch.Half() && !old(adapter.latch.Half()) ==> o.Raised? && Grave(o.error)
      ensures Alarming(o) ==> Suspect(adapter.db.calls, adapter.db.interrupts)
      ensures o.Raised? ==> adapter.engineTransaction == old(adapter.engineTransaction)
    {
      hide Recorded, SpanHolds, Ended, Orderly, Quiet, Attended, Suspect;
      ghost var before := adapter.db.server;
      o := adapter.Begin();
      forall b | b in exits ensures Recorded(adapter.db.server, adapter.db.trail, adapter.db.severing, b) {
        ControlKeepsRecord(before, adapter.db.server, adapter.db.trail, adapter.db.severing, b);
      }
      SpansStay(old(adapter.db.calls));
    }

    /** The batch's own transaction and its identity. */
    method BeginBatch() returns (r: Result<nat>)
      requires Valid() && !inBatch
      modifies this`exits, adapter, adapter.db, adapter.latch
      ensures Valid() && Authored(Owner(), old(adapter.At()), adapter.At())
      ensures adapter.db.trail == old(adapter.db.trail)
      ensures r.Returned? ==>
                && adapter.latch.error.None? && adapter.engineTransaction && adapter.db.server.TxnId() == Some(r.value)
                && AllSettled() && adapter.db.server.txn.work == adapter.db.server.durable
      ensures old(Idle(adapter.At())) && !adapter.db.faulty ==> r.Returned?
      ensures r.Returned? ==> adapter.latch.state == old(adapter.latch.state)
      ensures old(Smooth()) && !(r.Threw? && Grave(r.error)) ==> Smooth()
      ensures adapter.latch.Half() && !old(adapter.latch.Half()) ==> r.Threw? && Grave(r.error)
      ensures SameExits(exits, old(exits))
      ensures r.Threw? && r.error.IsException() && !r.error.UnknownOutcome? && adapter.engineTransaction && !old(adapter.engineTransaction) ==>
                adapter.db.calls != [] && Last(adapter.db.calls).RollingBack?
    {
      hide Authors, Recorded, SpanHolds, Ended, Orderly, Quiet, Attended, Suspect;
      var o := BeginOwn();
      if o.Raised? {
        return Threw(o.error);
      }
      ghost var calls := adapter.db.calls;
      r := adapter.EstablishTransactionIdentity();
      SpansStay(calls);
      if r.Threw? && r.error.IsException() && !r.error.UnknownOutcome? {
        o := RollbackBatch(Withdrawn);
        if o.Raised? {
          return Threw(o.error);
        }
      }
    }

    /** `ctx.transaction()`: a batch object, not yet entered. */
    method MakeBatch() returns (o: Outcome)
      requires Valid()
      modifies this`batches
      ensures Valid() && adapter.At() == old(adapter.At())
      ensures batches == if o.Done? then old(batches) + [None] else old(batches)
      ensures old(Tidy()) && restartable ==> o.Done? && Tidy() && ViewOf() == NextView(id, old(ViewOf()), NewBatch)
    {
      hide Recorded, SpanHolds;
      if !restartable {
        return Raised(AuthorError);
      }
      :- adapter.latch.Check();
      batches := batches + [None];
      return Done;
    }

    /** A transaction for a batch, if none is in the way. */
    method OpenBatch() returns (r: Result<nat>)
      requires Valid()
      modifies this`exits, adapter, adapter.db, adapter.latch
      ensures Valid() && Authored(Owner(), old(adapter.At()), adapter.At())
      ensures adapter.db.trail == old(adapter.db.trail)
      ensures r.Returned? ==>
                && !inBatch && adapter.latch.error.None? && adapter.engineTransaction && adapter.db.server.TxnId() == Some(r.value)
                && AllSettled() && adapter.db.server.txn.work == adapter.db.server.durable
      ensures old(Idle(adapter.At())) && !adapter.db.faulty && !inBatch ==> r.Returned?
      ensures r.Returned? ==> adapter.latch.state == old(adapter.latch.state)
      ensures old(Smooth()) && !(r.Threw? && Grave(r.error)) ==> Smooth()
      ensures adapter.latch.Half() && !old(adapter.latch.Half()) ==> r.Threw? && Grave(r.error)
      ensures SameExits(exits, old(exits))
    {
      hide Authors, Recorded, SpanHolds, Ended, Orderly, Quiet, Attended, Suspect;
      var o := adapter.latch.Check();
      if o.Raised? {
        return Threw(o.error);
      }
      if inBatch {
        return Threw(Usage("ctx.transaction() blocks do not nest"));
      }
      o := RefuseOpenTransaction();
      if o.Raised? {
        return Threw(o.error);
      }
      r := BeginBatch();
    }

    /** Enter a batch: it must own its transaction. */
    method Enter(batch: nat) returns (o: Outcome)
      requires Valid()
      modifies this`inBatch, this`openBatch, this`batches, this`exits, this`spans, this`enteredAt, adapter, adapter.db, adapter.latch
      ensures Valid() && Authored(Owner(), old(adapter.At()), adapter.At()) && |batches| == |old(batches)|
      ensures !restartable ==> adapter.At() == old(adapter.At())
      ensures adapter.db.trail == old(adapter.db.trail)
      ensures o.Done? ==>
                && inBatch && AllSettled() && batch < |batches| && batches[batch] == adapter.db.server.TxnId()
                && adapter.db.server.txn.Open? && adapter.db.server.txn.work == adapter.db.server.durable
      ensures old(inBatch) ==> inBatch
      ensures o.Done? ==> openBatch == Some(batch) && adapter.engineTransaction && adapter.latch.error.None?
      ensures old(Tidy()) && Fits(EnterBatch(batch), restartable, old(ViewOf())) && !adapter.db.faulty ==> o.Done?
      ensures old(Tidy()) && o.Done? ==> Tidy() && ViewOf() == NextView(id, old(ViewOf()), EnterBatch(batch))
      ensures o.Done? ==> adapter.latch.state == old(adapter.latch.state)
      ensures old(Smooth()) && !(o.Raised? && Grave(o.error)) ==> Smooth()
      ensures adapter.latch.Half() && !old(adapter.latch.Half()) ==> o.Raised? && Grave(o.error)
      ensures SameExits(exits, old(exits))
    {
      hide Authored, Extends, Steady, Evident, SessionAdapter.Valid;
      NothingYet();
      if !restartable || batch >= |batches| {
        return Raised(AuthorError);
      }
      var mine :- OpenBatch();
      o := Occupy(batch, mine);
      NothingYet();
    }

    /** The object takes the identity of the transaction just begun and becomes the
        current batch. */
    method Occupy(batch: nat, mine: nat) returns (o: Outcome)
      requires Valid() && restartable && !inBatch && batch < |batches| && AllSettled()
      requires adapter.engineTransaction && adapter.db.server.TxnId() == Some(mine)
      modifies this`inBatch, this`openBatch, this`batches, this`spans, this`enteredAt, adapter.db`interrupts
      ensures Valid() && |batches| == |old(batches)|
      ensures o.Done? ==> inBatch && openBatch == Some(batch) && batches[batch] == Some(mine)
      ensures o.Done? || (o == Raised(Interrupt) && adapter.db.faulty)
    {
      hide Authors, Recorded, SpanHolds, Ended, Orderly, Quiet, Attended, Suspect, Harmless;
      batches := batches[batch := Some(mine)];
      o := adapter.Tick();
      :- o;
      EnterSpan(mine);
      inBatch := true;
      :- adapter.Tick();
      openBatch := Some(batch);
      return Done;
    }

    ghost method EnterSpan(txn: nat)
      requires forall span | span in spans :: SpanHolds(adapter.db.calls, span, adapter.db.severing)
      modifies this`spans, this`enteredAt
      ensures forall span | span in spans :: SpanHolds(adapter.db.calls, span, adapter.db.severing)
      ensures spans != [] && Last(spans) == Span(txn, |adapter.db.calls|, |adapter.db.calls|) && enteredAt == |adapter.db.trail|
    {
      var n := |adapter.db.calls|;
      spans, enteredAt := spans + [Span(txn, n, n)], |adapter.db.trail|;
      assert SpanHolds(adapter.db.calls, Span(txn, n, n), adapter.db.severing);
    }

    /** Latch the loss of a cleanly exited batch.  From then on the migration cannot
        complete, whatever the author catches; until then an interrupt leaves no
        trace of it. */
    method FailCleanBatch() returns (o: Outcome)
      requires Steady() && adapter.Valid() && !inBatch && !adapter.latch.Latched()
      modifies this`exits, adapter.db`interrupts, adapter.latch
      ensures Valid() && Authored(Owner(), old(adapter.At()), adapter.At()) && Unmoved(old(adapter.At()), adapter.At())
      ensures o.Raised? && SameExits(exits, old(exits)) && (old(AllSettled()) ==> AllSettled())
      ensures old(Smooth()) && !(o.Raised? && Grave(o.error)) ==> Smooth()
      ensures adapter.db.calls == old(adapter.db.calls)
      ensures adapter.latch.Half() && !old(adapter.latch.Half()) ==> o.Raised? && Grave(o.error)
    {
      hide Authors, Recorded, SpanHolds, Ended, Orderly, Quiet, Attended, Suspect;
      o := adapter.Tick();
      if o.Raised? {
        NoteGap();
        return;
      }
      var e := MigrationFailed("restartable_batch");
      var cut := adapter.Cut();
      :- adapter.latch.LatchFailure(e, cut);
      return Raised(e);
    }

    ghost method NoteGap()
      requires Steady() && adapter.Valid()
      modifies this`exits
      ensures Valid() && SameExits(exits, old(exits)) && (old(AllSettled()) ==> AllSettled())
    {
      hide SpanHolds, Ended, Orderly, Quiet, Attended, Suspect;
      var before := exits;
      exits := Gapped(exits);
      forall b | b in exits ensures
        && Recorded(adapter.db.server, adapter.db.trail, adapter.db.severing, b)
        && (b.fate.Kept? ==> Landed(adapter.db.server, b) || (adapter.engineTransaction && !inBatch))
        && (b.fate.Unlatched? ==> b.gap)
        && (old(AllSettled()) && b.fate.Kept? ==> Landed(adapter.db.server, b))
      {
        var i :| 0 <= i < |exits| && exits[i] == b;
        assert before[i] in before;
      }
    }

    /** Commit what is pending.  Once the engine transaction is no longer marked
        open, everything exited is settled. */
    method CommitOwn(operation: string) returns (o: Outcome)
      requires Valid() && !inBatch
      requires AllSettled() || adapter.db.server.txn.Open? || adapter.latch.Half()
      modifies this`exits, adapter, adapter.db, adapter.latch
      ensures Valid() && Authored(Owner(), old(adapter.At()), adapter.At())
      ensures adapter.db.trail == old(adapter.db.trail)
              || (old(adapter.db.server).txn.Open? && adapter.db.trail == old(adapter.db.trail) + [old(adapter.db.server).txn.work])
      ensures SameExits(exits, old(exits))
      ensures old(AllSettled()) ==> AllSettled()
      ensures o.Done? ==> Idle(adapter.At()) && AllSettled()
      ensures o.Done? && old(adapter.db.server).txn.Open? ==>
                old(adapter.db.server).txn.id in adapter.db.server.committed && adapter.db.server.durable == old(adapter.db.server).txn.work
      ensures !adapter.db.faulty && old(adapter.latch.error).None? ==> o.Done?
      ensures o.Done? ==> adapter.latch.state == old(adapter.latch.state)
      ensures old(Smooth()) && !(o.Raised? && Grave(o.error)) ==> Smooth()
      ensures adapter.latch.Half() && !old(adapter.latch.Half()) ==> o.Raised? && Grave(o.error)
      ensures Alarming(o) ==> Suspect(adapter.db.calls, adapter.db.interrupts)
      ensures o.Raised? && old(adapter.latch.error).None? ==> o.error.Rejected? || o.error.UnknownOutcome? || o.error.Interrupt?
    {
      hide Recorded, SpanHolds, Ended, Orderly, Quiet, Attended, Suspect, Harmless, Authored;
      o := adapter.DurableCommit(operation);
      CommitIsAuthored(Owner(), old(adapter.At()), LOSS, adapter.At());
      AfterCommit(old(adapter.At()));
    }

    /** Bring the records up to date: once the flag is down, what the commit did not
        land is given up. */
    ghost method AfterCommit(before: Session)
      requires adapter.Valid() && !inBatch && Harmless(Owner(), adapter.db.server)
      requires Orderly(before.server) && before.trail != [] && Last(before.trail) == before.server.durable
      requires Commits(before.server, LOSS, adapter.db.server) && Records(before.server, before.trail, adapter.db.server, adapter.db.trail)
      requires Extends(before, adapter.At())
      requires forall span | span in spans :: SpanHolds(before.calls, span, adapter.db.severing)
      requires forall b | b in exits :: Recorded(before.server, before.trail, adapter.db.severing, b)
      requires forall b | b in exits && b.fate.Kept? :: Landed(before.server, b) || before.flag
      requires forall b | b in exits && b.fate.Unlatched? :: b.gap || before.half || before.latch.Some?
      requires adapter.engineTransaction ==> before.flag
      requires before.flag && !adapter.engineTransaction ==> Commits(before.server, ACK, adapter.db.server)
      requires before.half || before.server.txn.Open? || forall b | b in exits && b.fate.Kept? :: Landed(before.server, b)
      modifies this`exits
      ensures Valid() && SameExits(exits, old(exits))
      ensures (forall b | b in old(exits) && b.fate.Kept? :: Landed(before.server, b)) ==> AllSettled()
      ensures !adapter.engineTransaction ==> AllSettled()
      ensures old(Smooth()) ==> Smooth()
    {
      hide Recorded, SpanHolds, Ended, Orderly, Quiet, Attended, Suspect, Harmless, Authors;
      forall b | b in exits ensures Recorded(adapter.db.server, adapter.db.trail, adapter.db.severing, b) {
        CommitKeepsRecord(before.server, before.trail, LOSS, adapter.db.server, adapter.db.trail, adapter.db.severing, b);
      }
      SpansStay(before.calls);
      if before.flag && !adapter.engineTransaction {
        assert AllSettled() || adapter.db.severing || adapter.latch.Half() by {
          OwnCommitSettles(before.server);
        }
        Relinquish(if adapter.latch.Half() then Unlatched else Replaced);
      }
    }

    /** Without server code that swaps transactions, the one that was open is the
        one every unsettled batch was exited in. */
    lemma {:induction false} OwnCommitSettles(before: Server)
      requires Commits(before, ACK, adapter.db.server) && Onward(before, adapter.db.server)
      requires forall b | b in exits :: exists trail :: Recorded(before, trail, adapter.db.severing, b)
      ensures before.txn.Open? ==> AllSettled() || adapter.db.severing
      ensures (forall b | b in exits && b.fate.Kept? :: Landed(before, b)) ==> AllSettled()
    {
    }

    method CommitBatch() returns (o: Outcome)
      requires Valid() && !inBatch
      requires AllSettled() || adapter.db.server.txn.Open? || adapter.latch.Half()
      modifies this`exits, adapter, adapter.db, adapter.latch
      ensures Valid() && Authored(Owner(), old(adapter.At()), adapter.At())
      ensures adapter.db.trail == old(adapter.db.trail)
              || (old(adapter.db.server).txn.Open? && adapter.db.trail == old(adapter.db.trail) + [old(adapter.db.server).txn.work])
      ensures SameExits(exits, old(exits))
      ensures o.Done? ==> Idle(adapter.At()) && AllSettled()
      ensures o.Done? && old(adapter.db.server).txn.Open? ==>
                old(adapter.db.server).txn.id in adapter.db.server.committed && adapter.db.server.durable == old(adapter.db.server).txn.work
      ensures !adapter.db.faulty && old(adapter.latch.error).None? ==> o.Done?
      ensures o.Done? ==> adapter.latch.state == old(adapter.latch.state)
      ensures old(Smooth()) && !(o.Raised? && Grave(o.error)) ==> Smooth()
      ensures adapter.latch.Half() && !old(adapter.latch.Half()) ==> o.Raised? && Grave(o.error)
      ensures o.Raised? && old(adapter.latch.error).None? ==>
                o.error == MigrationFailed("restartable_batch") || o.error.UnknownOutcome? || o.error.Interrupt?
    {
      hide Authors, Recorded, SpanHolds, Ended, Orderly, Quiet, Attended, Suspect;
      o := CommitOwn("restartable_batch commit");
      if o.Raised? && o.error.Rejected? {
        o := Raised(MigrationFailed("restartable_batch"));
      }
    }

    /** The checks that precede a batch's commit or rollback.  `ended` says that
        there is nothing left to do for either. */
    method CheckBatch(established: Option<nat>, failed: bool) returns (o: Outcome, ended: bool)
      requires Valid() && !inBatch && !adapter.latch.Latched()
      requires failed ==> AllStrayed()
      modifies this`exits, adapter, adapter.db`server, adapter.db`calls, adapter.db`interrupts, adapter.latch
      ensures Valid() && Authored(Owner(), old(adapter.At()), adapter.At()) && adapter.db.trail == old(adapter.db.trail)
      ensures !ended ==> Unmoved(old(adapter.At()), adapter.At()) && exits == old(exits)
      ensures !ended && !adapter.latch.Latched() ==>
                adapter.db.server.txn.Open? && (established.Some? ==> adapter.db.server.TxnId() == established || adapter.db.server.txn.cut)
      ensures SameExits(exits, old(exits))
      ensures !failed && ended ==> o.Raised?
      ensures old(adapter.db.server.TxnId()) == established && established.Some? && !adapter.db.faulty ==>
                !ended && !adapter.latch.Latched()
      ensures !ended ==> !adapter.latch.Half()
      ensures old(Smooth()) && !(o.Raised? && Grave(o.error)) ==> Smooth()
      ensures adapter.latch.Half() && !old(adapter.latch.Half()) ==> o.Raised? && Grave(o.error)
      ensures old(adapter.db.server).txn.NoTxn? && !adapter.db.knowsRollback && adapter.db.interrupts == old(adapter.db.interrupts) ==>
                !ended && adapter.latch.error.Some? && adapter.latch.error.value.ContractViolation?
    {
      hide Authors, Recorded, SpanHolds, Ended, Orderly, Quiet, Attended, Suspect;
      var state := adapter.db.BatchTransactionState();
      if state.ENDED? {
        var cut := adapter.Cut();
        o := adapter.latch.LatchViolation(ContractViolation("restartable_batch"), cut);
        return o, o.Raised?;
      }
      if state.OPEN? {
        o := CheckTransactionIdentity(adapter, established);
        SpansStay(old(adapter.db.calls));
        if o.Done? || o.error.ContractViolation? || o.error.UnknownOutcome? {
          return o, false;
        }
        if !o.error.IsException() {
          return o, true;
        }
      }
      o := UndoBatch(failed);
      return o, true;
    }

    /** Roll back a batch that cannot be committed; for a clean one that is a failure
        of its own. */
    method UndoBatch(failed: bool) returns (o: Outcome)
      requires Valid() && !inBatch && !adapter.latch.Latched()
      requires failed ==> AllStrayed()
      modifies this`exits, adapter`engineTransaction, adapter.db`server, adapter.db`calls, adapter.db`interrupts, adapter.latch
      ensures Valid() && Authored(Owner(), old(adapter.At()), adapter.At()) && adapter.db.trail == old(adapter.db.trail)
      ensures SameExits(exits, old(exits)) && (!failed ==> o.Raised?)
      ensures |adapter.db.calls| == |old(adapter.db.calls)| + 1 && Last(adapter.db.calls).RollingBack?
      ensures old(Smooth()) && !(o.Raised? && Grave(o.error)) ==> Smooth()
      ensures adapter.latch.Half() && !old(adapter.latch.Half()) ==> o.Raised? && Grave(o.error)
    {
      hide Authors, Recorded, SpanHolds, Ended, Orderly, Quiet, Attended, Suspect, Harmless, Authored, Extends;
      o := RollbackBatch(if failed then Withdrawn else Unlatched);
      ghost var undone := adapter.At();
      :- o;
      if !failed {
        o := FailCleanBatch();
        AuthoredComposes(Owner(), old(adapter.At()), undone, adapter.At());
      }
    }

    /** After the checks: a latched run rolls back and raises, unless the latch is
        only half-set; otherwise a failed batch rolls back and a clean one commits. */
    method SettleBatch(failed: bool) returns (o: Outcome)
      requires Valid() && !inBatch && (adapter.latch.Latched() || adapter.db.server.txn.Open?)
      requires failed ==> AllStrayed()
      modifies this`exits, adapter, adapter.db, adapter.latch
      ensures Valid() && Authored(Owner(), old(adapter.At()), adapter.At())
      ensures adapter.db.trail == old(adapter.db.trail)
              || (!failed && old(adapter.db.server).txn.Open? && adapter.db.trail == old(adapter.db.trail) + [old(adapter.db.server).txn.work])
      ensures SameExits(exits, old(exits))
      ensures o.Done? && !failed && !adapter.latch.Half() ==>
                && Idle(adapter.At()) && AllSettled() && old(adapter.db.server).txn.Open?
                && old(adapter.db.server).txn.id in adapter.db.server.committed && adapter.db.server.durable == old(adapter.db.server).txn.work
      ensures old(!adapter.latch.Latched() && adapter.db.server.txn.Open?) && !adapter.db.faulty && !failed ==> o.Done? && Idle(adapter.At())
      ensures o.Done? && !failed && old(!adapter.latch.Latched()) ==> !adapter.latch.Latched()
      ensures !failed && old(adapter.latch.error).Some? ==> o.Raised?
      ensures old(Smooth()) && !(o.Raised? && Grave(o.error)) ==> Smooth()
      ensures adapter.latch.Half() && !old(adapter.latch.Half()) ==> o.Raised? && Grave(o.error)
      ensures failed && old(adapter.latch.state).BATCH_FAILED? ==> o.Done? || o == Raised(Interrupt)
      ensures old(adapter.latch.error).Some? && !(failed && old(adapter.latch.state).BATCH_FAILED?) ==>
                o == Raised(old(adapter.latch.error).value) || o == Raised(Interrupt)
      ensures !old(adapter.latch.Unknown()) && (failed || old(adapter.latch.error).Some?) ==>
                |adapter.db.calls| > |old(adapter.db.calls)| && Last(adapter.db.calls).RollingBack?
    {
      hide Authors, Recorded, SpanHolds, Ended, Orderly, Quiet, Attended, Suspect, Harmless;
      if adapter.latch.Latched() {
        if !adapter.latch.Unknown() {
          :- RollbackBatch(if failed then Withdrawn else Unlatched);
        }
        if failed && adapter.latch.state.BATCH_FAILED? {
          return Done;
        }
        :- adapter.latch.Check();
      }
      if failed {
        o := RollbackBatch(Withdrawn);
      } else {
        o := CommitBatch();
      }
    }

    /** The end of a batch.  A clean exit that returns normally has committed all
        of it; one with an exception commits nothing. */
    method FinishBatch(established: Option<nat>, failed: bool) returns (o: Outcome)
      requires Valid() && !inBatch
      requires failed ==> AllStrayed()
      modifies this`exits, adapter, adapter.db, adapter.latch
      ensures Valid() && Authored(Owner(), old(adapter.At()), adapter.At())
      ensures adapter.db.trail == old(adapter.db.trail)
              || (!failed && old(adapter.db.server).txn.Open? && adapter.db.trail == old(adapter.db.trail) + [old(adapter.db.server).txn.work])
      ensures SameExits(exits, old(exits))
      ensures o.Done? && !failed && !adapter.latch.Half() ==>
                && Idle(adapter.At()) && AllSettled() && old(adapter.db.server).txn.Open?
                && old(adapter.db.server).txn.id in adapter.db.server.committed && adapter.db.server.durable == old(adapter.db.server).txn.work
      ensures old(adapter.latch.error.None? && adapter.db.server.TxnId() == established) && established.Some? && !adapter.db.faulty && !failed ==>
                o.Done? && Idle(adapter.At())
      ensures o.Done? && !failed && old(!adapter.latch.Latched()) ==> !adapter.latch.Latched()
      ensures old(Smooth()) && !(o.Raised? && Grave(o.error)) ==> Smooth()
      ensures adapter.latch.Half() && !old(adapter.latch.Half()) ==> o.Raised? && Grave(o.error)
    {
      hide Authors, Recorded, SpanHolds, Ended, Orderly, Quiet, Attended, Suspect, Harmless, Authored, Extends;
      AuthoredNothing(Owner(), adapter.At());
      if !adapter.latch.Latched() {
        var ended;
        o, ended := CheckBatch(established, failed);
        if ended {
          return;
        }
      }
      ghost var checked := adapter.At();
      o := SettleBatch(failed);
      AuthoredComposes(Owner(), old(adapter.At()), checked, adapter.At());
    }

    /** Leave a batch object, entered or not: what is in progress is finished
        against the identity that object established.  Every clean exit of an engine
        transaction is recorded, unless an interrupt came before it did anything. */
    method Exit(batch: nat, failed: bool) returns (o: Outcome)
      requires Valid()
      modifies this, adapter, adapter.db, adapter.latch
      ensures Valid() && Authored(Owner(), old(adapter.At()), adapter.At()) && batches == old(batches)
      ensures !restartable ==> adapter.At() == old(adapter.At())
      ensures adapter.db.trail == old(adapter.db.trail)
              || (!failed && old(adapter.db.server).txn.Open? && adapter.db.trail == old(adapter.db.trail) + [old(adapter.db.server).txn.work])
      ensures o.Done? && !failed && !adapter.latch.Half() ==>
                && Idle(adapter.At()) && AllSettled() && old(adapter.db.server).txn.Open?
                && old(adapter.db.server).txn.id in adapter.db.server.committed && adapter.db.server.durable == old(adapter.db.server).txn.work
      ensures if !failed && restartable && batch < |batches| && old(adapter.engineTransaction)
                 && !(o == Raised(Interrupt) && adapter.At() == old(adapter.At()) && inBatch == old(inBatch))
              then
                && |exits| == |old(exits)| + 1 && SameExits(Front(exits), old(exits))
                && Last(exits).txn == old(adapter.db.server).TxnId() && Last(exits).content == old(adapter.db.server).Visible()
                && Last(exits).since == |old(adapter.db.trail)|
              else |exits| >= |old(exits)|
      ensures o.Done? && !failed && !adapter.latch.Half() && old(adapter.engineTransaction) ==> exits != [] && Landed(adapter.db.server, Last(exits))
      ensures old(Tidy()) && old(openBatch) == Some(batch) && !adapter.db.faulty && !failed ==> o.Done?
      ensures o.Done? && !failed && old(!adapter.latch.Latched()) ==> !adapter.latch.Latched()
      ensures o.Done? ==> !inBatch && openBatch.None?
      ensures adapter.latch.Half() && !old(adapter.latch.Half()) ==> o.Raised? && Grave(o.error)
      ensures old(Smooth()) && !(o.Raised? && Grave(o.error)) ==> Smooth()
      ensures old(Unstrayed()) && (failed ==> old(inBatch)) ==> Unstrayed()
      ensures old(Tidy()) && Fits(ExitBatch(batch, failed), restartable, old(ViewOf())) && o.Done? ==>
                Tidy() && ViewOf() == NextView(id, old(ViewOf()), ExitBatch(batch, failed))
    {
      hide Authored, Extends, Steady, Evident, SessionAdapter.Valid;
      NothingYet();
      if !restartable || batch >= |batches| {
        return Raised(AuthorError);
      }
      :- Pause();
      :- LeaveBatch(failed);
      o := FinishBatch(batches[batch], failed);
    }

    /** No batch is current any more.  A clean exit is recorded; one with an
        exception is a stray if no batch was current before. */
    method LeaveBatch(failed: bool) returns (o: Outcome)
      requires Valid()
      modifies this`inBatch, this`openBatch, this`exits, adapter.db`interrupts
      ensures Valid() && !inBatch && (failed ==> AllStrayed()) && (old(Smooth()) ==> Smooth())
      ensures if o.Done? then openBatch.None? else o == Raised(Interrupt) && adapter.db.faulty
      ensures if failed then
                && |exits| == |old(exits)| && (old(inBatch) ==> exits == old(exits))
              else if adapter.engineTransaction then
                exits == old(exits) + [Exited(adapter.db.server.TxnId(), adapter.db.server.Visible(), |adapter.db.trail|, Kept, false, false)]
              else exits == old(exits)
    {
      hide Authored, Extends, Steady, Evident, SessionAdapter.Valid;
      CloseBlock(failed);
      :- Pause();
      ForgetOpen();
      return Done;
    }

    /** The object is not the open batch any more. */
    method ForgetOpen()
      requires Valid()
      modifies this`openBatch
      ensures Valid() && openBatch.None?
    {
      hide Recorded, SpanHolds, Harmless, Orderly;
      openBatch := None;
    }

    method CloseBlock(failed: bool)
      requires Valid()
      modifies this`inBatch, this`exits
      ensures Valid() && !inBatch && (failed ==> AllStrayed()) && (old(Smooth()) ==> Smooth())
      ensures if failed then
                && |exits| == |old(exits)| && (old(inBatch) ==> exits == old(exits))
              else if adapter.engineTransaction then
                exits == old(exits) + [Exited(adapter.db.server.TxnId(), adapter.db.server.Visible(), |adapter.db.trail|, Kept, false, false)]
              else exits == old(exits)
    {
      hide Authors, Recorded, SpanHolds, Ended, Orderly, Quiet, Attended, Suspect, Harmless;
      ghost var s := adapter.db.server;
      if failed {
        if !inBatch {
          MarkStray();
        }
      } else if adapter.engineTransaction {
        ghost var b := Exited(s.TxnId(), s.Visible(), |adapter.db.trail|, Kept, false, false);
        JustExited(s, adapter.db.trail, adapter.db.severing, b);
        exits := exits + [b];
      }
      inBatch := false;
    }

    ghost method MarkStray()
      requires Valid()
      modifies this`exits
      ensures Valid() && AllStrayed() && |exits| == |old(exits)| && (old(Smooth()) ==> Smooth())
    {
      hide SpanHolds, Ended, Orderly, Quiet, Attended, Suspect;
      var before := exits;
      exits := Strayed(exits, adapter.db.server);
      forall b | b in exits ensures
        && Recorded(adapter.db.server, adapter.db.trail, adapter.db.severing, b)
        && (b.fate.Kept? ==> Landed(adapter.db.server, b) || (adapter.engineTransaction && !inBatch))
        && (b.fate.Unlatched? ==> b.gap || adapter.latch.Latched())
        && (b.fate.Kept? && !Landed(adapter.db.server, b) ==> b.strayed)
        && (old(Smooth()) ==> !b.gap)
      {
        var i :| 0 <= i < |exits| && exits[i] == b;
        assert before[i] in before;
      }
    }

    /** The DDL statement itself, inside the transaction just begun; it is
        rolled back only on a definite rejection. */
    method RunInTransaction(write: Option<Write>) returns (o: Outcome)
      requires Valid() && !inBatch && adapter.latch.error.None? && adapter.engineTransaction && AllSettled()
      modifies adapter`engineTransaction, adapter.db
      ensures Steady() && Evident() && adapter.Facing(o, true) && Authored(Owner(), old(adapter.At()), adapter.At()) && AllSettled()
      ensures o.Done? ==> adapter.engineTransaction
      ensures !adapter.db.faulty && old(adapter.db.server).txn.Open? ==> o.Done? && adapter.db.server.txn.Open?
      ensures !adapter.db.severing && old(adapter.db.server).txn.Open? ==>
                && adapter.db.trail == old(adapter.db.trail) && adapter.db.server.durable == old(adapter.db.server).durable
                && (o.Done? ==> adapter.db.server.txn.Open? && adapter.db.server.txn.work == Effect(AuthorStatement(write), old(adapter.db.server).txn.work))
      ensures o == Raised(Rejected) ==> adapter.db.calls != [] && Last(adapter.db.calls).RollingBack?
    {
      hide Effect, Affected, Applies, Severs, Recorded, SpanHolds, Ended, Orderly, Quiet, Attended, Suspect, Authored, Harmless;
      ghost var before := adapter.At();
      var sql := AuthorStatement(write);
      var reply, _ := adapter.db.Execute(sql, true);
      StatementIsAuthored(Owner(), before, sql, reply, adapter.At(), adapter.db.severing);
      StatementKeepsRecords(before.server, before.trail, sql, reply);
      SpansStay(before.calls);
      adapter.Faces(before.calls, Last(adapter.db.calls), Raw(reply), true);
      if !InDoubt(Last(adapter.db.calls)) {
        adapter.StillFine(before.calls, Last(adapter.db.calls));
      }
      if reply.ACK? && !adapter.db.severing {
        AppliedInPlace(before.server, sql, adapter.db.server);
      }
      ghost var middle := adapter.At();
      if reply.REJECTION? {
        o := UndoDdl();
        AuthoredComposes(Owner(), before, middle, adapter.At());
        o := if o.Raised? then o else Raised(Rejected);
        adapter.ValidFaces(o, true);
        return;
      }
      return Raw(reply);
    }

    method UndoDdl() returns (o: Outcome)
      requires Valid() && !inBatch && adapter.latch.error.None? && AllSettled()
      modifies adapter`engineTransaction, adapter.db`server, adapter.db`calls
      ensures Valid() && Authored(Owner(), old(adapter.At()), adapter.At()) && AllSettled()
      ensures adapter.db.trail == old(adapter.db.trail)
      ensures Alarming(o) ==> Suspect(adapter.db.calls, adapter.db.interrupts)
      ensures adapter.db.calls != [] && Last(adapter.db.calls).RollingBack?
    {
      hide Authors, Recorded, SpanHolds, Ended, Orderly, Quiet, Attended, Suspect;
      ghost var before := adapter.db.server;
      o := adapter.Rollback();
      forall b | b in exits ensures Recorded(adapter.db.server, adapter.db.trail, adapter.db.severing, b) {
        ControlKeepsRecord(before, adapter.db.server, adapter.db.trail, adapter.db.severing, b);
      }
      SpansStay(old(adapter.db.calls));
    }

    /** DDL in a transaction of its own. */
    method ExecuteDdl(write: Option<Write>) returns (o: Outcome)
      requires Valid() && !inBatch
      modifies this`exits, adapter, adapter.db, adapter.latch
      ensures Steady() && Evident() && adapter.Facing(o, true) && Authored(Owner(), old(adapter.At()), adapter.At())
      ensures old(Idle(adapter.At())) && !adapter.db.faulty ==> o.Done? && Idle(adapter.At())
      ensures old(Smooth()) && !(o.Raised? && Grave(o.error)) ==> Smooth()
      ensures !adapter.db.severing ==>
                && (o.Done? ==> Idle(adapter.At()) && adapter.db.server.durable == Effect(AuthorStatement(write), old(adapter.db.server).durable))
                && Within(old(adapter.db.trail), adapter.db.trail, StoreOf(Effect(AuthorStatement(write), old(adapter.db.server).durable)))
      ensures adapter.latch.Half() && !old(adapter.latch.Half()) ==> o.Raised? && Grave(o.error)
      ensures SameExits(exits, old(exits))
    {
      hide Authors, Recorded, SpanHolds, Ended, Orderly, Quiet, Attended, Suspect, Harmless, Authored, Extends;
      o := BeginOwn();
      adapter.ValidFaces(o, true);
      :- o;
      ghost var begun := adapter.At();
      o := RunInTransaction(write);
      ghost var ran := adapter.At();
      AuthoredComposes(Owner(), old(adapter.At()), begun, ran);
      :- o;
      o := CommitOwn("restartable_ddl commit");
      adapter.ValidFaces(o, true);
      AuthoredComposes(Owner(), old(adapter.At()), ran, adapter.At());
    }

    /** `ctx.ddl`: one admitted statement, outside any batch or transaction. */
    method RunDdl(write: Option<Write>, legal: bool) returns (o: Outcome)
      requires Valid()
      modifies this`exits, adapter, adapter.db, adapter.latch
      ensures Valid() && Authored(Owner(), old(adapter.At()), adapter.At())
      ensures !restartable ==> adapter.At() == old(adapter.At())
      ensures old(Tidy()) && Fits(Ddl(write, legal), restartable, old(ViewOf())) && !adapter.db.faulty ==> o.Done?
      ensures old(Tidy()) && Fits(Ddl(write, legal), restartable, old(ViewOf())) && !adapter.db.severing ==>
                && (o.Done? ==> Tidy() && ViewOf() == NextView(id, old(ViewOf()), Ddl(write, legal)))
                && Within(old(adapter.db.trail), adapter.db.trail, NextView(id, old(ViewOf()), Ddl(write, legal)).durable)
      ensures old(Smooth()) && !(o.Raised? && Grave(o.error)) ==> Smooth()
      ensures adapter.latch.Half() && !old(adapter.latch.Half()) ==> o.Raised? && Grave(o.error)
      ensures SameExits(exits, old(exits))
    {
      hide Authored, Extends, Valid, Smooth, Within, Effect;
      WithinNothing(adapter.db.trail);
      NothingYet();
      ghost var fits := Tidy() && Fits(Ddl(write, legal), restartable, ViewOf());
      assert fits ==> restartable && !inBatch && legal && Idle(adapter.At());
      var admitted := DdlAdmission(legal);
      assert fits ==> admitted.Done?;
      :- admitted;
      o := RefuseOpenTransaction();
      ghost var middle := adapter.At();
      if o.Done? {
        o := Pause();
      }
      if o.Done? {
        o := GuardedDdl(write);
        WrittenStore(middle.server.durable, write);
        AuthoredComposes(Owner(), old(adapter.At()), middle, adapter.At());
      }
    }

    /** Where and when `ctx.ddl` is available at all. */
    function DdlAdmission(legal: bool): (o: Outcome)
      requires adapter.latch.Valid()
      reads this, adapter.latch
      ensures o.Done? <==> restartable && adapter.latch.error.None? && !inBatch && legal
    {
      if !restartable then Raised(AuthorError)
      else if adapter.latch.Check().Raised? then adapter.latch.Check()
      else if inBatch then Raised(Usage("ctx.ddl() is not available inside a ctx.transaction() block"))
      else if !legal then Raised(Usage("statement is not in the DDL allow-list"))
      else Done
    }

    /** The guard around the whole DDL transaction, which can commit. */
    method GuardedDdl(write: Option<Write>) returns (o: Outcome)
      requires Valid() && !inBatch
      modifies this`exits, adapter, adapter.db, adapter.latch
      ensures Valid() && Authored(Owner(), old(adapter.At()), adapter.At())
      ensures old(Idle(adapter.At())) && !adapter.db.faulty ==> o.Done? && Idle(adapter.At())
      ensures old(Smooth()) && !(o.Raised? && Grave(o.error)) ==> Smooth()
      ensures !adapter.db.severing ==>
                && (o.Done? ==> Idle(adapter.At()) && adapter.db.server.durable == Effect(AuthorStatement(write), old(adapter.db.server).durable))
                && Within(old(adapter.db.trail), adapter.db.trail, StoreOf(Effect(AuthorStatement(write), old(adapter.db.server).durable)))
      ensures adapter.latch.Half() && !old(adapter.latch.Half()) ==> o.Raised? && Grave(o.error)
      ensures SameExits(exits, old(exits))
    {
      hide Authors, Recorded, SpanHolds, Ended, Orderly, Quiet, Attended, Suspect, Harmless;
      o := ExecuteDdl(write);
      ghost var calls := adapter.db.calls;
      o := adapter.Guard(o, "DDL execution", true);
      SpansStay(calls);
    }

    /** One call through the facade, whichever it is.  Where no server code ends
        transactions, a call that returns has had exactly its effect, and one that
        fails has had that effect on durable data or none. */
    method Call(call: FacadeCall) returns (r: Result<Value>)
      requires Valid()
      modifies this, adapter, adapter.db, adapter.latch
      ensures Valid() && Authored(Owner(), old(adapter.At()), adapter.At())
      ensures !restartable ==> Passive(old(adapter.At()), adapter.At(), adapter.db.severing)
      ensures old(Smooth()) && !(r.Threw? && Grave(r.error)) ==> Smooth()
      ensures old(Unstrayed()) && (call.ExitBatch? && call.failed ==> old(inBatch)) ==> Unstrayed()
      ensures old(inBatch) && !call.ExitBatch? ==> inBatch
      ensures call.EnterBatch? && r.Returned? ==> inBatch
      ensures old(Tidy()) && Fits(call, restartable, old(ViewOf())) && !adapter.db.faulty ==> r.Returned?
      ensures old(Tidy()) && Fits(call, restartable, old(ViewOf())) && !adapter.db.severing ==>
                && (r.Returned? ==> Tidy() && ViewOf() == NextView(id, old(ViewOf()), call) && r.value == AnswerOf(id, old(ViewOf()), call))
                && Within(old(adapter.db.trail), adapter.db.trail, NextView(id, old(ViewOf()), call).durable)
      ensures call.ExitBatch? && call.failed ==> adapter.db.trail == old(adapter.db.trail)
    {
      hide Authored, Extends, Steady, Evident, SessionAdapter.Valid;
      NothingYet();
      var o;
      match call {
        case Execute(write, procedural, legal) => r := ExecuteSql(write, procedural, legal); return;
        case ProgressGet(key) => r := GetProgress(key); return;
        case ProgressSet(key, value) => r := SetProgress(key, value); return;
        case NewBatch => o := MakeBatch();
        case EnterBatch(batch) => o := Enter(batch);
        case ExitBatch(batch, failed) => o := Exit(batch, failed);
        case Ddl(write, legal) => o := RunDdl(write, legal);
      }
      r := if o.Done? then Returned(Nothing) else Threw(o.error);
    }

    /** Run a whole author program.  Whatever it catches, raises or ignores, all
        it can make durable are author steps.  If nothing fails it does what it
        plays; if it is straight, its durable data is always some that it passes
        through then, and a normal return means that it has played to the end; if
        it is bracketed, no exit of it strays; and if it is candid, no interrupt
        fell into a latching before it returned normally. */
    method Run(author: Author) returns (o: Outcome)
      requires Valid()
      modifies this, adapter, adapter.db, adapter.latch
      ensures Valid() && Authored(Owner(), old(adapter.At()), adapter.At())
      ensures !restartable ==> Passive(old(adapter.At()), adapter.At(), adapter.db.severing)
      ensures var budget := author.budget(StoreOf(old(adapter.db.server).durable));
              && (old(Unstrayed()) && Bracketed(author.next, [], None, budget) ==> Unstrayed())
              && (o.Done? && old(Smooth()) && Candid(author.next, [], false, budget) ==> Smooth())
      ensures var budget := author.budget(StoreOf(old(adapter.db.server).durable));
              var v := Play(author.next, id, restartable, [], old(ViewOf()), budget);
              && (old(Tidy()) && !adapter.db.faulty && v.Some? ==> o.Done? && Tidy() && ViewOf() == v.value && v.value.open.None?)
              && (old(Tidy()) && !adapter.db.severing && v.Some? && Straight(author.next, [], false, budget) ==>
                    && (o.Done? ==> Tidy() && ViewOf() == v.value && v.value.open.None?)
                    && PassTrail(author, old(ViewOf()), old(adapter.db.trail), adapter.db.trail))
    {
      hide Authored, Extends, Valid, Smooth, Unstrayed, Tidy, Bracketed, Candid, Play, Passive, Straight, PassTrail, Conducts;
      NothingYet();
      PassiveNothing(adapter.At(), adapter.db.severing);
      var replies: seq<Result<Value>> := [];
      var budget := author.budget(StoreOf(adapter.db.server.durable));
      ghost var start := Outset(author, ViewOf(), budget, adapter.db.trail);
      ghost var claims := Claims(Unstrayed() && Bracketed(author.next, [], None, budget),
                                 Smooth() && Candid(author.next, [], false, budget),
                                 Tidy() && !adapter.db.faulty && Played(start).Some?,
                                 Tidy() && !adapter.db.severing && Played(start).Some? && Straight(author.next, [], false, budget));
      ghost var c := Conduct(None, false, false);
      AtFirst(start, claims);
      for n := 0 to budget
        invariant Valid() && Authored(Owner(), old(adapter.At()), adapter.At())
        invariant !restartable ==> Passive(old(adapter.At()), adapter.At(), adapter.db.severing)
        invariant Conducts(start, claims, replies, budget - n, c)
      {
        Conducted(start, claims, replies, budget - n, c);
        match author.next(replies) {
          case Return => return Done;
          case ReturnValue => return Raised(Validation("the entry point returns None"));
          case Raise(e) => return Raised(e);
          case Do(call) =>
            ghost var middle := adapter.At();
            var r;
            r, c := Act(start, claims, replies, budget - n, c, call);
            AuthoredComposes(Owner(), old(adapter.At()), middle, adapter.At());
            PassiveComposes(old(adapter.At()), middle, adapter.At(), adapter.db.severing);
            replies := replies + [r];
        }
      }
      Conducted(start, claims, replies, 0, c);
      return Raised(Interrupt);
    }

    ghost function Played(start: Outset): Option<View> {
      Play(start.author.next, id, restartable, [], start.v, start.budget)
    }

    /** What is claimed of the program holds so far. */
    ghost predicate Conducts(start: Outset, claims: Claims, replies: seq<Result<Value>>, left: nat, c: Conduct)
      reads this, adapter, adapter.db, adapter.latch
    {
      var next := start.author.next;
      && (c.block.Some? ==> inBatch)
      && (claims.bracketed ==> Bracketed(next, replies, c.block, left) && Unstrayed())
      && (claims.candid ==> Candid(next, replies, c.shaken, left) && (!c.shaken ==> Smooth()))
      && (claims.tidy ==> !adapter.db.faulty && Tidy() && Played(start).Some? && Play(next, id, restartable, replies, ViewOf(), left) == Played(start))
      && (claims.straight ==>
            && !adapter.db.severing && Played(start).Some?
            && OnTrack(next, id, restartable, start.v, start.budget, start.trail, replies, ViewOf(), left, c.broken, adapter.db.trail)
            && (!c.broken ==> Tidy()))
    }

    lemma {:induction false} AtFirst(start: Outset, claims: Claims)
      requires start == Outset(start.author, ViewOf(), start.budget, adapter.db.trail)
      requires claims.bracketed ==> Unstrayed() && Bracketed(start.author.next, [], None, start.budget)
      requires claims.candid ==> Smooth() && Candid(start.author.next, [], false, start.budget)
      requires claims.tidy ==> Tidy() && !adapter.db.faulty && Played(start).Some?
      requires claims.straight ==> Tidy() && !adapter.db.severing && Played(start).Some? && Straight(start.author.next, [], false, start.budget)
      ensures Conducts(start, claims, [], start.budget, Conduct(None, false, false))
    {
      if claims.straight {
        OnTrackAtFirst(start.author.next, id, restartable, start.v, start.budget, adapter.db.trail);
      }
    }

    /** One call, and what is claimed holds still. */
    method Act(ghost start: Outset, ghost claims: Claims, replies: seq<Result<Value>>, ghost left: nat, ghost c: Conduct, call: FacadeCall)
      returns (r: Result<Value>, ghost c': Conduct)
      requires Valid() && Conducts(start, claims, replies, left, c) && left > 0 && start.author.next(replies) == Do(call)
      modifies this, adapter, adapter.db, adapter.latch
      ensures Valid() && Authored(Owner(), old(adapter.At()), adapter.At())
      ensures !restartable ==> Passive(old(adapter.At()), adapter.At(), adapter.db.severing)
      ensures Conducts(start, claims, replies + [r], left - 1, c')
    {
      hide Authored, Extends, Valid, Smooth, Unstrayed, Tidy, Bracketed, Candid, Play, Passive, Straight, OnTrack, Within;
      NothingYet();
      ghost var next := start.author.next;
      ghost var v, trail := ViewOf(), adapter.db.trail;
      Playing(next, id, restartable, replies, v, left);
      if claims.straight {
        TrackMeans(next, id, restartable, start.v, start.budget, start.trail, replies, v, left, c.broken, trail);
      }
      r := Call(call);
      c' := Conduct(BlockAfter(call, c.block, r), c.shaken || (r.Threw? && Grave(r.error)), c.broken || r.Threw?);
      StillBracketed(next, replies, c.block, left, r);
      StillCandid(next, replies, c.shaken, left, r);
      if claims.straight {
        OnTrackStill(next, id, restartable, start.v, start.budget, start.trail, replies, v, left, c.broken, trail, r, ViewOf(), adapter.db.trail);
      }
    }

    /** What is claimed, at the end of the program. */
    lemma {:induction false} Conducted(start: Outset, claims: Claims, replies: seq<Result<Value>>, left: nat, c: Conduct)
      requires Conducts(start, claims, replies, left, c) && start.budget == start.author.budget(start.v.durable)
      ensures claims.bracketed ==> Unstrayed()
      ensures claims.straight ==> PassTrail(start.author, start.v, start.trail, adapter.db.trail)
      ensures claims.tidy ==> left > 0 && !start.author.next(replies).Raise? && !start.author.next(replies).ReturnValue?
      ensures left > 0 && start.author.next(replies).Return? ==>
                && (claims.candid ==> Smooth())
                && (claims.tidy || claims.straight ==> Tidy() && Played(start) == Some(ViewOf()) && ViewOf().open.None?)
    {
      hide Tidy, Smooth, Unstrayed;
      var next := start.author.next;
      Playing(next, id, restartable, replies, ViewOf(), left);
      if left > 0 {
        StillCandid(next, replies, c.shaken, left, Returned(Nothing));
      }
    }

    /** Every durable state since is one the program passes through. */
    ghost predicate PassTrail(author: Author, v: View, before: seq<Tables>, after: seq<Tables>) {
      forall i | |before| <= i < |after| ::
        Passes(author.next, id, restartable, [], v, author.budget(v.durable), StoreOf(after[i]))
    }

    /** Completion after a `begin` that succeeded finds every exit explained. */
    lemma {:induction false} CompletionExplains(before: Session)
      requires forall b | b in exits :: Recorded(before.server, before.trail, adapter.db.severing, b)
      requires forall b | b in exits && b.fate.Kept? :: Landed(before.server, b)
      requires forall b | b in exits && b.fate.Unlatched? :: b.gap || before.half
      requires Onward(before.server, adapter.db.server) && before.trail <= adapter.db.trail
      requires before.half ==> adapter.latch.Half()
      ensures forall b | b in exits :: Explained(adapter.At(), adapter.db.severing, b)
    {
      forall b | b in exits ensures Explained(adapter.At(), adapter.db.severing, b) {
        StillExplained(before, adapter.At(), adapter.db.severing, b);
      }
    }

    /** Nothing that leaves server and trail alone changes what is known of the
        exits. */
    lemma {:induction false} StillClosing(before: Session)
      requires adapter.Valid() && Unmoved(before, adapter.At()) && Extends(before, adapter.At()) && adapter.latch.error.None?
      requires forall b | b in exits :: Recorded(before.server, before.trail, adapter.db.severing, b)
      requires forall b | b in exits && b.fate.Kept? :: Landed(before.server, b) || (before.flag && !inBatch)
      requires forall b | b in exits && b.fate.Unlatched? :: b.gap || before.half || before.latch.Some?
      ensures Closing()
    {
      hide Recorded;
    }
  }

  lemma {:induction false} WithinNothing(trail: seq<Tables>)
    ensures forall store :: Within(trail, trail, store)
  {
  }

  lemma {:induction false} AuthoredComposes(owner: Option<string>, a: Session, b: Session, c: Session)
    requires Authored(owner, a, b) && Authored(owner, b, c)
    ensures Authored(owner, a, c)
  {
  }
}
