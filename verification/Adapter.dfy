/** The shared half of the adapter: the operation guard, engine-owned
    transactions and the history transitions. */
module Adapter {
  import opened Model
  import opened StateValidate
  import opened Durable
  import opened Driver
  import opened Latch
  import opened Metadata

  /** All of a session that contracts speak about, as one value. */
  datatype Session = Session(
    server: Server,
    trail: seq<Tables>,
    calls: seq<Call>,
    flag: bool,
    latch: Option<Error>,
    half: bool)

  /** What no call undoes: durable history is never forgotten, the first latched
      error stays, a half-set latch stays half-set, and a latched unknown outcome
      silences the connection. */
  ghost predicate Extends(a: Session, b: Session) {
    && a.trail <= b.trail && a.calls <= b.calls
    && Onward(a.server, b.server)
    && (a.latch.Some? ==> b.latch == a.latch)
    && (a.half ==> b.half)
    && (Silenced(a) ==> b == a)
  }

  lemma {:induction false} ExtendsNothing(a: Session)
    ensures Extends(a, a)
  {
  }

  lemma {:induction false} ExtendsComposes(a: Session, b: Session, c: Session)
    requires Extends(a, b) && Extends(b, c)
    ensures Extends(a, c)
  {
    hide Ended;
  }

  /** After an unknown outcome was latched, nothing was asked of the driver but to
      let go of the connection. */
  ghost predicate Quiet(calls: seq<Call>) {
    forall i, j | 0 <= i < j < |calls| && calls[i].Latching? :: calls[j].Discarding?
  }

  lemma {:induction false} CommitMeans(s: Server, reply: Reply, t: Server)
    requires Commits(s, reply, t)
    ensures Commits(s, LOSS, t) && (reply.REJECTION? ==> t.durable == s.durable)
    ensures reply.ACK? ==> t.txn.NoTxn? && (s.txn.Open? ==> t.durable == s.txn.work)
  {
  }

  lemma {:induction false} OnwardStays(s: Server)
    ensures Onward(s, s)
  {
  }

  /** Without an answer, what a statement did may as well have been refused. */
  lemma {:induction false} Unacknowledged(s: Server, sql: Sql, severing: bool)
    ensures Onward(s, s) && Executes(s, sql, REJECTION, s, severing) && Commits(s, LOSS, s)
    ensures forall t, reply: Reply :: Executes(s, sql, reply, t, severing) && !reply.ACK? ==> Executes(s, sql, REJECTION, t, severing)
    ensures forall t, reply: Reply :: Commits(s, reply, t) ==> Commits(s, LOSS, t)
  {
  }

  /** A call before any unknown outcome was latched. */
  lemma {:induction false} OneMoreCall(calls: seq<Call>, interrupts: seq<nat>, c: Call)
    ensures Front(calls + [c]) == calls
    ensures Attended(calls, interrupts) && !InDoubt(c) ==> Attended(calls + [c], interrupts)
    ensures Latching !in calls ==> Quiet(calls + [c]) && (Latching in calls + [c] <==> c.Latching?)
    ensures Suspect(calls, interrupts) || Unanswered(c) ==> Suspect(calls + [c], interrupts)
  {
    var more := calls + [c];
    assert more[|calls|] == c;
    if i :| 0 <= i < |calls| && Unanswered(calls[i]) {
      assert Unanswered(more[i]);
    }
  }

  /** An interrupt that is delivered now comes after every call. */
  lemma {:induction false} DisturbedNow(calls: seq<Call>, interrupts: seq<nat>)
    ensures Attended(calls, interrupts + [|calls|]) && Suspect(calls, interrupts + [|calls|])
  {
  }

  /** What teardown leaves alone. */
  ghost predicate Outlives(a: Session, b: Session) {
    && b.trail == a.trail && b.server.durable == a.server.durable && a.calls <= b.calls
    && Onward(a.server, b.server) && b.latch == a.latch && b.half == a.half
    && forall i | |a.calls| <= i < |b.calls| :: b.calls[i].RollingBack? || b.calls[i].Closing? || b.calls[i].Discarding?
  }

  /** One statement was sent; an unknown outcome may have been latched then. */
  ghost predicate SentBy(before: seq<Call>, after: seq<Call>, sql: Sql, inside: Option<nat>, capable: bool, acknowledged: bool) {
    && before <= after && |before| < |after| <= |before| + 2
    && (var c := after[|before|]; c.Sent? && c == Sent(sql, inside, capable, c.reply) && (c.reply.ACK? <==> acknowledged))
    && (|after| == |before| + 2 ==> after[|before| + 1].Latching? && !acknowledged)
  }

  lemma {:induction false} SentOnce(before: seq<Call>, after: seq<Call>, sql: Sql, inside: Option<nat>, capable: bool, reply: Reply)
    requires var sent := before + [Sent(sql, inside, capable, reply)]; after == sent || (!reply.ACK? && after == sent + [Latching])
    ensures before <= after && SentBy(before, after, sql, inside, capable, reply.ACK?)
  {
  }

  /** At most one look was made, of the kind of `call`; the same then. */
  ghost predicate LookedBy(before: seq<Call>, after: seq<Call>, call: Call) {
    && before <= after && |after| <= |before| + 2
    && (|before| < |after| ==> Looks(call, after[|before|]))
    && (|after| == |before| + 2 ==> after[|before| + 1].Latching?)
  }

  predicate Silenced(s: Session) {
    s.latch.Some? && s.latch.value.UnknownOutcome?
  }

  /** Nothing moved but the call trace and the latch. */
  ghost predicate Unmoved(a: Session, b: Session) {
    b.server == a.server && b.trail == a.trail && b.flag == a.flag
  }

  /** Errors that tell of a cut-short call: an interrupt, or an outcome in doubt. */
  predicate Grave(e: Error) {
    e.Interrupt? || e.UnknownOutcome?
  }

  /** Neither an error of the tool's own nor a definite refusal. */
  predicate Alarming(o: Outcome) {
    o.Raised? && !o.error.IsOwn() && !o.error.Rejected?
  }

  /** A raw driver reply as the exception it surfaces as. */
  function Raw(reply: Reply): Outcome {
    match reply
    case ACK => Done
    case REJECTION => Raised(Rejected)
    case LOSS => Raised(CommunicationLost)
    case INTERRUPTION => Raised(Interrupt)
  }

  /** Between units: no transaction by either measure, nothing latched. */
  predicate Idle(s: Session) {
    s.latch.None? && !s.flag && s.server.txn.NoTxn?
  }

  /** Nothing durable changed. */
  ghost predicate Kept(a: Session, b: Session) {
    b.trail == a.trail && b.server.durable == a.server.durable
  }

  /** Every durable state since `a` is one step of initialization. */
  ghost predicate InitTrail(a: seq<Tables>, b: seq<Tables>) {
    && a != [] && a <= b
    && forall i | |a| <= i < |b| :: Creates(b[i - 1], b[i]) || Marks(b[i - 1], b[i])
  }

  /** A namespace no migration has ever been recorded in. */
  predicate Virgin(t: Tables) {
    t.marker.None? && t.history == [] && t.progress == []
  }

  /** The rows under completion: exactly the ACTIVE row of that id changes. */
  lemma {:induction false} CompletedRows(t: Tables, id: string, now: nat)
    ensures var rows := Effect(DeleteProgress(id), Effect(UpdateSuccess(id, now), t)).history;
            && |rows| == |t.history|
            && forall i | 0 <= i < |rows| ::
                 var row := t.history[i];
                 rows[i] == if row.id != id || row.status != ACTIVE then row
                            else HistoryRow(row.seqno, row.id, row.fingerprint, row.firstFingerprint, row.language, row.mode, SUCCESS,
                                            row.attempt, row.startedAt, row.lastAttemptAt, Some(now))
  {
  }

  /** And under a further admission. */
  lemma {:induction false} ReadmittedRows(t: Tables, id: string, fingerprint: string, language: Language, now: nat)
    ensures var rows := Effect(UpdateAttempt(id, fingerprint, language, now), t).history;
            && |rows| == |t.history|
            && forall i | 0 <= i < |rows| ::
                 var row := t.history[i];
                 rows[i] == if row.id != id || row.status != ACTIVE then row
                            else HistoryRow(row.seqno, row.id, fingerprint, row.firstFingerprint, language, row.mode, ACTIVE,
                                            if row.attempt.Some? then Some(row.attempt.value + 1) else None,
                                            row.startedAt, Some(now), row.finishedAt)
  {
  }

  class SessionAdapter {
    const db: Database
    const latch: RunLatch
    /** Set by a completed begin; cleared by an acknowledged commit or a rollback. */
    var engineTransaction: bool

    ghost predicate Working()
      reads this, db, latch
    {
      && db.Valid() && latch.Valid()
      && (latch.Half() ==> db.faulty && db.interrupts != [])
      && Quiet(db.calls) && (Silent() <==> Latching in db.calls)
      && (Silent() ==> Suspect(db.calls, db.interrupts))
    }

    /** No call is left in doubt: an unknown outcome is latched, unless an interrupt
        came after the call, or had left the latch half-set before. */
    ghost predicate Valid()
      reads this, db, latch
    {
      Working() && (Silent() || latch.Half() || Attended(db.calls, db.interrupts))
    }

    /** The last call may be in doubt, if that is what `x` tells of and the guard is
        about to hear of it. */
    ghost predicate Facing(x: Outcome, commitCapable: bool)
      reads this, db, latch
    {
      && Working()
      && (Alarming(x) ==> Suspect(db.calls, db.interrupts))
      && (|| Valid()
          || (&& latch.error.None? && (x == Raised(CommunicationLost) || (x == Raised(Interrupt) && commitCapable))
              && db.calls != [] && Attended(Front(db.calls), db.interrupts)))
    }

    ghost function At(): Session
      reads this, db, latch
    {
      Session(db.server, db.trail, db.calls, engineTransaction, latch.error, latch.Half())
    }

    /** An unknown outcome is latched, not merely half-set. */
    ghost predicate Silent()
      reads this, latch
    {
      latch.Unknown() && latch.error.Some?
    }

    constructor (db: Database, latch: RunLatch)
      requires db.Valid() && latch.Valid() && !latch.Latched() && Latching !in db.calls && Attended(db.calls, db.interrupts)
      ensures Valid() && this.db == db && this.latch == latch
      ensures At() == Session(db.server, db.trail, db.calls, false, None, false)
    {
      this.db, this.latch := db, latch;
      engineTransaction := false;
    }

    // -------------------------------------------------- the operation guard

    /** Sort out how one submitted call failed.  A lost reply, or an interrupt
        inside a call that can commit, becomes an unknown outcome and is latched --
        unless a further interrupt arrives before or within the latching. */
    method Guard(x: Outcome, operation: string, commitCapable: bool) returns (o: Outcome)
      requires Facing(x, commitCapable)
      modifies db`calls, db`interrupts, latch
      ensures Valid() && Unmoved(old(At()), At())
      ensures db.calls == old(db.calls) || (db.calls == old(db.calls) + [Latching] && !old(latch.Latched()) && Silent())
      ensures old(latch.error).Some? ==> latch.error == old(latch.error)
      ensures old(latch.Half()) ==> latch.Half()
      ensures latch.error != old(latch.error) ==> latch.Unknown() && o == Raised(latch.error.value)
      ensures latch.state != old(latch.state) ==> !old(latch.Latched()) && latch.Unknown() && o.Raised? && !o.error.Rejected?
      ensures x.Done? <==> o.Done?
      ensures x == Raised(Rejected) || (x.Raised? && x.error.IsOwn()) ==> o == x
      ensures x == Raised(CommunicationLost) || (x == Raised(Interrupt) && commitCapable) ==>
                if db.interrupts == old(db.interrupts) then
                  o == Raised(UnknownOutcome(operation)) && (!old(latch.Latched()) ==> latch.error == Some(o.error))
                else o == Raised(Interrupt)
      ensures x == Raised(Interrupt) && !commitCapable ==> o == x && latch.state == old(latch.state) && db.calls == old(db.calls)
      ensures old(db.interrupts) <= db.interrupts
      ensures o.Raised? && o.error.UnknownOutcome? && !(x.Raised? && x.error.IsOwn()) ==> latch.Latched()
      ensures o.Raised? && !o.error.IsException() ==> x.Raised? && !x.error.IsOwn() && !x.error.Rejected?
      ensures x.Done? ==> latch.state == old(latch.state) && db.calls == old(db.calls)
      ensures o.Raised? && o.error.UnknownOutcome? && x.Raised? && !x.error.IsOwn() && !old(latch.Latched()) ==> latch.error.Some?
      ensures latch.Half() && !old(latch.Half()) ==> o.Raised? && Grave(o.error)
      ensures Alarming(o) ==> Suspect(db.calls, db.interrupts)
    {
      hide Ended, Orderly, Quiet, Attended, Suspect;
      if x.Done? || x.error.IsOwn() || x.error.Rejected? || (!x.error.IsException() && !commitCapable) {
        return x;
      }
      o := Doubt(operation);
    }

    /** Make an unknown outcome of a call in doubt, and latch it. */
    method Doubt(operation: string) returns (o: Outcome)
      requires Working() && Suspect(db.calls, db.interrupts)
      requires latch.error.Some? ==> Valid()
      modifies db`calls, db`interrupts, latch
      ensures Valid() && Unmoved(old(At()), At())
      ensures db.calls == old(db.calls) || (db.calls == old(db.calls) + [Latching] && !old(latch.Latched()) && Silent())
      ensures old(latch.Latched()) ==> latch.error == old(latch.error) && latch.state == old(latch.state)
      ensures latch.error != old(latch.error) ==> latch.Unknown() && o == Raised(latch.error.value)
      ensures latch.state != old(latch.state) ==> latch.Unknown()
      ensures if db.interrupts == old(db.interrupts) then
                o == Raised(UnknownOutcome(operation)) && latch.Latched() && (!old(latch.Latched()) ==> latch.error == Some(o.error))
              else o == Raised(Interrupt)
      ensures old(db.interrupts) <= db.interrupts && Suspect(db.calls, db.interrupts)
      ensures latch.Half() && !old(latch.Half()) ==> o == Raised(Interrupt)
    {
      hide Ended, Orderly, Quiet, Attended, Suspect;
      DisturbedNow(db.calls, db.interrupts);
      var interrupted := db.Interrupt();
      if interrupted {
        return Raised(Interrupt);
      }
      var e := UnknownOutcome(operation);
      :- LatchDoubt(e);
      return Raised(e);
    }

    method LatchDoubt(e: Error) returns (o: Outcome)
      requires Working() && Suspect(db.calls, db.interrupts) && e.UnknownOutcome?
      requires latch.error.Some? ==> Valid()
      modifies db`calls, db`interrupts, latch
      ensures Valid()
      ensures db.calls == if !old(latch.Latched()) && o.Done? then old(db.calls) + [Latching] else old(db.calls)
      ensures old(latch.Latched()) ==> o.Done? && latch.error == old(latch.error) && latch.state == old(latch.state)
      ensures !old(latch.Latched()) ==> latch.Unknown() && latch.error == (if o.Done? then Some(e) else None)
      ensures if o.Done? then db.interrupts == old(db.interrupts)
              else o == Raised(Interrupt) && db.interrupts == old(db.interrupts) + [|db.calls|]
      ensures Suspect(db.calls, db.interrupts)
    {
      hide Ended, Orderly, Quiet, Attended, Suspect;
      ghost var latched := latch.Latched();
      OneMoreCall(db.calls, db.interrupts, Latching);
      var cut := Cut();
      :- latch.LatchUnknown(e, cut);
      if !latched {
        db.calls := db.calls + [Latching];
      }
      return Done;
    }

    /** Whether an interrupt falls between the two assignments of a latching that is
        about to be made; none is made on a latch that is set. */
    method Cut() returns (cut: bool)
      requires Working()
      modifies db`interrupts
      ensures Working() && (cut ==> !latch.Latched() && db.faulty && db.interrupts != [])
      ensures db.interrupts == if cut then old(db.interrupts) + [|db.calls|] else old(db.interrupts)
      ensures old(Valid()) ==> Valid()
      ensures cut ==> Suspect(db.calls, db.interrupts)
    {
      hide Ended, Orderly, Quiet, Attended, Suspect;
      cut := false;
      if !latch.Latched() {
        DisturbedNow(db.calls, db.interrupts);
        cut := db.Interrupt();
      }
    }

    /** A point where a signal handler may run between two statements. */
    method Tick() returns (o: Outcome)
      requires Valid()
      modifies db`interrupts
      ensures Valid() && old(db.interrupts) <= db.interrupts
      ensures if o.Done? then db.interrupts == old(db.interrupts)
              else o == Raised(Interrupt) && db.faulty && db.interrupts == old(db.interrupts) + [|db.calls|]
      ensures Alarming(o) ==> Suspect(db.calls, db.interrupts)
    {
      hide Ended, Orderly, Quiet, Attended, Suspect;
      DisturbedNow(db.calls, db.interrupts);
      var interrupted := db.Interrupt();
      o := if interrupted then Raised(Interrupt) else Done;
    }

    /** The guard may hear of a call that was just made with nothing latched. */
    lemma {:induction false} Faces(before: seq<Call>, c: Call, x: Outcome, commitCapable: bool)
      requires db.Valid() && latch.Valid() && latch.error.None? && (latch.Half() ==> db.faulty && db.interrupts != [])
      requires db.calls == before + [c] && !c.Latching? && Latching !in before && (latch.Half() || Attended(before, db.interrupts))
      requires InDoubt(c) ==> x == Raised(CommunicationLost) || (x == Raised(Interrupt) && commitCapable)
      requires Alarming(x) ==> Unanswered(c)
      ensures Facing(x, commitCapable)
    {
      hide Ended, Orderly, Quiet, Attended, Suspect;
      OneMoreCall(before, db.interrupts, c);
    }

    /** What there is to know before a call. */
    lemma {:induction false} Fit()
      requires Valid()
      ensures db.Valid() && latch.Valid() && (latch.Half() ==> db.faulty && db.interrupts != [])
      ensures latch.error.None? ==> Latching !in db.calls && (latch.Half() || Attended(db.calls, db.interrupts))
    {
      hide Ended, Orderly, Quiet, Attended, Suspect;
    }

    /** So may it of an outcome with nothing in doubt. */
    lemma {:induction false} ValidFaces(x: Outcome, commitCapable: bool)
      requires Valid() && (Alarming(x) ==> Suspect(db.calls, db.interrupts))
      ensures Facing(x, commitCapable)
    {
      hide Ended, Orderly, Quiet, Attended, Suspect;
    }

    /** An acknowledged call leaves nothing in doubt. */
    lemma {:induction false} StillFine(before: seq<Call>, c: Call)
      requires db.Valid() && latch.Valid() && latch.error.None? && (latch.Half() ==> db.faulty && db.interrupts != [])
      requires db.calls == before + [c] && !c.Latching? && Latching !in before && (latch.Half() || Attended(before, db.interrupts))
      requires !InDoubt(c)
      ensures Valid()
    {
      hide Ended, Orderly, Quiet, Attended, Suspect;
      OneMoreCall(before, db.interrupts, c);
    }

    /** Submit one statement through the guard. */
    method Submit(sql: Sql, operation: string, commitCapable: bool) returns (r: Result<nat>)
      requires Valid()
      modifies db`server, db`trail, db`calls, db`interrupts, latch
      ensures Valid() && Extends(old(At()), At()) && engineTransaction == old(engineTransaction)
      ensures Executes(old(db.server), sql, if r.Returned? then ACK else REJECTION, db.server, db.severing)
      ensures Records(old(db.server), old(db.trail), db.server, db.trail)
      ensures r.Returned? ==> latch.error.None? && r.value == Affected(sql, old(db.server).Visible()) 
      ensures old(latch.error).Some? ==> r == Threw(old(latch.error).value) && At() == old(At())
      ensures if old(latch.error).Some? then db.calls == old(db.calls)
              else SentBy(old(db.calls), db.calls, sql, old(db.server).TxnId(), commitCapable, r.Returned?)
      ensures !db.faulty && old(latch.error).None? ==> r.Returned? && Applies(old(db.server), sql, db.server)
      ensures r.Returned? ==> latch.state == old(latch.state)
      ensures latch.Half() && !old(latch.Half()) ==> r.Threw? && Grave(r.error)
    {
      hide Onward, Orderly, Quiet, Attended, Suspect, Effect, Affected, Executes, SentBy, Facing, SessionAdapter.Valid, SessionAdapter.Working;
      Fit();
      Unacknowledged(db.server, sql, db.severing);
      var checked := latch.Check();
      if checked.Raised? {
        return Threw(checked.error);
      }
      var reply, affected := db.Execute(sql, commitCapable);
      Faces(old(db.calls), Last(db.calls), Raw(reply), commitCapable);
      var o := Guard(Raw(reply), operation, commitCapable);
      SentOnce(old(db.calls), db.calls, sql, old(db.server).TxnId(), commitCapable, reply);
      if o.Raised? {
        return Threw(o.error);
      }
      return Returned(affected);
    }

    /** One guarded read. */
    method Fetch(call: Call, operation: string) returns (o: Outcome)
      requires Valid() && Looks(call, call)
      modifies db`calls, db`interrupts, latch
      ensures Valid() && Extends(old(At()), At()) && Unmoved(old(At()), At())
      ensures o.Done? ==> latch.error.None? && (call.Probing? || !db.server.Aborted())
      ensures LookedBy(old(db.calls), db.calls, call)
      ensures o.Done? || o == Raised(Rejected) ==> latch.state == old(latch.state)
      ensures old(latch.error).Some? ==> o == Raised(old(latch.error).value) && At() == old(At())
      ensures !db.faulty && old(latch.error).None? ==> o.Done?
      ensures o.Raised? ==> o.error.Rejected? || o.error.UnknownOutcome? || o.error.Interrupt? || old(latch.error).Some?
      ensures o.Raised? && o.error.UnknownOutcome? ==> latch.Latched()
      ensures latch.error != old(latch.error) ==> latch.Unknown() && o == Raised(latch.error.value)
      ensures o.Raised? && o.error.UnknownOutcome? && !old(latch.Latched()) ==> latch.error.Some?
      ensures latch.Half() && !old(latch.Half()) ==> o.Raised? && Grave(o.error)
      ensures Alarming(o) ==> Suspect(db.calls, db.interrupts)
      ensures o.Done? ==> db.calls == old(db.calls) + [Answered(call, ACK)]
    {
      hide Ended, Orderly, Quiet, Attended, Suspect, Facing, SessionAdapter.Valid, SessionAdapter.Working;
      Fit();
      o := latch.Check();
      :- o;
      var reply := db.Read(call);
      Faces(old(db.calls), Last(db.calls), Raw(reply), false);
      o := Guard(Raw(reply), operation, false);
    }

    // ------------------------------------------------- transaction control

    method HasOpenTransaction() returns (r: Result<bool>)
      requires Valid()
      modifies db`calls, db`interrupts, latch
      ensures Valid() && Extends(old(At()), At()) && Unmoved(old(At()), At())
      ensures r.Returned? ==> latch.error.None? && (r.value <==> db.server.txn.Open?)
      ensures old(latch.error).Some? ==> r == Threw(old(latch.error).value) && At() == old(At())
      ensures !db.faulty && old(latch.error).None? ==> r.Returned?
      ensures r.Returned? ==> latch.state == old(latch.state)
      ensures latch.Half() && !old(latch.Half()) ==> r.Threw? && Grave(r.error)
      ensures r.Threw? && Alarming(Raised(r.error)) ==> Suspect(db.calls, db.interrupts)
      ensures LookedBy(old(db.calls), db.calls, Probing(ACK))
      ensures r.Threw? && old(latch.error).None? ==> r.error.Rejected? || r.error.UnknownOutcome? || r.error.Interrupt?
    {
      var o := Fetch(Probing(ACK), "transaction-state probe");
      r := if o.Raised? then Threw(o.error) else Returned(db.server.txn.Open?);
    }

    /** Open an engine transaction, refusing while one is open by either measure. */
    method Begin() returns (o: Outcome)
      requires Valid()
      modifies this`engineTransaction, db`server, db`calls, db`interrupts, latch
      ensures Valid() && Extends(old(At()), At()) && db.trail == old(db.trail)
      ensures o.Done? ==>
                && latch.error.None? && !old(engineTransaction) && old(db.server).txn.NoTxn?
                && engineTransaction && Begins(old(db.server), ACK, db.server)
      ensures o.Raised? ==>
                engineTransaction == old(engineTransaction) && (Begins(old(db.server), ACK, db.server) || Begins(old(db.server), LOSS, db.server))
      ensures old(engineTransaction) ==> o == Raised(Usage("an engine transaction is already open")) && At() == old(At())
      ensures !db.faulty && Idle(old(At())) ==> o.Done?
      ensures o.Done? ==> latch.state == old(latch.state)
      ensures latch.Half() && !old(latch.Half()) ==> o.Raised? && Grave(o.error)
      ensures Alarming(o) ==> Suspect(db.calls, db.interrupts)
      ensures old(db.server).txn.Open? ==> forall i | |old(db.calls)| <= i < |db.calls| :: !db.calls[i].Beginning?
    {
      hide Onward, Orderly, Quiet, Attended, Suspect, Facing;
      OnwardStays(db.server);
      if engineTransaction {
        return Raised(Usage("an engine transaction is already open"));
      }
      var open :- HasOpenTransaction();
      if open {
        return Raised(Usage("a transaction is already open with uncommitted work"));
      }
      o := SubmitBegin();
    }

    method SubmitBegin() returns (o: Outcome)
      requires Valid() && latch.error.None? && !engineTransaction && db.server.txn.NoTxn?
      modifies this`engineTransaction, db`server, db`calls, db`interrupts, latch
      ensures Valid() && Extends(old(At()), At()) && db.trail == old(db.trail)
      ensures o.Done? ==> latch.error.None? && engineTransaction && Begins(old(db.server), ACK, db.server)
      ensures o.Raised? ==> !engineTransaction && (Begins(old(db.server), ACK, db.server) || Begins(old(db.server), LOSS, db.server))
      ensures !db.faulty ==> o.Done?
      ensures o.Done? ==> latch.state == old(latch.state)
      ensures latch.Half() && !old(latch.Half()) ==> o.Raised? && Grave(o.error)
      ensures Alarming(o) ==> Suspect(db.calls, db.interrupts)
    {
      hide Onward, Orderly, Quiet, Attended, Suspect, Facing;
      var reply := db.Begin();
      Faces(old(db.calls), Last(db.calls), Raw(reply), false);
      o := Guard(Raw(reply), "transaction begin", false);
      :- o;
      :- Tick();
      engineTransaction := true;
      return Done;
    }

    /** Commit an engine-owned transition.  Only an acknowledged commit clears
        the engine-transaction flag. */
    method DurableCommit(operation: string) returns (o: Outcome)
      requires Valid()
      modifies this`engineTransaction, db`server, db`trail, db`calls, db`interrupts, latch
      ensures Valid() && Extends(old(At()), At())
      ensures Commits(old(db.server), if o.Done? then ACK else LOSS, db.server)
      ensures Records(old(db.server), old(db.trail), db.server, db.trail)
      ensures o.Done? ==> Idle(At())
      ensures o.Raised? && old(db.server).txn.Open? && db.server.durable != old(db.server).txn.work ==>
                engineTransaction == old(engineTransaction)
      ensures engineTransaction ==> old(engineTransaction)
      ensures engineTransaction != old(engineTransaction) ==> Commits(old(db.server), ACK, db.server)
      ensures o == Raised(Rejected) ==> Kept(old(At()), At()) && engineTransaction == old(engineTransaction)
      ensures o.Raised? && o.error.UnknownOutcome? ==> latch.Latched()
      ensures old(latch.error).Some? ==> o.Raised? && !o.error.Rejected? && Unmoved(old(At()), At())
      ensures o.Raised? ==> o.error.Rejected? || o.error.UnknownOutcome? || o.error.Interrupt? || old(latch.error).Some?
      ensures !db.faulty && old(latch.error).None? ==> o.Done?
      ensures o.Done? ==> latch.state == old(latch.state)
      ensures latch.Half() && !old(latch.Half()) ==> o.Raised? && Grave(o.error)
      ensures Alarming(o) ==> Suspect(db.calls, db.interrupts)
    {
      hide Onward, Orderly, Quiet, Attended, Suspect;
      Unacknowledged(db.server, InsertMarker, db.severing);
      o := Tick();
      :- o;
      o := SubmitCommit(operation);
      :- o;
      o := Tick();
    }

    /** The commit between two points where a signal handler may run. */
    method SubmitCommit(operation: string) returns (o: Outcome)
      requires Valid()
      modifies this`engineTransaction, db`server, db`trail, db`calls, db`interrupts, latch
      ensures Valid() && Extends(old(At()), At())
      ensures Commits(old(db.server), if o.Done? then ACK else LOSS, db.server)
      ensures Records(old(db.server), old(db.trail), db.server, db.trail)
      ensures o.Done? ==> Idle(At())
      ensures o.Raised? && old(db.server).txn.Open? && db.server.durable != old(db.server).txn.work ==>
                engineTransaction == old(engineTransaction)
      ensures engineTransaction ==> old(engineTransaction)
      ensures engineTransaction != old(engineTransaction) ==> Commits(old(db.server), ACK, db.server)
      ensures o == Raised(Rejected) ==> Kept(old(At()), At()) && engineTransaction == old(engineTransaction)
      ensures o.Raised? && o.error.UnknownOutcome? ==> latch.Latched()
      ensures old(latch.error).Some? ==> o.Raised? && !o.error.Rejected? && Unmoved(old(At()), At())
      ensures o.Raised? ==> o.error.Rejected? || o.error.UnknownOutcome? || o.error.Interrupt? || old(latch.error).Some?
      ensures !db.faulty && old(latch.error).None? ==> o.Done?
      ensures o.Done? ==> latch.state == old(latch.state)
      ensures latch.Half() && !old(latch.Half()) ==> o.Raised? && Grave(o.error)
      ensures Alarming(o) ==> Suspect(db.calls, db.interrupts)
    {
      hide Onward, Orderly, Quiet, Attended, Suspect, Facing, Commits, SessionAdapter.Valid, SessionAdapter.Working;
      Fit();
      Unacknowledged(db.server, InsertMarker, db.severing);
      o := latch.Check();
      :- o;
      var reply := db.Commit();
      CommitMeans(old(db.server), reply, db.server);
      if reply.ACK? {
        engineTransaction := false;
      }
      Faces(old(db.calls), Last(db.calls), Raw(reply), true);
      o := Guard(Raw(reply), operation, true);
    }

    /** Roll back without the guard; never after an unknown outcome. */
    method Rollback() returns (o: Outcome)
      requires Valid() && !Silent()
      modifies this`engineTransaction, db`server, db`calls
      ensures Valid() && Extends(old(At()), At()) && db.trail == old(db.trail)
      ensures RollsBack(old(db.server), if o.Done? then ACK else LOSS, db.server)
      ensures engineTransaction == (o.Raised? && old(engineTransaction))
      ensures o.Raised? ==> o.error.Rejected? || o.error.CommunicationLost? || o.error.Interrupt?
      ensures !db.faulty ==> o.Done?
      ensures Outlives(old(At()), At())
      ensures Alarming(o) ==> Suspect(db.calls, db.interrupts)
      ensures |db.calls| == |old(db.calls)| + 1 && Last(db.calls).RollingBack?
    {
      hide Ended, Orderly, Quiet, Attended, Suspect;
      var reply := db.Rollback();
      OneMoreCall(old(db.calls), db.interrupts, Last(db.calls));
      :- Raw(reply);
      engineTransaction := false;
      return Done;
    }

    method EstablishTransactionIdentity() returns (r: Result<nat>)
      requires Valid()
      modifies db`calls, db`interrupts, latch
      ensures Valid() && Extends(old(At()), At()) && Unmoved(old(At()), At())
      ensures r.Returned? ==> latch.error.None? && db.server.TxnId() == Some(r.value)
      ensures latch.error != old(latch.error) ==> latch.Unknown() && r == Threw(latch.error.value)
      ensures old(latch.error).Some? ==> r.Threw? && At() == old(At())
      ensures !db.faulty && old(latch.error).None? && db.server.txn.Open? ==> r.Returned?
      ensures r.Returned? ==> latch.state == old(latch.state)
      ensures latch.Half() && !old(latch.Half()) ==> r.Threw? && Grave(r.error)
    {
      var o := Fetch(Identifying(ACK), "establishing the transaction identity");
      if o.Raised? {
        return Threw(o.error);
      }
      if db.server.txn.NoTxn? {
        return Threw(Usage("no transaction is open when establishing the transaction identity"));
      }
      return Returned(db.server.txn.id);
    }

    // -------------------------------------------------- history transitions

    /** The SUCCESS row joins the pending work, and nothing else changes. */
    method InsertSuccessRow(unit: Unit) returns (o: Outcome)
      requires Valid() && db.server.txn.Open?
      modifies db, latch
      ensures Valid() && Extends(old(At()), At()) && engineTransaction == old(engineTransaction)
      ensures db.server.durable == old(db.server).durable && db.trail == old(db.trail)
      ensures o.Done? ==>
                && latch.error.None? && db.server.txn.Open? && |db.server.txn.work.history| > 0
                && var row := Last(db.server.txn.work.history);
                && row.startedAt.Some? && row == SuccessRow(unit, row.startedAt.value)
                && db.server == old(db.server).(txn := old(db.server).txn.(work :=
                     old(db.server).txn.work.(history := old(db.server).txn.work.history + [row])))
      ensures !db.faulty && old(latch.error).None? ==> o.Done?
      ensures o.Done? ==> latch.state == old(latch.state)
      ensures o.Done? ==>
                Last(db.server.txn.work.history) == HistoryRow(unit.position, unit.id, unit.fingerprint, unit.fingerprint, unit.language, unit.mode,
                                                               SUCCESS, None, Some(db.clock), Some(db.clock), Some(db.clock))
    {
      var now := db.Now();
      var row := SuccessRow(unit, now);
      var sql := InsertHistory(row);
      var _ :- Submit(sql, "history SUCCESS insert", false);
      assert Last(Effect(sql, old(db.server).txn.work).history) == row;
      return Done;
    }

    /** Begin, then submit one metadata statement in the new transaction. */
    method SubmitInTransaction(sql: Sql, operation: string) returns (r: Result<nat>)
      requires Valid() && !sql.AuthorStatement?
      modifies this`engineTransaction, db`server, db`trail, db`calls, db`interrupts, latch
      ensures Valid() && Extends(old(At()), At())
      ensures db.trail == old(db.trail) && db.server.durable == old(db.server).durable
      ensures r.Returned? ==>
                && latch.error.None? && engineTransaction && !old(engineTransaction)
                && db.server.txn.Open? && db.server.txn.work == Effect(sql, old(db.server).durable)
                && r.value == Affected(sql, old(db.server).durable)
      ensures !db.faulty && Idle(old(At())) ==> r.Returned? && !db.server.txn.aborted
      ensures r.Returned? ==> latch.state == old(latch.state)
    {
      hide Ended, Orderly, Effect, Affected;
      var o := Begin();
      if o.Raised? {
        return Threw(o.error);
      }
      r := Submit(sql, operation, false);
    }

    /** First admission: the ACTIVE row, committed before any author code runs. */
    method InsertActiveRow(unit: Unit) returns (o: Outcome)
      requires Valid()
      modifies this, db, latch
      ensures Valid() && Extends(old(At()), At())
      ensures Records(old(db.server), old(db.trail), db.server, db.trail)
      ensures o.Done? || !Kept(old(At()), At()) ==>
                && |db.server.durable.history| > 0
                && var row := Last(db.server.durable.history);
                && row.startedAt.Some? && row == ActiveRow(unit, row.startedAt.value)
                && db.server.durable == old(db.server).durable.(history := old(db.server).durable.history + [row])
      ensures o.Done? ==> Idle(At())
      ensures !db.faulty && Idle(old(At())) ==> o.Done?
      ensures o.Done? ==> latch.state == old(latch.state)
      ensures o.Done? || !Kept(old(At()), At()) ==>
                Last(db.server.durable.history) == HistoryRow(unit.position, unit.id, unit.fingerprint, unit.fingerprint, unit.language, RESTARTABLE,
                                                              ACTIVE, Some(1), Some(db.clock), Some(db.clock), None)
    {
      hide Ended, Orderly, Quiet, Attended, Suspect;
      var now := db.Now();
      var row := ActiveRow(unit, now);
      var sql := InsertHistory(row);
      assert Last(Effect(sql, db.server.durable).history) == row;
      var _ :- SubmitInTransaction(sql, "history ACTIVE insert");
      o := DurableCommit("restartable_admission commit");
    }

    /** An update of the ACTIVE row, pending: done only if there is exactly one. */
    method UpdateInTransaction(sql: Sql, operation: string) returns (o: Outcome)
      requires Valid() && (sql.UpdateAttempt? || sql.UpdateSuccess?)
      modifies this`engineTransaction, db`server, db`trail, db`calls, db`interrupts, latch
      ensures Valid() && Extends(old(At()), At())
      ensures db.trail == old(db.trail) && db.server.durable == old(db.server).durable
      ensures o.Done? ==>
                && latch.error.None? && engineTransaction && !old(engineTransaction)
                && db.server.txn.Open? && db.server.txn.work == Effect(sql, old(db.server).durable)
                && Affected(sql, old(db.server).durable) == 1
      ensures !db.faulty && Idle(old(At())) && Affected(sql, old(db.server).durable) == 1 ==> o.Done? && !db.server.txn.aborted
      ensures o.Done? ==> latch.state == old(latch.state)
    {
      hide Ended, Orderly, Quiet, Attended, Suspect;
      var affected :- SubmitInTransaction(sql, operation);
      o := RequireOneRow(affected);
    }

    /** Any other number of affected rows is damage, and what was updated is undone. */
    method RequireOneRow(affected: nat) returns (o: Outcome)
      requires Valid() && latch.error.None?
      modifies this`engineTransaction, db`server, db`calls
      ensures Valid() && Extends(old(At()), At()) && db.trail == old(db.trail) && db.server.durable == old(db.server).durable
      ensures o.Done? <==> affected == 1
      ensures o.Done? ==> At() == old(At())
      ensures o.Raised? && o.error.IsOwn() ==> o.error.MetadataDamaged? && db.server.txn.NoTxn? && !engineTransaction
      ensures !db.faulty && affected != 1 ==> o.error.MetadataDamaged?
    {
      hide Ended, Orderly, Quiet, Attended, Suspect;
      if affected != 1 {
        :- Rollback();
        return Raised(MetadataDamaged("exactly one ACTIVE row was expected"));
      }
      return Done;
    }

    /** A further attempt of the matching ACTIVE row. */
    method UpdateActiveAttempt(unit: Unit) returns (o: Outcome)
      requires Valid()
      modifies this, db, latch
      ensures Valid() && Extends(old(At()), At())
      ensures Records(old(db.server), old(db.trail), db.server, db.trail)
      ensures o.Done? || !Kept(old(At()), At()) ==>
                && CountActive(old(db.server).durable.history, unit.id) == 1
                && exists now :: db.server.durable
                     == Effect(UpdateAttempt(unit.id, unit.fingerprint, unit.language, now), old(db.server).durable)
      ensures o.Done? ==> Idle(At())
      ensures !db.faulty && Idle(old(At())) && CountActive(old(db.server).durable.history, unit.id) == 1 ==> o.Done?
      ensures o.Done? ==> latch.state == old(latch.state)
      ensures o.Done? || !Kept(old(At()), At()) ==>
                && |db.server.durable.history| == |old(db.server).durable.history|
                && forall i | 0 <= i < |db.server.durable.history| ::
                     var row := old(db.server).durable.history[i];
                     db.server.durable.history[i] ==
                       if row.id != unit.id || row.status != ACTIVE then row
                       else HistoryRow(row.seqno, row.id, unit.fingerprint, row.firstFingerprint, unit.language, row.mode, ACTIVE,
                                       if row.attempt.Some? then Some(row.attempt.value + 1) else None,
                                       row.startedAt, Some(db.clock), row.finishedAt)
    {
      hide Ended, Orderly, Quiet, Attended, Suspect, Effect;
      var now := db.Now();
      ReadmittedRows(db.server.durable, unit.id, unit.fingerprint, unit.language, now);
      :- UpdateInTransaction(UpdateAttempt(unit.id, unit.fingerprint, unit.language, now), "history attempt update");
      o := DurableCommit("restartable_admission commit");
    }

    /** Completion of a restartable unit: its status and its checkpoints change in
        one durable step or not at all. */
    method CompleteActiveRow(unit: Unit) returns (o: Outcome)
      requires Valid()
      modifies this, db, latch
      ensures Valid() && Extends(old(At()), At())
      ensures Records(old(db.server), old(db.trail), db.server, db.trail)
      ensures o.Done? || !Kept(old(At()), At()) ==>
                && CountActive(old(db.server).durable.history, unit.id) == 1
                && old(latch.error).None? && !old(engineTransaction)
                && exists now :: db.server.durable
                     == Effect(DeleteProgress(unit.id), Effect(UpdateSuccess(unit.id, now), old(db.server).durable))
      ensures o.Done? ==> Idle(At())
      ensures !db.faulty && Idle(old(At())) && CountActive(old(db.server).durable.history, unit.id) == 1 ==> o.Done?
      ensures o.Done? ==> latch.state == old(latch.state)
      ensures o.Done? || !Kept(old(At()), At()) ==>
                && |db.server.durable.history| == |old(db.server).durable.history|
                && forall i | 0 <= i < |db.server.durable.history| ::
                     var row := old(db.server).durable.history[i];
                     db.server.durable.history[i] ==
                       if row.id != unit.id || row.status != ACTIVE then row
                       else HistoryRow(row.seqno, row.id, row.fingerprint, row.firstFingerprint, row.language, row.mode, SUCCESS,
                                       row.attempt, row.startedAt, row.lastAttemptAt, Some(db.clock))
    {
      hide Ended, Orderly, Quiet, Attended, Suspect, Effect;
      var now := db.Now();
      CompletedRows(db.server.durable, unit.id, now);
      :- UpdateInTransaction(UpdateSuccess(unit.id, now), "history SUCCESS update");
      var _ :- Submit(DeleteProgress(unit.id), "progress deletion", false);
      o := DurableCommit("restartable_completion commit");
    }

    // ------------------------------------------------------ initialization

    /** What is there, classified; a look changes nothing. */
    method InspectMetadata() returns (r: Result<MetadataState>)
      requires Valid() && db.server.txn.NoTxn?
      modifies db`calls, db`interrupts, latch
      ensures Valid() && Extends(old(At()), At()) && Unmoved(old(At()), At())
      ensures r.Returned? ==> latch.error.None? && r.value == Inspect(db.server.durable, db.definitionProblems)
      ensures !db.faulty && old(latch.error).None? ==> r.Returned?
      ensures r.Returned? ==> latch.state == old(latch.state)
    {
      var o := Fetch(Reading(db.server.TxnId(), ACK), "metadata object inspection");
      if o.Done? {
        o := Fetch(Reading(db.server.TxnId(), ACK), "metadata definition inspection");
      }
      if o.Done? && META_TABLE in db.server.durable.objects {
        o := Fetch(Reading(db.server.TxnId(), ACK), "reading the initialization marker");
      }
      r := if o.Raised? then Threw(o.error) else Returned(Inspect(db.server.durable, db.definitionProblems));
    }

    /** One object becomes durable, alone, or nothing does. */
    method CreateMetadataObject(item: MetaObject) returns (o: Outcome)
      requires Valid()
      modifies this, db, latch
      ensures Valid() && Extends(old(At()), At())
      ensures Records(old(db.server), old(db.trail), db.server, db.trail)
      ensures o.Done? || !Kept(old(At()), At()) ==> db.server.durable == Effect(CreateObject(item), old(db.server).durable)
      ensures o.Done? ==> Idle(At())
      ensures !db.faulty && Idle(old(At())) ==> o.Done?
      ensures o.Done? ==> latch.state == old(latch.state)
    {
      hide Ended, Orderly, Quiet, Attended, Suspect;
      o := CreateInTransaction(item);
      o := Guard(o, "creating a metadata object", true);
    }

    method CreateInTransaction(item: MetaObject) returns (o: Outcome)
      requires Valid()
      modifies this, db, latch
      ensures Facing(o, true) && Extends(old(At()), At())
      ensures Records(old(db.server), old(db.trail), db.server, db.trail)
      ensures o.Done? || !Kept(old(At()), At()) ==> db.server.durable == Effect(CreateObject(item), old(db.server).durable)
      ensures o.Done? ==> Idle(At())
      ensures !db.faulty && Idle(old(At())) ==> o.Done?
      ensures o.Done? ==> latch.state == old(latch.state)
    {
      hide Ended, Orderly, Quiet, Attended, Suspect, Facing, Effect;
      o := Begin();
      ValidFaces(o, true);
      :- o;
      o := ExecuteRaw(CreateObject(item));
      :- o;
      o := DurableCommit("metadata_object_created commit");
      ValidFaces(o, true);
    }

    /** A statement in the transaction just begun, whose failure only an outer guard
        hears of. */
    method ExecuteRaw(sql: Sql) returns (o: Outcome)
      requires Valid() && latch.error.None? && db.server.txn.Open? && !sql.AuthorStatement?
      modifies db`server, db`trail, db`calls
      ensures Facing(o, true) && (o.Done? ==> Valid()) && Extends(old(At()), At())
      ensures db.trail == old(db.trail) && db.server.durable == old(db.server).durable
      ensures o.Done? ==> db.server.txn.Open? && db.server.txn.work == Effect(sql, old(db.server).txn.work)
      ensures !db.faulty ==> o.Done?
    {
      hide Ended, Orderly, Quiet, Attended, Suspect, Facing, Effect;
      var reply, _ := db.Execute(sql, true);
      Faces(old(db.calls), Last(db.calls), Raw(reply), true);
      if reply.ACK? {
        StillFine(old(db.calls), Last(db.calls));
      }
      o := Raw(reply);
    }

    /** The completion marker, in a transaction of its own. */
    method WriteMarker() returns (o: Outcome)
      requires Valid()
      modifies this, db, latch
      ensures Valid() && Extends(old(At()), At())
      ensures Records(old(db.server), old(db.trail), db.server, db.trail)
      ensures o.Done? || !Kept(old(At()), At()) ==> db.server.durable == Effect(InsertMarker, old(db.server).durable)
      ensures o.Done? ==> Idle(At())
      ensures !db.faulty && Idle(old(At())) ==> o.Done?
      ensures o.Done? ==> latch.state == old(latch.state)
    {
      hide Ended, Orderly, Quiet, Attended, Suspect;
      var _ :- SubmitInTransaction(InsertMarker, "initialization marker insert");
      o := DurableCommit("initialization_complete commit");
    }

    /** The object at place `n` of the order, once everything before it exists. */
    method CreateNext(n: nat) returns (o: Outcome)
      requires Valid() && Idle(At()) && Virgin(db.server.durable) && n < |CREATION_ORDER|
      requires forall j | 0 <= j < n :: CREATION_ORDER[j] in db.server.durable.objects
      requires CREATION_ORDER[n] !in db.server.durable.objects
      modifies this, db, latch
      ensures Valid() && Extends(old(At()), At()) && InitTrail(old(db.trail), db.trail)
      ensures db.server.durable == old(db.server).durable
              || db.server.durable == Effect(CreateObject(CREATION_ORDER[n]), old(db.server).durable)
      ensures o.Done? ==> Idle(At()) && CREATION_ORDER[n] in db.server.durable.objects
      ensures !db.faulty ==> o.Done?
      ensures o.Done? ==> latch.state == old(latch.state)
    {
      hide Ended, Orderly, Quiet, Attended, Suspect;
      ghost var before := db.server.durable;
      o := CreateMetadataObject(CREATION_ORDER[n]);
      assert db.server.durable != before ==> Creates(before, db.server.durable);
    }

    /** Create the missing objects in the fixed order. */
    method CreateMissing() returns (o: Outcome)
      requires Valid() && Idle(At()) && Virgin(db.server.durable)
      modifies this, db, latch
      ensures Valid() && Extends(old(At()), At()) && InitTrail(old(db.trail), db.trail)
      ensures old(db.server).durable.objects <= db.server.durable.objects && Virgin(db.server.durable)
      ensures o.Done? ==> Idle(At()) && ALL_OBJECTS <= db.server.durable.objects
      ensures !db.faulty ==> o.Done?
      ensures o.Done? ==> latch.state == old(latch.state)
    {
      hide Creates;
      :- Fetch(Reading(db.server.TxnId(), ACK), "metadata object inspection");
      ghost var start := old(At());
      for n := 0 to |CREATION_ORDER|
        invariant Valid() && Idle(At()) && Virgin(db.server.durable)
        invariant Extends(start, At()) && InitTrail(start.trail, db.trail)
        invariant latch.state == old(latch.state)
        invariant start.server.durable.objects <= db.server.durable.objects
        invariant forall j | 0 <= j < n :: CREATION_ORDER[j] in db.server.durable.objects
      {
        if CREATION_ORDER[n] !in db.server.durable.objects {
          :- CreateNext(n);
        }
      }
      assert CREATION_ORDER[0] in db.server.durable.objects && CREATION_ORDER[1] in db.server.durable.objects;
      assert CREATION_ORDER[2] in db.server.durable.objects && CREATION_ORDER[3] in db.server.durable.objects;
      return Done;
    }

    /** Whether the whole layout is there, with definitions as supported. */
    method LayoutIsComplete() returns (r: Result<bool>)
      requires Valid()
      modifies db`calls, db`interrupts, latch
      ensures Valid() && Extends(old(At()), At()) && Unmoved(old(At()), At())
      ensures r.Returned? ==>
                && latch.error.None?
                && (r.value <==> ALL_OBJECTS <= db.server.durable.objects && !db.definitionProblems)
      ensures !db.faulty && old(latch.error).None? ==> r.Returned?
      ensures r.Returned? ==> latch.state == old(latch.state)
    {
      var o := Fetch(Reading(db.server.TxnId(), ACK), "metadata object inspection");
      if o.Done? {
        o := Fetch(Reading(db.server.TxnId(), ACK), "metadata definition inspection");
      }
      r := if o.Raised? then Threw(o.error) else Returned(ALL_OBJECTS <= db.server.durable.objects && !db.definitionProblems);
    }

    /** Initialization: the missing objects, a second look, and the marker last,
        so that what an interruption leaves is always a prefix. */
    method Initialize() returns (o: Outcome)
      requires Valid() && Idle(At()) && Virgin(db.server.durable)
      modifies this, db, latch
      ensures Valid() && Extends(old(At()), At()) && InitTrail(old(db.trail), db.trail)
      ensures db.server.durable.history == [] && db.server.durable.progress == []
      ensures o.Done? ==> Idle(At()) && db.server.durable.marker == Some(LAYOUT_VERSION) && ALL_OBJECTS <= db.server.durable.objects
      ensures !db.faulty && !db.definitionProblems ==> o.Done?
      ensures o.Done? ==> latch.state == old(latch.state)
      ensures db.definitionProblems ==> o.Raised? && db.server.durable.marker.None?
    {
      hide Ended, Orderly, Quiet, Attended, Suspect;
      o := CreateMissing();
      :- o;
      var complete :- LayoutIsComplete();
      if !complete {
        return Raised(MetadataDamaged("metadata layout is not complete after creating objects"));
      }
      ghost var before := db.server.durable;
      o := WriteMarker();
      assert db.server.durable != before ==> Marks(before, db.server.durable);
    }

    // ------------------------------------------------------------ teardown

    /** Close the session; never after an unknown outcome. */
    method Close() returns (o: Outcome)
      requires Valid() && !Silent()
      modifies db`server, db`calls
      ensures Valid() && Extends(old(At()), At()) && Outlives(old(At()), At())
      ensures db.server == old(db.server).(txn := NoTxn)
      ensures !db.faulty ==> o.Done?
      ensures |db.calls| == |old(db.calls)| + 1 && Last(db.calls).Closing? && (o == Raised(Interrupt) <==> Last(db.calls).reply.INTERRUPTION?)
    {
      var reply := db.End(false);
      o := Raw(reply);
    }

    /** Drop the connection without any SQL: the one call always allowed. */
    method Discard() returns (o: Outcome)
      requires Valid()
      modifies db`server, db`calls
      ensures Valid() && Outlives(old(At()), At()) && |db.calls| == |old(db.calls)| + 1 && Last(db.calls).Discarding? && (o == Raised(Interrupt) <==> Last(db.calls).reply.INTERRUPTION?)
      ensures db.server == old(db.server).(txn := NoTxn)
      ensures !db.faulty ==> o.Done?
    {
      var reply := db.End(true);
      OneMoreCall(old(db.calls), db.interrupts, Last(db.calls));
      o := Raw(reply);
    }
  }
}
