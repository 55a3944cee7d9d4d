/** The database as the shared layer sees it: a server with durable tables and
    at most one open transaction, and a driver whose every call may be
    acknowledged, rejected, lose its reply or be cut short by an interrupt. */
module Driver {
  import opened Model
  import opened StateValidate
  import opened Durable

  /** Every statement the shared layer submits. */
  datatype Sql =
    | InsertHistory(row: HistoryRow)
    | UpdateAttempt(id: string, fingerprint: string, language: Language, now: nat)
    | UpdateSuccess(id: string, now: nat)
    | DeleteProgress(id: string)
    | UpsertProgress(entry: ProgressRow)
    | InsertMarker
    | CreateObject(item: MetaObject)
    | AuthorStatement(write: Option<Write>)

  predicate IsActiveOf(row: HistoryRow, id: string) {
    row.id == id && row.status.ACTIVE?
  }

  /** Rows an UPDATE of the ACTIVE row would touch. */
  function CountActive(rows: seq<HistoryRow>, id: string): nat {
    if rows == [] then 0
    else CountActive(rows[..|rows| - 1], id) + if IsActiveOf(rows[|rows| - 1], id) then 1 else 0
  }

  function Upsert(rows: seq<ProgressRow>, row: ProgressRow): seq<ProgressRow> {
    if rows == [] then [row]
    else if (rows[0].id, rows[0].key) == (row.id, row.key) then [row] + rows[1..]
    else [rows[0]] + Upsert(rows[1..], row)
  }

  function Without(rows: seq<ProgressRow>, id: string): seq<ProgressRow> {
    if rows == [] then []
    else (if rows[0].id == id then [] else [rows[0]]) + Without(rows[1..], id)
  }

  /** DELETE takes away exactly the rows of that id. */
  lemma {:induction false} DeletionIsExact(rows: seq<ProgressRow>, id: string, row: ProgressRow)
    ensures row in Without(rows, id) <==> row in rows && row.id != id
  {
    if rows != [] {
      DeletionIsExact(rows[1..], id, row);
      assert rows == [rows[0]] + rows[1..];
    }
  }

  function Lookup(rows: seq<ProgressRow>, id: string, key: string): Option<string> {
    if rows == [] then None
    else if (rows[0].id, rows[0].key) == (id, key) then Some(rows[0].value)
    else Lookup(rows[1..], id, key)
  }

  /** What a statement does to the tables it sees. */
  function Effect(sql: Sql, t: Tables): Tables {
    match sql
    case InsertHistory(row) => t.(history := t.history + [row])
    case UpdateAttempt(id, fingerprint, language, now) =>
      t.(history := seq(|t.history|, i requires 0 <= i < |t.history| =>
        if IsActiveOf(t.history[i], id) then Readmitted(t.history[i], fingerprint, language, now) else t.history[i]))
    case UpdateSuccess(id, now) =>
      t.(history := seq(|t.history|, i requires 0 <= i < |t.history| =>
        if IsActiveOf(t.history[i], id) then Completed(t.history[i], now) else t.history[i]))
    case DeleteProgress(id) => t.(progress := Without(t.progress, id))
    case UpsertProgress(entry) => t.(progress := Upsert(t.progress, entry))
    case InsertMarker => t.(marker := Some(LAYOUT_VERSION))
    case CreateObject(item) => t.(objects := t.objects + {item})
    case AuthorStatement(write) => if write.Some? then t.(app := t.app + [write.value]) else t
  }

  /** The affected-row count the driver reports. */
  function Affected(sql: Sql, t: Tables): nat {
    match sql
    case UpdateAttempt(id, _, _, _) => CountActive(t.history, id)
    case UpdateSuccess(id, _) => CountActive(t.history, id)
    case _ => 1
  }

  /** `cut` says that the begin was never acknowledged: an interrupt or a lost
      reply came between the server and the adapter's own bookkeeping. */
  datatype Txn = NoTxn | Open(id: nat, work: Tables, aborted: bool, cut: bool)

  /** `nextId` is the next transaction's identity; identities are never reused.
      `committed` holds what each committed transaction made durable. */
  datatype Server = Server(durable: Tables, txn: Txn, nextId: nat, committed: map<nat, Tables>)
  {
    function Visible(): Tables {
      if txn.Open? then txn.work else durable
    }
    function TxnId(): Option<nat> {
      if txn.Open? then Some(txn.id) else None
    }
    predicate Aborted() {
      txn.Open? && txn.aborted
    }
  }

  /** The server once its open transaction has landed. */
  function Landing(s: Server): Server
    requires s.txn.Open?
  {
    s.(durable := s.txn.work, txn := NoTxn, committed := s.committed[s.txn.id := s.txn.work])
  }

  /** Identities below `nextId` are used up; a committed transaction is over. */
  ghost predicate Orderly(s: Server) {
    && (s.txn.Open? ==> s.txn.id < s.nextId && s.txn.id !in s.committed)
    && forall id | id in s.committed :: id < s.nextId
  }

  /** A transaction that ended without being committed. */
  predicate Ended(s: Server, id: nat) {
    id < s.nextId && s.TxnId() != Some(id) && id !in s.committed
  }

  /** What no later state takes back: commits stay, and what ended uncommitted
      is never committed. */
  ghost predicate Onward(s: Server, t: Server) {
    && s.nextId <= t.nextId
    && (forall id | id in s.committed :: id in t.committed && t.committed[id] == s.committed[id])
    && (forall id :: Ended(s, id) ==> Ended(t, id))
  }

  datatype Reply = ACK | REJECTION | LOSS | INTERRUPTION

  datatype BatchState = OPEN | ROLLED_BACK | ENDED

  /** One driver call with its answer, as an observer of the connection records it;
      the moment at which the namespace lock was granted, and the one at which an
      unknown outcome was latched.  A statement is `capable` if it can commit. */
  datatype Call =
    | Sent(sql: Sql, inside: Option<nat>, capable: bool, reply: Reply)
    | Reading(inside: Option<nat>, reply: Reply) | Probing(reply: Reply) | Identifying(reply: Reply)
    | Beginning(reply: Reply) | Committing(reply: Reply) | RollingBack(reply: Reply)
    | Closing(reply: Reply) | Discarding(reply: Reply)
    | Locking | Latching

  /** A look at the server, of the kind of `call`, with whatever answer. */
  predicate Looks(call: Call, c: Call) {
    match call
    case Reading(inside, _) => c.Reading? && c.inside == inside
    case Probing(_) => c.Probing?
    case Identifying(_) => c.Identifying?
    case _ => false
  }

  function Answered(call: Call, reply: Reply): Call {
    match call
    case Reading(inside, _) => Reading(inside, reply)
    case Probing(_) => Probing(reply)
    case Identifying(_) => Identifying(reply)
    case _ => call
  }

  /** Nobody can tell what this call did: its answer was lost, or it could commit
      and an interrupt fell into it. */
  predicate InDoubt(c: Call) {
    match c
    case Sent(_, _, capable, reply) => reply.LOSS? || (capable && reply.INTERRUPTION?)
    case Reading(_, reply) => reply.LOSS?
    case Probing(reply) => reply.LOSS?
    case Identifying(reply) => reply.LOSS?
    case Beginning(reply) => reply.LOSS?
    case Committing(reply) => reply.LOSS? || reply.INTERRUPTION?
    case _ => false
  }

  /** No answer came back: it was lost, or an interrupt fell into the call. */
  predicate Unanswered(c: Call) {
    match c
    case Sent(_, _, _, reply) => reply.LOSS? || reply.INTERRUPTION?
    case Reading(_, reply) => reply.LOSS? || reply.INTERRUPTION?
    case Probing(reply) => reply.LOSS? || reply.INTERRUPTION?
    case Identifying(reply) => reply.LOSS? || reply.INTERRUPTION?
    case Beginning(reply) => reply.LOSS? || reply.INTERRUPTION?
    case Committing(reply) => reply.LOSS? || reply.INTERRUPTION?
    case RollingBack(reply) => reply.LOSS? || reply.INTERRUPTION?
    case _ => false
  }

  /** There is reason to doubt: an unanswered call, or an interrupt. */
  ghost predicate Suspect(calls: seq<Call>, interrupts: seq<nat>) {
    interrupts != [] || exists i :: 0 <= i < |calls| && Unanswered(calls[i])
  }

  /** After every call in doubt an interrupt was delivered. */
  ghost predicate Attended(calls: seq<Call>, interrupts: seq<nat>) {
    forall i | 0 <= i < |calls| && InDoubt(calls[i]) :: !Undisturbed(interrupts, i)
  }

  /** No interrupt was delivered after the call at `i` was made. */
  predicate Undisturbed(interrupts: seq<nat>, i: nat) {
    interrupts == [] || interrupts[|interrupts| - 1] <= i
  }

  // ---------------------------------------------- what the server may do

  ghost predicate Applies(s: Server, sql: Sql, t: Server) {
    && !s.Aborted()
    && t == if s.txn.Open? then s.(txn := s.txn.(work := Effect(sql, s.txn.work)))
            else s.(durable := Effect(sql, s.durable))
  }

  /** Server code run by a statement ended the transaction: it was rolled back
      or committed, before or after the statement's own effect, and another one
      may have been opened since. */
  ghost predicate Severs(s: Server, sql: Sql, t: Server) {
    && s.txn.Open?
    && (|| (t.durable == s.durable && t.committed == s.committed)
        || (!s.txn.aborted && (t.durable == s.txn.work || t.durable == Effect(sql, s.txn.work))
            && t.committed == s.committed[s.txn.id := t.durable]))
    && (t.txn.NoTxn? || (t.txn.Open? && t.txn.id == s.nextId && !t.txn.aborted && !t.txn.cut
                         && (t.txn.work == t.durable || t.txn.work == Effect(sql, t.durable))))
    && t.nextId == s.nextId + 1
  }

  /** All a statement can leave behind.  Without an open transaction it commits
      by itself; a failed statement may abort the transaction or have the server
      roll it back. */
  ghost predicate Executes(s: Server, sql: Sql, reply: Reply, t: Server, severing: bool) {
    || Applies(s, sql, t)
    || (!reply.ACK? && t == s)
    || (!reply.ACK? && s.txn.Open? && t == s.(txn := s.txn.(aborted := true)))
    || (!reply.ACK? && s.txn.Open? && t == s.(txn := NoTxn))
    || (severing && sql.AuthorStatement? && Severs(s, sql, t))
  }

  /** A commit lands whole or not at all; only an acknowledged one is known to
      have landed, and an aborted transaction never does. */
  ghost predicate Commits(s: Server, reply: Reply, t: Server) {
    if s.txn.NoTxn? then t == s
    else
      || (!s.txn.aborted && !reply.REJECTION? && t == Landing(s))
      || (!reply.ACK? && (t == s || t == s.(txn := NoTxn)))
  }

  ghost predicate Begins(s: Server, reply: Reply, t: Server) {
    || (s.txn.NoTxn? && !reply.REJECTION? && t == s.(txn := Open(s.nextId, s.durable, false, !reply.ACK?), nextId := s.nextId + 1))
    || (!reply.ACK? && t == s)
  }

  ghost predicate RollsBack(s: Server, reply: Reply, t: Server) {
    || t == s.(txn := NoTxn)
    || (!reply.ACK? && t == s)
  }

  /** The durable states so far, when `t` follows `s`. */
  ghost predicate Records(s: Server, trail: seq<Tables>, t: Server, trail': seq<Tables>) {
    trail' == if t.durable == s.durable then trail else trail + [t.durable]
  }

  class Database {
    /** Whether anything can go wrong: rejections, lost replies, interrupts. */
    const faulty: bool
    /** Whether server code in a statement can end the transaction around it. */
    const severing: bool
    /** Whether an ended transaction is known to have been rolled back. */
    const knowsRollback: bool
    /** Whether what exists of the layout is incompatible with it. */
    const definitionProblems: bool

    var server: Server
    /** Every durable state so far: what a crash at each moment would leave. */
    var trail: seq<Tables>
    ghost var calls: seq<Call>
    /** For every interrupt delivered between two statements, how many calls had been
        made by then. */
    ghost var interrupts: seq<nat>
    /** The last time that was read off the clock. */
    ghost var clock: nat

    ghost predicate Valid()
      reads this
    {
      && trail != [] && Last(trail) == server.durable
      && (!faulty ==> !server.Aborted() && !severing)
      && Orderly(server)
      && (knowsRollback ==> !severing)
      && (interrupts != [] ==> faulty && Last(interrupts) <= |calls|)
    }

    constructor (durable: Tables, faulty: bool, severing: bool, knowsRollback: bool, definitionProblems: bool)
      requires !faulty ==> !severing
      requires knowsRollback ==> !severing
      ensures Valid() && server.durable == durable && server.txn.NoTxn? && trail == [durable] && calls == [] && interrupts == []
      ensures this.faulty == faulty && this.severing == severing && this.definitionProblems == definitionProblems
    {
      this.faulty, this.severing, this.knowsRollback := faulty, severing, knowsRollback;
      this.definitionProblems := definitionProblems;
      server := Server(durable, NoTxn, 0, map[]);
      trail, calls, interrupts, clock := [durable], [], [], 0;
    }

    /** Whether something goes wrong here. */
    method Fault() returns (b: bool)
      ensures b ==> faulty
    {
      var wild: bool := *;
      b := faulty && wild;
    }

    /** Whether an interrupt is delivered here. */
    method Interrupt() returns (b: bool)
      requires Valid()
      modifies this`interrupts
      ensures Valid() && (b ==> faulty)
      ensures interrupts == if b then old(interrupts) + [|calls|] else old(interrupts)
    {
      b := Fault();
      if b {
        interrupts := interrupts + [|calls|];
      }
    }

    /** Ask for the namespace lock. */
    method Lock() returns (granted: bool)
      requires Valid()
      modifies this`calls
      ensures Valid() && calls == if granted then old(calls) + [Locking] else old(calls)
      ensures !faulty ==> granted
    {
      var refused := Fault();
      granted := !refused;
      if granted {
        calls := calls + [Locking];
      }
    }

    method AnyReply() returns (reply: Reply)
      ensures !faulty ==> reply.ACK?
    {
      reply := ACK;
      if faulty {
        if {
          case true =>
          case true => reply := REJECTION;
          case true => reply := LOSS;
          case true => reply := INTERRUPTION;
        }
      }
    }

    /** The database's own clock. */
    method Now() returns (now: nat)
      modifies this`clock
      ensures now == clock
    {
      now := *;
      clock := now;
    }

    method Execute(sql: Sql, ghost capable: bool) returns (reply: Reply, affected: nat)
      requires Valid()
      modifies this`server, this`trail, this`calls
      ensures Valid() && Onward(old(server), server)
      ensures Executes(old(server), sql, reply, server, severing)
      ensures Records(old(server), old(trail), server, trail)
      ensures calls == old(calls) + [Sent(sql, old(server).TxnId(), capable, reply)]
      ensures reply.ACK? ==> affected == Affected(sql, old(server).Visible())
      ensures !faulty ==> reply.ACK? && Applies(old(server), sql, server)
    {
      ghost var inside := server.TxnId();
      reply := AnyReply();
      affected := Affected(sql, server.Visible());
      if {
        case !server.Aborted() =>
          if server.txn.Open? {
            server := server.(txn := server.txn.(work := Effect(sql, server.txn.work)));
          } else {
            Settle(server.(durable := Effect(sql, server.durable)));
          }
        case faulty && severing && sql.AuthorStatement? && server.txn.Open? =>
          Sever(sql);
        case faulty =>
          reply := if reply.ACK? then REJECTION else reply;
          if server.txn.Open? {
            if {
              case true =>
              case true => server := server.(txn := server.txn.(aborted := true));
              case true => server := server.(txn := NoTxn);
            }
          }
      }
      calls := calls + [Sent(sql, inside, capable, reply)];
    }

    method Sever(sql: Sql)
      requires Valid() && faulty && severing && server.txn.Open?
      modifies this`server, this`trail
      ensures Valid() && Onward(old(server), server)
      ensures Severs(old(server), sql, server)
      ensures Records(old(server), old(trail), server, trail)
    {
      var next := server.(txn := NoTxn);
      if {
        case true =>
        case !server.txn.aborted => next := Landing(server);
        case !server.txn.aborted =>
          next := Landing(server.(txn := server.txn.(work := Effect(sql, server.txn.work))));
      }
      Settle(next);
      var follower := NoTxn;
      if {
        case true =>
        case true => follower := Open(server.nextId, server.durable, false, false);
        case true => follower := Open(server.nextId, Effect(sql, server.durable), false, false);
      }
      server := server.(txn := follower, nextId := server.nextId + 1);
    }

    /** Reach a state, and record what is durable in it if that is new. */
    method Settle(next: Server)
      requires Valid() && Orderly(next) && (!faulty ==> !next.Aborted())
      modifies this`server, this`trail
      ensures Valid() && server == next
      ensures Records(old(server), old(trail), server, trail)
    {
      if next.durable != server.durable {
        trail := trail + [next.durable];
      }
      server := next;
    }

    method Commit() returns (reply: Reply)
      requires Valid()
      modifies this`server, this`trail, this`calls
      ensures Valid() && Onward(old(server), server)
      ensures Commits(old(server), reply, server)
      ensures Records(old(server), old(trail), server, trail)
      ensures calls == old(calls) + [Committing(reply)]
      ensures !faulty ==> reply.ACK?
    {
      reply := AnyReply();
      if server.txn.Open? {
        if {
          case !server.txn.aborted && !reply.REJECTION? =>
            Settle(Landing(server));
          case faulty =>
            reply := if reply.ACK? then REJECTION else reply;
            if * {
              server := server.(txn := NoTxn);
            }
        }
      }
      calls := calls + [Committing(reply)];
    }

    method Begin() returns (reply: Reply)
      requires Valid()
      modifies this`server, this`calls
      ensures Valid() && Onward(old(server), server)
      ensures Begins(old(server), reply, server)
      ensures calls == old(calls) + [Beginning(reply)]
      ensures !faulty && old(server).txn.NoTxn? ==> reply.ACK?
    {
      reply := AnyReply();
      if {
        case server.txn.NoTxn? && !reply.REJECTION? =>
          server := server.(txn := Open(server.nextId, server.durable, false, !reply.ACK?), nextId := server.nextId + 1);
        case faulty || server.txn.Open? =>
          reply := if reply.ACK? then REJECTION else reply;
      }
      calls := calls + [Beginning(reply)];
    }

    method Rollback() returns (reply: Reply)
      requires Valid()
      modifies this`server, this`calls
      ensures Valid() && Onward(old(server), server)
      ensures RollsBack(old(server), reply, server)
      ensures calls == old(calls) + [RollingBack(reply)]
      ensures !faulty ==> reply.ACK?
    {
      reply := AnyReply();
      if {
        case true => server := server.(txn := NoTxn);
        case !reply.ACK? =>
      }
      calls := calls + [RollingBack(reply)];
    }

    /** A read inside or outside a transaction; an aborted one answers nothing. */
    method Read(call: Call) returns (reply: Reply)
      requires Valid() && Looks(call, call)
      modifies this`calls
      ensures Valid()
      ensures calls == old(calls) + [Answered(call, reply)]
      ensures reply.ACK? ==> call.Probing? || !server.Aborted()
      ensures !faulty ==> reply.ACK?
    {
      reply := AnyReply();
      if server.Aborted() && !call.Probing? && reply.ACK? {
        reply := REJECTION;
      }
      calls := calls + [Answered(call, reply)];
    }

    /** Whether the open transaction carries this identity.  One whose begin was cut
        short may carry the identity of another, as a counted epoch does. */
    method CarriesIdentity(identity: nat) returns (b: bool)
      ensures server.TxnId() == Some(identity) ==> b
      ensures b ==> server.txn.Open? && (server.txn.id == identity || server.txn.cut)
    {
      var wild: bool := *;
      b := server.txn.Open? && (server.txn.id == identity || (server.txn.cut && wild));
    }

    /** The driver's local view of a batch's transaction; no call is made. */
    method BatchTransactionState() returns (state: BatchState)
      ensures state.OPEN? <==> server.txn.Open?
      ensures state.ROLLED_BACK? <==> server.txn.NoTxn? && knowsRollback
    {
      state := if server.txn.Open? then OPEN else if knowsRollback then ROLLED_BACK else ENDED;
    }

    /** Close or discard: either way the server ends the session's transaction. */
    method End(discard: bool) returns (reply: Reply)
      requires Valid()
      modifies this`server, this`calls
      ensures Valid() && Onward(old(server), server)
      ensures server == old(server).(txn := NoTxn)
      ensures calls == old(calls) + [if discard then Discarding(reply) else Closing(reply)]
      ensures !faulty ==> reply.ACK?
    {
      reply := AnyReply();
      server := server.(txn := NoTxn);
      calls := calls + [if discard then Discarding(reply) else Closing(reply)];
    }
  }
}
