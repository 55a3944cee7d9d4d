/** SQLite's transactions as one refinement of the abstract driver.  Without an
    id from the server, the adapter counts the transaction controls it completes,
    and that epoch, while the native flag is up, is the identity. */
module Sqlite {
  import opened Model
  import opened Durable
  import opened Driver

  /** A transaction of this connection opened or ended.  It is `counted` when the
      adapter's epoch moved with it: not when a statement error rolled it back,
      and not when an interrupt arrived before the increment. */
  datatype Control = Opened(counted: bool) | Ended(counted: bool)

  function Epoch(events: seq<Control>): nat {
    if events == [] then 0
    else Epoch(events[..|events| - 1]) + if events[|events| - 1].counted then 1 else 0
  }

  /** One transaction at a time: the n-th is opened by event 2n. */
  ghost predicate Alternating(events: seq<Control>) {
    forall i | 0 <= i < |events| :: events[i].Opened? <==> i % 2 == 0
  }

  ghost predicate IsOpen(events: seq<Control>) {
    |events| % 2 == 1
  }

  /** The transaction open after `events`. */
  ghost function Current(events: seq<Control>): nat
    requires IsOpen(events)
  {
    |events| / 2
  }

  lemma {:induction false} EpochsDiffer(before: seq<Control>, after: seq<Control>)
    requires before <= after
    ensures Epoch(before) <= Epoch(after)
    ensures Epoch(before) == Epoch(after) <==> forall k | |before| <= k < |after| :: !after[k].counted
    decreases |after|
  {
    if before == after {
    } else {
      EpochsDiffer(before, after[..|after| - 1]);
    }
  }

  /** Exactly when an identity established earlier still matches: either the very
      transaction is still open, or every control since -- at least one end and
      one begin -- went uncounted. */
  lemma {:induction false} IdentityMatchesIff(before: seq<Control>, after: seq<Control>)
    requires Alternating(after) && before <= after && IsOpen(before) && IsOpen(after)
    ensures Epoch(before) == Epoch(after) <==>
              Current(before) == Current(after) || forall k | |before| <= k < |after| :: !after[k].counted
    ensures Current(before) == Current(after) <==> before == after
  {
    EpochsDiffer(before, after);
    if Current(before) == Current(after) {
      assert |before| == |after|;
    }
  }

  /** So two open transactions never share an identity when no begin was cut
      short between its BEGIN and its count. */
  lemma {:induction false} DistinctTransactionsHaveDistinctIdentities(before: seq<Control>, after: seq<Control>)
    requires Alternating(after) && before <= after && IsOpen(before) && IsOpen(after)
    requires forall k | |before| <= k < |after| && after[k].Opened? :: after[k].counted
    ensures Epoch(before) == Epoch(after) <==> Current(before) == Current(after)
  {
    IdentityMatchesIff(before, after);
    if Current(before) != Current(after) {
      assert after[|after| - 1].Opened?;
      assert |before| <= |after| - 1;
    }
  }

  /** Cutting a begin short after a silent rollback makes two of them share one. */
  lemma {:induction false} InterruptedBeginSharesAnIdentity()
    ensures var before := [Opened(true)];
            var after := before + [Ended(false), Opened(false)];
            && Alternating(after) && IsOpen(before) && IsOpen(after)
            && Current(before) != Current(after) && Epoch(before) == Epoch(after)
  {
    var before := [Opened(true)];
    var after := before + [Ended(false), Opened(false)];
    EpochsDiffer(before, after);
  }

  /** What one native call reports: success, an error that settles the
      transaction, a storage error either side of the commit point, a signal. */
  datatype Native = OK | SETTLED | STORAGE | SIGNAL

  class SqliteSession {
    var server: Server
    var connected: bool
    var epoch: nat
    ghost var events: seq<Control>

    /** The epoch counts what the adapter completed, and the native state is the
        server's: one transaction at a time, each with an identity of its own. */
    ghost predicate Valid()
      reads this
    {
      && Alternating(events) && epoch == Epoch(events)
      && server.nextId == (|events| + 1) / 2
      && (server.txn.Open? <==> IsOpen(events))
      && (server.txn.Open? ==> connected && server.txn.id == Current(events) && !server.txn.aborted)
      && (server.txn.Open? ==> (server.txn.cut <==> !events[|events| - 1].counted))
    }

    constructor (durable: Tables)
      ensures Valid() && connected && server == Server(durable, NoTxn, 0, map[]) && events == []
    {
      server, connected, epoch, events := Server(durable, NoTxn, 0, map[]), true, 0, [];
    }

    method Answer() returns (native: Native)
    {
      if {
        case true => native := Native.OK;
        case true => native := SETTLED;
        case true => native := STORAGE;
        case true => native := SIGNAL;
      }
    }

    /** Whether a signal arrives between two statements of the adapter. */
    method Signal() returns (b: bool)
    {
      b := *;
    }

    /** BEGIN, then count it.  BEGIN DEFERRED of a consistent read does the same. */
    method DoBegin() returns (reply: Reply)
      requires Valid() && connected
      modifies this
      ensures Valid() && connected && old(events) <= events
      ensures Begins(old(server), reply, server)
      ensures reply.ACK? ==> events == old(events) + [Opened(true)]
      ensures !reply.ACK? ==> events == old(events) || events == old(events) + [Opened(false)]
      ensures reply.REJECTION? ==> server == old(server)
    {
      var native := Answer();
      if native.SETTLED? || native.STORAGE? || (native.OK? && server.txn.Open?) {
        return REJECTION;
      }
      var took: bool := *;
      if server.txn.NoTxn? && (native.OK? || took) {
        server := server.(txn := Open(server.nextId, server.durable, false, true), nextId := server.nextId + 1);
        events := events + [Opened(false)];
      }
      var interrupted := Signal();
      if native.SIGNAL? || interrupted {
        return INTERRUPTION;
      }
      epoch := epoch + 1;
      server := server.(txn := server.txn.(cut := false));
      events := events[..|events| - 1] + [Opened(true)];
      return ACK;
    }

    /** The native COMMIT: without a transaction it fails and writes nothing; a
        storage error or a signal may fall either side of the commit point. */
    method NativeCommit() returns (native: Native)
      requires Valid()
      modifies this`server, this`events
      ensures Valid()
      ensures old(server).txn.NoTxn? ==> !native.OK? && server == old(server) && events == old(events)
      ensures native.OK? ==> server == Landing(old(server))
      ensures native.SETTLED? ==> server == old(server) || server == old(server).(txn := NoTxn)
      ensures old(server).txn.Open? ==>
                server in {old(server), old(server).(txn := NoTxn), Landing(old(server))}
      ensures events == if server.txn == old(server).txn then old(events) else old(events) + [Ended(false)]
    {
      native := Answer();
      if server.txn.NoTxn? {
        native := if native.OK? then SETTLED else native;
        return;
      }
      if {
        case !native.SETTLED? =>
          server, events := Landing(server), events + [Ended(false)];
        case !native.OK? =>
        case !native.OK? =>
          server, events := server.(txn := NoTxn), events + [Ended(false)];
      }
    }

    /** The commit as the abstract driver has it: a storage failure is in doubt, any
        other refusal is definite. */
    method DoCommit() returns (reply: Reply)
      requires Valid()
      modifies this
      ensures Valid() && connected == old(connected) && old(events) <= events
      ensures Commits(old(server), reply, server)
      ensures reply.ACK? ==> old(server).txn.Open? && events == old(events) + [Ended(true)]
      ensures reply.REJECTION? ==> server.durable == old(server).durable
      ensures old(server).txn.NoTxn? ==> reply in {REJECTION, INTERRUPTION} && server == old(server)
    {
      var wasOpen := server.txn.Open?;
      var native := NativeCommit();
      match native
      case SIGNAL => return INTERRUPTION;
      case SETTLED => return REJECTION;
      case STORAGE => return if wasOpen then LOSS else REJECTION;
      case OK =>
        var interrupted := Signal();
        if interrupted {
          return INTERRUPTION;
        }
        epoch := epoch + 1;
        events := events[..|events| - 1] + [Ended(true)];
        return ACK;
    }

    /** Roll back what is open; nothing is sent when nothing is. */
    method DoRollback() returns (reply: Reply)
      requires Valid()
      modifies this
      ensures Valid() && connected == old(connected) && old(events) <= events
      ensures RollsBack(old(server), reply, server)
      ensures old(server).txn.NoTxn? ==> reply.ACK? && server == old(server)
      ensures reply.ACK? && old(server).txn.Open? ==> events == old(events) + [Ended(true)]
    {
      if server.txn.NoTxn? {
        return ACK;
      }
      var native := Answer();
      if native.OK? || native.SIGNAL? {
        server, events := server.(txn := NoTxn), events + [Ended(false)];
      } else {
        return if native.SETTLED? then REJECTION else LOSS;
      }
      var interrupted := Signal();
      if native.SIGNAL? || interrupted {
        return INTERRUPTION;
      }
      epoch := epoch + 1;
      events := events[..|events| - 1] + [Ended(true)];
      return ACK;
    }

    /** A statement.  A failing one may roll the whole transaction back, and the
        epoch does not hear of it; none can commit the transaction it runs in. */
    method Run(sql: Sql) returns (reply: Reply)
      requires Valid() && connected
      modifies this`server, this`events
      ensures Valid()
      ensures Executes(old(server), sql, reply, server, false)
      ensures events == old(events) || (events == old(events) + [Ended(false)] && server == old(server).(txn := NoTxn))
    {
      var native := Answer();
      reply := match native case OK => ACK case SETTLED => REJECTION case STORAGE => REJECTION case SIGNAL => INTERRUPTION;
      if {
        case reply.ACK? || native.SIGNAL? =>
          server := if server.txn.Open? then server.(txn := server.txn.(work := Effect(sql, server.txn.work)))
                    else server.(durable := Effect(sql, server.durable));
        case !reply.ACK? =>
        case !reply.ACK? && server.txn.Open? =>
          server, events := server.(txn := NoTxn), events + [Ended(false)];
      }
    }

    /** No statement here commits, so a transaction that is gone was rolled back. */
    method BatchTransactionState() returns (state: BatchState)
      requires Valid()
      ensures state.OPEN? <==> server.txn.Open?
      ensures state.ROLLED_BACK? <==> server.txn.NoTxn? && connected
    {
      state := if !connected then ENDED else if server.txn.Open? then OPEN else ROLLED_BACK;
    }

    /** The identity of the open transaction, if one is open. */
    method ReadTransactionIdentity() returns (r: Option<nat>)
      requires Valid()
      ensures r.Some? <==> server.txn.Open?
      ensures r.Some? ==> r.value == Epoch(events)
    {
      r := if server.txn.Open? then Some(epoch) else None;
    }

    /** An identity established when `before` had happened, looked for now: it is
        found in its own transaction, and otherwise at most in one whose begin was
        cut short, as the abstract driver has it. */
    method CarriesIdentity(identity: nat, ghost before: seq<Control>) returns (b: bool)
      requires Valid() && before <= events && IsOpen(before) && identity == Epoch(before)
      ensures server.TxnId() == Some(Current(before)) ==> b
      ensures b ==> server.txn.Open? && (server.txn.id == Current(before) || server.txn.cut)
    {
      var now := ReadTransactionIdentity();
      if now.Some? {
        IdentityMatchesIff(before, events);
      }
      b := now == Some(identity);
    }

    /** Establish, let a migration submit any statements whatever their outcome,
        read again: the identities agree exactly when the transaction is still the
        same one, because a statement can end a transaction but never open one;
        and while it is the same one nothing has become durable. */
    method StatementsUnderIdentity(work: seq<Sql>) returns (same: bool)
      requires Valid() && server.txn.Open?
      modifies this`server, this`events
      ensures Valid()
      ensures same <==> server.TxnId() == old(server).TxnId()
      ensures !same <==> server.txn.NoTxn?
      ensures same ==> server.durable == old(server).durable
    {
      var established := ReadTransactionIdentity();
      for i := 0 to |work|
        invariant Valid() && connected && old(events) <= events <= old(events) + [Ended(false)]
        invariant server.txn.Open? ==> events == old(events) && server.durable == old(server).durable
      {
        var _ := Run(work[i]);
      }
      var now := ReadTransactionIdentity();
      same := now == established;
    }
  }
}
