/** PostgreSQL's transactions as the other refinement.  A failed statement leaves
    its transaction open and aborted; committing that is no error to the server,
    which rolls back and says so in the tag only. */
module Postgres {
  import opened Model
  import opened Durable
  import opened Driver

  datatype TransactionStatus = IDLE | INTRANS | INERROR

  datatype Tag = COMMIT_TAG | ROLLBACK_TAG

  class PostgresSession {
    var server: Server
    /** The transaction id of the open transaction, once one was assigned. */
    var xid: Option<nat>
    var nextXid: nat
    /** Which transaction each assigned id was given to. */
    ghost var holder: map<nat, nat>

    ghost predicate Valid()
      reads this
    {
      && (server.txn.Open? ==> server.txn.id < server.nextId)
      && (server.txn.NoTxn? ==> xid.None?)
      && (forall x | x in holder :: x < nextXid && holder[x] < server.nextId)
      && (forall x, y | x in holder && y in holder && holder[x] == holder[y] :: x == y)
      && (server.txn.Open? ==> (xid.Some? <==> server.txn.id in holder.Values))
      && (xid.Some? ==> xid.value in holder && holder[xid.value] == server.txn.id)
    }

    constructor (durable: Tables)
      ensures Valid() && server == Server(durable, NoTxn, 0, map[])
    {
      server, xid, nextXid, holder := Server(durable, NoTxn, 0, map[]), None, 0, map[];
    }

    /** The driver's local view of the transaction. */
    function Status(): TransactionStatus
      reads this
    {
      if server.txn.NoTxn? then IDLE else if server.txn.aborted then INERROR else INTRANS
    }

    method AnyReply() returns (reply: Reply)
    {
      if {
        case true => reply := ACK;
        case true => reply := REJECTION;
        case true => reply := LOSS;
        case true => reply := INTERRUPTION;
      }
    }

    method DoBegin() returns (reply: Reply)
      requires Valid() && server.txn.NoTxn?
      modifies this`server
      ensures Valid() && Begins(old(server), reply, server)
      ensures server.txn.Open? ==> server.txn.id == old(server).nextId
    {
      reply := AnyReply();
      var took: bool := *;
      if reply.ACK? || (took && !reply.REJECTION?) {
        server := server.(txn := Open(server.nextId, server.durable, false, !reply.ACK?), nextId := server.nextId + 1);
      }
    }

    /** COMMIT as the server answers it: an aborted transaction is rolled back
        with no error at all, and only the tag tells. */
    method NativeCommit() returns (reply: Reply, tag: Tag)
      requires Valid()
      modifies this`server, this`xid
      ensures Valid()
      ensures old(server).txn.NoTxn? ==> server == old(server)
      ensures reply.REJECTION? || (reply.ACK? && tag.ROLLBACK_TAG? && old(server).txn.Open?) ==> server == old(server).(txn := NoTxn)
      ensures reply.ACK? && tag.COMMIT_TAG? && old(server).txn.Open? ==>
                !old(server).txn.aborted && server == Landing(old(server))
      ensures old(server).txn.Open? ==>
                || server in {old(server), old(server).(txn := NoTxn)}
                || (!old(server).txn.aborted && server == Landing(old(server)))
    {
      reply := AnyReply();
      tag := COMMIT_TAG;
      if server.txn.Open? {
        if {
          case reply.LOSS? || reply.INTERRUPTION? =>
          case !reply.REJECTION? && !server.txn.aborted =>
            server, xid := Landing(server), None;
          case true =>
            tag := ROLLBACK_TAG;
            server, xid := server.(txn := NoTxn), None;
        }
      }
    }

    /** The commit as the abstract driver has it: an aborted transaction is a
        rejection, found out before COMMIT is sent or by the tag it returns. */
    method DoCommit() returns (reply: Reply)
      requires Valid()
      modifies this`server, this`xid
      ensures Valid()
      ensures Commits(old(server), reply, server)
      ensures old(server).Aborted() ==> reply.REJECTION? && server == old(server)
      ensures reply.REJECTION? ==> server.durable == old(server).durable
      ensures reply.ACK? && old(server).txn.Open? ==> server.durable == old(server).txn.work
    {
      if Status().INERROR? {
        return REJECTION;
      }
      var tag: Tag;
      reply, tag := NativeCommit();
      if reply.ACK? && tag.ROLLBACK_TAG? {
        reply := REJECTION;
      }
    }

    method DoRollback() returns (reply: Reply)
      requires Valid()
      modifies this`server, this`xid
      ensures Valid()
      ensures RollsBack(old(server), reply, server)
      ensures old(server).txn.NoTxn? ==> reply.ACK? && server == old(server)
    {
      if Status().IDLE? {
        return ACK;
      }
      reply := AnyReply();
      var took: bool := *;
      if reply.ACK? || took {
        server, xid := server.(txn := NoTxn), None;
      }
    }

    /** A statement.  An error aborts the transaction; in an aborted one every
        statement is an error.  A write has the server assign a transaction id. */
    method Run(sql: Sql) returns (reply: Reply)
      requires Valid()
      modifies this
      ensures Valid() && old(holder).Keys <= holder.Keys
      ensures forall x | x in old(holder) :: holder[x] == old(holder)[x]
      ensures Executes(old(server), sql, reply, server, false)
      ensures old(server).Aborted() ==> !reply.ACK? && server == old(server)
      ensures reply.REJECTION? && old(server).txn.Open? ==> server.Aborted()
    {
      reply := AnyReply();
      if server.Aborted() {
        reply := if reply.ACK? then REJECTION else reply;
        return;
      }
      if {
        case !reply.REJECTION? =>
          if server.txn.Open? {
            server := server.(txn := server.txn.(work := Effect(sql, server.txn.work)));
            AssignXid();
          } else {
            server := server.(durable := Effect(sql, server.durable));
          }
        case !reply.ACK? =>
          if server.txn.Open? {
            server := server.(txn := server.txn.(aborted := true));
          }
      }
    }

    method AssignXid()
      requires Valid() && server.txn.Open?
      modifies this`xid, this`nextXid, this`holder
      ensures Valid() && xid.Some?
      ensures forall x | x in old(holder) :: x in holder && holder[x] == old(holder)[x]
    {
      if xid.None? {
        xid, holder := Some(nextXid), holder[nextXid := server.txn.id];
        nextXid := nextXid + 1;
        assert holder[xid.value] == server.txn.id;
      }
    }

    /** OPEN exactly while a transaction is, aborted or not. */
    method BatchTransactionState() returns (state: BatchState)
      requires Valid()
      ensures state.OPEN? <==> server.txn.Open?
      ensures !state.ROLLED_BACK?
    {
      state := if Status().IDLE? then ENDED else OPEN;
    }

    /** The identity returned belongs to the open transaction and to no other. */
    method EstablishTransactionIdentity() returns (r: Result<nat>)
      requires Valid()
      modifies this
      ensures Valid()
      ensures forall x | x in old(holder) :: x in holder && holder[x] == old(holder)[x]
      ensures server == old(server) || (old(server).txn.Open? && server == old(server).(txn := old(server).txn.(aborted := true)))
      ensures r.Returned? && server.txn.Open? ==> r.value in holder && holder[r.value] == server.txn.id && server == old(server)
      ensures old(server).Aborted() ==> r.Threw?
    {
      var reply := AnyReply();
      if !reply.ACK? || server.Aborted() {
        if server.txn.Open? && reply.REJECTION? {
          server := server.(txn := server.txn.(aborted := true));
        }
        return Threw(Rejected);
      }
      if server.txn.NoTxn? {
        // A statement outside a block gets an id of its own, given to nobody.
        nextXid := nextXid + 1;
        return Returned(nextXid - 1);
      }
      AssignXid();
      return Returned(xid.value);
    }

    /** Read the identity back: it equals an established one exactly when the
        transaction it was given to is the one still open.  An aborted
        transaction answers with an error, never with an identity. */
    method ReadTransactionIdentity(ghost established: nat) returns (r: Result<Option<nat>>)
      requires Valid() && established in holder
      modifies this`server
      ensures Valid()
      ensures r.Returned? ==> server == old(server) && !server.Aborted()
      ensures r.Returned? ==> (r.value == Some(established) <==> server.TxnId() == Some(holder[established]))
      ensures old(server).Aborted() ==> r.Threw?
    {
      if Status().IDLE? {
        return Returned(None);
      }
      var reply := AnyReply();
      if !reply.ACK? || server.Aborted() {
        if reply.REJECTION? {
          server := server.(txn := server.txn.(aborted := true));
        }
        return Threw(Rejected);
      }
      return Returned(xid);
    }
  }
}
