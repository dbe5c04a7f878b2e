/** Sessions and the server's accept loop as objects. Each handler is proved to do exactly the actions,
    in the order, that the transition system of `SessionProtocol` interleaves, and to leave a session's
    fields alone from the moment it gives the session away. */
module SessionObjects {
  import opened ConfigTree
  import opened SessionProtocol
  import opened Dispatch

  const MAX_LENGTH: nat := 1024

  function Zeros(): (s: string)
    ensures |s| == 1024 && forall i :: 0 <= i < 1024 ==> s[i] == '\0'
  {
    seq(MAX_LENGTH, i => '\0')
  }

  /** The I/O service: the operations handed to it, and the actions done so far, for the proof. */
  class IoService {
    var pending: multiset<(OpKind, Session)>
    ghost var log: seq<Action>

    constructor ()
      ensures pending == multiset{} && log == []
    {
      pending, log := multiset{}, [];
    }

    ghost method Note(a: Action)
      modifies `log
      ensures log == old(log) + [a]
    {
      log := log + [a];
    }

    /** `async_accept`, `async_read_some` or `async_write`: from here on another thread may have the session. */
    method Issue(k: OpKind, s: Session)
      requires s.held && !s.deleted
      modifies this, s`held, s`given
      ensures pending == old(pending) + multiset{(k, s)} && log == old(log) + [Action.Issue(k)]
      ensures s.GivenAway()
    {
      s.held, s.given := false, s.Now();
      Note(Action.Issue(k));
      pending := pending + multiset{(k, s)};
    }

    /** An operation has completed: its session is in the hands of the handler. */
    method Complete(k: OpKind, s: Session)
      requires pending[(k, s)] > 0 && s.GivenAway()
      modifies `pending, s`held
      ensures pending == old(pending) - multiset{(k, s)} && s.held
    {
      s.held := true;
      pending := pending - multiset{(k, s)};
    }
  }

  /** The fields of a session that its handlers read and write. */
  datatype Fields = Fields(clientIp: string, rep: string, inData: string)

  class Session {
    const service: IoService
    const routes: map<string, Factory>
    /** The peer's address, and what the server answers to a request of some length. */
    const peer: string
    const reply: (map<string, Factory>, string, string, nat) -> string
    var clientIp: string
    var rep: string
    var inData: string
    var deleted: bool
    /** Whether the running handler has the session, and its fields when it was last given away. */
    ghost var held: bool
    ghost var given: Fields

    constructor (service: IoService, routes: map<string, Factory>, peer: string,
                 reply: (map<string, Factory>, string, string, nat) -> string)
      ensures this.service == service && this.routes == routes && this.peer == peer && this.reply == reply
      ensures inData == Zeros() && rep == "" && !deleted && held
    {
      this.service, this.routes, this.peer, this.reply := service, routes, peer, reply;
      clientIp, rep, inData, deleted := "", "", Zeros(), false;
      held, given := true, Fields("", "", "");
    }

    ghost function Now(): Fields
      reads this
    {
      Fields(clientIp, rep, inData)
    }

    /** Nobody has written a field since the session was given to the I/O service or deleted. */
    ghost predicate GivenAway()
      reads this
    {
      !held && given == Now()
    }

    // ---------- access to the fields, for the holder only ----------

    method StoreClientIp()
      requires held && !deleted
      modifies `clientIp, service`log
      ensures clientIp == peer && service.log == old(service.log) + [Touch]
    {
      clientIp := peer;
      service.Note(Touch);
    }

    /** `rep_ = get_reply(in_data_, bytes_transferred)` */
    method StoreReply(bytes: nat)
      requires held && !deleted
      modifies `rep, service`log
      ensures rep == reply(routes, clientIp, inData, bytes) && service.log == old(service.log) + [Touch]
    {
      rep := reply(routes, clientIp, inData, bytes);
      service.Note(Touch);
    }

    method ClearBuffer()
      requires held && !deleted
      modifies `inData, service`log
      ensures inData == Zeros() && service.log == old(service.log) + [Touch]
    {
      inData := Zeros();
      service.Note(Touch);
    }

    // ---------- the handlers ----------

    /** Starts a read; the last thing it does with the session. */
    method Start()
      requires held && !deleted
      modifies this, service
      ensures GivenAway() && !deleted
      ensures clientIp == peer && rep == old(rep) && inData == old(inData)
      ensures service.pending == old(service.pending) + multiset{(ReadOp, this)}
      ensures service.log == old(service.log) + [Touch, Action.Issue(ReadOp)]
    {
      StoreClientIp();
      service.Issue(ReadOp, this);
    }

    /** Starts a write of the reply. */
    method Read()
      requires held && !deleted
      modifies service, `held, `given
      ensures GivenAway()
      ensures service.pending == old(service.pending) + multiset{(WriteOp, this)}
      ensures service.log == old(service.log) + [Action.Issue(WriteOp)]
    {
      service.Issue(WriteOp, this);
    }

    method Recycle()
      requires held && !deleted
      modifies `deleted, `held, `given, service`log
      ensures GivenAway() && deleted && service.log == old(service.log) + [Delete]
    {
      deleted, held, given := true, false, Now();
      service.Note(Delete);
    }

    /** A read has completed: answer and clear the buffer, or give up. */
    method HandleRead(error: bool, bytes: nat) returns (ok: bool)
      requires held && !deleted
      modifies this, service
      ensures ok == !error && deleted == error && GivenAway()
      ensures service.log == old(service.log) + if error then [Delete] else [Touch, Touch, Action.Issue(WriteOp)]
      ensures service.log == old(service.log) + Code(ReadOp, error)
      ensures clientIp == old(clientIp)
      ensures !error ==> rep == reply(routes, clientIp, old(inData), bytes)
      ensures !error ==> |inData| == 1024 && forall i :: 0 <= i < 1024 ==> inData[i] == '\0'
      ensures service.pending == old(service.pending) + if error then multiset{} else multiset{(WriteOp, this)}
    {
      if !error {
        StoreReply(bytes);
        ClearBuffer();
        Read();
      } else {
        Recycle();
      }
      return !error;
    }

    /** A write has completed: wait for the next request, or give up. */
    method HandleWrite(error: bool) returns (ok: bool)
      requires held && !deleted
      modifies this, service
      ensures ok == !error && deleted == error && GivenAway()
      ensures service.log == old(service.log) + if error then [Delete] else [Touch, Action.Issue(ReadOp)]
      ensures service.log == old(service.log) + Code(WriteOp, error)
      ensures rep == old(rep) && inData == old(inData) && (!error ==> clientIp == peer)
      ensures service.pending == old(service.pending) + if error then multiset{} else multiset{(ReadOp, this)}
    {
      if !error {
        Start();
      } else {
        Recycle();
      }
      return !error;
    }
  }

  class Server {
    const service: IoService
    const table: RouteTable
    const reply: (map<string, Factory>, string, string, nat) -> string

    /** The routes are there before the first accept is issued. */
    constructor (service: IoService, addrmap: map<string, ConfigArg>, peer: string,
                 reply: (map<string, Factory>, string, string, nat) -> string)
      modifies service
      ensures this.service == service && fresh(table) && IsTableOf(table.routes, addrmap)
      ensures service.log == old(service.log) + StartUp()
      ensures exists s: Session :: fresh(s) && Awaits(s, old(service.pending))
    {
      this.service, this.reply := service, reply;
      table := new RouteTable();
      new;
      table.CreateDispatcher(addrmap);
      StartAccept(peer);
    }

    /** A session that waits for its connection, with a copy of the routes. */
    ghost predicate IsNewSession(s: Session)
      reads table, s
    {
      s.service == service && s.routes == table.routes && s.GivenAway() && !s.deleted && s.inData == Zeros()
    }

    /** One accept is pending more than in `before`: for `s`. */
    ghost predicate Awaits(s: Session, before: multiset<(OpKind, Session)>)
      reads table, s, service
    {
      IsNewSession(s) && service.pending == before + multiset{(AcceptOp, s)}
    }

    /** A new session, and an accept for it. */
    method StartAccept(peer: string)
      modifies service
      ensures service.log == old(service.log) + [Alloc, Action.Issue(AcceptOp)]
      ensures service.log == old(service.log) + StartUp()
      ensures exists s: Session :: fresh(s) && Awaits(s, old(service.pending))
    {
      var s := new Session(service, table.routes, peer, reply);
      service.Note(Alloc);
      service.Issue(AcceptOp, s);
      assert Awaits(s, old(service.pending));
    }

    /** A connection has come in, or accepting failed; either way the next accept is issued. */
    method HandleAccept(session: Session, error: bool, nextPeer: string) returns (deleted: bool)
      requires session.held && !session.deleted && session.service == service
      modifies session, service
      ensures deleted == error && session.deleted == error && session.GivenAway()
      ensures !error ==> session.clientIp == session.peer
      ensures service.log == old(service.log) + (if error then [Delete] else [Touch, Action.Issue(ReadOp)]) +
                             [Alloc, Action.Issue(AcceptOp)]
      ensures service.log == old(service.log) + Code(AcceptOp, error)
      ensures exists s: Session :: fresh(s) && Awaits(s, old(service.pending) + Follow(AcceptOp, session, error))
    {
      if !error {
        session.Start();
      } else {
        session.Recycle();
      }
      assert service.pending == old(service.pending) + Follow(AcceptOp, session, error);
      StartAccept(nextPeer);
      return error;
    }

    /** What a thread of the pool does with a completed operation: it runs the handler to its end. */
    method RunHandler(k: OpKind, session: Session, error: bool, bytes: nat, nextPeer: string)
      requires service.pending[(k, session)] > 0 && session.GivenAway()
      requires !session.deleted && session.service == service
      modifies session, service
      ensures session.GivenAway() && session.deleted == error
      ensures service.log == old(service.log) + Code(k, error)
      ensures service.log == old(service.log) +
                (if error then [Delete]
                 else if k == ReadOp then [Touch, Touch, Action.Issue(WriteOp)] else [Touch, Action.Issue(ReadOp)]) +
                (if k == AcceptOp then [Alloc, Action.Issue(AcceptOp)] else [])
      ensures var follow := if error then multiset{} else multiset{(if k == ReadOp then WriteOp else ReadOp, session)};
              var rest := old(service.pending) - multiset{(k, session)} + follow;
              if k == AcceptOp then exists s: Session :: fresh(s) && Awaits(s, rest) else service.pending == rest
    {
      service.Complete(k, session);
      match k
      case AcceptOp => var deleted := HandleAccept(session, error, nextPeer);
      case ReadOp => var ok := session.HandleRead(error, bytes);
      case WriteOp => var ok := session.HandleWrite(error);
    }
  }

  /** The operation that the handler of another one issues for its session, if there was no error. */
  function Follow(k: OpKind, session: Session, error: bool): multiset<(OpKind, Session)> {
    if error then multiset{} else multiset{(if k == ReadOp then WriteOp else ReadOp, session)}
  }
}
