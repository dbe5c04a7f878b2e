/** The asynchronous life of sessions: any number of threads take completed operations from the I/O
    service and run their handlers, action by action, in any interleaving. */
module SessionProtocol {

  datatype OpKind = AcceptOp | ReadOp | WriteOp

  /** What a handler does that concerns a session. `Touch` reads or writes its fields. */
  datatype Action = Touch | Issue(kind: OpKind) | Delete | Alloc

  /** The actions of the completion handler of each operation, in program order. Those before the
      allocation concern the handler's own session, those after it the new one. */
  function Code(k: OpKind, error: bool): seq<Action> {
    match (k, error)
    case (AcceptOp, false) => [Touch, Issue(ReadOp), Alloc, Issue(AcceptOp)]
    case (AcceptOp, true) => [Delete, Alloc, Issue(AcceptOp)]
    case (ReadOp, false) => [Touch, Touch, Issue(WriteOp)]
    case (WriteOp, false) => [Touch, Issue(ReadOp)]
    case (_, true) => [Delete]
  }

  /** What the server's constructor does: the first accept. */
  function StartUp(): seq<Action> {
    [Alloc, Issue(AcceptOp)]
  }

  // ---------- the transition system ----------

  datatype Op = Op(kind: OpKind, session: nat)

  /** A thread between handlers, or inside one with the actions still to do. */
  datatype Thread = Idle | Running(session: nat, code: seq<Action>)

  /** An action, or a completion handed to a thread. */
  datatype What = Did(action: Action) | Completed(kind: OpKind, error: bool)

  datatype Event = Event(session: nat, thread: nat, what: What)

  /** Sessions are numbered in the order of their allocation. */
  datatype State = State(born: nat, live: set<nat>, pending: multiset<Op>, threads: seq<Thread>, history: seq<Event>)

  predicate Init(s: State) {
    && s.born == 0 && s.live == {} && s.pending == multiset{} && s.history == []
    && |s.threads| > 0 && s.threads[0] == Running(0, StartUp())
    && forall t :: 1 <= t < |s.threads| ==> s.threads[t] == Idle
  }

  function Continue(session: nat, code: seq<Action>): Thread {
    if code == [] then Idle else Running(session, code)
  }

  datatype Step = Dispatch(thread: nat, op: Op, error: bool) | Execute(thread: nat)

  predicate Enabled(s: State, step: Step) {
    match step
    case Dispatch(t, op, _) => t < |s.threads| && s.threads[t] == Idle && s.pending[op] > 0
    case Execute(t) => t < |s.threads| && s.threads[t].Running? && s.threads[t].code != []
  }

  /** Thread `t` takes a completed operation, or does the next action of its handler. Nothing here
      checks that the session still exists. */
  function Next(s: State, step: Step): State
    requires Enabled(s, step)
  {
    match step
    case Dispatch(t, op, error) =>
      s.(pending := s.pending - multiset{op},
         threads := s.threads[t := Running(op.session, Code(op.kind, error))],
         history := s.history + [Event(op.session, t, Completed(op.kind, error))])
    case Execute(t) =>
      var code := s.threads[t].code;
      var session := if code[0] == Alloc then s.born else s.threads[t].session;
      State(
        if code[0] == Alloc then s.born + 1 else s.born,
        if code[0] == Alloc then s.live + {session} else if code[0] == Delete then s.live - {session} else s.live,
        if code[0].Issue? then s.pending + multiset{Op(code[0].kind, session)} else s.pending,
        s.threads[t := Continue(session, code[1..])],
        s.history + [Event(session, t, Did(code[0]))])
  }

  /** A run: the state after some steps, each of them enabled. */
  ghost predicate IsRun(states: seq<State>, steps: seq<Step>) {
    && |states| == |steps| + 1 && Init(states[0])
    && forall i :: 0 <= i < |steps| ==> Enabled(states[i], steps[i]) && states[i + 1] == Next(states[i], steps[i])
  }

  // ---------- the life of one session ----------

  /** Where a session is in its life, as its history tells: in the hands of one thread that still
      has `todo` to do with it, waiting for one operation, or deleted. */
  datatype Life = Unborn | Held(thread: nat, todo: seq<Action>) | Waiting(kind: OpKind) | Gone

  /** The actions of a handler's code that concern its current session. */
  function Own(code: seq<Action>): seq<Action> {
    if code == [] || code[0] == Alloc then []
    else if code[0] == Touch then [Touch] + Own(code[1..])
    else [code[0]]
  }

  /** What may come next in a life; `Broken` for everything else. A deleted session allows nothing, a
      waiting one only the completion of its operation, a held one only the next action of its holder. */
  datatype Advanced = Alive(life: Life) | Broken

  function Advance(life: Life, thread: nat, what: What): Advanced {
    match (life, what)
    case (Unborn, Did(Alloc)) => Alive(Held(thread, [Issue(AcceptOp)]))
    case (Waiting(k), Completed(k', error)) => if k == k' then Alive(Held(thread, Own(Code(k, error)))) else Broken
    case (Held(t, todo), Did(a)) =>
      if t != thread || todo == [] || todo[0] != a then Broken
      else if a == Touch then Alive(Held(t, todo[1..]))
      else if a.Issue? then Alive(Waiting(a.kind))
      else if a == Delete then Alive(Gone)
      else Broken
    case _ => Broken
  }

  /** The life of session `x` after a history. */
  function LifeOf(history: seq<Event>, x: nat): Advanced {
    if history == [] then Alive(Unborn) else
      var before, e := LifeOf(history[..|history| - 1], x), history[|history| - 1];
      if e.session != x || before.Broken? then before else Advance(before.life, e.thread, e.what)
  }

  // ---------- the invariant ----------

  predicate IsCode(code: seq<Action>) {
    || code == [Touch, Issue(ReadOp), Alloc, Issue(AcceptOp)] || code == [Issue(ReadOp), Alloc, Issue(AcceptOp)]
    || code == [Delete, Alloc, Issue(AcceptOp)] || code == [Alloc, Issue(AcceptOp)] || code == [Issue(AcceptOp)]
    || code == [Touch, Touch, Issue(WriteOp)] || code == [Touch, Issue(WriteOp)] || code == [Issue(WriteOp)]
    || code == [Touch, Issue(ReadOp)] || code == [Issue(ReadOp)] || code == [Delete]
  }

  /** Every suffix of a handler's code is one of these, and ownership ends with the last action on
      the session: what follows an issued operation or a deletion is nothing or an allocation. */
  lemma CodeShape(code: seq<Action>)
    requires IsCode(code)
    ensures code != [] && (code[1..] != [] ==> IsCode(code[1..]))
    ensures code[0] == Touch ==> Own(code) == [Touch] + Own(code[1..]) && Own(code[1..]) != []
    ensures code[0].Issue? || code[0] == Delete ==> Own(code) == [code[0]] && Own(code[1..]) == []
    ensures code[0] == Alloc ==> Own(code) == [] && code[1..] == Own(code[1..]) == [Issue(AcceptOp)]
  {
    var tail := code[1..];
    assert |code| > 1 ==> tail[0] == code[1];
    assert |code| > 2 ==> tail[1] == code[2] && tail[1..][0] == code[2];
    assert |code| > 3 ==> tail[2] == code[3];
  }

  /** An accept still to be issued stays to be issued until it is the next action, which is then the last. */
  lemma CodeAccepts(code: seq<Action>)
    requires IsCode(code)
    ensures code != []
    ensures code[0] != Issue(AcceptOp) ==> (Issue(AcceptOp) in code <==> Issue(AcceptOp) in code[1..])
    ensures code[0] == Issue(AcceptOp) ==> code[1..] == []
  {
    assert code == [code[0]] + code[1..];
  }

  lemma HandlerCode(k: OpKind, error: bool)
    ensures IsCode(Code(k, error)) && Own(Code(k, error)) != []
    ensures Issue(AcceptOp) in Code(k, error) <==> k == AcceptOp
  {
    assert Issue(AcceptOp) == [Touch, Issue(ReadOp), Alloc, Issue(AcceptOp)][3];
    assert Issue(AcceptOp) == [Delete, Alloc, Issue(AcceptOp)][2];
  }

  /** Thread `t` has session `x` in hand, with `todo` to do. */
  predicate HasInHand(th: Thread, x: nat, todo: seq<Action>) {
    th.Running? && th.session == x && Own(th.code) == todo && todo != []
  }

  predicate IsOwner(th: Thread, x: nat) {
    th.Running? && th.session == x && Own(th.code) != []
  }

  /** Session `x` agrees with its history: a held session is in its thread's hands and nowhere else,
      a waiting one has its one operation pending, and only these two kinds exist in memory. */
  ghost predicate SessionOk(s: State, x: nat) {
    var l := LifeOf(s.history, x);
    && l.Alive?
    && (x in s.live <==> l.life.Held? || l.life.Waiting?)
    && (x >= s.born <==> l.life == Unborn)
    && (forall k :: s.pending[Op(k, x)] == if l.life == Waiting(k) then 1 else 0)
    && (l.life.Held? ==> l.life.thread < |s.threads| && HasInHand(s.threads[l.life.thread], x, l.life.todo))
    && (forall t :: 0 <= t < |s.threads| && IsOwner(s.threads[t], x) ==> l.life == Held(t, Own(s.threads[t].code)))
  }

  /** Who is to accept next: a thread whose handler has yet to do it, or a pending accept. */
  datatype Acceptor = InThread(thread: nat) | InPending(session: nat)

  predicate MustAccept(th: Thread) {
    th.Running? && Issue(AcceptOp) in th.code
  }

  ghost predicate OneAcceptor(s: State, who: Acceptor) {
    && (forall t :: 0 <= t < |s.threads| ==> (MustAccept(s.threads[t]) <==> who == InThread(t)))
    && (who.InThread? ==> who.thread < |s.threads|)
    && (forall x: nat :: s.pending[Op(AcceptOp, x)] == if who == InPending(x) then 1 else 0)
  }

  ghost predicate Inv(s: State, who: Acceptor) {
    && (forall t :: 0 <= t < |s.threads| && s.threads[t].Running? ==> IsCode(s.threads[t].code))
    && (forall x: nat :: SessionOk(s, x))
    && OneAcceptor(s, who)
  }

  lemma InitInv(s: State)
    requires Init(s)
    ensures Inv(s, InThread(0))
  {
    assert Issue(AcceptOp) == StartUp()[1];
    forall x: nat
      ensures SessionOk(s, x)
    {
      assert LifeOf(s.history, x) == Alive(Unborn);
    }
  }

  lemma LifeAfter(history: seq<Event>, e: Event, x: nat)
    requires LifeOf(history, x).Alive?
    ensures LifeOf(history + [e], x) == if e.session == x
        then Advance(LifeOf(history, x).life, e.thread, e.what) else LifeOf(history, x)
  {
    assert (history + [e])[..|history|] == history;
  }

  lemma DispatchKeepsSession(s: State, who: Acceptor, t: nat, op: Op, error: bool, x: nat)
    requires Inv(s, who) && Enabled(s, Dispatch(t, op, error))
    ensures SessionOk(Next(s, Dispatch(t, op, error)), x)
  {
    var s' := Next(s, Dispatch(t, op, error));
    assert SessionOk(s, x) && SessionOk(s, op.session);
    HandlerCode(op.kind, error);
    LifeAfter(s.history, Event(op.session, t, Completed(op.kind, error)), x);
    assert LifeOf(s.history, op.session).life == Waiting(op.kind);
    forall k
      ensures s'.pending[Op(k, x)] == if LifeOf(s'.history, x).life == Waiting(k) then 1 else 0
    {
    }
  }

  /** The life of the session that thread `t` acts on, before and after its next action. */
  lemma ExecuteAdvances(s: State, who: Acceptor, t: nat)
    requires Inv(s, who) && Enabled(s, Execute(t))
    ensures var th := s.threads[t];
            var a, y := th.code[0], if th.code[0] == Alloc then s.born else th.session;
            && LifeOf(s.history, y) == Alive(if a == Alloc then Unborn else Held(t, Own(th.code)))
            && Advance(LifeOf(s.history, y).life, t, Did(a)) ==
                 Alive(if a == Touch || a == Alloc then Held(t, Own(th.code[1..])) else if a == Delete
                     then Gone else Waiting(a.kind))
            && (a == Touch || a == Alloc <==> Own(th.code[1..]) != [])
  {
    var th := s.threads[t];
    var a, rest := th.code[0], th.code[1..];
    var y := if a == Alloc then s.born else th.session;
    assert SessionOk(s, y);
    CodeShape(th.code);
    assert a == Touch ==> Own(th.code)[1..] == Own(rest);
  }

  /** An action leaves the other sessions as they are. */
  lemma ExecuteElsewhere(s: State, who: Acceptor, t: nat, x: nat)
    requires Inv(s, who) && Enabled(s, Execute(t))
    requires x != if s.threads[t].code[0] == Alloc then s.born else s.threads[t].session
    ensures SessionOk(Next(s, Execute(t)), x)
  {
    var s', th := Next(s, Execute(t)), s.threads[t];
    var a, y := th.code[0], if th.code[0] == Alloc then s.born else th.session;
    assert SessionOk(s, x);
    CodeShape(th.code);
    LifeAfter(s.history, Event(y, t, Did(a)), x);
    assert forall k :: s'.pending[Op(k, x)] == s.pending[Op(k, x)];
  }

  lemma ExecuteHere(s: State, who: Acceptor, t: nat, x: nat)
    requires Inv(s, who) && Enabled(s, Execute(t))
    requires x == if s.threads[t].code[0] == Alloc then s.born else s.threads[t].session
    ensures SessionOk(Next(s, Execute(t)), x)
  {
    var s', th := Next(s, Execute(t)), s.threads[t];
    assert SessionOk(s, x);
    ExecuteAdvances(s, who, t);
    LifeAfter(s.history, Event(x, t, Did(th.code[0])), x);
    assert forall k :: s'.pending[Op(k, x)] == if LifeOf(s'.history, x).life == Waiting(k) then 1 else 0;
  }

  lemma ExecuteKeepsSession(s: State, who: Acceptor, t: nat, x: nat)
    requires Inv(s, who) && Enabled(s, Execute(t))
    ensures SessionOk(Next(s, Execute(t)), x)
  {
    if x == (if s.threads[t].code[0] == Alloc then s.born else s.threads[t].session) {
      ExecuteHere(s, who, t, x);
    } else {
      ExecuteElsewhere(s, who, t, x);
    }
  }

  lemma DispatchKeepsAcceptor(s: State, who: Acceptor, t: nat, op: Op, error: bool) returns (who': Acceptor)
    requires Inv(s, who) && Enabled(s, Dispatch(t, op, error))
    ensures OneAcceptor(Next(s, Dispatch(t, op, error)), who')
  {
    HandlerCode(op.kind, error);
    who' := if op.kind == AcceptOp then InThread(t) else who;
  }

  lemma ExecuteKeepsAcceptor(s: State, who: Acceptor, t: nat) returns (who': Acceptor)
    requires Inv(s, who) && Enabled(s, Execute(t))
    ensures OneAcceptor(Next(s, Execute(t)), who')
  {
    var th := s.threads[t];
    CodeAccepts(th.code);
    assert Issue(AcceptOp) in th.code <==> who == InThread(t);
    who' := if th.code[0] == Issue(AcceptOp) then InPending(th.session) else who;
  }

  /** A thread's code is always the rest of a handler. */
  lemma NextKeepsCode(s: State, who: Acceptor, step: Step)
    requires Inv(s, who) && Enabled(s, step)
    ensures var threads := Next(s, step).threads;
            forall t :: 0 <= t < |threads| && threads[t].Running? ==> IsCode(threads[t].code)
  {
    match step
    case Dispatch(t, op, error) => HandlerCode(op.kind, error);
    case Execute(t) => CodeShape(s.threads[t].code);
  }

  lemma NextKeepsSession(s: State, who: Acceptor, step: Step, x: nat)
    requires Inv(s, who) && Enabled(s, step)
    ensures SessionOk(Next(s, step), x)
  {
    match step
    case Dispatch(t, op, error) => DispatchKeepsSession(s, who, t, op, error, x);
    case Execute(t) => ExecuteKeepsSession(s, who, t, x);
  }

  lemma NextKeepsInv(s: State, who: Acceptor, step: Step) returns (who': Acceptor)
    requires Inv(s, who) && Enabled(s, step)
    ensures Inv(Next(s, step), who')
  {
    match step {
      case Dispatch(t, op, error) => who' := DispatchKeepsAcceptor(s, who, t, op, error);
      case Execute(t) => who' := ExecuteKeepsAcceptor(s, who, t);
    }
    NextKeepsCode(s, who, step);
    forall x: nat
      ensures SessionOk(Next(s, step), x)
    {
      NextKeepsSession(s, who, step, x);
    }
  }

  lemma {:induction false} RunInv(states: seq<State>, steps: seq<Step>, n: nat) returns (who: Acceptor)
    requires IsRun(states, steps) && n <= |steps|
    ensures Inv(states[n], who)
  {
    if n == 0 {
      InitInv(states[0]);
      return InThread(0);
    }
    who := RunInv(states, steps, n - 1);
    who := NextKeepsInv(states[n - 1], who, steps[n - 1]);
  }

  // ---------- main results ----------

  /** The owners of a session: a pending operation, or a thread whose handler still has to do with it. */
  ghost predicate OwnedByThread(s: State, x: nat, t: nat) {
    t < |s.threads| && IsOwner(s.threads[t], x)
  }

  /** In every state of every run, every session has a legal history, and every allocated one is
      either deleted or has exactly one owner. */
  lemma ExactlyOneOwner(states: seq<State>, steps: seq<Step>, n: nat, x: nat)
    requires IsRun(states, steps) && n <= |steps|
    ensures var s := states[n];
            && LifeOf(s.history, x).Alive?
            && (x < s.born ==> (x in s.live <==> LifeOf(s.history, x).life != Gone))
            && (x !in s.live ==> (forall k :: s.pending[Op(k, x)] == 0) && forall t :: !OwnedByThread(s, x, t))
            && (x in s.live ==>
                  || (exists t :: OwnedByThread(s, x, t) && (forall u :: OwnedByThread(s, x, u) ==> u == t)
                        && forall k :: s.pending[Op(k, x)] == 0)
                  || (exists k :: s.pending[Op(k, x)] == 1 && (forall j :: j != k ==> s.pending[Op(j, x)] == 0)
                        && forall t :: !OwnedByThread(s, x, t)))
  {
    var s := states[n];
    var who := RunInv(states, steps, n);
    assert SessionOk(s, x);
    var l := LifeOf(s.history, x).life;
    if x in s.live {
      if l.Held? {
        assert OwnedByThread(s, x, l.thread);
      } else {
        assert s.pending[Op(l.kind, x)] == 1;
      }
    }
  }

  /** No step of a run uses a deleted session or one that another thread or a pending operation
      owns, and none deletes a session twice. */
  lemma NoUseAfterRelease(states: seq<State>, steps: seq<Step>, n: nat)
    requires IsRun(states, steps) && n < |steps| && steps[n].Execute?
    ensures var s, t := states[n], steps[n].thread;
            s.threads[t].code[0] != Alloc ==>
              var x := s.threads[t].session;
              && x in s.live && (forall u :: u != t ==> !OwnedByThread(s, x, u)) && forall k :: s.pending[Op(k, x)] == 0
  {
    var s, t := states[n], steps[n].thread;
    var who := RunInv(states, steps, n);
    assert Enabled(s, steps[n]);
    CodeShape(s.threads[t].code);
    assert SessionOk(s, s.threads[t].session);
  }

  /** There is never more than one accept outstanding, and there is always one pending or about to be
      issued by exactly one thread: the server never stops accepting. */
  lemma OneAcceptOutstanding(states: seq<State>, steps: seq<Step>, n: nat) returns (who: Acceptor)
    requires IsRun(states, steps) && n <= |steps|
    ensures OneAcceptor(states[n], who)
  {
    who := RunInv(states, steps, n);
  }

  lemma {:induction false} GoneStaysGone(history: seq<Event>, later: seq<Event>, x: nat)
    requires LifeOf(history, x) == Alive(Gone) && LifeOf(history + later, x).Alive?
    ensures LifeOf(history + later, x) == Alive(Gone) && forall e :: e in later ==> e.session != x
    decreases |later|
  {
    if later == [] {
      assert history + later == history;
    } else {
      var front, e := later[..|later| - 1], later[|later| - 1];
      var all := history + later;
      assert all[..|all| - 1] == history + front && all[|all| - 1] == e;
      GoneStaysGone(history, front, x);
    }
  }

  lemma {:induction false} HistoryGrows(states: seq<State>, steps: seq<Step>, m: nat, n: nat)
    requires IsRun(states, steps) && m <= n <= |steps|
    ensures states[m].history <= states[n].history
    decreases n - m
  {
    if m < n {
      assert Enabled(states[n - 1], steps[n - 1]);
      HistoryGrows(states, steps, m, n - 1);
    }
  }

  /** Once a session is deleted nothing ever happens to it again. */
  lemma DeletedForGood(states: seq<State>, steps: seq<Step>, m: nat, n: nat, x: nat)
    requires IsRun(states, steps) && m <= n <= |steps| && x < states[m].born && x !in states[m].live
    ensures x !in states[n].live && states[m].history <= states[n].history
    ensures forall e :: e in states[n].history[|states[m].history|..] ==> e.session != x
  {
    ExactlyOneOwner(states, steps, m, x);
    ExactlyOneOwner(states, steps, n, x);
    HistoryGrows(states, steps, m, n);
    var h, all := states[m].history, states[n].history;
    assert all == h + all[|h|..];
    GoneStaysGone(h, all[|h|..], x);
    var who := RunInv(states, steps, n);
    assert SessionOk(states[n], x);
  }
}
