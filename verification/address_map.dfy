/** The port and the location records that the parser fills in token by token, against the tree it
    builds, at every moment of a parse. */
module AddressMap {
  import opened CxxStrings
  import opened ConfigTree
  import opened Scanner
  import opened StackMachine
  import opened StreamShape
  import opened Bindings

  // ---------- the parser's bookkeeping ----------

  /** The events of an unfinished tree: a block on the stack is read where its owner stands. */
  function StackEvents(layers: seq<seq<Statement>>): seq<Event> {
    if layers == [] then []
    else StackEvents(Front(layers)) + ConfigEvents(Last(layers), ParentTokens(layers))
  }

  ghost predicate Booked(s: State, env: Env) {
    s.layers != [] ==> s.env == ApplyAll(env, StackEvents(s.layers))
  }

  lemma TopEvents(front: seq<seq<Statement>>, top: seq<Statement>, parent: seq<string>)
    requires parent == ParentTokens(front + [top])
    ensures StackEvents(front + [top]) == StackEvents(front) + ConfigEvents(top, parent)
  {
    assert Front(front + [top]) == front;
  }

  lemma ParentsAlike(front: seq<seq<Statement>>, top: seq<Statement>, top': seq<Statement>)
    ensures ParentTokens(front + [top]) == ParentTokens(front + [top'])
  {
    assert |front| > 0 ==> (front + [top])[|front| - 1] == (front + [top'])[|front| - 1];
  }

  lemma AppendAssociates(es: seq<Event>, fs: seq<Event>, gs: seq<Event>)
    ensures es + (fs + gs) == (es + fs) + gs
  {
  }

  lemma GrowingTop(layers: seq<seq<Statement>>, top: seq<Statement>, es: seq<Event>)
    requires layers != []
    requires ConfigEvents(top, ParentTokens(layers)) == ConfigEvents(Last(layers), ParentTokens(layers)) + es
    ensures StackEvents(Front(layers) + [top]) == StackEvents(layers) + es
  {
    var front, last, parent := Front(layers), Last(layers), ParentTokens(layers);
    assert front + [last] == layers;
    ParentsAlike(front, last, top);
    TopEvents(front, last, parent);
    TopEvents(front, top, parent);
    AppendAssociates(StackEvents(front), ConfigEvents(last, parent), es);
  }

  /** A word more in the last statement of a block. */
  lemma WordEvents(block: seq<Statement>, w: string, parent: seq<string>)
    requires block != [] && Last(block).tokens != [] && Last(block).child == NoBlock
    ensures ConfigEvents(AddToken(block, w), parent) ==
            ConfigEvents(block, parent) + PairEvents(Last(Last(block).tokens), w, parent)
  {
    var st := Last(block);
    var es, tokens' := PairEvents(Last(st.tokens), w, parent), st.tokens + [w];
    var head := ConfigEvents(Front(block), parent);
    assert Front(tokens') == st.tokens && Front(AddToken(block, w)) == Front(block);
    assert TokenEvents(tokens', parent) == TokenEvents(st.tokens, parent) + es;
    assert ConfigEvents(block, parent) == head + TokenEvents(st.tokens, parent) + [];
    assert ConfigEvents(AddToken(block, w), parent) == head + TokenEvents(tokens', parent) + [];
  }

  /** A statement of one word has no events. */
  lemma FirstWordEvents(block: seq<Statement>, w: string, parent: seq<string>)
    ensures ConfigEvents(block + [Statement([w], NoBlock)], parent) == ConfigEvents(block, parent) + []
  {
    assert Front(block + [Statement([w], NoBlock)]) == block;
    assert TokenEvents([w], parent) == [];
    assert ConfigEvents(block + [Statement([w], NoBlock)], parent) == ConfigEvents(block, parent) + [] + [];
  }

  lemma WordBooked(s: State, w: string, env: Env)
    requires Inv(s, AnyWord()) && Booked(s, env) && StepWord(s, w).Running?
    ensures Booked(StepWord(s, w).state, env)
  {
    var top, parent := Last(s.layers), ParentTokens(s.layers);
    if s.last == Normal {
      var st := Last(top);
      assert ShapedStatement(st, AnyWord());
      var es := PairEvents(Last(st.tokens), w, parent);
      BindIsApply(st.tokens, parent, w, s.env);
      WordEvents(top, w, parent);
      GrowingTop(s.layers, AddToken(top, w), es);
      ApplyAppend(env, StackEvents(s.layers), es);
    } else {
      FirstWordEvents(top, w, parent);
      GrowingTop(s.layers, top + [Statement([w], NoBlock)], []);
      assert StackEvents(s.layers) + [] == StackEvents(s.layers);
    }
  }

  lemma OpenBooked(s: State, env: Env)
    requires Inv(s, AnyWord()) && Booked(s, env) && StepOpen(s).Running? && s.last != Close
    ensures Booked(StepOpen(s).state, env)
  {
    OpenedEvents(s);
    assert ChildEvents(Last(Last(s.layers)).tokens, Last(Last(s.layers)).child) == [];
    assert StackEvents(StepOpen(s).state.layers) + [] == StackEvents(StepOpen(s).state.layers);
  }

  lemma OwnerEvents(block: seq<Statement>, parent: seq<string>)
    requires block != []
    ensures var owner := SetChild(block, NoBlock);
            ConfigEvents(block, parent) ==
                ConfigEvents(owner, parent) + ChildEvents(Last(block).tokens, Last(block).child)
  {
    var owner := SetChild(block, NoBlock);
    assert Front(owner) == Front(block);
    var es := ConfigEvents(Front(block), parent) + TokenEvents(Last(block).tokens, parent);
    assert ConfigEvents(owner, parent) == es + [];
    assert es + [] == es;
  }

  lemma ChildBack(owner: seq<Statement>, child: Child)
    requires owner != [] && Last(owner).child == NoBlock
    ensures SetChild(SetChild(owner, child), NoBlock) == owner
    ensures Last(SetChild(owner, child)) == Statement(Last(owner).tokens, child)
  {
  }

  /** Closing the top block moves its events to where its owner stands. */
  lemma ClosedEvents(front: seq<seq<Statement>>, owner: seq<Statement>, top: seq<Statement>, es: seq<Event>)
    requires owner != [] && Last(owner).child == NoBlock
    requires es == ChildEvents(Last(owner).tokens, Block(top))
    ensures StackEvents(front + [SetChild(owner, Block(top))]) == StackEvents(front + [owner]) + es
  {
    var layers, owner' := front + [owner], SetChild(owner, Block(top));
    ChildBack(owner, Block(top));
    OwnerEvents(owner', ParentTokens(layers));
    assert Front(layers) == front && Last(layers) == owner;
    GrowingTop(layers, owner', es);
  }

  lemma ParentOverOwner(below: seq<seq<Statement>>, top: seq<Statement>)
    requires below != [] && Last(below) != []
    ensures ParentTokens(below + [top]) == Last(Last(below)).tokens
  {
    assert (below + [top])[|below| - 1] == Last(below);
  }

  lemma TopOverOwner(below: seq<seq<Statement>>, top: seq<Statement>)
    requires below != [] && Last(below) != []
    ensures StackEvents(below + [top]) == StackEvents(below) + ConfigEvents(top, Last(Last(below)).tokens)
  {
    ParentOverOwner(below, top);
    TopEvents(below, top, Last(Last(below)).tokens);
  }

  lemma CloseBinds(front: seq<seq<Statement>>, owner: seq<Statement>, top: seq<Statement>, env: Env)
    requires owner != [] && Last(owner).child == NoBlock
    ensures var now := ApplyAll(env, StackEvents(front + [owner] + [top]));
            ApplyAll(env, StackEvents(front + [SetChild(owner, Block(top))])) ==
            if top == [] then BindEmptyBlock(Last(owner).tokens, now) else now
  {
    var below, tokens := front + [owner], Last(owner).tokens;
    var es, fs := StackEvents(below), ChildEvents(tokens, Block(top));
    TopOverOwner(below, top);
    ClosedEvents(front, owner, top, fs);
    ApplyAppend(env, es, fs);
    ApplyAppend(env, es, ConfigEvents(top, tokens));
    CloseEffect(ApplyAll(env, es), tokens, top);
    EmptyTopBinds(es, top, tokens);
  }

  lemma EmptyTopBinds(es: seq<Event>, top: seq<Statement>, tokens: seq<string>)
    ensures top == [] ==> es + ConfigEvents(top, tokens) == es
  {
  }

  lemma ClosedLayers(s: State)
    requires Inv(s, AnyWord()) && StepClose(s).Running? && |s.layers| >= 2
    ensures var front, owner, top := Front(Front(s.layers)), Last(Front(s.layers)), Last(s.layers);
            && s.layers == front + [owner] + [top] && owner != [] && Last(owner).child == NoBlock
            && StepClose(s).state.layers == front + [SetChild(owner, Block(top))]
            && StepClose(s).state.env == if top == [] then BindEmptyBlock(Last(owner).tokens, s.env) else s.env
  {
    assert Last(Front(s.layers)) == s.layers[|s.layers| - 2];
  }

  lemma CloseBooked(s: State, env: Env)
    requires Inv(s, AnyWord()) && Booked(s, env) && StepClose(s).Running? && |s.layers| >= 2
    ensures Booked(StepClose(s).state, env)
  {
    ClosedLayers(s);
    CloseBinds(Front(Front(s.layers)), Last(Front(s.layers)), Last(s.layers), env);
  }

  /** No block directly follows a closed block, so that no block is thrown away. */
  predicate NoBlockReplaced(ts: seq<Token>) {
    forall i :: 1 <= i < |ts| && ts[i].StartBlock? ==> !ts[i - 1].EndBlock?
  }

  lemma InitialBooked(addrs: map<string, ConfigArg>)
    ensures Booked(Initial(addrs), Env(-1, addrs))
  {
    TopLevelEvents([[]]);
  }

  lemma {:induction false} RunBooked(ts: seq<Token>, addrs: map<string, ConfigArg>)
    requires AllInner(ts) && NoBlockReplaced(ts)
    ensures Run(Running(Initial(addrs)), ts).Running? ==>
              Booked(Run(Running(Initial(addrs)), ts).state, Env(-1, addrs))
    decreases |ts|
  {
    var s0 := Running(Initial(addrs));
    if ts == [] {
      InitialBooked(addrs);
    } else {
      var us, t := Front(ts), Last(ts);
      var o := Run(s0, us);
      assert ts == us + [t];
      assert Run(s0, ts) == if o.Running? then Step(o.state, t) else o by {
        RunAppend(s0, us, [t]);
        if o.Running? {
          RunOne(o, t);
        }
      }
      if o.Running? && Step(o.state, t).Running? {
        RunBooked(us, addrs);
        RunShape(us, addrs);
        StepBooked(o.state, t, Env(-1, addrs), us);
      }
    }
  }

  lemma StepBooked(s: State, t: Token, env: Env, us: seq<Token>)
    requires AllInner(us) && IsInner(t) && Tracks(s, us) && Booked(s, env) && NoBlockReplaced(us + [t])
    requires Step(s, t).Running?
    ensures Booked(Step(s, t).state, env)
  {
    match t
    case Word(w) => WordBooked(s, w, env);
    case StartBlock =>
      assert (us + [t])[|us|] == t && (us != [] ==> (us + [t])[|us| - 1] == Last(us));
      OpenBooked(s, env);
    case EndBlock =>
      if |s.layers| >= 2 {
        CloseBooked(s, env);
      }
    case StatementEnd =>
  }

  /** The bindings collected on the fly are those of the finished tree, read in document order. */
  lemma ParseBindsTree(text: string, addrs: map<string, ConfigArg>)
    requires ParseText(text, addrs).Accepted? && NoBlockReplaced(InnerTokens(text))
    ensures var s := ParseText(text, addrs).state;
            && |s.layers| == 1
            && s.env == ApplyAll(Env(-1, addrs), ConfigEvents(s.layers[0], []))
  {
    var ts := InnerTokens(text);
    ParseByInner(text, addrs);
    RunBooked(ts, addrs);
    RunShape(ts, addrs);
    AcceptedState(Run(Running(Initial(addrs)), ts).state, Last(Tokens(text)), ts);
    TopLevelEvents(ParseText(text, addrs).state.layers);
  }

  lemma AcceptedState(s: State, t: Token, ts: seq<Token>)
    requires AllInner(ts) && Tracks(s, ts) && Step(s, t).Accepted?
    ensures Step(s, t).state == s && |s.layers| == 1
  {
  }

  lemma TopLevelEvents(layers: seq<seq<Statement>>)
    requires |layers| == 1
    ensures StackEvents(layers) == ConfigEvents(layers[0], [])
  {
    assert Front(layers) == [];
    assert StackEvents([]) == [];
  }

  /** A block just opened adds no events to those of the block below it. */
  lemma FreshTopEvents(below: seq<seq<Statement>>)
    ensures StackEvents(below + [[]]) == StackEvents(below)
  {
    var parent := ParentTokens(below + [[]]);
    TopEvents(below, [], parent);
    assert ConfigEvents([], parent) == [];
  }

  lemma ReplacedEvents(front: seq<seq<Statement>>, top: seq<Statement>)
    requires top != []
    ensures StackEvents(front + [top]) ==
            StackEvents(front + [SetChild(top, NoBlock)] + [[]]) + ChildEvents(Last(top).tokens, Last(top).child)
  {
    var owner, lost := SetChild(top, NoBlock), ChildEvents(Last(top).tokens, Last(top).child);
    var parent := ParentTokens(front + [top]);
    ParentsAlike(front, top, owner);
    TopEvents(front, top, parent);
    TopEvents(front, owner, parent);
    OwnerEvents(top, parent);
    FreshTopEvents(front + [owner]);
    AppendAssociates(StackEvents(front), ConfigEvents(owner, parent), lost);
  }

  lemma OpenedEvents(s: State)
    requires s.layers != [] && Last(s.layers) != []
    ensures var owner := Last(Last(s.layers));
            && StepOpen(s).Running? && StepOpen(s).state.env == s.env && StepOpen(s).state.layers != []
            && StackEvents(s.layers) == StackEvents(StepOpen(s).state.layers) + ChildEvents(owner.tokens, owner.child)
  {
    var top := Last(s.layers);
    ReplacedEvents(Front(s.layers), top);
    assert Front(s.layers) + [top] == s.layers;
    assert StepOpen(s).state.layers == Front(s.layers) + [SetChild(top, NoBlock)] + [[]];
  }

  /** In general: a block that follows a closed one keeps the bindings but takes exactly the events of
      the closed one out of the tree. Tree and bindings still agree only if these had no effect. */
  lemma ReplacingForgets(s: State, env: Env, es: seq<Event>)
    requires s.layers != [] && Last(s.layers) != [] && Booked(s, env)
    requires StepOpen(s).Running? && es == StackEvents(StepOpen(s).state.layers)
    ensures var owner := Last(Last(s.layers));
            Booked(StepOpen(s).state, env) <==>
              ApplyAll(ApplyAll(env, es), ChildEvents(owner.tokens, owner.child)) == ApplyAll(env, es)
  {
    var owner := Last(Last(s.layers));
    OpenedEvents(s);
    ApplyAppend(env, es, ChildEvents(owner.tokens, owner.child));
  }

  // ---------- at every moment of a parse ----------

  /** Each record carries the location it is filed under. */
  predicate KeysMatch(addrs: map<string, ConfigArg>) {
    forall l :: l in addrs ==> addrs[l].location == l
  }

  lemma {:induction false} RunKeepsKeys(o: Outcome, ts: seq<Token>)
    requires !o.Undefined? ==> KeysMatch(o.state.env.addrs)
    ensures !Run(o, ts).Undefined? ==> KeysMatch(Run(o, ts).state.env.addrs)
    decreases |ts|
  {
    if ts != [] && o.Running? {
      StepKeepsKeys(o.state, ts[0]);
      RunKeepsKeys(Step(o.state, ts[0]), ts[1..]);
    }
  }

  lemma StepKeepsKeys(s: State, t: Token)
    requires KeysMatch(s.env.addrs)
    ensures !Step(s, t).Undefined? ==> KeysMatch(Step(s, t).state.env.addrs)
  {
  }
}
