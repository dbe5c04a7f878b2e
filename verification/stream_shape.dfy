/** Which token streams the parser accepts, and on which it leaves its containers' contracts,
    said of the stream alone: neighbouring tokens, bracket balance and port words. */
module StreamShape {
  import opened CxxStrings
  import opened ConfigTree
  import opened Scanner
  import opened StackMachine

  /** Neither a comment nor the last token of an input. */
  predicate IsInner(t: Token) {
    !t.Comment? && !Final(t)
  }

  predicate AllInner(ts: seq<Token>) {
    forall i :: 0 <= i < |ts| ==> IsInner(ts[i])
  }

  function KindAfter(t: Token): Kind
    requires IsInner(t)
  {
    match t
    case Word(_) => Kind.Normal
    case StartBlock => Kind.Open
    case EndBlock => Kind.Close
    case _ => Kind.End
  }

  /** The kind of the token before position `i`. */
  function Before(ts: seq<Token>, i: nat): Kind
    requires AllInner(ts) && i <= |ts|
  {
    if i == 0 then Start else KindAfter(ts[i - 1])
  }

  /** Opening brackets minus closing ones. */
  function Depth(ts: seq<Token>): int {
    if ts == [] then 0
    else Depth(Front(ts)) + (if Last(ts).StartBlock? then 1 else if Last(ts).EndBlock? then -1 else 0)
  }

  /** The token at `i` cannot follow its neighbour, or is no port where one is needed. */
  predicate RejectedAt(ts: seq<Token>, i: nat)
    requires AllInner(ts) && i < |ts|
  {
    match ts[i]
    case StatementEnd => Before(ts, i) != Normal
    case EndBlock => Before(ts, i) == Start || Before(ts, i) == Normal
    case Word(w) => i > 0 && ts[i - 1] == Word("listen") && SafePort(w) == -1
    case _ => false
  }

  predicate OkAt(ts: seq<Token>, i: nat)
    requires AllInner(ts) && i < |ts|
  {
    !RejectedAt(ts, i) && !UndefinedAt(Before(ts, i), Depth(ts[..i]), ts[i])
  }

  predicate OkBefore(ts: seq<Token>, n: nat)
    requires AllInner(ts) && n <= |ts|
  {
    forall i :: 0 <= i < n ==> OkAt(ts, i)
  }

  predicate UndefinedFirstAt(ts: seq<Token>, i: nat)
    requires AllInner(ts) && i < |ts|
  {
    OkBefore(ts, i) && UndefinedAt(Before(ts, i), Depth(ts[..i]), ts[i]) && !RejectedAt(ts, i)
  }

  function AnyWord(): string -> bool {
    (w: string) => true
  }

  /** The state after a stream, told from the stream. */
  ghost predicate Tracks(s: State, ts: seq<Token>)
    requires AllInner(ts)
  {
    && Inv(s, AnyWord())
    && s.last == Before(ts, |ts|)
    && s.depth == Depth(ts)
    && (s.last == Normal ==>
          var tokens := Last(Last(s.layers)).tokens; tokens != [] && Last(ts) == Word(Last(tokens)))
  }

  lemma NextPosition(ts: seq<Token>, t: Token)
    requires AllInner(ts) && IsInner(t)
    ensures var us := ts + [t];
            && us[..|ts|] == ts && us[|ts|] == t && Before(us, |ts|) == Before(ts, |ts|)
            && Before(us, |us|) == KindAfter(t)
            && Depth(us) == Depth(ts) + (if t.StartBlock? then 1 else if t.EndBlock? then -1 else 0)
            && (ts != [] ==> us[|ts| - 1] == Last(ts))
  {
    assert Front(ts + [t]) == ts;
  }

  lemma StepTracks(s: State, ts: seq<Token>, t: Token)
    requires AllInner(ts) && IsInner(t) && Tracks(s, ts)
    ensures var o := Step(s, t);
            && (o.Running? <==> OkAt(ts + [t], |ts|))
            && (o.Undefined? <==> UndefinedAt(s.last, s.depth, t) && !RejectedAt(ts + [t], |ts|))
            && (o.Running? ==> Tracks(o.state, ts + [t]))
            && !o.Accepted?
  {
    NextPosition(ts, t);
    StepKeepsInv(s, t, AnyWord());
    if s.last == Normal && t.Word? {
      assert ShapedStatement(Last(Last(s.layers)), AnyWord());
    }
  }

  predicate IsUndefined(ts: seq<Token>)
    requires AllInner(ts)
  {
    exists i :: 0 <= i < |ts| && UndefinedFirstAt(ts, i)
  }

  lemma PrefixShape(us: seq<Token>, ts: seq<Token>, i: nat)
    requires AllInner(ts) && i < |us| <= |ts| && us == ts[..|us|]
    ensures AllInner(us)
    ensures OkAt(us, i) <==> OkAt(ts, i)
    ensures OkBefore(us, i) <==> OkBefore(ts, i)
  {
    assert forall k :: 0 <= k <= i ==> us[..k] == ts[..k] && Before(us, k) == Before(ts, k);
    assert forall k :: 0 <= k <= i ==> OkAt(us, k) == OkAt(ts, k);
  }

  lemma OneMore(us: seq<Token>, t: Token)
    requires AllInner(us) && IsInner(t)
    ensures var ts, n := us + [t], |us|;
            && (OkBefore(ts, n) <==> OkBefore(us, n))
            && (OkBefore(ts, n + 1) <==> OkBefore(us, n) && OkAt(ts, n))
            && (IsUndefined(ts) <==> IsUndefined(us) || UndefinedFirstAt(ts, n))
  {
    var ts, n := us + [t], |us|;
    forall i | 0 <= i < n
      ensures OkAt(us, i) <==> OkAt(ts, i)
      ensures UndefinedFirstAt(us, i) <==> UndefinedFirstAt(ts, i)
    {
      PrefixShape(us, ts, i);
      assert us[..i] == ts[..i] && Before(us, i) == Before(ts, i);
    }
  }

  lemma {:induction false} RunShape(ts: seq<Token>, addrs: map<string, ConfigArg>)
    requires AllInner(ts)
    ensures var o := Run(Running(Initial(addrs)), ts);
            && (o.Running? <==> OkBefore(ts, |ts|))
            && (o.Undefined? <==> IsUndefined(ts))
            && (o.Running? ==> Tracks(o.state, ts))
            && !o.Accepted?
    decreases |ts|
  {
    if ts != [] {
      var us, t, n := Front(ts), Last(ts), |ts| - 1;
      assert ts == us + [t];
      RunShape(us, addrs);
      OneMore(us, t);
      var o := Run(Running(Initial(addrs)), us);
      RunAppend(Running(Initial(addrs)), us, [t]);
      if o.Running? {
        StepTracks(o.state, us, t);
        RunOne(o, t);
        assert ts[..n] == us && Before(ts, n) == Before(us, n);
      }
    }
  }

  /** The grammar of accepted streams: `;` after a word, `}` after `;`, `{` or `}`, balanced
      brackets, a last token that ends a statement or a block, and valid ports. */
  predicate IsWellFormed(ts: seq<Token>)
    requires AllInner(ts)
  {
    && ts != []
    && (Last(ts).StatementEnd? || Last(ts).EndBlock?)
    && (forall i :: 0 <= i < |ts| ==> !RejectedAt(ts, i))
    && (forall i :: 0 <= i <= |ts| ==> Depth(ts[..i]) >= 0)
    && Depth(ts) == 0
  }

  /** Some `{` is the first token or follows another `{`, so that no statement can own it. */
  predicate HasOwnerlessBlock(ts: seq<Token>)
    requires AllInner(ts)
  {
    exists i :: 0 <= i < |ts| && ts[i].StartBlock? && (Before(ts, i) == Start || Before(ts, i) == Open)
  }

  /** After the bracket that closes once too often no token is in order. */
  lemma NothingAfterNegativeDepth(ts: seq<Token>, i: nat)
    requires AllInner(ts) && 0 < i < |ts| && Depth(ts[..i - 1]) == 0 && Depth(ts[..i]) < 0
    ensures !OkAt(ts, i)
  {
    assert Front(ts[..i]) == ts[..i - 1] && Last(ts[..i]) == ts[i - 1];
  }

  lemma {:induction false} NegativeDepthIsLast(ts: seq<Token>, i: nat)
    requires AllInner(ts) && OkBefore(ts, |ts|) && i <= |ts| && Depth(ts[..i]) < 0
    ensures i == |ts|
    decreases i
  {
    assert ts[..0] == [];
    assert Front(ts[..i]) == ts[..i - 1];
    if Depth(ts[..i - 1]) < 0 {
      NegativeDepthIsLast(ts, i - 1);
    } else if i < |ts| {
      NothingAfterNegativeDepth(ts, i);
    }
  }

  lemma WellFormedIsOk(ts: seq<Token>)
    requires AllInner(ts) && IsWellFormed(ts) && !HasOwnerlessBlock(ts)
    ensures OkBefore(ts, |ts|)
  {
    forall i | 0 <= i < |ts|
      ensures OkAt(ts, i)
    {
      assert Depth(ts[..i]) >= 0;
    }
  }

  /** The parser accepts exactly the well-formed streams, except that it runs into undefined
      behaviour on those with an ownerless block. */
  lemma AcceptsWellFormed(ts: seq<Token>, addrs: map<string, ConfigArg>)
    requires AllInner(ts)
    ensures Run(Running(Initial(addrs)), ts + [Eof]).Accepted? <==> IsWellFormed(ts) && !HasOwnerlessBlock(ts)
  {
    var o := Run(Running(Initial(addrs)), ts);
    RunShape(ts, addrs);
    RunAppend(Running(Initial(addrs)), ts, [Eof]);
    if o.Running? {
      RunOne(o, Eof);
      forall i | 0 <= i < |ts|
        ensures !(ts[i].StartBlock? && (Before(ts, i) == Start || Before(ts, i) == Open))
      {
        assert OkAt(ts, i);
      }
      if Step(o.state, Eof).Accepted? {
        forall i | 0 <= i <= |ts|
          ensures Depth(ts[..i]) >= 0
        {
          if Depth(ts[..i]) < 0 {
            assert ts[..|ts|] == ts;
            NegativeDepthIsLast(ts, i);
          }
        }
        forall i | 0 <= i < |ts|
          ensures !RejectedAt(ts, i)
        {
          assert OkAt(ts, i);
        }
      }
    } else if IsWellFormed(ts) && !HasOwnerlessBlock(ts) {
      WellFormedIsOk(ts);
    }
  }

  /** The tokens of an input without its comments and without the one that ends it. */
  function InnerTokens(text: string): (ts: seq<Token>)
    ensures AllInner(ts)
  {
    var ts := Significant(Tokens(text));
    SignificantTokens(text);
    Front(ts)
  }

  /** What is left of a stream without its comments: inner tokens, then the one that ends it. */
  predicate EndsWell(ts: seq<Token>, us: seq<Token>) {
    ts != [] && us != [] && AllInner(Front(us)) && Final(Last(us)) && Last(us) == Last(ts)
  }

  lemma SignificantOne(t: Token)
    requires Final(t)
    ensures EndsWell([t], Significant([t]))
  {
    assert [t][1..] == [];
    assert Significant([t]) == [t];
  }

  lemma SignificantMore(t: Token, ts: seq<Token>)
    requires !Final(t) && EndsWell(ts, Significant(ts))
    ensures EndsWell([t] + ts, Significant([t] + ts))
  {
    var us := Significant(ts);
    assert ([t] + ts)[1..] == ts && Last([t] + ts) == Last(ts);
    if !t.Comment? {
      assert Front([t] + us) == [t] + Front(us);
    }
  }

  lemma {:induction false} SignificantTokens(text: string)
    ensures EndsWell(Tokens(text), Significant(Tokens(text)))
    decreases |text|
  {
    var r := Scan(text);
    ScanProgress(text);
    if Final(r.token) {
      SignificantOne(r.token);
    } else {
      SignificantTokens(r.rest);
      SignificantMore(r.token, Tokens(r.rest));
    }
  }

  lemma FrontAndLast<T>(s: seq<T>)
    requires s != []
    ensures s == Front(s) + [Last(s)]
  {
  }

  lemma LastButOne<T>(s: seq<T>)
    requires |s| >= 2
    ensures Last(Front(s)) == s[|s| - 2]
  {
  }

  lemma InnerAndLast(text: string)
    ensures Tokens(text) != [] && Final(Last(Tokens(text)))
    ensures Significant(Tokens(text)) == InnerTokens(text) + [Last(Tokens(text))]
  {
    SignificantTokens(text);
    FrontAndLast(Significant(Tokens(text)));
  }

  /** A parse is the run over the inner tokens and then the step on the one that ends the input. */
  lemma ParseByInner(text: string, addrs: map<string, ConfigArg>)
    ensures Tokens(text) != [] && Final(Last(Tokens(text)))
    ensures var o := Run(Running(Initial(addrs)), InnerTokens(text));
            ParseText(text, addrs) == if o.Running? then Step(o.state, Last(Tokens(text))) else o
  {
    InnerAndLast(text);
    RunSkipsComments(Running(Initial(addrs)), Tokens(text));
    RunLast(Running(Initial(addrs)), InnerTokens(text), Last(Tokens(text)));
  }

  lemma RunLast(o: Outcome, ts: seq<Token>, t: Token)
    ensures Run(o, ts + [t]) == if Run(o, ts).Running? then Step(Run(o, ts).state, t) else Run(o, ts)
  {
    RunAppend(o, ts, [t]);
    if Run(o, ts).Running? {
      RunOne(Run(o, ts), t);
    }
  }

  /** A configuration text is accepted exactly when the scanner meets no error in it, its tokens are
      well-formed, and every block has an owner. */
  lemma ParseAccepts(text: string, addrs: map<string, ConfigArg>)
    ensures ParseText(text, addrs).Accepted? <==>
              && Last(Tokens(text)).Eof?
              && IsWellFormed(InnerTokens(text)) && !HasOwnerlessBlock(InnerTokens(text))
  {
    var ts, o := InnerTokens(text), Running(Initial(addrs));
    ParseByInner(text, addrs);
    RunShape(ts, addrs);
    if Last(Tokens(text)).Eof? {
      AcceptsWellFormed(ts, addrs);
      RunAppend(o, ts, [Eof]);
      if Run(o, ts).Running? {
        RunOne(Run(o, ts), Eof);
      }
    }
  }

  /** Undefined behaviour, located: the first bad token is a `{` that nothing can own, or a word or
      bracket after the brackets closed once too often. */
  lemma ParseUndefined(text: string, addrs: map<string, ConfigArg>)
    ensures ParseText(text, addrs).Undefined? <==> IsUndefined(InnerTokens(text))
  {
    ParseByInner(text, addrs);
    RunShape(InnerTokens(text), addrs);
  }

  // ---------- parsing into a configuration that is not empty ----------

  /** The stack with `block` in front of the statements at its bottom. */
  function OnTop(block: seq<Statement>, layers: seq<seq<Statement>>): (r: seq<seq<Statement>>)
    ensures |r| == |layers|
  {
    if layers == [] then []
    else if |layers| == 1 then [block + layers[0]]
    else OnTop(block, Front(layers)) + [Last(layers)]
  }

  function Behind(block: seq<Statement>, s: State): State {
    s.(layers := OnTop(block, s.layers))
  }

  function OutcomeBehind(block: seq<Statement>, o: Outcome): Outcome {
    match o
    case Running(s) => Running(Behind(block, s))
    case Accepted(s) => Accepted(Behind(block, s))
    case Rejected(s) => Rejected(Behind(block, s))
    case Undefined => Undefined
  }

  lemma OnTopSnoc(block: seq<Statement>, below: seq<seq<Statement>>, top: seq<Statement>)
    ensures OnTop(block, below + [top]) == OnTop(block, below) + [if below == [] then block + top else top]
  {
    assert Front(below + [top]) == below;
  }

  lemma BlockBehind(block: seq<Statement>, top: seq<Statement>)
    requires top != []
    ensures block + top != [] && Front(block + top) == block + Front(top) && Last(block + top) == Last(top)
  {
  }

  /** The top block of a stack on `below`, with `block` in front of it if it is also the bottom. */
  function TopOf(block: seq<Statement>, below: seq<seq<Statement>>, top: seq<Statement>): seq<Statement> {
    if below == [] then block + top else top
  }

  lemma TopOfGrows(block: seq<Statement>, below: seq<seq<Statement>>, top: seq<Statement>, w: string)
    ensures TopOf(block, below, top + [Statement([w], NoBlock)]) == TopOf(block, below, top) + [Statement([w], NoBlock)]
    ensures top != [] ==> TopOf(block, below, top) != [] && Last(TopOf(block, below, top)) == Last(top)
    ensures top != [] ==> TopOf(block, below, AddToken(top, w)) == AddToken(TopOf(block, below, top), w)
  {
    if top != [] {
      BlockBehind(block, top);
    }
  }

  lemma TopOfOwns(block: seq<Statement>, below: seq<seq<Statement>>, top: seq<Statement>, child: Child)
    requires top != []
    ensures TopOf(block, below, top) != [] && Last(TopOf(block, below, top)) == Last(top)
    ensures TopOf(block, below, SetChild(top, child)) == SetChild(TopOf(block, below, top), child)
  {
    BlockBehind(block, top);
  }

  lemma ParentBehind(block: seq<Statement>, below: seq<seq<Statement>>, top: seq<Statement>)
    requires below != [] ==> Last(below) != []
    ensures ParentTokens(OnTop(block, below) + [TopOf(block, below, top)]) == ParentTokens(below + [top])
  {
    if below != [] {
      assert below == Front(below) + [Last(below)];
      OnTopSnoc(block, Front(below), Last(below));
      TopOfOwns(block, Front(below), Last(below), NoBlock);
      var layers := OnTop(block, below) + [TopOf(block, below, top)];
      assert layers[|layers| - 2] == Last(OnTop(block, below));
    }
  }

  /** The layers of a state, taken apart from the top. */
  lemma Apart(s: State) returns (below: seq<seq<Statement>>, top: seq<Statement>)
    requires Inv(s, AnyWord()) && s.layers != []
    ensures s.layers == below + [top] && (below != [] ==> Last(below) != [])
    ensures s.last == Normal || s.last == End || s.last == Close ==> top != []
    ensures s.last == Open ==> top == [] && below != []
  {
    below, top := Front(s.layers), Last(s.layers);
    FrontAndLast(s.layers);
    if |s.layers| >= 2 {
      LastButOne(s.layers);
    }
  }

  lemma WordApart(s: State, below: seq<seq<Statement>>, top: seq<Statement>, w: string)
    requires s.layers == below + [top] && (s.last == Normal ==> top != [])
    ensures StepWord(s, w) ==
            if s.last != Normal then
              Running(s.(layers := below + [top + [Statement([w], NoBlock)]], last := Normal))
            else
              match BindWord(Last(top).tokens, ParentTokens(below + [top]), w, s.env)
              case None => Rejected(s)
              case Some(env) => Running(s.(layers := below + [AddToken(top, w)], last := Normal, env := env))
  {
    assert Front(s.layers) == below;
  }

  lemma WordBehind(block: seq<Statement>, s: State, w: string, below: seq<seq<Statement>>, top: seq<Statement>)
    requires s.layers == below + [top] && (s.last == Normal ==> top != []) && (below != [] ==> Last(below) != [])
    ensures StepWord(Behind(block, s), w) == OutcomeBehind(block, StepWord(s, w))
  {
    OnTopSnoc(block, below, top);
    TopOfGrows(block, below, top, w);
    WordApart(s, below, top, w);
    WordApart(Behind(block, s), OnTop(block, below), TopOf(block, below, top), w);
    OnTopSnoc(block, below, top + [Statement([w], NoBlock)]);
    if s.last == Normal {
      ParentBehind(block, below, top);
      OnTopSnoc(block, below, AddToken(top, w));
    }
  }

  lemma OpenApart(s: State, below: seq<seq<Statement>>, top: seq<Statement>)
    requires s.layers == below + [top] && top != []
    ensures StepOpen(s) ==
            Running(s.(layers := below + [SetChild(top, NoBlock)] + [[]], last := Open, depth := s.depth + 1))
  {
    assert below + [SetChild(top, NoBlock), []] == below + [SetChild(top, NoBlock)] + [[]];
  }

  lemma CloseApart(s: State, front: seq<seq<Statement>>, owner: seq<Statement>, top: seq<Statement>)
    requires s.layers == front + [owner] + [top] && owner != []
    ensures StepClose(s) ==
            if s.last != End && s.last != Open && s.last != Close then Rejected(s)
            else Running(State(front + [SetChild(owner, Block(top))], Close, s.depth - 1,
                               if s.last == Open then BindEmptyBlock(Last(owner).tokens, s.env) else s.env))
  {
    assert Front(s.layers) == front + [owner];
  }

  lemma OpenedOnTop(block: seq<Statement>, below: seq<seq<Statement>>, top: seq<Statement>)
    requires top != []
    ensures OnTop(block, below + [SetChild(top, NoBlock)] + [[]]) ==
            OnTop(block, below) + [SetChild(TopOf(block, below, top), NoBlock)] + [[]]
  {
    TopOfOwns(block, below, top, NoBlock);
    OnTopSnoc(block, below, SetChild(top, NoBlock));
    OnTopSnoc(block, below + [SetChild(top, NoBlock)], []);
  }

  lemma OpenBehind(block: seq<Statement>, s: State, below: seq<seq<Statement>>, top: seq<Statement>)
    requires s.layers == below + [top] && top != []
    ensures StepOpen(Behind(block, s)) == OutcomeBehind(block, StepOpen(s))
  {
    OnTopSnoc(block, below, top);
    TopOfOwns(block, below, top, NoBlock);
    OpenApart(s, below, top);
    OpenApart(Behind(block, s), OnTop(block, below), TopOf(block, below, top));
    OpenedOnTop(block, below, top);
  }

  lemma ClosedOnTop(block: seq<Statement>, front: seq<seq<Statement>>, owner: seq<Statement>, top: seq<Statement>)
    requires owner != []
    ensures OnTop(block, front + [owner] + [top]) == OnTop(block, front) + [TopOf(block, front, owner)] + [top]
    ensures OnTop(block, front + [SetChild(owner, Block(top))]) ==
            OnTop(block, front) + [SetChild(TopOf(block, front, owner), Block(top))]
  {
    OnTopSnoc(block, front, owner);
    OnTopSnoc(block, front + [owner], top);
    TopOfOwns(block, front, owner, Block(top));
    OnTopSnoc(block, front, SetChild(owner, Block(top)));
  }

  lemma CloseBehind(block: seq<Statement>, s: State, front: seq<seq<Statement>>, owner: seq<Statement>,
                    top: seq<Statement>)
    requires s.layers == front + [owner] + [top] && owner != []
    ensures StepClose(Behind(block, s)) == OutcomeBehind(block, StepClose(s))
  {
    ClosedOnTop(block, front, owner, top);
    TopOfOwns(block, front, owner, Block(top));
    CloseApart(s, front, owner, top);
    CloseApart(Behind(block, s), OnTop(block, front), TopOf(block, front, owner), top);
  }

  /** The layers of a state with two blocks or more, taken apart from the top. */
  lemma ApartTwice(s: State) returns (front: seq<seq<Statement>>, owner: seq<Statement>, top: seq<Statement>)
    requires Inv(s, AnyWord()) && |s.layers| >= 2
    ensures s.layers == front + [owner] + [top] && owner != []
  {
    front, owner, top := Front(Front(s.layers)), s.layers[|s.layers| - 2], Last(s.layers);
    FrontAndLast(s.layers);
    FrontAndLast(Front(s.layers));
    LastButOne(s.layers);
  }

  lemma StepBehind(block: seq<Statement>, s: State, t: Token)
    requires Inv(s, AnyWord()) && !(t.StartBlock? && s.last == Start)
    ensures Step(Behind(block, s), t) == OutcomeBehind(block, Step(s, t))
  {
    if s.layers != [] {
      var below, top := Apart(s);
      match t
      case Word(w) => WordBehind(block, s, w, below, top);
      case StartBlock =>
        OnTopSnoc(block, below, top);
        if top != [] {
          OpenBehind(block, s, below, top);
        }
      case EndBlock =>
        if |s.layers| >= 2 {
          var front, owner, closed := ApartTwice(s);
          CloseBehind(block, s, front, owner, closed);
        }
      case _ =>
    }
  }

  lemma {:induction false} RunBehind(block: seq<Statement>, s: State, ts: seq<Token>)
    requires Inv(s, AnyWord())
    requires s.last == Start ==> Significant(ts) == [] || !Significant(ts)[0].StartBlock?
    ensures Run(Running(Behind(block, s)), ts) == OutcomeBehind(block, Run(Running(s), ts))
    decreases |ts|
  {
    if ts != [] {
      StepBehind(block, s, ts[0]);
      StepKeepsInv(s, ts[0], AnyWord());
      var o := Step(s, ts[0]);
      if o.Running? {
        RunBehind(block, o.state, ts[1..]);
      }
    }
  }

  lemma BehindInitial(block: seq<Statement>, addrs: map<string, ConfigArg>)
    ensures Behind(block, Initial(addrs)) == State([block], Start, 0, Env(-1, addrs))
  {
    assert block + [] == block;
  }

  lemma LeadingBlock(ts: seq<Token>, addrs: map<string, ConfigArg>)
    requires Significant(ts) != [] && Significant(ts)[0].StartBlock?
    ensures Run(Running(Initial(addrs)), ts).Undefined?
  {
    RunSkipsComments(Running(Initial(addrs)), ts);
    assert Step(Initial(addrs), StartBlock) == Undefined;
  }

  lemma LeadingToken(text: string)
    ensures var ts, us := InnerTokens(text), Significant(Tokens(text));
            us != [] && (us[0].StartBlock? <==> ts != [] && ts[0].StartBlock?)
  {
    SignificantTokens(text);
  }

  /** Parsing into a configuration that holds statements already does what parsing into an empty one does,
      with its statements behind theirs, unless the text starts with a block, which in an empty
      configuration is undefined behaviour. */
  lemma ParseOntoAppends(text: string, block: seq<Statement>, addrs: map<string, ConfigArg>)
    ensures var ts, o := InnerTokens(text), ParseOnto(text, block, addrs);
            && (ts == [] || !ts[0].StartBlock? ==> o == OutcomeBehind(block, ParseText(text, addrs)))
            && (ts != [] && ts[0].StartBlock? && block == [] ==> o.Undefined?)
  {
    LeadingToken(text);
    if Significant(Tokens(text))[0].StartBlock? {
      LeadingBlock(Tokens(text), addrs);
    } else {
      BehindInitial(block, addrs);
      RunBehind(block, Initial(addrs), Tokens(text));
    }
  }
}
