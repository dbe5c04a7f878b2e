/** The configuration grammar read by recursive descent, and the proof that the stack machine
    accepts the same streams, builds the same trees and fills in the same bindings. */
module Grammar {
  import opened CxxStrings
  import opened ConfigTree
  import opened Scanner
  import opened StackMachine
  import opened StreamShape
  import opened Bindings

  datatype Reading = Fail | Read(statements: seq<Statement>, rest: seq<Token>)

  /** The words at the front of a stream. */
  function Words(ts: seq<Token>): (words: seq<string>)
    ensures |words| <= |ts|
    ensures forall i :: 0 <= i < |words| ==> ts[i] == Word(words[i])
    ensures |words| < |ts| ==> !ts[|words|].Word?
  {
    if ts != [] && ts[0].Word? then [ts[0].text] + Words(ts[1..]) else []
  }

  /** block ::= { words ( ';' | '{' block '}' ) | '{' block '}' }
      The statements before `ts` in the same block are `done`. A bracketed block belongs to the
      statement before it, be that finished or not, and takes the place of a block it already has.
      Reading stops at the bracket that closes the enclosing block. */
  function ReadBlock(ts: seq<Token>, done: seq<Statement>): (r: Reading)
    ensures r.Read? ==> |r.rest| <= |ts| && (r.rest != [] ==> r.rest[0].EndBlock?)
    decreases |ts|
  {
    if ts == [] || ts[0].EndBlock? then Read(done, ts)
    else if ts[0].StartBlock? then
      if done == [] then Fail else
        var inner := ReadBlock(ts[1..], []);
        if inner.Fail? || inner.rest == [] then Fail
        else ReadBlock(inner.rest[1..], SetChild(done, Block(inner.statements)))
    else
      var words := Words(ts);
      var rest := ts[|words|..];
      var next := done + [Statement(words, NoBlock)];
      if words == [] || rest == [] then Fail
      else if rest[0].StatementEnd? then ReadBlock(rest[1..], next)
      else if rest[0].StartBlock? then ReadBlock(rest, next)
      else Fail
  }

  /** What the stream of a block binds, in the order of its tokens, whether or not the block it stands
      in is replaced later. `last` are the words of the statement before `ts`, `parent` those of the
      statement that owns the block. */
  function BlockEvents(ts: seq<Token>, last: seq<string>, parent: seq<string>): seq<Event>
    decreases |ts|
  {
    if ts == [] || ts[0].EndBlock? then []
    else if ts[0].StartBlock? then
      var inner := ReadBlock(ts[1..], []);
      if inner.Fail? || inner.rest == [] then []
      else
        (if inner.statements == [] then ChildEvents(last, Block([])) else BlockEvents(ts[1..], [], last))
        + BlockEvents(inner.rest[1..], last, parent)
    else
      var words := Words(ts);
      var rest := ts[|words|..];
      if words == [] || rest == [] then []
      else TokenEvents(words, parent) + BlockEvents(if rest[0].StatementEnd? then rest[1..] else rest, words, parent)
  }

  /** The words of the last statement of a block. */
  function LastWords(done: seq<Statement>): seq<string> {
    if done == [] then [] else Last(done).tokens
  }

  /** The bindings once a block is read, behind the statements `done` of a block owned by `parent`. */
  function Bound(env: Env, ts: seq<Token>, done: seq<Statement>, parent: seq<string>): Env {
    ApplyAll(env, BlockEvents(ts, LastWords(done), parent))
  }

  lemma BoundBlock(env: Env, ts: seq<Token>, done: seq<Statement>, parent: seq<string>)
    requires ts != [] && ts[0].StartBlock? && done != []
    requires ReadBlock(ts[1..], []).Read? && ReadBlock(ts[1..], []).rest != []
    ensures var inner := ReadBlock(ts[1..], []);
            var inside := if inner.statements == [] then BindEmptyBlock(LastWords(done), env)
                          else Bound(env, ts[1..], [], LastWords(done));
            Bound(env, ts, done, parent) ==
                Bound(inside, inner.rest[1..], SetChild(done, Block(inner.statements)), parent)
  {
    var inner, last := ReadBlock(ts[1..], []), LastWords(done);
    var es := if inner.statements == [] then ChildEvents(last, Block([])) else BlockEvents(ts[1..], [], last);
    var fs := BlockEvents(inner.rest[1..], last, parent);
    assert BlockEvents(ts, last, parent) == es + fs;
    ApplyAppend(env, es, fs);
    CloseEffect(env, last, []);
  }

  lemma WordsFirst(ts: seq<Token>, last: seq<string>, parent: seq<string>)
    requires ts != [] && ts[0].Word? && |Words(ts)| < |ts|
    ensures var rest := ts[|Words(ts)|..];
            BlockEvents(ts, last, parent) == TokenEvents(Words(ts), parent)
              + BlockEvents(if rest[0].StatementEnd? then rest[1..] else rest, Words(ts), parent)
  {
  }

  lemma BoundWords(env: Env, ts: seq<Token>, done: seq<Statement>, parent: seq<string>)
    requires ts != [] && ts[0].Word? && |Words(ts)| < |ts|
    ensures var rest := ts[|Words(ts)|..];
            Bound(env, ts, done, parent) ==
            Bound(ApplyAll(env, TokenEvents(Words(ts), parent)), if rest[0].StatementEnd? then rest[1..] else rest,
                  done + [Statement(Words(ts), NoBlock)], parent)
  {
    var words, rest := Words(ts), ts[|Words(ts)|..];
    var fs := BlockEvents(if rest[0].StatementEnd? then rest[1..] else rest, words, parent);
    WordsFirst(ts, LastWords(done), parent);
    ApplyAppend(env, TokenEvents(words, parent), fs);
  }

  predicate ListensFollowed(ts: seq<Token>) {
    forall i :: 1 <= i < |ts| && ts[i - 1] == Word("listen") && ts[i].Word? ==> SafePort(ts[i].text) != -1
  }

  // ---------- the machine on a run of words ----------

  /** `w` may follow `tokens` in a statement. */
  predicate MayFollow(tokens: seq<string>, w: string) {
    tokens != [] && Last(tokens) == "listen" ==> SafePort(w) != -1
  }

  /** The stack with `words` added to the statement at its top. */
  function Grown(layers: seq<seq<Statement>>, words: seq<string>): seq<seq<Statement>>
    requires layers != [] && Last(layers) != []
  {
    var top := Last(layers);
    Front(layers) + [Front(top) + [Last(top).(tokens := Last(top).tokens + words)]]
  }

  lemma StepGrows(s: State, w: string)
    requires s.layers != [] && s.last == Normal && Last(s.layers) != []
    requires MayFollow(Last(Last(s.layers)).tokens, w)
    ensures var o := Step(s, Word(w));
            && o.Running? && o.state.last == Normal && o.state.depth == s.depth
            && o.state.layers == Grown(s.layers, [w])
  {
  }

  lemma GrownTwice(layers: seq<seq<Statement>>, w: string, words: seq<string>)
    requires layers != [] && Last(layers) != []
    ensures var l := Grown(layers, [w]);
            && l != [] && Last(l) != [] && Last(Last(l)).tokens == Last(Last(layers)).tokens + [w]
            && Grown(l, words) == Grown(layers, [w] + words)
  {
    var top := Last(layers);
    var l := Grown(layers, [w]);
    assert Front(l) == Front(layers) && Front(Last(l)) == Front(top);
    assert Last(top).tokens + [w] + words == Last(top).tokens + ([w] + words);
  }

  lemma GrownByNothing(layers: seq<seq<Statement>>)
    requires layers != [] && Last(layers) != []
    ensures Grown(layers, []) == layers
  {
    var top := Last(layers);
    assert Last(top).tokens + [] == Last(top).tokens;
    assert Front(top) + [Last(top)] == top && Front(layers) + [top] == layers;
  }

  /** Words that follow a word extend the last statement of the top block. */
  lemma {:induction false} RunWords(s: State, words: seq<string>, ts: seq<Token>)
    requires s.layers != [] && s.last == Normal && Last(s.layers) != []
    requires |ts| == |words| && forall i :: 0 <= i < |words| ==> ts[i] == Word(words[i])
    requires ListensFollowed(ts)
    requires words != [] ==> MayFollow(Last(Last(s.layers)).tokens, words[0])
    ensures var o := Run(Running(s), ts);
            && o.Running? && o.state.last == Normal && o.state.depth == s.depth
            && o.state.layers == Grown(s.layers, words)
    decreases |words|
  {
    if words == [] {
      GrownByNothing(s.layers);
    } else {
      StepGrows(s, words[0]);
      GrownTwice(s.layers, words[0], words[1..]);
      assert |words| > 1 ==> ts[1] == Word(words[1]) && ts[0] == Word(words[0]);
      assert forall i :: 1 <= i < |ts| ==> ts[1..][i - 1] == ts[i];
      RunWords(Step(s, ts[0]).state, words[1..], ts[1..]);
      assert [words[0]] + words[1..] == words;
    }
  }

  /** From a state that expects a new statement, words make one. */
  lemma RunStatementWords(s: State, words: seq<string>, ts: seq<Token>)
    requires s.layers != [] && s.last != Normal
    requires words != [] && |ts| == |words| && forall i :: 0 <= i < |words| ==> ts[i] == Word(words[i])
    requires ListensFollowed(ts)
    ensures var o := Run(Running(s), ts);
            && o.Running? && o.state.last == Normal && o.state.depth == s.depth
            && o.state.layers == Front(s.layers) + [Last(s.layers) + [Statement(words, NoBlock)]]
  {
    var s' := Step(s, ts[0]).state;
    var top := Last(s.layers) + [Statement([words[0]], NoBlock)];
    assert s'.layers == Front(s.layers) + [top];
    assert |words| > 1 ==> ts[1] == Word(words[1]) && ts[0] == Word(words[0]);
    assert forall i :: 1 <= i < |ts| ==> ts[1..][i - 1] == ts[i];
    RunWords(s', words[1..], ts[1..]);
    assert [words[0]] + words[1..] == words;
    assert Front(top) == Last(s.layers);
  }

  /** The events of `words` added one by one behind `tokens`. */
  function AddedEvents(tokens: seq<string>, words: seq<string>, parent: seq<string>): seq<Event>
    requires tokens != []
    decreases |words|
  {
    if words == [] then []
    else PairEvents(Last(tokens), words[0], parent) + AddedEvents(tokens + [words[0]], words[1..], parent)
  }

  lemma TokenSnoc(tokens: seq<string>, w: string, parent: seq<string>)
    requires tokens != []
    ensures TokenEvents(tokens + [w], parent) == TokenEvents(tokens, parent) + PairEvents(Last(tokens), w, parent)
  {
    var next := tokens + [w];
    assert Front(next) == tokens && next[|next| - 2] == Last(tokens);
  }

  lemma WordMoved(tokens: seq<string>, words: seq<string>)
    requires words != []
    ensures tokens + [words[0]] + words[1..] == tokens + words
  {
  }

  lemma {:induction false} AddedAre(tokens: seq<string>, words: seq<string>, parent: seq<string>)
    requires tokens != []
    ensures TokenEvents(tokens + words, parent) == TokenEvents(tokens, parent) + AddedEvents(tokens, words, parent)
    decreases |words|
  {
    if words == [] {
      assert tokens + words == tokens;
    } else {
      var next, rest := tokens + [words[0]], words[1..];
      WordMoved(tokens, words);
      AddedAre(next, rest, parent);
      TokenSnoc(tokens, words[0], parent);
      EventsAssociate(TokenEvents(tokens, parent), PairEvents(Last(tokens), words[0], parent),
                      AddedEvents(next, rest, parent));
    }
  }

  lemma EventsAssociate(es: seq<Event>, fs: seq<Event>, gs: seq<Event>)
    ensures es + (fs + gs) == (es + fs) + gs
  {
  }

  lemma StepBinds(s: State, w: string)
    requires s.layers != [] && s.last == Normal && Last(s.layers) != [] && Last(Last(s.layers)).tokens != []
    requires MayFollow(Last(Last(s.layers)).tokens, w)
    ensures var o, tokens := Step(s, Word(w)), Last(Last(s.layers)).tokens;
            && o.Running? && o.state.env == ApplyAll(s.env, PairEvents(Last(tokens), w, ParentTokens(s.layers)))
            && ParentTokens(o.state.layers) == ParentTokens(s.layers)
  {
    var tokens, parent := Last(Last(s.layers)).tokens, ParentTokens(s.layers);
    BindIsApply(tokens, parent, w, s.env);
    GrownParent(s.layers, [w]);
  }

  lemma GrownParent(layers: seq<seq<Statement>>, words: seq<string>)
    requires layers != [] && Last(layers) != []
    ensures ParentTokens(Grown(layers, words)) == ParentTokens(layers)
  {
    assert |layers| >= 2 ==> Grown(layers, words)[|layers| - 2] == layers[|layers| - 2];
  }

  /** What the words that follow a word bind. */
  lemma {:induction false} RunWordsBinds(s: State, words: seq<string>, ts: seq<Token>)
    requires s.layers != [] && s.last == Normal && Last(s.layers) != [] && Last(Last(s.layers)).tokens != []
    requires |ts| == |words| && forall i :: 0 <= i < |words| ==> ts[i] == Word(words[i])
    requires ListensFollowed(ts)
    requires words != [] ==> MayFollow(Last(Last(s.layers)).tokens, words[0])
    ensures var o := Run(Running(s), ts);
            o.Running? && o.state.env ==
              ApplyAll(s.env, AddedEvents(Last(Last(s.layers)).tokens, words, ParentTokens(s.layers)))
    decreases |words|
  {
    if words != [] {
      var tokens, parent, s1 := Last(Last(s.layers)).tokens, ParentTokens(s.layers), Step(s, ts[0]).state;
      StepGrows(s, words[0]);
      StepBinds(s, words[0]);
      GrownTwice(s.layers, words[0], words[1..]);
      assert |words| > 1 ==> ts[1] == Word(words[1]) && ts[0] == Word(words[0]);
      assert forall i :: 1 <= i < |ts| ==> ts[1..][i - 1] == ts[i];
      RunWordsBinds(s1, words[1..], ts[1..]);
      ApplyAppend(s.env, PairEvents(Last(tokens), words[0], parent), AddedEvents(tokens + [words[0]], words[1..],
          parent));
    }
  }

  lemma FirstWordStep(s: State, w: string)
    requires s.layers != [] && s.last != Normal
    ensures var o := Step(s, Word(w));
            && o.Running? && o.state.last == Normal && o.state.env == s.env
            && o.state.layers == Front(s.layers) + [Last(s.layers) + [Statement([w], NoBlock)]]
            && Last(Last(o.state.layers)).tokens == [w] && ParentTokens(o.state.layers) == ParentTokens(s.layers)
  {
    var layers := Front(s.layers) + [Last(s.layers) + [Statement([w], NoBlock)]];
    assert |s.layers| >= 2 ==> layers[|s.layers| - 2] == s.layers[|s.layers| - 2];
  }

  lemma OneWordBindsNothing(w: string, parent: seq<string>)
    ensures TokenEvents([w], parent) == []
  {
  }

  /** What the words of a new statement bind. */
  lemma RunStatementBinds(s: State, words: seq<string>, ts: seq<Token>)
    requires s.layers != [] && s.last != Normal
    requires words != [] && |ts| == |words| && forall i :: 0 <= i < |words| ==> ts[i] == Word(words[i])
    requires ListensFollowed(ts)
    ensures var o := Run(Running(s), ts);
            o.Running? && o.state.env == ApplyAll(s.env, TokenEvents(words, ParentTokens(s.layers)))
  {
    var w, rest, parent := words[0], words[1..], ParentTokens(s.layers);
    FirstWordStep(s, w);
    assert |words| > 1 ==> ts[1] == Word(words[1]) && ts[0] == Word(w);
    assert forall i :: 1 <= i < |ts| ==> ts[1..][i - 1] == ts[i];
    RunWordsBinds(Step(s, ts[0]).state, rest, ts[1..]);
    AddedAre([w], rest, parent);
    assert [w] + rest == words;
    OneWordBindsNothing(w, parent);
    assert [] + AddedEvents([w], rest, parent) == AddedEvents([w], rest, parent);
  }

  // ---------- the machine reads what the grammar reads ----------

  /** The machine is inside a block whose finished statements are `done`. */
  predicate Inside(s: State, done: seq<Statement>) {
    && s.layers != [] && Last(s.layers) == done && s.last != Normal
    && (done == [] <==> s.last == Start || s.last == Open)
    && (s.last == Start ==> |s.layers| == 1)
    && (forall i :: 0 <= i < |s.layers| - 1 ==> s.layers[i] != [])
    && s.depth == |s.layers| - 1
  }

  lemma ListensTail(ts: seq<Token>, n: nat)
    requires n <= |ts| && AllInner(ts) && ListensFollowed(ts)
    ensures AllInner(ts[n..]) && ListensFollowed(ts[n..])
    ensures ListensFollowed(ts[..n])
  {
    assert forall i :: n <= i < |ts| ==> ts[i] == ts[n..][i - n];
  }

  /** What a reading of a block tells about the machine's run over the rest of the input, `ts`
      followed by the end: the run gets to the closing bracket in a state `s'` with the same
      statements on top of an otherwise unchanged stack and with what the block binds entered into
      the bindings, or else the input is not accepted. */
  predicate Follows(s: State, ts: seq<Token>, r: Reading, s': State)
    requires s.layers != []
  {
    match r
    case Fail => !Run(Running(s), ts + [Eof]).Accepted?
    case Read(statements, rest) =>
      && Inside(s', statements) && Front(s'.layers) == Front(s.layers)
      && Run(Running(s), ts + [Eof]) == Run(Running(s'), rest + [Eof])
      && (if rest == ts then s' == s else s'.last != Start && s'.last != Open)
      && AllInner(rest) && ListensFollowed(rest)
      && s'.env == Bound(s.env, ts, Last(s.layers), ParentTokens(s.layers))
  }

  lemma {:induction false} MachineFollowsGrammar(s: State, ts: seq<Token>, done: seq<Statement>)
    returns (s': State)
    requires Inside(s, done) && AllInner(ts) && ListensFollowed(ts)
    ensures Follows(s, ts, ReadBlock(ts, done), s')
    decreases |ts|, 1
  {
    s' := s;
    var all := ts + [Eof];
    if ts != [] && !ts[0].EndBlock? {
      assert all[0] == ts[0] && all[1..] == ts[1..] + [Eof];
      if ts[0].StartBlock? {
        if done != [] {
          s' := BlockFollows(s, ts, done);
        }
      } else if ts[0].Word? {
        s' := StatementFollows(s, ts, done);
      }
    }
  }

  /** `{` on top of `done`, then a block read up to its bracket in state `s2`, then that bracket. */
  lemma BracketsClose(s: State, done: seq<Statement>, s2: State, statements: seq<Statement>)
    requires Inside(s, done) && done != []
    requires Inside(s2, statements) && Front(s2.layers) == Front(StepOpen(s).state.layers)
    ensures var o := Step(s2, EndBlock);
            && o.Running? && Inside(o.state, SetChild(done, Block(statements)))
            && Front(o.state.layers) == Front(s.layers) && o.state.last == Close
            && o.state.env == if statements == [] then BindEmptyBlock(LastWords(done), s2.env) else s2.env
  {
    var below := Front(s2.layers);
    assert below == Front(s.layers) + [SetChild(done, NoBlock)];
    assert Last(below) == SetChild(done, NoBlock) && Front(below) == Front(s.layers);
    assert SetChild(SetChild(done, NoBlock), Block(statements)) == SetChild(done, Block(statements));
  }

  lemma SameParent(layers: seq<seq<Statement>>, layers': seq<seq<Statement>>)
    requires layers != [] && layers' != [] && Front(layers) == Front(layers')
    ensures ParentTokens(layers) == ParentTokens(layers')
  {
    assert |layers| == |Front(layers)| + 1 && |layers'| == |Front(layers')| + 1;
    assert |layers| >= 2 ==> layers[|layers| - 2] == Front(layers)[|layers| - 2] == layers'[|layers| - 2];
  }

  lemma OpenedBlock(s: State, done: seq<Statement>)
    requires Inside(s, done) && done != []
    ensures var o := Step(s, StartBlock);
            && o.Running? && Inside(o.state, []) && o.state.last == Open && o.state.env == s.env
            && |o.state.layers| >= 2 && ParentTokens(o.state.layers) == LastWords(done)
  {
  }

  lemma RunHead(s: State, ts: seq<Token>)
    requires ts != []
    ensures Run(Running(s), ts + [Eof]) == Run(Step(s, ts[0]), ts[1..] + [Eof])
  {
    assert (ts + [Eof])[1..] == ts[1..] + [Eof];
  }

  lemma NoClosingBracket(s: State, statements: seq<Statement>)
    requires Inside(s, statements) && |s.layers| >= 2
    ensures !Run(Running(s), [] + [Eof]).Accepted?
  {
    assert [] + [Eof] == [Eof];
    RunOne(Running(s), Eof);
  }

  lemma {:induction false} BlockFollows(s: State, ts: seq<Token>, done: seq<Statement>)
    returns (s': State)
    requires Inside(s, done) && AllInner(ts) && ListensFollowed(ts)
    requires ts != [] && ts[0].StartBlock? && done != []
    ensures Follows(s, ts, ReadBlock(ts, done), s')
    decreases |ts|, 0
  {
    var s1 := StepOpen(s).state;
    RunHead(s, ts);
    ListensTail(ts, 1);
    OpenedBlock(s, done);
    var inner := ReadBlock(ts[1..], []);
    var s2 := MachineFollowsGrammar(s1, ts[1..], []);
    s' := s2;
    if inner.Read? {
      if inner.rest == [] {
        NoClosingBracket(s2, inner.statements);
      } else {
        var s3 := BlockCloses(s, ts, done, s1, s2);
        s' := MachineFollowsGrammar(s3, inner.rest[1..], SetChild(done, Block(inner.statements)));
        BlockRestFollows(s, ts, done, s3, s');
      }
    }
  }

  /** The inner block has been read, the machine being in `s2`: the bracket behind it is taken. */
  lemma BlockCloses(s: State, ts: seq<Token>, done: seq<Statement>, s1: State, s2: State) returns (s3: State)
    requires Inside(s, done) && AllInner(ts) && ts != [] && ts[0].StartBlock? && done != []
    requires Step(s, StartBlock) == Running(s1)
    requires Follows(s1, ts[1..], ReadBlock(ts[1..], []), s2)
    requires ReadBlock(ts[1..], []).Read? && ReadBlock(ts[1..], []).rest != []
    ensures var inner := ReadBlock(ts[1..], []);
            && Inside(s3, SetChild(done, Block(inner.statements))) && Front(s3.layers) == Front(s.layers)
            && s3.last == Close
            && Run(Running(s), ts + [Eof]) == Run(Running(s3), inner.rest[1..] + [Eof])
            && AllInner(inner.rest[1..]) && ListensFollowed(inner.rest[1..])
            && s3.env == if inner.statements == [] then BindEmptyBlock(LastWords(done), s.env)
                         else Bound(s.env, ts[1..], [], LastWords(done))
  {
    var inner := ReadBlock(ts[1..], []);
    OpenedBlock(s, done);
    RunHead(s, ts);
    RunHead(s2, inner.rest);
    BracketsClose(s, done, s2, inner.statements);
    ListensTail(inner.rest, 1);
    s3 := Step(s2, EndBlock).state;
  }

  lemma BlockRestFollows(s: State, ts: seq<Token>, done: seq<Statement>, s3: State, s': State)
    requires Inside(s, done) && ts != [] && ts[0].StartBlock? && done != []
    requires ReadBlock(ts[1..], []).Read? && ReadBlock(ts[1..], []).rest != []
    requires var inner := ReadBlock(ts[1..], []);
             var next := SetChild(done, Block(inner.statements));
             && Inside(s3, next) && Front(s3.layers) == Front(s.layers) && s3.last == Close
             && Run(Running(s), ts + [Eof]) == Run(Running(s3), inner.rest[1..] + [Eof])
             && s3.env == (if inner.statements == [] then BindEmptyBlock(LastWords(done), s.env)
                          else Bound(s.env, ts[1..], [], LastWords(done)))
             && Follows(s3, inner.rest[1..], ReadBlock(inner.rest[1..], next), s')
    ensures Follows(s, ts, ReadBlock(ts, done), s')
  {
    var inner := ReadBlock(ts[1..], []);
    var next := SetChild(done, Block(inner.statements));
    assert ReadBlock(ts, done) == ReadBlock(inner.rest[1..], next);
    SameParent(s.layers, s3.layers);
    BoundBlock(s.env, ts, done, ParentTokens(s.layers));
  }

  /** The machine after the words of a new statement, from inside a block. */
  lemma StatementRun(s: State, words: seq<string>, us: seq<Token>, done: seq<Statement>) returns (s1: State)
    requires Inside(s, done) && ListensFollowed(us)
    requires words != [] && |us| == |words| && forall i :: 0 <= i < |words| ==> us[i] == Word(words[i])
    ensures Run(Running(s), us) == Running(s1.(last := Normal)) && s1.last == End
    ensures Inside(s1, done + [Statement(words, NoBlock)]) && Front(s1.layers) == Front(s.layers)
    ensures s1.env == ApplyAll(s.env, TokenEvents(words, ParentTokens(s.layers)))
  {
    RunStatementWords(s, words, us);
    RunStatementBinds(s, words, us);
    var s2 := Run(Running(s), us).state;
    s1 := s2.(last := End);
    assert s1.(last := Normal) == s2;
  }

  /** The words of a statement, read from inside a block. */
  lemma WordsFollow(s: State, ts: seq<Token>, done: seq<Statement>) returns (s': State)
    requires Inside(s, done) && AllInner(ts) && ListensFollowed(ts) && Words(ts) != []
    ensures var words, rest := Words(ts), ts[|Words(ts)|..];
            && Inside(s', done + [Statement(words, NoBlock)]) && Front(s'.layers) == Front(s.layers) && s'.last == End
            && AllInner(rest) && ListensFollowed(rest)
            && Run(Running(s), ts + [Eof]) == Run(Running(s'.(last := Normal)), rest + [Eof])
            && s'.env == ApplyAll(s.env, TokenEvents(words, ParentTokens(s.layers)))
  {
    var words, n := Words(ts), |Words(ts)|;
    ListensTail(ts, n);
    s' := StatementRun(s, words, ts[..n], done);
    RunInTwo(s, ts, n, s'.(last := Normal));
  }

  lemma RunInTwo(s: State, ts: seq<Token>, n: nat, s1: State)
    requires n <= |ts| && Run(Running(s), ts[..n]) == Running(s1)
    ensures Run(Running(s), ts + [Eof]) == Run(Running(s1), ts[n..] + [Eof])
  {
    var us, rest := ts[..n], ts[n..] + [Eof];
    assert ts + [Eof] == us + rest;
    RunAppend(Running(s), us, rest);
  }

  lemma {:induction false} StatementFollows(s: State, ts: seq<Token>, done: seq<Statement>)
    returns (s': State)
    requires Inside(s, done) && AllInner(ts) && ListensFollowed(ts)
    requires ts != [] && ts[0].Word?
    ensures Follows(s, ts, ReadBlock(ts, done), s')
    decreases |ts|, 0
  {
    var words := Words(ts);
    var rest, next := ts[|words|..], done + [Statement(words, NoBlock)];
    var s1 := WordsFollow(s, ts, done);
    s' := s1;
    if rest == [] {
      NoStatementEnd(s1.(last := Normal));
    } else {
      RunHead(s1.(last := Normal), rest);
      if rest[0].StatementEnd? {
        ListensTail(rest, 1);
        s' := MachineFollowsGrammar(s1, rest[1..], next);
        WordsRestFollow(s, ts, done, s1, rest[1..], s');
      } else if rest[0].StartBlock? {
        OpenAfterWord(s1, rest);
        s' := MachineFollowsGrammar(s1, rest, next);
        WordsRestFollow(s, ts, done, s1, rest, s');
      }
    }
  }

  lemma ReadWordsFirst(ts: seq<Token>, done: seq<Statement>)
    requires ts != [] && ts[0].Word? && |Words(ts)| < |ts|
    requires ts[|Words(ts)|].StatementEnd? || ts[|Words(ts)|].StartBlock?
    ensures var rest, next := ts[|Words(ts)|..], done + [Statement(Words(ts), NoBlock)];
            ReadBlock(ts, done) == ReadBlock(if rest[0].StatementEnd? then rest[1..] else rest, next)
  {
  }

  lemma WordsRestFollow(s: State, ts: seq<Token>, done: seq<Statement>, s1: State, rest: seq<Token>, s': State)
    requires Inside(s, done) && ts != [] && ts[0].Word? && |Words(ts)| < |ts|
    requires var after, next := ts[|Words(ts)|..], done + [Statement(Words(ts), NoBlock)];
             && (after[0].StatementEnd? || after[0].StartBlock?)
             && rest == (if after[0].StatementEnd? then after[1..] else after)
             && Inside(s1, next) && Front(s1.layers) == Front(s.layers) && s1.last == End
             && Run(Running(s), ts + [Eof]) == Run(Running(s1), rest + [Eof])
             && s1.env == ApplyAll(s.env, TokenEvents(Words(ts), ParentTokens(s.layers)))
             && Follows(s1, rest, ReadBlock(rest, next), s')
    ensures Follows(s, ts, ReadBlock(ts, done), s')
  {
    var next := done + [Statement(Words(ts), NoBlock)];
    ReadWordsFirst(ts, done);
    SameParent(s.layers, s1.layers);
    BoundWords(s.env, ts, done, ParentTokens(s.layers));
  }

  lemma NoStatementEnd(s: State)
    requires s.last == Normal
    ensures !Run(Running(s), [] + [Eof]).Accepted?
  {
    assert [] + [Eof] == [Eof];
    RunOne(Running(s), Eof);
  }

  /** A block opens the same way after a word as after the end of a statement. */
  lemma OpenAfterWord(s: State, ts: seq<Token>)
    requires s.last == End && ts != [] && ts[0].StartBlock?
    ensures Run(Running(s.(last := Normal)), ts + [Eof]) == Run(Running(s), ts + [Eof])
  {
    RunHead(s, ts);
    RunHead(s.(last := Normal), ts);
    assert Step(s.(last := Normal), StartBlock) == Step(s, StartBlock);
  }

  // ---------- equivalence ----------

  /** Once the root block is closed by a bracket too many, the input is lost. */
  lemma NotAcceptedBelowRoot(s: State, ts: seq<Token>)
    requires s.layers == [] && s.last == Close && s.depth == -1
    requires AllInner(ts)
    ensures !Run(Running(s), ts + [Eof]).Accepted?
  {
    var all := ts + [Eof];
    assert ts != [] ==> all[0] == ts[0];
    assert !Step(s, all[0]).Running? && !Step(s, all[0]).Accepted?;
  }

  lemma ListensCons(t: Token, ts: seq<Token>)
    requires ListensFollowed(ts)
    requires t == Word("listen") && ts != [] && ts[0].Word? ==> SafePort(ts[0].text) != -1
    ensures ListensFollowed([t] + ts)
  {
    var all := [t] + ts;
    forall i | 1 <= i < |all|
      ensures all[i - 1] == Word("listen") && all[i].Word? ==> SafePort(all[i].text) != -1
    {
      assert all[i] == ts[i - 1] && (i > 1 ==> all[i - 1] == ts[i - 2]);
    }
  }

  predicate EndsIn(s: State, w: string) {
    && s.last == Normal && s.layers != [] && Last(s.layers) != []
    && Last(Last(s.layers)).tokens != [] && Last(Last(Last(s.layers)).tokens) == w
  }

  lemma WordStep(s: State, v: string)
    requires Step(s, Word(v)).Running?
    ensures EndsIn(Step(s, Word(v)).state, v)
    ensures forall w :: EndsIn(s, w) && w == "listen" ==> SafePort(v) != -1
  {
  }

  /** From wherever the machine accepts the rest of a stream, every `listen` in it has its port. */
  lemma {:induction false} AcceptedListens(s: State, w: string, ts: seq<Token>)
    requires AllInner(ts) && (s.last == Normal ==> EndsIn(s, w)) && Run(Running(s), ts + [Eof]).Accepted?
    ensures ListensFollowed(ts) && (s.last == Normal ==> ListensFollowed([Word(w)] + ts))
    decreases |ts|
  {
    if ts != [] {
      var t, rest := ts[0], ts[1..];
      RunHead(s, ts);
      var o := Step(s, t);
      assert o.Running? && (t.Word? <==> o.state.last == Normal);
      if t.Word? {
        WordStep(s, t.text);
        AcceptedListens(o.state, t.text, rest);
      } else {
        AcceptedListens(o.state, "", rest);
        ListensCons(t, rest);
      }
      assert [t] + rest == ts;
      if s.last == Normal {
        ListensCons(Word(w), ts);
      }
    }
  }

  /** A block read at the bottom of the stack: the machine accepts iff nothing is left and something was read. */
  lemma RootBlock(s': State, statements: seq<Statement>, rest: seq<Token>)
    requires Inside(s', statements) && |s'.layers| == 1
    requires AllInner(rest) && (rest != [] ==> rest[0].EndBlock?)
    ensures var o := Run(Running(s'), rest + [Eof]);
            && (o.Accepted? <==> rest == [] && s'.last != Start && s'.last != Open)
            && (o.Accepted? ==> o.state == s')
  {
    if rest == [] {
      assert rest + [Eof] == [Eof];
      RunOne(Running(s'), Eof);
    } else {
      RunHead(s', rest);
      ListensTailInner(rest);
      if Step(s', rest[0]).Running? {
        NotAcceptedBelowRoot(Step(s', rest[0]).state, rest[1..]);
      }
    }
  }

  lemma ListensTailInner(ts: seq<Token>)
    requires AllInner(ts) && ts != []
    ensures AllInner(ts[1..])
  {
  }

  /** The stack machine accepts a stream exactly when recursive descent reads all of it, finds at
      least one token and every port is valid; and then the tree is the one recursive descent builds,
      and port and map are what the stream binds, blocks that were replaced included. */
  lemma MachineRefinesGrammar(ts: seq<Token>, addrs: map<string, ConfigArg>)
    requires AllInner(ts)
    ensures var o := Run(Running(Initial(addrs)), ts + [Eof]);
            var r := ReadBlock(ts, []);
            && (o.Accepted? <==> ts != [] && ListensFollowed(ts) && r.Read? && r.rest == [])
            && (o.Accepted? ==> o.state.layers == [r.statements] && Assemble(o.state.layers) == r.statements)
            && (o.Accepted? ==> o.state.env == ApplyAll(Env(-1, addrs), BlockEvents(ts, [], [])))
  {
    var s, r := Initial(addrs), ReadBlock(ts, []);
    if Run(Running(s), ts + [Eof]).Accepted? {
      AcceptedListens(s, "", ts);
    }
    if ListensFollowed(ts) {
      var s' := MachineFollowsGrammar(s, ts, []);
      if r.Read? {
        assert |s'.layers| == |Front(s'.layers)| + 1 == 1;
        assert s'.layers == [r.statements];
        RootBlock(s', r.statements, r.rest);
      }
    }
  }

  // ---------- parsing into a configuration that is not empty ----------

  /** At the start of a parse, behind statements that are there already, all tokens but a closing bracket
      and the end have the effect that they have behind a finished statement. */
  lemma StartsLikeEnd(block: seq<Statement>, env: Env, ts: seq<Token>)
    requires block != [] && AllInner(ts) && ts != [] && !ts[0].EndBlock?
    ensures var o := Run(Running(State([block], Start, 0, env)), ts + [Eof]);
            var o' := Run(Running(State([block], End, 0, env)), ts + [Eof]);
            (o.Accepted? <==> o'.Accepted?) && (o.Accepted? ==> o == o')
  {
    var s, s' := State([block], Start, 0, env), State([block], End, 0, env);
    RunHead(s, ts);
    RunHead(s', ts);
  }

  lemma StartRejects(block: seq<Statement>, env: Env, ts: seq<Token>)
    requires AllInner(ts) && (ts == [] || ts[0].EndBlock?)
    ensures !Run(Running(State([block], Start, 0, env)), ts + [Eof]).Accepted?
  {
    var s := State([block], Start, 0, env);
    if ts == [] {
      assert ts + [Eof] == [Eof];
      RunOne(Running(s), Eof);
    } else {
      RunHead(s, ts);
    }
  }

  lemma OntoFollows(ts: seq<Token>, block: seq<Statement>, env: Env)
    requires AllInner(ts) && ts != [] && !ts[0].EndBlock? && block != []
    ensures var o := Run(Running(State([block], End, 0, env)), ts + [Eof]);
            var r := ReadBlock(ts, block);
            && (o.Accepted? <==> ListensFollowed(ts) && r.Read? && r.rest == [])
            && (o.Accepted? ==> o.state.layers == [r.statements])
            && (o.Accepted? ==> o.state.env == ApplyAll(env, BlockEvents(ts, LastWords(block), [])))
  {
    var s, r := State([block], End, 0, env), ReadBlock(ts, block);
    if Run(Running(s), ts + [Eof]).Accepted? {
      AcceptedListens(s, "", ts);
    }
    if ListensFollowed(ts) {
      var s' := MachineFollowsGrammar(s, ts, block);
      if r.Read? {
        assert |s'.layers| == |Front(s'.layers)| + 1 == 1;
        assert s'.layers == [r.statements];
        RootBlock(s', r.statements, r.rest);
      }
    }
  }

  /** Reading goes on behind the statements of the configuration, in tokens. */
  lemma OntoRefinesGrammar(ts: seq<Token>, block: seq<Statement>, addrs: map<string, ConfigArg>)
    requires AllInner(ts)
    ensures var o := Run(Running(State([block], Start, 0, Env(-1, addrs))), ts + [Eof]);
            var r := ReadBlock(ts, block);
            && (o.Accepted? <==> ts != [] && ListensFollowed(ts) && r.Read? && r.rest == [])
            && (o.Accepted? ==> o.state.layers == [r.statements])
            && (o.Accepted? ==> o.state.env == ApplyAll(Env(-1, addrs), BlockEvents(ts, LastWords(block), [])))
  {
    if block == [] {
      MachineRefinesGrammar(ts, addrs);
    } else if ts == [] || ts[0].EndBlock? {
      StartRejects(block, Env(-1, addrs), ts);
    } else {
      StartsLikeEnd(block, Env(-1, addrs), ts);
      OntoFollows(ts, block, Env(-1, addrs));
    }
  }

  lemma {:induction false} InnerNotAccepted(o: Outcome, ts: seq<Token>)
    requires AllInner(ts) && !o.Accepted?
    ensures !Run(o, ts).Accepted?
    decreases |ts|
  {
    if ts != [] && o.Running? {
      InnerNotAccepted(Step(o.state, ts[0]), ts[1..]);
    }
  }

  lemma ErrorNotAccepted(o: Outcome, ts: seq<Token>)
    requires AllInner(ts) && !o.Accepted?
    ensures !Run(o, ts + [Error]).Accepted?
  {
    RunLast(o, ts, Error);
    InnerNotAccepted(o, ts);
  }

  lemma ParseOntoByInner(text: string, block: seq<Statement>, addrs: map<string, ConfigArg>)
    ensures Tokens(text) != [] && Final(Last(Tokens(text)))
    ensures ParseOnto(text, block, addrs) ==
            Run(Running(State([block], Start, 0, Env(-1, addrs))), InnerTokens(text) + [Last(Tokens(text))])
  {
    InnerAndLast(text);
    RunSkipsComments(Running(State([block], Start, 0, Env(-1, addrs))), Tokens(text));
  }

  /** For every text and whatever statements the configuration holds: the text is accepted iff recursive
      descent, going on behind these statements, reads all of it; a block at its front goes to the last
      of them. Tree, port and map are then what recursive descent says. */
  lemma ParseOntoRefinesGrammar(text: string, block: seq<Statement>, addrs: map<string, ConfigArg>)
    ensures var o := ParseOnto(text, block, addrs);
            var ts := InnerTokens(text);
            var r := ReadBlock(ts, block);
            && (o.Accepted? <==>
                  Last(Tokens(text)).Eof? && ts != [] && ListensFollowed(ts) && r.Read? && r.rest == [])
            && (o.Accepted? ==> o.state.layers == [r.statements])
            && (o.Accepted? ==> o.state.env == ApplyAll(Env(-1, addrs), BlockEvents(ts, LastWords(block), [])))
  {
    ParseOntoByInner(text, block, addrs);
    if Last(Tokens(text)).Eof? {
      OntoRefinesGrammar(InnerTokens(text), block, addrs);
    } else {
      ErrorNotAccepted(Running(State([block], Start, 0, Env(-1, addrs))), InnerTokens(text));
    }
  }

  /** The same for an empty configuration, as every caller in the repository passes it. */
  lemma ParseRefinesGrammar(text: string, addrs: map<string, ConfigArg>)
    ensures var o := ParseText(text, addrs);
            var ts := InnerTokens(text);
            var r := ReadBlock(ts, []);
            && (o.Accepted? <==>
                  Last(Tokens(text)).Eof? && ts != [] && ListensFollowed(ts) && r.Read? && r.rest == [])
            && (o.Accepted? ==> o.state.layers == [r.statements])
            && (o.Accepted? ==> o.state.env == ApplyAll(Env(-1, addrs), BlockEvents(ts, [], [])))
  {
    ParseOntoRefinesGrammar(text, [], addrs);
  }
}
