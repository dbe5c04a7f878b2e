/** The configuration as linked objects, updated in place through a stack of blocks. */
module ConfigObjects {
  import opened ConfigTree
  import opened StackMachine

  /** One statement object. `view` is the value it stands for once it is finished. */
  class NginxConfigStatement {
    var tokens: seq<string>
    var child: NginxConfig?
    ghost var view: Statement

    constructor ()
      ensures tokens == [] && child == null
    {
      tokens, child, view := [], null, Statement([], NoBlock);
    }

    /** Finished, with a finished child block. */
    ghost predicate Done(blocks: set<NginxConfig>)
      reads this, blocks
    {
      && (child != null ==> child in blocks)
      && view == Statement(tokens, if child == null then NoBlock else Block(child.view))
    }

    /** The words, one blank between neighbours, appended to a text. */
    method AppendTokens(prefix: string) returns (text: string)
      ensures text == prefix + PrintTokens(tokens)
    {
      text := prefix;
      for i := 0 to |tokens|
        invariant text == prefix + PrintTokens(tokens[..i])
      {
        assert tokens[..i + 1][..i] == tokens[..i];
        if i != 0 {
          text := text + " ";
        }
        text := text + tokens[i];
        assert text == prefix + PrintTokens(tokens[..i + 1]);
      }
      assert tokens[..|tokens|] == tokens;
    }

    /** The text of the statement, built up by appending. */
    method ToString(depth: nat, ghost blocks: set<NginxConfig>, ghost nodes: set<NginxConfigStatement>)
      returns (text: string)
      requires this in nodes && AllDone(blocks, nodes)
      ensures text == PrintStatement(view, depth)
      decreases view
    {
      text := AppendIndent("", depth);
      text := AppendTokens(text);
      ghost var head := text;
      assert head == Indent(depth) + PrintTokens(view.tokens);
      if child != null {
        text := text + " {\n";
        var block := child.ToString(depth + 1, blocks, nodes);
        text := text + block;
        text := AppendIndent(text, depth);
        text := text + "}";
        PiecesAppended(head, " {\n", block, Indent(depth), "}");
      } else {
        text := text + ";";
      }
      text := text + "\n";
    }
  }

  lemma PiecesAppended(head: string, a: string, b: string, c: string, d: string)
    ensures head + a + b + c + d == head + (a + b + c + d)
  {
  }

  method AppendIndent(prefix: string, depth: nat) returns (text: string)
    ensures text == prefix + Indent(depth)
  {
    text := prefix;
    for i := 0 to depth
      invariant text == prefix + Indent(i)
    {
      text := text + "  ";
      assert text == prefix + Indent(i + 1);
    }
  }

  /** One block object, or the whole configuration. */
  class NginxConfig {
    var statements: seq<NginxConfigStatement>
    ghost var view: seq<Statement>

    constructor ()
      ensures statements == []
    {
      statements, view := [], [];
    }

    /** Finished, with finished statements. */
    ghost predicate Done(nodes: set<NginxConfigStatement>)
      reads this, nodes
    {
      && |view| == |statements|
      && (forall i :: 0 <= i < |view| ==> statements[i] in nodes && view[i] == statements[i].view)
    }

    method ToString(depth: nat, ghost blocks: set<NginxConfig>, ghost nodes: set<NginxConfigStatement>)
      returns (text: string)
      requires this in blocks && AllDone(blocks, nodes)
      ensures text == PrintConfig(view, depth)
      decreases view
    {
      text := "";
      for i := 0 to |statements|
        invariant text == PrintConfig(view[..i], depth)
      {
        assert view[..i + 1][..i] == view[..i];
        assert view[i] == statements[i].view;
        var line := statements[i].ToString(depth, blocks, nodes);
        text := text + line;
      }
      assert view[..|statements|] == view;
    }
  }

  /** Every finished object agrees with its view; since views are finite trees, so is what hangs
      below a finished block. */
  ghost predicate AllDone(blocks: set<NginxConfig>, nodes: set<NginxConfigStatement>)
    reads blocks, nodes
  {
    && (forall b :: b in blocks ==> b.Done(nodes))
    && (forall s :: s in nodes ==> s.Done(blocks))
  }

  // ---------- blocks under construction ----------

  /** Block `b` holds the statements of `layer`: all but the last are finished. */
  ghost predicate HoldsFront(b: NginxConfig, layer: seq<Statement>, nodes: set<NginxConfigStatement>)
    reads b, nodes
  {
    && |b.statements| == |layer|
    && (forall k :: 0 <= k < |layer| - 1 ==> b.statements[k] in nodes && layer[k] == b.statements[k].view)
  }

  /** The last statement of a block, unfinished, with its child block if that is finished. */
  ghost predicate HoldsTop(last: NginxConfigStatement, st: Statement, blocks: set<NginxConfig>)
    reads last, blocks
  {
    && last.tokens == st.tokens
    && (last.child != null ==> last.child in blocks)
    && st.child == if last.child == null then NoBlock else Block(last.child.view)
  }

  /** `config` holds the statements `block`; the last of them is still open. */
  ghost predicate HoldsBlock(config: NginxConfig, block: seq<Statement>, blocks: set<NginxConfig>,
                             nodes: set<NginxConfigStatement>)
    reads config, config.statements, blocks, nodes
  {
    && AllDone(blocks, nodes) && config !in blocks && HoldsFront(config, block, nodes)
    && (block != [] ==>
          Last(config.statements) !in nodes && HoldsTop(Last(config.statements), Last(block), blocks))
  }

  ghost function Footprint(config: NginxConfig, blocks: set<NginxConfig>, nodes: set<NginxConfigStatement>): set<object>
    reads config
  {
    {config} + (set s: NginxConfigStatement | s in config.statements) + blocks + nodes
  }

  /** The configuration gets the view it stands for, so that it can be printed. */
  ghost method FinishConfig(config: NginxConfig, block: seq<Statement>, blocks: set<NginxConfig>,
                            nodes: set<NginxConfigStatement>)
    returns (blocks': set<NginxConfig>, nodes': set<NginxConfigStatement>)
    requires HoldsBlock(config, block, blocks, nodes)
    modifies config`view, config.statements
    ensures AllDone(blocks', nodes') && config in blocks' && config.view == block
    ensures config.statements == old(config.statements)
  {
    nodes' := nodes;
    if block != [] {
      var s := Last(config.statements);
      s.view := Last(block);
      assert AllDone(blocks, nodes);
      nodes' := nodes + {s};
      assert s.Done(blocks) && AllDone(blocks, nodes');
    }
    config.view := block;
    blocks' := blocks + {config};
    assert config.Done(nodes');
  }

  /** The blocks below `next` on the stack: the last statement of each owns the block above it. */
  ghost predicate Chain(stack: seq<NginxConfig>, layers: seq<seq<Statement>>, lasts: seq<NginxConfigStatement>,
                        next: NginxConfig, nodes: set<NginxConfigStatement>)
    reads stack, lasts, nodes
    decreases |stack|
  {
    && |stack| == |layers| == |lasts|
    && (stack != [] ==>
          var b, layer, last := Last(stack), Last(layers), Last(lasts);
          && HoldsFront(b, layer, nodes)
          && layer != [] && last == Last(b.statements) && last !in nodes
          && last.tokens == Last(layer).tokens && last.child == next && Last(layer).child == NoBlock
          && Chain(Front(stack), Front(layers), Front(lasts), b, nodes)
          && b !in Front(stack) && last !in Front(lasts))
  }

  lemma {:induction false} ChainGrows(stack: seq<NginxConfig>, layers: seq<seq<Statement>>,
                                      lasts: seq<NginxConfigStatement>,
                                      next: NginxConfig, nodes: set<NginxConfigStatement>, s: NginxConfigStatement)
    requires Chain(stack, layers, lasts, next, nodes) && s !in lasts
    ensures Chain(stack, layers, lasts, next, nodes + {s})
    decreases |stack|
  {
    if stack != [] {
      ChainGrows(Front(stack), Front(layers), Front(lasts), Last(stack), nodes, s);
    }
  }

  /** One block more below: `s`, the last statement of `b`, owns `next`. */
  lemma ChainPush(stack: seq<NginxConfig>, layers: seq<seq<Statement>>, lasts: seq<NginxConfigStatement>,
                  b: NginxConfig,
                  layer: seq<Statement>, s: NginxConfigStatement, next: NginxConfig, nodes: set<NginxConfigStatement>)
    requires Chain(stack, layers, lasts, b, nodes) && b !in stack && s !in lasts
    requires HoldsFront(b, layer, nodes) && layer != [] && s == Last(b.statements) && s !in nodes
    requires s.tokens == Last(layer).tokens && s.child == next && Last(layer).child == NoBlock
    ensures Chain(stack + [b], layers + [layer], lasts + [s], next, nodes)
  {
    assert Front(stack + [b]) == stack && Front(layers + [layer]) == layers && Front(lasts + [s]) == lasts;
  }

  /** The parser's stack of blocks under construction, bottom first. */
  class ConfigStack {
    var stack: seq<NginxConfig>
    ghost var layers: seq<seq<Statement>>
    /** The last statements of the blocks below the top one. */
    ghost var owners: seq<NginxConfigStatement>
    /** The finished objects. */
    ghost var blocks: set<NginxConfig>
    ghost var nodes: set<NginxConfigStatement>
    ghost var Repr: set<object>

    /** What holds of the objects, whatever the blocks under construction look like. */
    ghost predicate Sound()
      reads this, Repr
    {
      && this in Repr && blocks <= Repr && nodes <= Repr
      && (forall b :: b in stack ==> b in Repr)
      && (forall s :: s in owners ==> s in Repr)
      && AllDone(blocks, nodes)
    }

    /** What holds at every moment, whatever the top block looks like. */
    ghost predicate ValidBelow()
      reads this, Repr
    {
      && Sound() && |stack| == |layers|
      && (if stack == [] then owners == []
          else Last(stack) !in Front(stack) && Chain(Front(stack), Front(layers), owners, Last(stack), nodes))
    }

    /** The top block holds the statements of `top`; the last of them is still open. */
    ghost predicate HoldsOpen(b: NginxConfig, top: seq<Statement>)
      reads this, Repr, b, blocks, nodes
    {
      && HoldsFront(b, top, nodes)
      && (top != [] ==>
            var last := Last(b.statements);
            last in Repr && last !in nodes && last !in owners && HoldsTop(last, Last(top), blocks))
    }

    ghost predicate Valid()
      reads this, Repr
    {
      && ValidBelow()
      && (forall b :: b in stack ==> b !in blocks)
      && (stack != [] ==> HoldsOpen(Last(stack), Last(layers)))
    }

    /** All statements of the top block are finished. */
    ghost predicate ValidFinished()
      reads this, Repr
    {
      && ValidBelow() && stack != []
      && (forall b :: b in stack ==> b !in blocks)
      && |Last(stack).statements| == |Last(layers)|
      && (forall k :: 0 <= k < |Last(layers)| ==>
            Last(stack).statements[k] in nodes && Last(layers)[k] == Last(stack).statements[k].view)
    }

    /** `config_stack.push(config)` on an empty stack. */
    constructor (config: NginxConfig, ghost block: seq<Statement>,
                 ghost blocks: set<NginxConfig>, ghost nodes: set<NginxConfigStatement>)
      requires HoldsBlock(config, block, blocks, nodes)
      ensures Valid() && fresh(Repr - Footprint(config, blocks, nodes)) && stack == [config] && layers == [block]
      ensures this.blocks == blocks && this.nodes == nodes
    {
      stack, layers, owners := [config], [block], [];
      this.blocks, this.nodes := blocks, nodes;
      Repr := {this} + Footprint(config, blocks, nodes);
    }

    lemma TopInRepr()
      requires Valid() && stack != []
      ensures forall s :: s in Last(stack).statements ==> s in Repr
    {
      var b := Last(stack);
      forall k | 0 <= k < |b.statements|
        ensures b.statements[k] in Repr
      {
        assert k < |b.statements| - 1 ==> b.statements[k] in nodes;
      }
    }

    /** `top()->statements_.back()->tokens_` */
    method BackTokens() returns (tokens: seq<string>)
      requires Valid() && layers != [] && Last(layers) != []
      ensures tokens == Last(Last(layers)).tokens
    {
      tokens := Last(Last(stack).statements).tokens;
    }

    /** The words of the statement that owns the top block, looked up by popping and pushing back. */
    method OwnerTokens() returns (tokens: seq<string>)
      requires Valid() && layers != []
      modifies `stack
      ensures Valid() && stack == old(stack)
      ensures tokens == ParentTokens(layers)
    {
      tokens := [];
      var current := Last(stack);
      stack := Front(stack);
      if stack != [] {
        tokens := Last(Last(stack).statements).tokens;
      }
      stack := stack + [current];
      assert stack == old(stack);
    }

    /** The last statement of the top block gets the view it stands for. */
    ghost method FinishLast()
      requires Valid() && layers != []
      modifies `nodes, Repr - {this}
      ensures ValidFinished()
      ensures Last(stack).statements == old(Last(stack).statements)
    {
      if Last(layers) != [] {
        var s := Last(Last(stack).statements);
        s.view := Last(Last(layers));
        assert AllDone(blocks, nodes);
        AddNode(s);
      }
    }

    /** One finished statement more. */
    ghost method AddNode(s: NginxConfigStatement)
      requires ValidBelow() && stack != [] && s in Repr && s !in owners && s.Done(blocks)
      modifies `nodes
      ensures ValidBelow() && nodes == old(nodes) + {s}
    {
      ChainGrows(Front(stack), Front(layers), owners, Last(stack), nodes, s);
      nodes := nodes + {s};
    }

    /** `top()->statements_.emplace_back(new NginxConfigStatement)` */
    method AddStatement()
      requires Valid() && layers != []
      modifies this, Repr
      ensures Valid() && fresh(Repr - old(Repr))
      ensures stack == old(stack)
      ensures layers == Front(old(layers)) + [Last(old(layers)) + [Statement([], NoBlock)]]
    {
      ghost var front, below, block := Front(stack), Front(layers), Last(layers);
      FinishLast();
      Emplace(front, Last(stack), below, block);
    }

    /** The top block `top`, all of whose statements are finished, gets a new one. */
    method Emplace(ghost front: seq<NginxConfig>, top: NginxConfig, ghost below: seq<seq<Statement>>,
                   ghost block: seq<Statement>)
      requires Sound() && stack != [] && front == Front(stack) && top == Last(stack)
          && forall b :: b in stack ==> b !in blocks
      requires top !in front && |front| == |below| && Chain(front, below, owners, top, nodes)
      requires |top.statements| == |block|
      requires forall k :: 0 <= k < |block| ==> top.statements[k] in nodes && block[k] == top.statements[k].view
      modifies this, Repr
      ensures Valid() && fresh(Repr - old(Repr))
      ensures stack == old(stack)
      ensures layers == below + [block + [Statement([], NoBlock)]]
    {
      var s := new NginxConfigStatement();
      top.statements := top.statements + [s];
      Repr := Repr + {s};
      assert Chain(front, below, owners, top, nodes);
      OpenStatement(front, top, below, block, s);
    }

    ghost method OpenStatement(front: seq<NginxConfig>, top: NginxConfig, below: seq<seq<Statement>>,
                               block: seq<Statement>,
                               s: NginxConfigStatement)
      requires Sound() && stack != [] && front == Front(stack) && top == Last(stack)
          && forall b :: b in stack ==> b !in blocks
      requires top !in front && |front| == |below| && Chain(front, below, owners, top, nodes)
      requires |top.statements| == |block| + 1 && top.statements[|block|] == s
      requires forall k :: 0 <= k < |block| ==> top.statements[k] in nodes && block[k] == top.statements[k].view
      requires s in Repr && s !in nodes && s !in owners && s.tokens == [] && s.child == null
      modifies `layers
      ensures Valid() && layers == below + [block + [Statement([], NoBlock)]]
    {
      SetTop(front, top, below, block + [Statement([], NoBlock)]);
    }

    /** `top()->statements_.back()->tokens_.push_back(token)` */
    method AddToBack(token: string)
      requires Valid() && layers != [] && Last(layers) != []
      modifies this, Repr
      ensures Valid() && Repr == old(Repr)
      ensures stack == old(stack)
      ensures layers == Front(old(layers)) + [AddToken(Last(old(layers)), token)]
    {
      var s := Last(Last(stack).statements);
      ghost var below, block := Front(layers), AddToken(Last(layers), token);
      s.tokens := s.tokens + [token];
      assert AllDone(blocks, nodes);
      assert Chain(Front(stack), below, owners, Last(stack), nodes);
      SetTop(Front(stack), Last(stack), below, block);
    }

    /** The blocks under construction are now those of `now`. */
    ghost method SetLayers(now: seq<seq<Statement>>)
      requires Sound() && stack != [] && forall c :: c in stack ==> c !in blocks
      requires |now| == |stack| && Last(stack) !in Front(stack)
      requires Chain(Front(stack), Front(now), owners, Last(stack), nodes) && HoldsOpen(Last(stack), Last(now))
      modifies `layers
      ensures Valid() && layers == now
    {
      layers := now;
    }

    ghost method SetTop(front: seq<NginxConfig>, b: NginxConfig, below: seq<seq<Statement>>, block: seq<Statement>)
      requires Sound() && stack != [] && front == Front(stack) && b == Last(stack)
          && forall c :: c in stack ==> c !in blocks
      requires b !in front && |front| == |below| && Chain(front, below, owners, b, nodes)
      requires HoldsOpen(b, block)
      modifies `layers
      ensures Valid() && layers == below + [block]
    {
      var now := below + [block];
      assert Front(now) == below && Last(now) == block;
      SetLayers(now);
    }

    /** A new block becomes the child of the last statement and the top of the stack. A child the
        statement had before is dropped. */
    method Push()
      requires Valid() && layers != [] && Last(layers) != []
      modifies this, Repr
      ensures Valid() && fresh(Repr - old(Repr))
      ensures |stack| == |old(stack)| + 1 && stack[..|old(stack)|] == old(stack)
      ensures layers == Front(old(layers)) + [SetChild(Last(old(layers)), NoBlock), []]
    {
      var block := new NginxConfig();
      var s := Last(Last(stack).statements);
      ghost var front, b, below, owner := Front(stack), Last(stack), Front(layers), SetChild(Last(layers), NoBlock);
      assert stack == front + [b];
      s.child := block;
      assert AllDone(blocks, nodes);
      assert Chain(front, below, owners, b, nodes) && HoldsFront(b, owner, nodes);
      ChainPush(front, below, owners, b, owner, s, block, nodes);
      PushBlock(block, below + [owner], owners + [s]);
      assert below + [owner] + [[]] == below + [owner, []];
    }

    method PushBlock(block: NginxConfig, ghost below: seq<seq<Statement>>, ghost now: seq<NginxConfigStatement>)
      requires this in Repr && blocks <= Repr && nodes <= Repr && AllDone(blocks, nodes)
      requires forall b :: b in stack ==> b in Repr && b !in blocks
      requires forall s :: s in now ==> s in Repr
      requires block !in Repr && block.statements == []
      requires Chain(stack, below, now, block, nodes)
      modifies this
      ensures Valid() && Repr == old(Repr) + {block}
      ensures stack == old(stack) + [block] && layers == below + [[]]
    {
      ghost var front := stack;
      assert block !in front;
      stack, owners := stack + [block], now;
      Repr := Repr + {block};
      assert forall b :: b in stack ==> b in front || b == block;
      assert Front(stack) == front;
      SetTop(front, block, below, []);
    }

    /** The top block gets the view it stands for. */
    ghost method Finish()
      requires Valid() && layers != []
      modifies `blocks, `nodes, Repr - {this}
      ensures ValidBelow()
      ensures Last(stack).statements == old(Last(stack).statements)
      ensures blocks == old(blocks) + {Last(stack)} && Last(stack).view == Last(layers)
    {
      FinishLast();
      FinishTop();
    }

    ghost method FinishTop()
      requires ValidFinished()
      modifies `blocks, {stack[|stack| - 1]}
      ensures ValidBelow()
      ensures Last(stack).statements == old(Last(stack).statements)
      ensures blocks == old(blocks) + {Last(stack)} && Last(stack).view == Last(layers)
    {
      var top := Last(stack);
      top.view := Last(layers);
      assert top.Done(nodes);
      blocks := blocks + {top};
      assert AllDone(blocks, nodes);
    }

    /** `pop()` of a block that a statement owns: the block is finished. */
    method Pop()
      requires Valid() && |layers| >= 2
      modifies this, Repr
      ensures Valid() && Repr == old(Repr)
      ensures stack == Front(old(stack))
      ensures Last(Front(old(layers))) != []
      ensures layers == Front(Front(old(layers))) + [SetChild(Last(Front(old(layers))), Block(Last(old(layers))))]
    {
      assert forall b :: b in Front(stack) ==> b in stack && b != Last(stack);
      Finish();
      Shrink();
    }

    /** The finished top block leaves the stack. */
    method Shrink()
      requires ValidBelow() && |layers| >= 2
      requires forall b :: b in Front(stack) ==> b !in blocks
      requires Last(stack) in blocks && Last(stack).view == Last(layers)
      modifies `stack, `layers, `owners
      ensures Valid()
      ensures stack == Front(old(stack))
      ensures Last(Front(old(layers))) != []
      ensures layers == Front(Front(old(layers))) + [SetChild(Last(Front(old(layers))), Block(Last(old(layers))))]
    {
      ghost var s, layer, rest := Last(owners), Last(Front(layers)), Front(Front(layers));
      ghost var b, front := Last(Front(stack)), Front(Front(stack));
      ghost var owner := SetChild(layer, Block(Last(layers)));
      assert HoldsFront(b, layer, nodes) && s == Last(b.statements) && b !in front;
      assert Chain(front, rest, Front(owners), b, nodes);
      assert s !in nodes && s !in Front(owners) && s in Repr;
      assert forall o :: o in Front(owners) ==> o in owners;
      stack, owners := Front(stack), Front(owners);
      assert HoldsFront(b, owner, nodes) && HoldsTop(s, Last(owner), blocks);
      SetTop(front, b, rest, owner);
    }

    /** `pop()` of the configuration itself, on a bracket too many. */
    method PopRoot()
      requires Valid() && |layers| == 1
      modifies this
      ensures Valid() && Repr == old(Repr)
      ensures stack == [] && layers == []
    {
      stack, layers, owners := [], [], [];
    }
  }
}
