/** The parsed form of a configuration file, its printer, and the binding records
    that the parser extracts for each location. */
module ConfigTree {

  /** One statement: its words and, when braces followed them, a nested block.
      A block, and a whole configuration, is a sequence of statements. */
  datatype Statement = Statement(tokens: seq<string>, child: Child)
  datatype Child = NoBlock | Block(statements: seq<Statement>)

  /** What the parser records about one location. */
  datatype ConfigArg = ConfigArg(handlerType: string, location: string, root: string, apiKey: string)

  function Indent(depth: nat): string {
    if depth == 0 then "" else Indent(depth - 1) + "  "
  }

  /** The words of a statement, one blank between neighbours. */
  function PrintTokens(tokens: seq<string>): string {
    if |tokens| == 0 then ""
    else if |tokens| == 1 then tokens[0]
    else PrintTokens(tokens[..|tokens| - 1]) + " " + tokens[|tokens| - 1]
  }

  function PrintStatement(s: Statement, depth: nat): string {
    Indent(depth) + PrintTokens(s.tokens) +
    (match s.child
     case NoBlock => ";"
     case Block(statements) => " {\n" + PrintConfig(statements, depth + 1) + Indent(depth) + "}") +
    "\n"
  }

  function PrintConfig(config: seq<Statement>, depth: nat): string {
    if config == [] then ""
    else PrintConfig(config[..|config| - 1], depth) + PrintStatement(config[|config| - 1], depth)
  }
}
