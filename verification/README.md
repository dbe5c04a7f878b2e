# A verified model of the Googolplex web server

The server reads an nginx-style configuration, builds a table of routes from it, and serves requests
through handlers on a pool of threads. This project models the four parts of it that carry state or
grammar, and the text formats of one handler, and proves what they are for.

| files | part of the system |
|---|---|
| `scanner.dfy`, `lexical_rules.dfy` | the configuration scanner: its loop over an input stream, and what one call returns; its rules said with the characters themselves |
| `config_tree.dfy`, `config_objects.dfy` | configuration trees and the printer; the same as linked objects changed through the parser's stack of blocks |
| `stack_machine.dfy`, `config_parser.dfy` | the parser as a transition function with an explicit `Undefined` outcome; the parser's loop on the objects, proved against it |
| `stream_shape.dfy`, `grammar.dfy`, `syntax_rules.dfy` | which token streams are accepted or undefined, said of the stream alone; the grammar read by recursive descent; the rules on short texts |
| `bindings.dfy`, `address_map.dfy`, `replaced_blocks.dfy` | what a configuration binds, the last writer winning; port and location records against the tree at every moment, and where tree and records part |
| `directives.dfy`, `config_files.dfy` | the configuration's words by their names, the printed form by its characters, and files of the tests |
| `printing_loss.dfy`, `round_trip.dfy` | what a text loses in scanner and parser; printing and parsing, exactly for the trees that survive |
| `crud_store.dfy`, `crud_effects.dfy`, `crud_handler.dfy` | files, directories and id index under each request; what each request does, on every store and path; the handler as an object |
| `crud_refinement.dfy`, `crud_laws.dfy` | the store as a map of maps; laws over several requests |
| `routing.dfy`, `dispatch.dfy` | route search, URL keys, and the chain from configuration text to handler |
| `session_protocol.dfy`, `session_objects.dfy` | sessions under any interleaving of threads; the handlers' code that is interleaved |
| `text_formats.dfy` | posted form, history list, titles in URLs, folder names |
| `cxx_strings.dfy` | the C++ string functions the code calls |

Each part has the same shape. A function on values says what the code does, branch by branch. The
methods that follow the code's own loops and updates are proved equal to that function. The main
results are lemmas about the function for all inputs, runs or interleavings. What the function's own
literals are, such as the characters that end a word or the name of a handler type, is said once more
in lemmas that write the literals out.

`dafny verify dfyconfig.toml` checks everything.

## Results worth knowing

- Parsing a printed tree gives the tree back, at any depth, exactly if it is not empty and made of words
  that the scanner can read back, with words in every statement and valid ports
  (`OnlyPrintableTreesSurvive`); which words those are is an exact condition, too (`ScanPrintable`). So
  printing an accepted configuration and parsing it again gives the same tree exactly if no word in it
  has an escape (`ParsePrintParse`). `EscapeInBlockIsLost` is a text on which it does not.
- `NginxConfigParser::Parse` is documented to return true iff the file is valid. It also returns true
  when the last word of the file lacks its semicolon: behind every accepted text such a word changes
  nothing and is lost (`UnterminatedWordIsLost`). On some malformed inputs it calls `top` or `back` on
  an empty container, exactly those of `ParseUndefined`.
- A block that follows a closed block replaces it in the tree, but what the first one bound stays in
  the address map. For every accepted text the map is what the token stream binds, replaced blocks
  included (`ParseBindsStream`), and it agrees with the tree iff the last writers of the two agree
  (`TreeMatchesMap`). `ReplacedBlockStaysBound` is a text on which they do not.
- A GET that lists an unknown directory enters an empty list into the index. On paths made of names,
  that can be observed exactly if the directory holds a file whose name starts with a number: a DELETE
  that answered "not found" before now removes the file (`SilentKeyUnobservable`).
- A PUT without an id leaves index and disk out of step exactly if the entity's name is a number that
  fits an int and is not yet an id of that entity (`EntityPutKeepsFlat`), a PUT with an id exactly if
  the id is a number that fits an int and is not in plain decimal (`NonCanonicalIdBreaksFlat`).
- A POST on a path below an entity is refused if the entity is not listed or the path is a file. Below a
  listed entity it otherwise makes a directory there and lists it as if it were an entity
  (`PostBelowKeepsFlat`).
- A handler at "/" is found by the route search for every path that starts with "/" and has no longer
  route, and then refuses all of these that do not start with two slashes, except "/" itself
  (`RootRouteKeys`).
- A text-generation handler whose location contains "%20" never recognises its own titles
  (`TitleKeyRoundTrip`).

## Model

| member | source | states |
|---|---|---|
| Scanner.ParseToken | src/config_parser.cc:87-210 | the five-state loop, with push-back on a stream that turns bad at its end, returns the token and leaves the input of the recursive description `Scan` |
| Scanner.QuotedChar | src/config_parser.cc:128-185 | one character inside quotes: escapes drop the backslash, a closing quote needs a delimiter behind it, at the end of input it is an error |
| Scanner.ScanProgress | src/config_parser.cc:89-209 | what a call leaves is a suffix of its input, a proper one unless the stream ended or failed, push-back included |
| Scanner.TokensBounded | src/config_parser.cc:220-225 | a parse asks for at most one token more than there are characters, and only the last one is an end or an error |
| Scanner.ScanText | src/config_parser.cc:94-200 | every word returned is a plain word or stands in matching quotes; none is empty |
| Scanner.ScanPrintable | src/config_parser.cc:123-198 | for every text: written before any delimiter it is scanned back as that word if and only if it is plain or quoted without escapes, and then the delimiter is left unread |
| Scanner.TokensWithoutBackslash | src/config_parser.cc:128-185 | an input without backslashes gives only words that survive printing |
| Scanner.LastWordIsDropped | src/config_parser.cc:192-209 | a word cut off by the end of input is reported as the end |
| Scanner.LastWordUnnoticed | src/config_parser.cc:192-209 | an input that is read to its end gives the same tokens with a plain word more at that end |
| Scanner.QuotingRoundTrip | src/config_parser.cc:128-185 | any string, with quote and backslash escaped, is scanned from either kind of quotes as itself in quotes, the delimiter unread |
| LexicalRules.CommentEnds | src/config_parser.cc:187-191 | whatever a comment says, it ends at the first line feed or carriage return, which is taken along, or at the end of the input |
| LexicalRules.CommentLine | src/config_parser.cc:227-230 | a comment line in front of a text changes nothing in what the text is parsed into |
| LexicalRules.BetweenTokens | src/config_parser.cc:94-127 | between tokens a blank, a tab, a line feed and a carriage return are skipped; `;`, `{` and `}` are tokens |
| LexicalRules.BareIsPlain | src/config_parser.cc:94-127 | a text is one unquoted word iff it does not start with a quote, `#` or carriage return and holds none of six characters |
| LexicalRules.WordEnds | src/config_parser.cc:192-198 | behind the text of a word a character ends it, staying unread, iff it is one of blank, tab, line feed, `;`, `{` and `}` |
| LexicalRules.QuoteCloses | src/config_parser.cc:128-185 | for either quote and any text in it: it closes iff one of those six characters follows the closing quote, and is an error otherwise |
| LexicalRules.QuotedWord | src/config_parser.cc:128-185 | text in quotes is kept as it is; a backslash in it is dropped and the next character kept, whatever that is |
| LexicalRules.QuoteLeftOpen | src/config_parser.cc:203-207 | an open quote, a backslash at the end and a closing quote at the end are errors |
| LexicalRules.LayoutScans | src/config_parser.cc:87-210 | every text made of words, quoted words, brackets, semicolons, blanks and comments, in any layout, is read as they mean |
| LexicalRules.SpacingIsFree | src/config_parser.cc:212-386 | texts that differ in layout and comments only are parsed alike |
| StackMachine.StepKeepsInv | src/config_parser.cc:234-346 | one token keeps the invariant of stack, depth and last statements; the step is undefined exactly for a block at the start or right after an opening bracket and for a word or bracket at depth -1 |
| StackMachine.ReachableInv | src/config_parser.cc:213-382 | at every moment of every parse: stack size is open brackets plus one, each lower block's last statement exists and owns the next, every statement has words with valid ports |
| StackMachine.RunSkipsComments | src/config_parser.cc:227-230 | removing the comments changes nothing, the last-token state included |
| StackMachine.LocationNeverEmpty | src/config_parser.cc:261-300 | on scanned words the emptiness tests on location and type are redundant |
| StackMachine.PortOfDecimal | src/config_parser.cc:18-38 | a decimal number of any length is taken as a port iff it is at most 65535 |
| StackMachine.PortOfPrefix | src/config_parser.cc:18-38 | text behind the digits is ignored |
| StackMachine.NegativeIsNoPort | src/config_parser.cc:32-36 | a minus sign before a positive number makes no port |
| StackMachine.LetterIsNoPort | src/config_parser.cc:24-27 | nor does a text that starts with a letter |
| CxxStrings.StoiReads | src/config_parser.cc:22-31 | the conversion reads blanks, one sign, digits and then anything: the number, or nothing if it does not fit 32 bits |
| CxxStrings.DecimalSnoc | src/config_parser.cc:22-22 | the value of a string of digits: each digit more multiplies by ten and adds its own value |
| StreamShape.RunShape | src/config_parser.cc:220-382 | after any stream the machine runs, or is undefined, exactly as the first out-of-order token says; depth and last token are those of the stream |
| StreamShape.AcceptsWellFormed | src/config_parser.cc:326-376 | accepted iff `;` follows words, `}` follows `;`, `{` or `}`, brackets balance, the end is `;` or `}`, ports are valid, and no block lacks an owner |
| StreamShape.ParseAccepts | src/config_parser.cc:212-386 | the same for configuration texts, scanner errors and comments included |
| StreamShape.ParseUndefined | src/config_parser.cc:240-346 | a text leads to undefined behaviour iff its first out-of-order token is an ownerless `{` or comes after the brackets closed once too often |
| StreamShape.ParseOntoAppends | src/config_parser.cc:213-246 | on a text that does not start with a block, parsing into a configuration that holds statements does what parsing into an empty one does, undefined behaviour included, with the statements behind them |
| Grammar.MachineFollowsGrammar | src/config_parser.cc:220-382 | from any stack, the run over a block ends with the statements recursive descent reads on top of an otherwise unchanged stack, and with what the block binds entered into port and map, or is not accepted |
| Grammar.MachineRefinesGrammar | src/config_parser.cc:220-382 | a stream is accepted iff recursive descent reads all of it, it is not empty and its ports are valid; then both build the same tree, replaced blocks included, and port and map are what the stream binds |
| Grammar.ParseOntoRefinesGrammar | src/config_parser.cc:213-382 | for every text and whatever statements the configuration holds: accepted iff recursive descent, going on behind them, reads all of it, a block at the front going to the last of them; tree, port and map are what recursive descent says |
| Grammar.ParseRefinesGrammar | src/config_parser.cc:212-386 | the same for an empty configuration |
| SyntaxRules.StatementTexts | src/config_parser.cc:326-381 | for every word: with one semicolon accepted as one statement; a second semicolon or a closing bracket behind it rejected |
| SyntaxRules.EmptyTexts | src/config_parser.cc:367-376 | the empty text, and every word without a semicolon, rejected |
| SyntaxRules.OpenBracketTexts | src/config_parser.cc:336-375 | for every word: a closing bracket behind it, or an opening one that stays open, rejected |
| SyntaxRules.EmptyBlockTexts | src/config_parser.cc:331-376 | for every word: with empty brackets accepted; a semicolon behind them rejected |
| SyntaxRules.BlockTexts | src/config_parser.cc:331-346 | for all words: the block goes to the statement before it, with or without a semicolon between |
| SyntaxRules.NoSemicolonInBlock | src/config_parser.cc:338-343 | for all words: a word without a semicolon before a closing bracket is rejected |
| SyntaxRules.OwnerlessTexts | src/config_parser.cc:331-335 | an opening bracket at the start, or right behind another, is undefined |
| SyntaxRules.TooManyBrackets | src/config_parser.cc:234-346 | so is a word or bracket after a closing bracket too many |
| AddressMap.WordBooked | src/config_parser.cc:234-320 | a word keeps port and map equal to the events of the unfinished tree in document order |
| AddressMap.CloseBooked | src/config_parser.cc:336-366 | a closing bracket does, too: the closed block's events stand where its statement stands, an empty location block resets its record |
| AddressMap.ParseBindsTree | src/config_parser.cc:243-366 | for accepted texts in which no block is replaced, port and map are the document-order fold over the finished tree, from any initial map |
| Bindings.PortMeaning | src/config_parser.cc:245-253 | the port is the value of the last `listen`, or unchanged without one |
| Bindings.RecordMeaning | src/config_parser.cc:255-361 | on top of any map: a location is recorded iff it was or an event names it; its type is that of the last one, its root and key are the last given since its last empty block; what no event writes stays |
| Bindings.BindSame | src/config_parser.cc:243-319 | on top of any map two lists of events bind the same iff their last writers agree on the port and on type, location, root and key of every location |
| AddressMap.ReplacingForgets | src/config_parser.cc:331-335 | one opening bracket on a closed block: the bindings stay, the old block's events leave the tree, and only if these had no effect do tree and bindings still agree at that moment |
| AddressMap.RunKeepsKeys | src/config_parser.cc:269-284 | at every moment, also of a parse that fails, each record carries the location it is filed under |
| ReplacedBlocks.ParseBindsStream | src/config_parser.cc:243-366 | for every accepted text and every initial map, port and map are the events of its stream, read by recursive descent with replaced blocks kept |
| ReplacedBlocks.TreeMatchesMap | src/config_parser.cc:243-366 | for every accepted text and every initial map, port and map are those of the finished tree iff stream and tree have the same last writers |
| ReplacedBlocks.SecondBlockWins | src/config_parser.cc:331-366 | whatever two blocks follow a statement: the text is accepted, the tree has the second, port and map have both |
| ReplacedBlocks.ReplacedBlockStaysBound | src/config_parser.cc:331-366 | a text whose tree binds nothing and whose map has a record |
| Directives.DirectiveBinds | src/config_parser.cc:254-319 | for every block and every directive in it, as text: it binds iff the block's words end in `location`, a path and a type and the directive is `root`, `data_path` or `api-key`, and then exactly one record |
| Directives.ListenSets | src/config_parser.cc:245-253 | as text: `listen` and a number set the port, or reject the text if the number is above 65535 |
| Directives.OtherWordsBindNothing | src/config_parser.cc:243-319 | as text: outside a block any other two words bind nothing |
| Directives.BlocksAddUp | src/config_parser.cc:269-315 | as text: of two blocks for one location the second sets the type and replaces only the root or key that it names |
| Directives.EmptyBlockResets | src/config_parser.cc:345-365 | as text: an empty second block leaves the type alone of what was bound |
| ConfigFiles.CommentFile | tests/config_files/config_t_comment:1-7 | the test's file, with any comments, name and root: accepted with port 80 and its tree |
| RoundTrip.TokensOfConfig | src/config_parser.cc:40-71 | printed text, at any indentation and before any other text, scans to the token stream of its tree |
| RoundTrip.ReadFlattened | src/config_parser.cc:212-386 | the stream of a tree, wherever it stands, is read back as that tree |
| PrintingLoss.ScanInk | src/config_parser.cc:87-210 | a scan never returns more than it reads, counted in characters that are not blank, and less on a word with an escape |
| PrintingLoss.ReadInk | src/config_parser.cc:331-346 | recursive descent never puts more into the tree than it takes from the stream, and a replaced block is lost |
| PrintingLoss.PrintInk | src/config_parser.cc:40-71 | the printed text holds exactly what the tree holds |
| PrintingLoss.ParseInk | src/config_parser.cc:212-386 | the tree of an accepted text holds no more than the text, and as much only if no word has an escape |
| Directives.IndentIs | src/config_parser.cc:50-52 | two blanks for each level, at every depth |
| Directives.WordsJoined | src/config_parser.cc:53-58 | one blank between words, and no other |
| Directives.PrintedLines | src/config_parser.cc:48-71 | a statement's line, and the lines of a block, character by character at every depth |
| Directives.PrintedInOrder | src/config_parser.cc:40-46 | statements are printed one after the other |
| ConfigFiles.NestedFile | tests/config_parser_test.cc:138-145 | the expected text of the printing test, for any values in it |
| RoundTrip.PrintThenParse | src/config_parser.cc:40-71 | print then parse is the identity on trees of any depth made of printable words, and binds what document order says; only the empty tree is rejected |
| RoundTrip.OnlyPrintableTreesSurvive | src/config_parser.cc:40-71 | for every tree: printing and parsing gives it back iff it is not empty and, at every depth, all statements have words, all words are printable and all ports valid |
| RoundTrip.UnterminatedWordIsLost | src/config_parser.cc:203-209 | behind every accepted text a plain word without a carriage return changes neither verdict nor tree, port or map |
| RoundTrip.PrintedWordIsLost | src/config_parser.cc:203-209 | behind printed text it may be any plain word |
| RoundTrip.ParsePrintParse | src/config_parser.cc:48-71 | for every accepted text: printing and parsing again succeeds with the same tree iff the tree has no escaped words |
| RoundTrip.ParsePrintParsePlain | src/config_parser.cc:48-71 | in particular every accepted text without a backslash |
| RoundTrip.EscapeInBlockIsLost | src/config_parser.cc:128-185 | an accepted text with an escape inside a block, whose tree does not come back |
| ConfigObjects.NginxConfigStatement.ToString | src/config_parser.cc:48-71 | the text appended piece by piece from the objects is the printed form of the statement they stand for |
| ConfigObjects.NginxConfig.ToString | src/config_parser.cc:40-46 | the same for a block |
| ConfigObjects.ConfigStack.AddStatement | src/config_parser.cc:241-241 | a new statement object on the top block; the other blocks and the ownership chain stay |
| ConfigObjects.ConfigStack.AddToBack | src/config_parser.cc:320-320 | a word goes to the last statement of the top block and nowhere else |
| ConfigObjects.ConfigStack.Push | src/config_parser.cc:333-335 | the new block is owned by the last statement, in place of a block it had |
| ConfigObjects.ConfigStack.Pop | src/config_parser.cc:344-344 | the finished block is the child of the last statement of the block below |
| ConfigObjects.ConfigStack.OwnerTokens | src/config_parser.cc:259-267 | popping, looking and pushing back finds the words of the statement that owns the top block and changes nothing |
| ConfigParser.SafePortStoi | src/config_parser.cc:18-38 | conversion with both exceptions caught and the range check |
| ConfigParser.UpdateRoot | src/config_parser.cc:255-285 | `root` and `data_path` set type and root of the enclosing location and keep its key |
| ConfigParser.UpdateApiKey | src/config_parser.cc:286-317 | `api-key` sets type and key and keeps the root |
| ConfigParser.TakeWord | src/config_parser.cc:234-320 | a word, on the objects, is the machine's step |
| ConfigParser.TakeClose | src/config_parser.cc:336-366 | a closing bracket, on the objects, is the machine's step |
| ConfigParser.TakeToken | src/config_parser.cc:223-381 | every turn of the loop, on the objects, is the machine's step |
| ConfigParser.Parse | src/config_parser.cc:212-386 | into a configuration with any statements, on every input without undefined behaviour: the loop over stream and objects returns the machine's verdict, port and map, and on acceptance the objects stand for the machine's tree |
| ConfigParser.ParseAndPrint | tests/config_parser_test.cc:138-145 | a text parsed into a new configuration object and printed from it gives the printed form of the machine's tree |
| CrudStore.ScanBelow | src/request_handler_crud.cc:9-21 | on a strictly increasing list without negative numbers one pass finds the least positive number that is missing, at most the length plus one |
| CrudStore.InsertKeepsList | src/request_handler_crud.cc:29-33 | append and sort keeps such a list and adds exactly the new id |
| CrudStore.WithoutKeepsList | src/request_handler_crud.cc:214-214 | erasing keeps such a list and removes exactly the id |
| CrudStore.AnyRequestKeepsIndex | src/request_handler_crud.cc:82-230 | every request on every path keeps every list of the index such a list |
| CrudStore.AnyRunAllocatesLeastFree | src/request_handler_crud.cc:8-24 | after any requests the next id of an entity is its least free positive number |
| CrudEffects.ListingReads | src/request_handler_crud.cc:108-117 | brackets, commas and a line feed around the ids, in order, each in plain decimal without leading zeros |
| CrudEffects.ListedOnce | src/request_handler_crud.cc:108-117 | such a text determines the ids and their order |
| CrudEffects.GetMeans | src/request_handler_crud.cc:103-135 | on every path: a directory is listed and enters the index, a file is read, anything else is not found |
| CrudEffects.PostMeans | src/request_handler_crud.cc:82-101 | on every path: the least free id is entered and the body stored under it; unprocessable, a directory in the file's place and a lost body told by files, directories and index |
| CrudEffects.PostRefused | src/request_handler_crud.cc:84-91 | on every store: unprocessable iff the key is unlisted, its directory is missing, and a file is in its place or it has no place; then nothing changes |
| CrudEffects.PutMeans | src/request_handler_crud.cc:137-179 | on every path: no digits, a number too large, no place for the directory, a directory in the file's place, created or updated, each with its effect |
| CrudEffects.PutRefused | src/request_handler_crud.cc:163-167 | on every store: unprocessable iff the entity is unlisted and its directory cannot be made; then nothing changes |
| CrudEffects.PartsExist | src/request_handler_crud.cc:141-143 | every suffix has the entity and the name that the statements about PUT and DELETE speak of |
| CrudEffects.DeleteMeans | src/request_handler_crud.cc:181-230 | on every path: directory, nothing there, no number, unlisted entity, each refused without effect; otherwise exactly file and id are removed |
| CrudHandlers.CrudHandler.GetNextId | src/request_handler_crud.cc:8-24 | the loop returns the least free positive id and enters it into the index |
| CrudHandlers.CrudHandler.InsertToMap | src/request_handler_crud.cc:26-38 | true iff the id was missing from a known list, which then has it in order |
| CrudHandlers.CrudHandler.HandlePostRequest | src/request_handler_crud.cc:82-101 | the object's files, directories, index and reply are those of the store's POST, which `PostMeans` says |
| CrudHandlers.CrudHandler.HandleGetRequest | src/request_handler_crud.cc:103-135 | the same for GET, the silent empty list included; `GetMeans` says what that is |
| CrudHandlers.CrudHandler.HandlePutRequest | src/request_handler_crud.cc:137-179 | the same for PUT, on every suffix, see `PutMeans` |
| CrudHandlers.CrudHandler.PutNumber | src/request_handler_crud.cc:152-178 | the id is indexed before the write, whose failure turns the reply into "not found" |
| CrudHandlers.CrudHandler.HandleDeleteRequest | src/request_handler_crud.cc:181-230 | the same for DELETE, see `DeleteMeans` |
| CrudHandlers.CrudHandler.EraseValue | src/request_handler_crud.cc:214-214 | the loop keeps the other ids in order |
| CrudHandlers.CrudHandler.HandleRequest | src/request_handler_crud.cc:232-267 | a refused URL or verb changes nothing; otherwise POST, GET, PUT and DELETE each run their own handler on the key; a POST of a name under the location, in a flat store, gets the least free id and leaves its body in that file |
| CrudHandlers.CrudHandler.WriteToFile | src/request_handler.cc:11-23 | fails on a directory only; without a parent directory the text is lost without notice |
| CrudHandlers.CrudHandler.MakeDir | src/request_handler.cc:40-53 | true for an existing directory, false on a file in the way or a missing parent |
| CrudRefinement.StepRefines | src/request_handler_crud.cc:82-230 | each flat request keeps disk and index in step, changes nothing outside the root, and answers like a map of maps, POSTs below an entity included, a listing with the map's keys in plain decimal |
| CrudRefinement.RunRefines | src/request_handler_crud.cc:82-230 | so does every finite run of them: files are exactly the listed entries, directories exactly the index keys |
| CrudRefinement.EmptyHolds | src/request_handler_factory.cc:24-38 | an empty root and an empty index stand for the empty map |
| CrudRefinement.HoldsUnique | include/request_handler_crud.h:21-21 | a state of disk and index stands for one abstract map only |
| CrudRefinement.DigitNameBreaksIndex | src/request_handler_crud.cc:141-177 | a PUT on a bare numeric name that is no id of that entity is refused and leaves an index entry without a file |
| CrudRefinement.EntityPutKeepsFlat | src/request_handler_crud.cc:141-177 | a PUT without an id keeps disk and index in step iff the name is no number that fits an int or that number is an id of the entity already |
| CrudRefinement.NonCanonicalIdBreaksFlat | src/request_handler_crud.cc:141-177 | a PUT below an entity keeps them in step iff what stands behind the slash is no number that fits an int, or one in plain decimal |
| CrudRefinement.PostBelowKeepsFlat | src/request_handler_crud.cc:82-91 | a POST below an entity keeps them in step iff the entity is unlisted or the path is a file, and exactly then it is unprocessable and changes nothing |
| CrudLaws.DeleteThenPost | src/request_handler_crud.cc:8-24 | after deleting n the next POST gets the smaller of n and the id it would have got |
| CrudLaws.PostsAreSmallestFree | src/request_handler_crud.cc:82-101 | any number of POSTs get the smallest free positive ids in increasing order |
| CrudLaws.RequestAlike | src/request_handler_crud.cc:82-230 | a listed empty key and an unlisted one with the same directory answer alike and stay alike, on every request whose path is made of names, if the directory has no numbered file |
| CrudLaws.SilentKeyUnobservable | src/request_handler_crud.cc:106-121 | the list a GET leaves behind is invisible to all later runs on paths made of names iff the directory has no numbered file |
| Routing.SearchMeaning | src/session.cc:92-111 | the recursive search finds the longest non-empty route ending at a slash of the URL, else "/" for URLs that start with one, else nothing |
| Routing.LongestBoundaryMatch | src/session.cc:92-124 | the same for request targets, which are searched with a slash appended |
| Routing.SearchAddrBinding | src/session.cc:92-111 | the recursive method with its out-parameter is that search |
| Routing.DispatchAgrees | src/request_handler.cc:56-78 | the handler of a matched route other than "/" accepts the target unless it is the route plus a slash and `for_get` is false; the key is the one way to write the rest without trailing slashes |
| Routing.RequestKeyMeaning | src/request_handler.cc:56-78 | for every location and URL: the check passes iff the URL is the location or has it and a slash in front, the bare slash only with `for_get`; the key is the one way to write the rest without trailing slashes |
| Routing.RootRouteKeys | src/request_handler.cc:56-78 | the handler at "/" accepts "/" and targets that start with "//", without `for_get` not "//" itself, and nothing else |
| Routing.KeyOfUrl | src/request_handler.cc:60-66 | location, slash, key and any number of slashes give the key back |
| Routing.CheckRequestUrl | src/request_handler.cc:56-78 | the search for the prefix and the loop that pops slashes compute that key |
| Dispatch.RouteTable.CreateDispatcher | src/server.cc:70-91 | one factory per record, in whatever order the records come; its kind is Static, Echo, Crud, Blocking, Health or TextGen iff the record's type has that literal name |
| Dispatch.HandlerMade | src/server.cc:72-88 | the handler made from a record has its location and root, the kind its type names, and its key iff the type is "TextGenHandler" |
| Dispatch.RouteTable.HandlerFor | src/session.cc:121-128 | the handler comes from the factory of the matched route; without a match the request is bad |
| Dispatch.CheckHandlerTypes | src/server_main.cc:56-64 | the main program's loop: true iff every record has one of the seven literal handler types |
| Dispatch.ConfigToHandler | src/server_main.cc:53-80 | for every text, accepted or not, and every table that `CreateDispatcher` makes of its map: the routes are the recorded locations, and the handler made for a target has the matched route as its prefix, so that its check agrees; it has the kind that the record's type names, the record's root, and the record's key iff the type is "TextGenHandler"; this is served if all records pass the test of their types |
| Dispatch.TreeServes | src/server_main.cc:53-80 | from a configuration tree through printing, scanning, parsing, binding and search: the server starts iff the last type of each location is a handler's, and a target is served at its best route, if it has one, with the type, directory and key that come last in document order |
| SessionProtocol.NextKeepsInv | src/session.cc:22-72 | every step of every thread keeps the ownership invariant |
| SessionProtocol.ExactlyOneOwner | src/session.cc:22-72 | in every state of every interleaving each session's history is a legal life, and a session in memory has exactly one owner: one thread or one pending operation |
| SessionProtocol.NoUseAfterRelease | src/session.cc:45-72 | no step touches, hands on or deletes a session that is deleted or that someone else owns |
| SessionProtocol.DeletedForGood | src/session.cc:38-42 | after its deletion nothing happens to a session again, so none is deleted twice |
| SessionProtocol.OneAcceptOutstanding | src/server.cc:45-68 | at every moment exactly one accept is pending or still to be issued by one thread |
| SessionObjects.IoService.Issue | src/session.cc:27-35 | handing a session to an operation takes it out of the handler's hands and records its fields |
| SessionObjects.Session.Start | src/session.cc:22-28 | stores the peer's address, then issues one read, in this order; the fields are at the end what they were when the read was issued |
| SessionObjects.Session.Recycle | src/session.cc:38-42 | deletes a session in hand and leaves its fields alone |
| SessionObjects.Session.HandleRead | src/session.cc:45-58 | reply from the buffer, buffer cleared, then the write issued, after which no field changes; on error only the deletion |
| SessionObjects.Session.HandleWrite | src/session.cc:61-72 | back to reading with reply and buffer unchanged, no field changing once the read is issued; on error only the deletion |
| SessionObjects.Server.StartAccept | src/server.cc:45-51 | one fresh session with a copy of the routes, and one accept for it |
| SessionObjects.Server.HandleAccept | src/server.cc:53-68 | starts or deletes the session, and issues exactly one new accept either way |
| SessionObjects.Server.RunHandler | src/server.cc:25-34 | a completed operation is taken from the service and its handler run to the end: the actions are those of its code, in order, and at most one operation follows for its session |
| SessionObjects.Server.constructor | src/server.cc:10-17 | the table of routes first, then the first accept, for a session that has them |
| TextFormats.ParsePostBody | src/request_handler_text_gen.cc:148-172 | the loops over pieces compute the decoded form; true iff title and prompt are there |
| TextFormats.ValidTexts | src/request_handler_text_gen.cc:125-145 | a title is valid iff it has 1 to 20 letters, digits and `. _-`, a prompt iff it has 1 to 50 letters, digits and `? ,_-` |
| TextFormats.DecodeMeaning | src/request_handler_text_gen.cc:151-161 | a key has a value iff the first piece with exactly one "=" and that key says so |
| TextFormats.FormRoundTrip | src/request_handler_text_gen.cc:148-172 | the body the page posts decodes to title and prompt iff neither holds "&" or "=" |
| TextFormats.ValidFormRoundTrip | src/request_handler_text_gen.cc:126-172 | in particular for every valid title and prompt |
| TextFormats.HistoryRoundTrip | src/request_handler_text_gen.cc:245-259 | the script's strip-and-split recovers a list iff no title has a comma and the list is not one empty title; every list of valid titles, the empty one included, is recovered |
| TextFormats.TitleListText | src/request_handler_text_gen.cc:254-259 | the titles stand in square brackets, separated by commas |
| TextFormats.DecodeChanges | src/request_handler_text_gen.cc:333-375 | decoding leaves exactly the texts alone in which "%20" does not occur |
| TextFormats.TitleKeyRoundTrip | src/request_handler_text_gen.cc:333-375 | a valid title with its blanks sent as %20 comes back as the key iff "%20" does not occur in the location, and is never the page or the history |
| TextFormats.FolderChars | src/request_handler_text_gen.cc:36-41 | each dot becomes an underscore, every other character stays where it is |
| TextFormats.FoldersDistinct | src/request_handler_text_gen.cc:36-41 | addresses without underscores have different folders |

## Left out

- ConfigParser.Parse: says nothing about the partly built configuration objects of a rejected input, which the caller does not use; the loop body is divided among methods. The overload that opens a file is not modelled.
- ParseBindsTree: is about texts in which no block is replaced; `TreeMatchesMap` is exact for all.
- ReplacingForgets: speaks of one moment of a parse; later words can bring tree and map together again, which `TreeMatchesMap` accounts for.
- UnterminatedWordIsLost: a carriage return in the word could end a comment that the text leaves open.
- StepRefines: entity names are one path component other than "." and "..", ids fit an int, a PUT without an id adds no id, and a POST below a listed entity meets one of its entries; `EntityPutKeepsFlat`, `NonCanonicalIdBreaksFlat` and `PostBelowKeepsFlat` are exact about what happens beyond the last three.
- RequestAlike: only paths made of names. On disk `e//5` is `e/5`, so that a PUT on `e//5` stores a numbered file in `e` and enters it under another key; the model's literal paths do not show this.
- GetNextId: ids are unbounded integers, so an entity with more than 2^31 - 2 entries is not modelled faithfully; neither is a configuration nested that deep.
- The disk is a map of files and a set of directories under literal path strings: no "." and "..", no repeated slashes or one at the end (so the empty key names no directory), links, name length limits or input/output errors. What the requests do on such paths is what the code does as long as no two of them name one file.
- Two CRUD requests at the same time: the index is shared without a lock. Requests are taken one at a time.
- Rebuilding the index after a restart, which the code does not do.
- HandlePutRequest: an id too large for an int throws out of the handler; that is the reply `Uncaught`, and what the thread does then is not modelled.
- CreateDispatcher: factories have no side effects here; the ones for CRUD and text generation also create their root directory.
- ExactlyOneOwner: assumes that `start()` does not throw (`remote_endpoint` may, on a broken connection), and that stopping the service and destroying the server are not part of a run.
- HandleRead: the reply is an arbitrary function of routes, client address, buffer and length; parsing and writing HTTP belong to Boost.Beast. A handler that only reads a field after giving its session away would not be noticed by its contract.
- Server.constructor: threads are the subject of `SessionProtocol`, not of the objects.
- Titles "." and ".." are valid for the server but cannot be stored; the file operations of the text-generation handler, its JSON and its call to the remote service are not modelled.
- Echo, health, not-found, block and static handlers, content types, headers, fixed response texts, logging, signals, `server_main.cc` beyond its use of the parser's map and its test of the handler types, and the web pages other than the two formats above.
