# L-system renderer core, modelled in Dafny

This project models the non-graphical core of an L-system renderer (`src/lsystem.cpp`).

An L-system is given as a token stream: a turning angle, an iteration count, an axiom string, and rules of the form `key arrow replacement`. The renderer:

- rewrites the axiom repeatedly with the rules, producing one generation per iteration;
- interprets each generation with a turtle that draws line segments;
- lays each generation's vertices out in one growing vertex buffer. Every generation after the axiom must fit within a maximum byte size; the axiom's geometry is stored unchecked.

Before parsing, the input lines are cleaned: `#` comments are cut off, whitespace is trimmed and empty lines are skipped.

The modules follow the parts of the program:

- `Rewriting` (`rewriting.dfy`). The rewrite of a string under a rule set (`Rewrite`) and the chain of generations (`Generation`), with their algebra.
- `Grammar` (`grammar.dfy`). What parse reads from the token stream: the axiom (`Axiom`) and the rule set (`RulesOf`). A stream read that fails keeps the read buffer's previous content (`Retained`).
- `Turtle` (`turtle.dfy`). The turtle interpretation (`Run`, `Interpret`), with the unit step kept abstract. It states which symbols draw, which move, which turn and which are ignored, and how `[` and `]` save and restore the state.
- `Storage` (`storage.dfy`). The per-generation vertex ranges (`IterData`) and their tiling of the buffer.
- `Lines` (`lines.dfy`). `trim`, and `getNextLine`'s comment cutting and line skipping.
- `LSystems` (`lsystem.dfy`). The class `LSystem`, whose fields are `strings`, `rules`, `angle`, `iterData` and `bufSize`. Its methods `ApplyRules`, `CreateGeometry` and `IterateUpTo` (parse's iteration loop) are loops proved against the functions above, as are `ReadGrammar` (parse's token loop) and `Lines.GetNextLine`. `Parse` runs the token loop and then the iteration loop. `AddVerts`, `StoreIteration` and `Iterate` have no loop; they state their new state in terms of the old one. The invariant `Valid` says:
  - each generation is the rewrite of the one before;
  - there is one vertex range per generation, and the ranges are contiguous;
  - each range holds two vertices per draw symbol;
  - the buffer covers the last range;
  - every generation after the axiom fits in the maximum buffer size.

The maximum buffer size (`MAX_BUF`) and the turtle's unit step are constant fields of the class, set by the constructor. The step is the displacement (cos ang, sin ang, cos angZ) for the two headings. A vertex (`glm::vec3`) is 12 bytes.

## Model

| member | source | states |
|---|---|---|
| Rewriting.Image | src/lsystem.cpp:222-227 | what one symbol becomes: its rule's replacement when it has a rule, else the symbol itself |
| Rewriting.Rewrite | src/lsystem.cpp:220-230 | the concatenation, in order, of the images of the string's symbols |
| Rewriting.Generation | src/lsystem.cpp:136-138 | generation n: the axiom rewritten n times, as parse's loop stores it by applying the rules to the last string |
| Rewriting.RewriteSymbol | src/lsystem.cpp:222-227 | one symbol becomes its rule's replacement if it has a rule, and stays itself otherwise |
| Rewriting.RewriteAppend | src/lsystem.cpp:220-230 | rewriting distributes over concatenation: rewrite(a + b) = rewrite(a) + rewrite(b) |
| Rewriting.RewriteUntouched | src/lsystem.cpp:225-227 | a string none of whose symbols has a rule is left unchanged |
| Rewriting.RewriteNoRules | src/lsystem.cpp:220-230 | with no rules the rewrite is the identity |
| Rewriting.RewriteNeverShrinks | src/lsystem.cpp:220-230 | when no replacement is empty, the rewritten string is at least as long as the input |
| Rewriting.ChainIsGenerations | src/lsystem.cpp:166-185 | in a chain of rewrites, string i is the axiom rewritten i times |
| Rewriting.GenerationSplit | src/lsystem.cpp:166-185 | rewriting m + n times is rewriting n times the m-th generation |
| Rewriting.CountAppend | src/lsystem.cpp:220-230 | symbol counts add up over concatenation |
| Rewriting.SingleRuleKeyCount | src/lsystem.cpp:220-230 | under the single rule key -> r, the count of keys is multiplied by the keys in r |
| Rewriting.SingleRuleLength | src/lsystem.cpp:220-230 | under the single rule key -> r, each key adds \|r\| - 1 symbols |
| Rewriting.KochGrowth | src/lsystem.cpp:220-230 | for axiom F and rule F -> F+F-F, generation n holds 3^n F's and has length 2·3^n - 1 |
| Grammar.Retained | src/lsystem.cpp:106-118 | the content of the read buffer after the read of token k (from 0): token k, or the last token when the stream ran out before it, or empty when the stream has no token |
| Grammar.KeyOf | src/lsystem.cpp:116 | a rule's key: the first character of the key token; the NUL character when the token is empty |
| Grammar.Axiom | src/lsystem.cpp:112-113 | the axiom: the buffer after the third read |
| Grammar.RulesFrom | src/lsystem.cpp:115-120 | the rule loop from token i on: each loop pass binds the key of token i to the buffer after the read of token i+2, later bindings replacing earlier ones |
| Grammar.RulesOf | src/lsystem.cpp:115-120 | the rule set parse reads: the rule loop run from token 3 on, starting from no rules |
| Grammar.RulesFromUntouched | src/lsystem.cpp:115-120 | a key that no later triple names keeps its earlier binding, or stays unbound |
| Grammar.RulesFromMentioned | src/lsystem.cpp:115-120 | every key that a triple names ends up bound |
| Grammar.RulesFromLastWins | src/lsystem.cpp:115-120 | the binding of a key is the replacement of the last triple naming it |
| Grammar.RulesOfKeys | src/lsystem.cpp:115-120 | the keys of the parsed rules are exactly the first characters of the tokens at positions 3, 6, 9, … (both directions) |
| Grammar.RulesOfLastWins | src/lsystem.cpp:115-120 | a repeated key is bound to the third token of its last triple; in a cut-short triple that is the last token read |
| Grammar.RulesFromAgree | src/lsystem.cpp:115-120 | the rules read from token i on depend only on tokens i and later |
| Grammar.RulesFromIgnoresArrow | src/lsystem.cpp:117-118 | the middle token of each complete triple is read and discarded |
| Grammar.RulesOfIgnoresArrow | src/lsystem.cpp:117-118 | replacing the arrow token of a complete triple does not change the parsed rules |
| Grammar.RulesFromIgnoresKeyRest | src/lsystem.cpp:116 | only the first character of a key token is used, when the key token is not the last token of the stream |
| Grammar.RulesOfIgnoresKeyRest | src/lsystem.cpp:116 | replacing a key token by one with the same first character does not change the parsed rules, when the key token is not the last token of the stream (a last key token is also its own replacement) |
| Storage.NextFirst | src/lsystem.cpp:307-312 | where the next range starts: vertex 0 with no range yet, else where the last range ends |
| Storage.Covering | src/lsystem.cpp:332-350 | the buffer size after growing to hold the ranges: at least the old size and the end of the last range × 12, and equal to one of them |
| Storage.CoveringAppend | src/lsystem.cpp:304-350 | growing the buffer range by range gives the same size as growing it once for all of them |
| Storage.AppendKeepsContiguous | src/lsystem.cpp:306-313 | a range that starts where the last one ends keeps the ranges contiguous from vertex 0 |
| Storage.RangesDisjoint | src/lsystem.cpp:306-313 | contiguous ranges do not overlap: an earlier range ends no later than a later one starts |
| Storage.NextFirstIsTotal | src/lsystem.cpp:306-313 | the start of the next range is the total vertex count of all ranges |
| Turtle.IsDraw | src/lsystem.cpp:252 | the symbols that advance and draw: `f F g G` |
| Turtle.IsMove | src/lsystem.cpp:261 | the symbols that advance without drawing: `s S` |
| Turtle.IsTurn | src/lsystem.cpp:267-277 | the symbols that turn: `+ -` change the heading ang, `* /` the heading angZ |
| Turtle.Interpret1 | src/lsystem.cpp:252-294 | one pass of the turtle loop: `f F g G` advance and emit a segment, `s S` advance only, `+ - * /` turn, `[` pushes the state, `]` pops it, anything else changes nothing |
| Turtle.Run | src/lsystem.cpp:251-295 | interpreting a string changes the stack height by its `[` minus `]` count, appends two vertices per draw symbol, and never changes vertices already emitted |
| Turtle.Interpret | src/lsystem.cpp:234-297 | the vertex list of a nested string has exactly two vertices per `f F g G`, so its length is even |
| Turtle.DepthAppend | src/lsystem.cpp:279-294 | the bracket depth adds up over concatenation |
| Turtle.NoUnderflowAppend | src/lsystem.cpp:279-294 | x + y never pops an empty stack exactly when x does not and y does not from x's final height |
| Turtle.NoUnderflowMonotone | src/lsystem.cpp:279-294 | a higher starting stack does not cause an underflow |
| Turtle.RunAppend | src/lsystem.cpp:251-295 | interpreting x + y is interpreting y from the configuration x leaves |
| Turtle.RunKeepsBase | src/lsystem.cpp:279-294 | a string that pops at most d entries leaves the stack below its top d entries unchanged |
| Turtle.BracketSplit | src/lsystem.cpp:279-294 | interpreting `[` b `]` is: push the state, interpret b (which ends at the same height), then pop |
| Turtle.BracketRestores | src/lsystem.cpp:279-294 | for a balanced b, `[` b `]` restores exactly the state and stack saved at the `[` |
| Turtle.BalancedEndsWithEmptyStack | src/lsystem.cpp:279-294 | a balanced string ends with an empty stack |
| Turtle.DrawEmitsSegment | src/lsystem.cpp:252-260 | a draw symbol advances one unit step, emits the segment (old prev, new curr), and leaves prev == curr with the headings and stack unchanged |
| Turtle.MoveEmitsNothing | src/lsystem.cpp:261-266 | a move symbol advances one unit step without emitting, and leaves prev == curr with the headings and stack unchanged |
| Turtle.TurnTotalIsCount | src/lsystem.cpp:267-278 | the net turn of a string is (number of up symbols − number of down symbols) × angle |
| Turtle.TurnsAccumulate | src/lsystem.cpp:267-278 | a run of turn symbols changes only ang and angZ, by their summed turns |
| Turtle.TurnsOnlyRotate | src/lsystem.cpp:267-278 | a run of turn symbols leaves positions, stack and vertices, adds (#`+` − #`-`)·angle to ang and (#`*` − #`/`)·angle to angZ |
| Turtle.IgnoredSymbolInvisible | src/lsystem.cpp:251-295 | inserting a symbol the interpreter does not handle changes nothing |
| Turtle.BranchExample | src/lsystem.cpp:251-294 | "F[+F]F" is balanced, gives 6 vertices and ends with an empty stack |
| Turtle.RewriteKeepsNesting | src/lsystem.cpp:166-172 | rules that do not rewrite brackets and have balanced replacements preserve bracket depth and the absence of underflow |
| Turtle.GenerationsNested | src/lsystem.cpp:136-138 | under such rules every generation of a nested axiom is nested, so each can be interpreted |
| Lines.IsSpace | src/lsystem.cpp:425 | the whitespace trim removes: space, tab, carriage return and newline |
| Lines.FirstNonSpace | src/lsystem.cpp:426 | the index of the first non-whitespace character, or the length if there is none |
| Lines.TrailingSpaces | src/lsystem.cpp:429 | the length of the whitespace run at the end of the line |
| Lines.Trim | src/lsystem.cpp:424-432 | the result is empty exactly when the line is all whitespace, and otherwise starts and ends with a non-whitespace character |
| Lines.TrimIsPiece | src/lsystem.cpp:424-432 | the result is a contiguous piece of the line with only whitespace before and after it |
| Lines.TrimUnique | src/lsystem.cpp:424-432 | trimming whitespace + r + whitespace, where r does not start or end with whitespace, gives r |
| Lines.TrimIdempotent | src/lsystem.cpp:424-432 | trimming twice is trimming once |
| Lines.CommentStart | src/lsystem.cpp:415 | the index of the first `#`, or the length if there is none |
| Lines.StripComment | src/lsystem.cpp:415-417 | the longest prefix of the line with no `#` |
| Lines.Clean | src/lsystem.cpp:415-418 | a line as the preprocessing leaves it: cut at its first `#`, then trimmed |
| Lines.CleanShape | src/lsystem.cpp:412-419 | a cleaned line holds no `#` and has no whitespace at either end |
| Lines.CleanLine | src/lsystem.cpp:413-418 | one loop pass: the line cut at its first `#`, then trimmed |
| Lines.GetNextLine | src/lsystem.cpp:409-421 | gives back the first line from the position on that is non-empty once cleaned, with all lines skipped before it empty once cleaned; at the end of the stream, that all remaining lines were empty |
| LSystems.ConsistentExtend | src/lsystem.cpp:175-182 | appending the rewritten last generation with its range, within the maximum and with a buffer covering it, keeps the state valid |
| LSystems.Footprint | src/lsystem.cpp:166-182 | the number of vertices of generations 0..n together: where generation n's range ends once all are stored |
| LSystems.FootprintMonotone | src/lsystem.cpp:166-182 | the footprint only grows with n |
| LSystems.PrefixTotal | src/lsystem.cpp:304-313 | the stored ranges of generations 0..k hold the footprint of generation k in vertices |
| LSystems.NextFirstIsFootprint | src/lsystem.cpp:304-313 | in a valid state the next range starts at the footprint of the last stored generation |
| LSystems.ParseInterprets | src/lsystem.cpp:131-142 | parse runs the turtle over generation n: always for the axiom, and for 1 ≤ n < count when generations 1..n-1 passed the capacity check |
| LSystems.NextInterpreted | src/lsystem.cpp:136-138 | while fewer generations than the count are stored, the next one is the rewrite of the last and parse runs the turtle over it |
| LSystems.StopTokensGrammar | src/lsystem.cpp:106-120 | the stream `90 3 FFFFA A -> B B -> ]` has axiom FFFFA and rules A -> B, B -> ] |
| LSystems.CapacityStopExample | src/lsystem.cpp:136-142 | with a 100-byte maximum and count 3, parse interprets generation 1, rejects it (192 bytes > 100) and keeps only the axiom, so only generations 0 and 1 need be nested; generation 2 pops an empty stack |
| LSystems.ReadGrammar | src/lsystem.cpp:106-120 | the token loop yields the third token as axiom and the parsed rule set |
| LSystems.LSystem.constructor | src/lsystem.cpp:21-25 | a new L-system has no generations, no rules, angle 0 and an empty buffer, and is valid |
| LSystems.LSystem.ApplyRules | src/lsystem.cpp:215-231 | gives back the rewrite of the string under the current rules |
| LSystems.LSystem.CreateGeometry | src/lsystem.cpp:234-297 | for a nested string, the four-stack loop gives back the turtle interpretation, with two vertices per draw symbol |
| LSystems.LSystem.AddVerts | src/lsystem.cpp:304-350 | appends the range starting where the last ends (0 for the first) with the vertex count; bufSize grows to the new end × 12 if that is larger, and stays otherwise; no other field changes |
| LSystems.LSystem.StoreIteration | src/lsystem.cpp:180-182 | appends the new generation and its range, which starts where the last one ends; bufSize grows to cover it; the state stays valid |
| LSystems.LSystem.Iterate | src/lsystem.cpp:166-185 | with no generation: reports 0 and changes nothing. If the next generation's end × 12 exceeds MAX_BUF: reports the overflow and changes nothing. Otherwise it appends the rewrite of the last generation and its range, grows the buffer, reports the new count, and keeps Valid |
| LSystems.LSystem.IterateUpTo | src/lsystem.cpp:135-142 | the iteration loop: keeps the state valid and generation 0; stops with at most max(1, count) generations, fewer only if the next one would exceed MAX_BUF; the buffer is exactly the old size grown to cover the last range |
| LSystems.LSystem.Parse | src/lsystem.cpp:89-143 | for a stream whose interpreted generations are nested: sets the angle and the parsed rules; stores generations 0, 1, … of the axiom, at least one and at most max(1, count); fewer than the count only if the next one would exceed MAX_BUF; bufSize is exactly the larger of its old value and the end of the last range × 12; the state is valid |

## Left out

- OpenGL: buffer creation, copying and upload, vertex-array setup, the shader and its uniforms, and `draw`/`drawIter` with the rotation `rot`. These are device calls. Only the `bufSize` arithmetic of `addVerts` is modelled.
- The bounding-box adjustment matrix `bbfix` in `addVerts`. It is floating point.
- The trigonometric step. The cos/sin displacement is an abstract step function, a field of the class, and positions and headings are reals. Float rounding is not modelled.
- The shader reference count, the GL parts of the constructor, the destructor, the move constructor and move assignment. They manage GL resources.
- The conversion of the first two tokens with `stof`/`stoi`. `Parse` takes the angle and the count already converted; the token sequence is the whole stream, so these two tokens are also the first ones read. Conversion failures are not modelled.
- The I/O streams. `getNextLine` reads a sequence of lines from a position. The end-of-stream exception is the result `found == false`.
- `preprocessStream`, which loops over `getNextLine` until that exception, and `parseString`/`parseFile` (file opening).
- `update_time` and `initShader`. They are GL and timing state.
- `lsystem.hpp` is not part of this model. `getNumIter` is taken to be the number of stored generations. `MAX_BUF` is a constructor parameter.
- Bytes. A `char` of the model stands for one byte of the source's `std::string`. The key `tmp[0]` and the symbol loops of `applyRules` and `createGeometry` walk bytes, while the model's strings are sequences of Unicode characters. The two agree only on ASCII input: for a non-ASCII key such as `é`, the source keys its rule by the first byte of the encoding and leaves the second byte in the generation.
- Integer widths. Sizes are unbounded. The 32-bit `GLsizei` of `newSize` in `addVerts` cannot overflow in the model.
- LSystems.LSystem.Parse: requires every generation it runs the turtle over to be nested (no `]` on an empty stack). Those are generation 0, and generation n for 1 ≤ n < count when generations 1..n-1 fit in MAX_BUF (`LSystems.ParseInterprets`). A generation built after the first overflow is not required to be nested: `LSystems.CapacityStopExample` shows a stream whose generation 2 underflows but is never built. A `]` on an empty stack is undefined behaviour in the source. `Turtle.GenerationsNested` gives a sufficient condition on the rules.
- LSystems.LSystem.Iterate: an overflow becomes the result `Exceeded`, not an exception. Parse stops iterating on it, as the source's catch does. The message written to the error stream is not modelled.
- Only `+ - * /` turn the turtle; other symbols, such as `& ^ \ |`, are ignored. A cut-short last rule is not rejected: it takes the last token read as its replacement.
