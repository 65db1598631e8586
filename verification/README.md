# Mesh: verified models of the lexer, the formatter's printer, the module graph, the project-board scripts, positions and declared handlers

Each model keeps the form of the code it stands for. The lexer, its cursor, the printer's work list,
the module graph and its sort, the line index, the MIR module, the inheritance resolver and the
plan executor are classes, loops and in-place updates; every method is proved against a function or
predicate on values, and the theorems are about those.

**Lexer.** `MeshLexer.Lexer` has the fields of the original (cursor, state stack, pending queue,
end-of-file flag) plus a ghost history. Each `Lex…` method consumes exactly what the pure machine of
`LexerMachine` says, `Next` hands the stream out one token at a time, and the stream itself is proved
lossless (`LexerTiling`), bounded (`LexerTiling`), well nested (`LexerNesting`), correctly spelled and
never cut short (`LexerSpelling`; for the contents of strings `LexerStrings`), in error exactly where no
token of the vocabulary starts or for a reason of a short list (`ErrorTokens`), and independent of spacing
(`LexerSpacing`). Positions are characters inside the machine and UTF-8 byte offsets in the tokens;
`Unicode` relates the two.

**Printer.** The stack loop `Printer.Print` equals a recursive renderer. `PrinterLaws` proves what one
local fit decision means for everything inside the group, what `col` counts, and that layout moves
only whitespace; `PrinterLayout` reads the whole printed text, indentation included, off the positions in
the tree.

**Module graph.** `TopologicalSorting.TopologicalSort` updates in-degrees in an array, batch by batch.
It is sound and complete, its Err carries a real cycle, its order is a function of names and
dependencies alone (`InsertionOrder`), and `ReadyOrder` says which order that is.

**Project board.** `Inheritance`, `ProjectPlan`, `PlanFixpoint` and `ReplanSuccess` plan the retained
rows, `LedgerPlanning` is the planner's loop over the whole ledger with its guards, `LedgerRows` says
what a plan makes of each kept row, `LedgerSorting` that sorting it changes nothing else; `ProjectApply`,
`ApplyRestart` and `StoppedRuns` are the executor on one board seen as a map; `PlanAndApply` and
`LedgerRestart` join planner and executor. `ProjectExecutor` is the executor with item ids, two indexes
sharing row objects and a remote board, for any plan; `ExecutorRuns` says when its local rows and the
remote board stay equal, so that the one-board theorems apply, and `FinalState` is the check after a run.

**Positions, line index, declared handlers.** `Positions` and `LineIndexes` are the two ways the
tooling counts lines; `DeclaredHandlers` is the preparation of runtime handlers, `HandlerCalls` what the
generated functions pass on, `HandlerTargets` which target each handler ends up running.

Facts about the code that came out of the proofs:

- `topological_sort`'s comment says the entry module comes last. In the order the sort returns it
  does exactly when every other module stands before it in a relation on the graph: by depth, then by
  the wait for the last dependency, then by name (`ReadyOrder.LastIffAllBefore`). The deepest module
  alone is last, and no other than a deepest one is. An entry that imports nothing can come first, or
  last, by its name (`InsertionOrder.EntryNeedNotBeLast`).
- `position_to_offset` says a position past the end of a line gives the end of the line. It stays on
  the line only under the condition of `Positions.StaysOnLine`; otherwise it runs into the next
  lines (`Positions.RunsIntoNextLine`).
- The planner compares option ids as they are and the executor compares them stripped. Planning again
  after applying therefore finds nothing exactly when every field is steady
  (`PlanFixpoint.ReplanAfterFullApply`). It holds when the option ids of board and schema are stripped
  (`PlanFixpoint.SecondPlanIsEmpty`). The capture strips the board's ids but not the schema's, and an
  untrimmed one in the schema is never settled (`PlanFixpoint.UntrimmedIdIsNeverSettled`).
- A run can be stopped and started again with the same plan at any point (`ApplyRestart.RestartResumes`),
  but not planned afresh: the guards of the planner (m057_project_mutation_plan.py:425-433 and 1171-1172)
  refuse every board from which a row has been deleted or to which one has been added. A fresh plan
  succeeds after a stop exactly when every command so far was an edit (`LedgerRestart.FreshPlanIff`).
- The guards do not only refuse needlessly: deletes come before updates, so a stop can leave a blank row
  without its source, and that row can no longer be planned, guards or not (`LedgerRestart.HeirLosesSource`).
- An edit selects an option by its id, and the board shows the option's current name. A plan made before
  the option was renamed is carried out and reported as applied; the check after the run refuses it, and
  the same edit is due again on every later capture (`FinalState.RenamedOptionIsRefused`,
  `ExecutorRuns.RenamedOptionNeverSettles`).
- The kind of a service helper is guessed from its name: a cast whose name contains `_call_` is taken
  for a call, a call to a method named `start` for a start (`HandlerNames.CastTakenForCall`,
  `HandlerNames.CallTakenForStart`). Such a helper is then refused for the kind it is declared as
  (`DeclaredHandlers.CastIsRefused`, `DeclaredHandlers.CallIsRefused`).
- Handlers whose runtime names sanitise alike share one wrapper, which runs the first one's target
  (`HandlerTargets.HandlersRunFirst`, `HandlerTargets.OwnTargetIff`,
  `HandlerTargets.SecondTargetNeverRuns`).
- A generated function looks its parameters up by name. It passes its values on in order exactly when no
  two parameters of the target have the same name (`HandlerCalls.ServiceHandsOver`,
  `HandlerCalls.WorkHandsOver`).
- The scripts take a field for a date by its key, and for a select field by the schema. The edit of a
  planned field is accepted exactly when the board's field is of that type (`BoardModel.AcceptedIffTyped`).
- `~r/…/` is a regex literal in normal code and an error followed by other tokens inside an
  interpolation; the models follow the code in both (`LexerStrings.RegexNotInInterpolation`).

## Model

| member | source | states |
|---|---|---|
| SourceCursor.PeekReadsBytes | compiler/mesh-lexer/src/cursor.rs:22-25 | the character looked at is the one whose UTF-8 bytes stand at the current byte offset of the source; none exactly at the end of the bytes |
| SourceCursor.PeekNextReadsBytes | compiler/mesh-lexer/src/cursor.rs:27-32 | the next character is the one whose bytes stand right behind those of the current one; none exactly if nothing is behind them |
| SourceCursor.Cursor.Advance | compiler/mesh-lexer/src/cursor.rs:34-41 | returns the current character and moves one character, keeping the byte offset that of the character position |
| SourceCursor.Cursor.EatWhile | compiler/mesh-lexer/src/cursor.rs:54-63 | stops at the first character that fails the predicate |
| SourceCursor.Cursor.Slice | compiler/mesh-lexer/src/cursor.rs:65-72 | the text between two byte offsets is the text between the characters at those offsets |
| Unicode.ByteOffsetStrict | compiler/mesh-lexer/src/cursor.rs:34-41 | byte offsets of different characters differ and keep their order, so spans determine texts |
| Unicode.Utf8Decodes | compiler/mesh-lexer/src/cursor.rs:34-41 | a character can be read back from its UTF-8 bytes, whatever follows |
| Unicode.Utf16Decodes | compiler/mesh-lsp/src/analysis.rs:78-95 | the UTF-16 width of a character is the number of units of its encoding, surrogate pairs included, and the character can be read back from them |
| MeshLexer.Lexer.constructor | compiler/mesh-lexer/src/lib.rs:40-48 | a new lexer has the whole stream of the source before it and nothing behind it |
| MeshLexer.Lexer.LexEq | compiler/mesh-lexer/src/lib.rs:175-189 | takes the operator the operator table finds at `=`, no character more or less |
| MeshLexer.Lexer.LexBang | compiler/mesh-lexer/src/lib.rs:191-200 | the same at an exclamation mark |
| MeshLexer.Lexer.LexLt | compiler/mesh-lexer/src/lib.rs:202-216 | the same at a less-than sign |
| MeshLexer.Lexer.LexGt | compiler/mesh-lexer/src/lib.rs:218-227 | the same at a greater-than sign |
| MeshLexer.Lexer.LexAmp | compiler/mesh-lexer/src/lib.rs:229-238 | the same at an ampersand; a single one is an error token |
| MeshLexer.Lexer.LexPipe | compiler/mesh-lexer/src/lib.rs:240-282 | the same at a vertical bar, with slot pipes: slots 0 and 1, slots over 32 bits and digits without a closing sign are error tokens |
| MeshLexer.Lexer.LexPlus | compiler/mesh-lexer/src/lib.rs:284-293 | the same at a plus sign |
| MeshLexer.Lexer.LexMinus | compiler/mesh-lexer/src/lib.rs:295-304 | the same at a minus sign |
| MeshLexer.Lexer.LexColon | compiler/mesh-lexer/src/lib.rs:306-323 | the same at a colon, with atoms |
| MeshLexer.Lexer.LexDot | compiler/mesh-lexer/src/lib.rs:325-334 | the same at a dot |
| MeshLexer.Lexer.LexRegexLiteral | compiler/mesh-lexer/src/lib.rs:338-402 | pattern up to the first unescaped slash, flags after it; unclosed patterns and letters that are no flag are errors |
| MeshLexer.Lexer.LexComment | compiler/mesh-lexer/src/lib.rs:406-449 | tells line, doc, module doc and block comments apart and takes exactly their text |
| MeshLexer.Lexer.LexBlockComment | compiler/mesh-lexer/src/lib.rs:451-487 | ends where the depth-counting scan ends, an error at the end of the text if it is unclosed |
| MeshLexer.Lexer.LexNumber | compiler/mesh-lexer/src/lib.rs:491-532 | takes a radix literal or a decimal with optional fraction and exponent |
| MeshLexer.Lexer.LexIdent | compiler/mesh-lexer/src/lib.rs:818-826 | takes a whole word and calls it a keyword if it spells one |
| MeshLexer.Lexer.LexStringStart | compiler/mesh-lexer/src/lib.rs:567-584 | three quotes open a triple-quoted string, otherwise one opens a plain one; the state pushed says which |
| MeshLexer.Lexer.LexStringContent | compiler/mesh-lexer/src/lib.rs:593-715 | emits the content, if any, queues the token that ends it, and pushes or pops the state that goes with that token |
| MeshLexer.Lexer.LexInterpolation | compiler/mesh-lexer/src/lib.rs:719-814 | counts braces, so that only the brace that closes the interpolation ends it |
| MeshLexer.Lexer.LexNormal | compiler/mesh-lexer/src/lib.rs:76-158 | one step of the machine at file level |
| MeshLexer.Lexer.ProduceToken | compiler/mesh-lexer/src/lib.rs:64-71 | one step of the machine in whatever state is on top: token, queued token, stack and position |
| MeshLexer.Lexer.Pull | compiler/mesh-lexer/src/lib.rs:836-851 | hands out the first of what remains of the stream, queued tokens first |
| MeshLexer.Lexer.Next | compiler/mesh-lexer/src/lib.rs:832-852 | nothing after the end-of-file token, otherwise the next token of the stream, recorded in the history |
| MeshLexer.Tokenize | compiler/mesh-lexer/src/lib.rs:50-55 | the whole stream: it rebuilds the source, has at most two tokens a character plus one, and ends with its only end-of-file token |
| LexerMachine.StepProgress | compiler/mesh-lexer/src/lib.rs:57-71 | every step keeps the stack well formed (normal at the bottom, strings and interpolations alternating above), emits one token or two, and pays for them with remaining text and stack height; only a bare stack at the end of the text reaches end of file |
| LexerTiling.StreamTiles | compiler/mesh-lexer/src/lib.rs:76-158 | from every machine state, tokens are in order and disjoint, and between them lie only blanks; inside the text of a string, closed or not, no gap at all |
| LexerTiling.StreamBound | compiler/mesh-lexer/src/lib.rs:829-852 | from every machine state the stream is no longer than the work left and ends with its only end-of-file token |
| LexerTiling.Lossless | compiler/mesh-lexer/src/lib.rs:829-852 | for every source, gaps and token texts in turn spell the source, byte for byte; gaps are blanks, and no gap lies inside the text of a string, up to the empty error token of an unclosed one |
| LexerTiling.TokenCount | compiler/mesh-lexer/src/lib.rs:829-852 | for every source of n characters, between 1 and 2n + 1 tokens, the last one end of file at the end of the text and no other |
| LexerNesting.NestStream | compiler/mesh-lexer/src/lib.rs:719-814 | from every machine state, the stream continues the open strings, interpolations and braces of the stack as some tree |
| LexerNesting.Nested | compiler/mesh-lexer/src/lib.rs:570-715 | for every source the stream is the yield of a tree of strings in code in strings, braces balanced inside every closed interpolation; a node left open at the end of the text closes with one error token and has nothing after it |
| LexerSpelling.TokenSpelled | compiler/mesh-lexer/src/lib.rs:76-158 | a token of the shared table has a text of its kind, read off the token vocabulary and the number grammar, and is not cut short |
| LexerSpelling.OperatorIsLongest | compiler/mesh-lexer/src/lib.rs:173-334 | no longer operator or atom of the vocabulary starts where an operator token starts |
| LexerSpelling.NumberSpelled | compiler/mesh-lexer/src/lib.rs:491-563 | a number is a text of the number grammar (decimal, radix, fraction, exponent), and no longer text of that grammar starts there |
| LexerSpelling.CommentSpelled | compiler/mesh-lexer/src/lib.rs:406-487 | a line comment is its marks and the rest of its line, a block comment ends where a recursive recogniser of nested comments ends it |
| LexerSpelling.IdentSpelled | compiler/mesh-lexer/src/lib.rs:818-826 | a word ends at the first character that cannot continue it, and is a keyword exactly when it spells one |
| LexerSpelling.TokensFitTheirKinds | compiler/mesh-common/src/token.rs:27-198 | for every source and every token of its stream, strings and interpolations included, the text is a text of the token's kind (of an error token see below) and no word, operator, number, comment or line end is cut short; a regex literal's pattern ends at its first unescaped slash, and its flags are followed by no letter |
| ErrorTokens.ErrorsAreExplained | compiler/mesh-lexer/src/lib.rs:76-158 | for every source and every token of its stream: an error token is one character at which no token of the vocabulary starts, or has a reason on the list (a bar with digits that are not closed or name slot 0, slot 1 or no 32-bit slot; a tilde without a closed regex literal, or with a letter that is no flag, or inside an interpolation; a block comment that is never closed; the end of the text) and ends where the list says; and where there is such a reason no other token of code stands; none starts with a space or tab |
| ErrorTokens.SlotVerdict | compiler/mesh-lexer/src/lib.rs:240-282 | the scan of a slot pipe fails exactly on the slots of the list |
| ErrorTokens.TildeFails | compiler/mesh-lexer/src/lib.rs:338-402 | the scan of a regex literal fails exactly in the cases of the list |
| ErrorTokens.CommentKinds | compiler/mesh-lexer/src/lib.rs:406-487 | a comment is an error exactly if it is a block comment that a recursive recogniser finds no end of |
| Scanning.DigitTables | compiler/mesh-lexer/src/lib.rs:491-563 | which characters are digits of each radix |
| Scanning.DecimalIsRead | compiler/mesh-lexer/src/lib.rs:240-282 | the value of the decimal writing of a number, leading zeros or not, is that number |
| LexerStops.RegexCloseIsFirst | compiler/mesh-lexer/src/lib.rs:338-402 | a regex pattern ends at its first slash behind an even number of backslashes, and is unclosed if there is none |
| LexerStops.ContentStopIsFirst | compiler/mesh-lexer/src/lib.rs:593-715 | string content stops at its first closing quote or interpolation that is not escaped, at the end of the text if there is none |
| LexerStrings.StringsAreWhole | compiler/mesh-lexer/src/lib.rs:593-715 | for every source, each string opens with three quotes exactly where three stand, each string content in the stream ends at the first terminator, of the very string it is in, that is not escaped, or with the text; each string closes with one quote or three as it opened |
| LexerStrings.TildeByPlace | compiler/mesh-lexer/src/lib.rs:719-814 | at file level a tilde starts a regex literal or an error, inside an interpolation it is an error of one character |
| LexerStrings.RegexNotInInterpolation | compiler/mesh-lexer/src/lib.rs:719-814 | whatever is a regex literal at file level is not one inside an interpolation |
| LexerSpacing.TokenLocal | compiler/mesh-lexer/src/lib.rs:76-158 | a token depends on its own characters and at most the next two, and only on whether those are blank or what they are |
| LexerSpacing.StreamRespaced | compiler/mesh-lexer/src/lib.rs:160-165 | from every machine state, replacing gaps by other gaps leaves kinds and texts as they are |
| LexerSpacing.SpacingIsIrrelevant | compiler/mesh-lexer/src/lib.rs:160-165 | for every source, replacing every non-empty gap by any non-empty run of blanks gives tokens with the same kinds and texts |
| LexerSpacing.SqueezingKeepsTokens | compiler/mesh-lexer/src/lib.rs:160-165 | in particular by one space |
| BlockComments.CounterIsRecursion | compiler/mesh-lexer/src/lib.rs:451-487 | at every depth the counter stops where that many nested recursive-descent bodies stop, and fails exactly when one of them reaches the end of the text |
| BlockComments.BlockCommentScan | compiler/mesh-lexer/src/lib.rs:451-487 | so a block comment ends where a recursive recogniser of nested comments ends it |
| Printer.MeasureFlat | compiler/mesh-fmt/src/printer.rs:162-190 | the byte length of the one-line form, saturated; the maximum where there is no one-line form |
| Printer.GroupFitsOnLine | compiler/mesh-fmt/src/printer.rs:45-51 | a one-line form exists and ends within the width |
| Printer.Print | compiler/mesh-fmt/src/printer.rs:58-160 | the stack loop ends, and its output is that of the recursive renderer with the final newline put right |
| PrinterLaws.FlatCoherent | compiler/mesh-fmt/src/printer.rs:69-122 | whatever fits is printed as its one-line text, every group inside it flat |
| PrinterLaws.GroupCoherence | compiler/mesh-fmt/src/printer.rs:104-122 | a group is flat exactly when it fits; then it adds its one-line text, flattens every group inside, and `col` advances by the measured width to at most the maximum |
| PrinterLaws.FittingDocument | compiler/mesh-fmt/src/printer.rs:58-160 | a document that fits prints as one line |
| PrinterLaws.TextColumn | compiler/mesh-fmt/src/printer.rs:71-74 | `col` stays the real column exactly when the text has no newline |
| PrinterLaws.RenderColumn | compiler/mesh-fmt/src/printer.rs:69-160 | with newline-free texts `col` is always the byte width of the last line |
| PrinterLaws.FlatLineWithinWidth | compiler/mesh-fmt/src/printer.rs:104-122 | then the line a flat group ends on is no wider than the maximum |
| PrinterLaws.RenderInk | compiler/mesh-fmt/src/printer.rs:69-160 | rendering adds exactly the document's text without its blanks and newlines, in every mode and at every indent |
| PrinterLaws.LayoutIsWhitespace | compiler/mesh-fmt/src/printer.rs:58-160 | if conditional branches carry the same ink, two configurations print the same up to blanks and newlines |
| PrinterLaws.ConditionalInk | compiler/mesh-fmt/src/printer.rs:124-139 | a group of one conditional prints the flat branch's ink exactly when that branch fits |
| PrinterLaws.DisagreeingBranchesShow | compiler/mesh-fmt/src/printer.rs:124-139 | if the branches' inks differ, some two configurations show it |
| PrinterLayout.LayoutByPosition | compiler/mesh-fmt/src/printer.rs:58-160 | for every document and configuration there is a decision for each group such that the printed text is, leaf by leaf in tree order: the text of a text leaf; for a hard line break, and for a space whose group is broken, a newline and one indentation for each indent node above it; for a space whose group is flat, a space; nothing for a branch not taken; and a final newline if there is none. A group is flat exactly when it fits behind what is written before it |
| PrinterLayout.RenderIsWritten | compiler/mesh-fmt/src/printer.rs:69-160 | the same for every node of a tree and whatever stands before it, with the column |
| ModuleGraphs.ModuleGraph.AddModule | compiler/mesh-common/src/module_graph.rs:65-79 | appends a module without dependencies under the next id, and keeps ids, edges and the lookup table in order |
| ModuleGraphs.ModuleGraph.Resolve | compiler/mesh-common/src/module_graph.rs:81-84 | the latest module of that name, none exactly when no module has it |
| ModuleGraphs.ModuleGraph.AddDependency | compiler/mesh-common/src/module_graph.rs:86-96 | adds exactly that edge, unless it is a self edge; never a second copy |
| TopologicalSorting.Settle | compiler/mesh-common/src/module_graph.rs:141-152 | after one more module is done the in-degrees count pending dependencies again, and the batch is exactly the modules that reached zero |
| TopologicalSorting.TopologicalSort | compiler/mesh-common/src/module_graph.rs:115-168 | Ok exactly when the graph has no cycle, then a permutation of all ids with every module after its dependencies; Err carries a cycle of names, pairwise distinct but for the ends if names are unique; with unique names modules come in the order in which their last dependency came, then by name, and the names in order depend on names and edges alone |
| TopologicalSorting.RoundSequenced | compiler/mesh-common/src/module_graph.rs:138-159 | a round keeps order and queue sorted by the place of the last dependency, then by name |
| TopologicalSorting.ExtractCyclePath | compiler/mesh-common/src/module_graph.rs:170-216 | from modules that wait for each other, at least three names, first and last the same, each depending on the next; the fallback branch is unreachable |
| TopologicalSorting.RoundKeeps | compiler/mesh-common/src/module_graph.rs:138-159 | a round keeps the sort's invariant: an order so far, in-degrees of what is pending, and a queue of the ready |
| TopologicalSorting.RoundTracks | compiler/mesh-common/src/module_graph.rs:138-159 | a round on ids is a round on names, ties broken by name |
| ImportGraph.TopologicalIsAcyclic | compiler/mesh-common/src/module_graph.rs:163-168 | a graph with a dependency order has no cycle |
| ReadyOrder.OrderByDepth | compiler/mesh-common/src/module_graph.rs:109-168 | such an order is strictly increasing by depth (the longest chain of dependencies), then by the place of the latest dependency, then by name |
| ReadyOrder.BeforeIsPosition | compiler/mesh-common/src/module_graph.rs:109-168 | which of two modules comes first is decided by a relation defined on the graph alone: less deep; waiting less long for the last dependency, compared the same way; smaller name |
| ReadyOrder.ReadyOrderIsUnique | compiler/mesh-common/src/module_graph.rs:109-168 | there is only one such order, so it is the one the sort returns |
| ReadyOrder.LastIffAllBefore | compiler/mesh-common/src/module_graph.rs:111-112 | the exact condition for the entry to come last in the returned order: every other module stands before it in that relation |
| ReadyOrder.DeepestIsLast | compiler/mesh-common/src/module_graph.rs:111-112 | an entry strictly deeper than every other module comes last |
| ReadyOrder.LastIsDeepest | compiler/mesh-common/src/module_graph.rs:111-112 | an entry that another module is deeper than never comes last |
| ImportGraph.ReachingAllIsLast | compiler/mesh-common/src/module_graph.rs:109-115 | an entry that reaches every module comes last |
| InsertionOrder.RunScript | compiler/mesh-common/src/module_graph.rs:65-96 | adding modules and dependencies by name on a graph object gives the modules of the script |
| InsertionOrder.SortScripts | compiler/mesh-common/src/module_graph.rs:115-168 | two graph objects built with the same modules and dependencies, in whatever order, are both accepted by the sort or both refused, and accepted ones give the same names in the same order |
| InsertionOrder.CycleTransfers | compiler/mesh-common/src/module_graph.rs:163-168 | a cycle survives renumbering |
| InsertionOrder.EntryNeedNotBeLast | compiler/mesh-common/src/module_graph.rs:111-112 | a graph whose entry module comes first, and one whose entry comes last without reaching the other module |
| NameOrder.SortByNameSpells | compiler/mesh-common/src/module_graph.rs:131-135 | ids sorted by name spell the increasing sequence of their names |
| NameOrder.SortedIsUnique | compiler/mesh-common/src/module_graph.rs:131-135 | a set of names has one increasing order |
| Utf8Order.NameOrderIsByteOrder | compiler/mesh-common/src/module_graph.rs:131-135 | comparing names by characters is comparing their UTF-8 bytes |
| Positions.OffsetToPosition | compiler/mesh-lsp/src/analysis.rs:78-95 | for the offset of any character or of the end, the newlines before it and the UTF-16 units since the last of them; past the end, the position of the end |
| Positions.PositionToOffset | compiler/mesh-lsp/src/analysis.rs:134-174 | none exactly for a line the text does not have; the position of an offset gives that offset back |
| Positions.RoundTrip | compiler/mesh-lsp/src/analysis.rs:134-174 | the scan from a line's start for the units before a character stops at that character, after surrogate pairs and after a trailing newline too |
| Positions.UnitsAreEncoded | compiler/mesh-lsp/src/analysis.rs:78-95 | the units between two characters of a text are those of the encoded text in between |
| Positions.StaysOnLine | compiler/mesh-lsp/src/analysis.rs:140-153 | when a position past the end of its line stays on the line |
| Positions.RunsIntoNextLine | compiler/mesh-lsp/src/analysis.rs:140-153 | a position past the end of line 0 that is placed on line 1 |
| LineIndexes.LineIndex.constructor | compiler/mesh-common/src/span.rs:52-60 | the starts of all lines, in order and nothing else |
| LineIndexes.LineIndex.LineCol | compiler/mesh-common/src/span.rs:62-75 | by binary search: one more than the newlines before the offset, and the bytes since the last of them |
| LineIndexes.LineIndexAgrees | compiler/mesh-common/src/span.rs:62-75 | counting newline bytes before an offset is counting newline characters |
| LineIndexes.LineColOf | compiler/mesh-common/src/span.rs:62-75 | the line index and the editor position name the same line |
| HandlerNames.HelperKind | compiler/mesh-codegen/src/declared.rs:387-406 | which helper names are taken for start, call and cast |
| HandlerNames.CastTakenForCall | compiler/mesh-codegen/src/declared.rs:387-406 | casts taken for calls |
| HandlerNames.CallTakenForStart | compiler/mesh-codegen/src/declared.rs:387-406 | calls taken for starts |
| HandlerNames.SanitizedAlike | compiler/mesh-codegen/src/declared.rs:374-385 | two names have the same sanitised form exactly when they agree character by character up to case and up to what is neither letter nor digit |
| DeclaredHandlers.MirModule.GenerateDeclaredWorkWrapper | compiler/mesh-codegen/src/declared.rs:132-227 | checks the target's signature and appends the actor body and its entry, unless the wrapper is there |
| DeclaredHandlers.MirModule.GenerateDeclaredServiceWrapper | compiler/mesh-codegen/src/declared.rs:261-342 | checks that the helper is of the declared kind and appends one forwarding function, unless it is there |
| DeclaredHandlers.MirModule.ValidateDeclaredRouteWrapper | compiler/mesh-codegen/src/declared.rs:229-259 | accepts, and registers the symbol itself, exactly when the first function of that name is a bare shim from one pointer to a pointer; reports a missing target exactly when no function has the name |
| DeclaredHandlers.MirModule.PrepareDeclaredEntry | compiler/mesh-codegen/src/declared.rs:100-127 | one entry: appends the functions and returns the symbol that its kind of preparation gives, or its error |
| DeclaredHandlers.MirModule.PrepareDeclaredRuntimeHandlers | compiler/mesh-codegen/src/declared.rs:94-130 | module and registrations are those of preparing the plan entry by entry up to the first refusal |
| DeclaredHandlers.RefusalIsFinal | compiler/mesh-codegen/src/declared.rs:94-130 | the first refused entry decides the result, whatever follows it |
| DeclaredHandlers.WorkAcceptedIff | compiler/mesh-codegen/src/declared.rs:132-192 | when a work entry is accepted and which error it gets otherwise: the target takes nothing or two strings, or its wrapper is there already |
| DeclaredHandlers.RouteAcceptedIff | compiler/mesh-codegen/src/declared.rs:229-259 | when a route entry is accepted, registering its own symbol, and which error it gets otherwise |
| DeclaredHandlers.ServiceRefusedIff | compiler/mesh-codegen/src/declared.rs:261-290 | when a service entry is refused before the kind of its helper is looked at, and with which error: the helper is missing, takes nothing, or has a name that is not that of a helper |
| DeclaredHandlers.OriginalsAreKept | compiler/mesh-codegen/src/declared.rs:94-130 | the original functions stay as a prefix, refused or not |
| DeclaredHandlers.RegistrationsMatchPlan | compiler/mesh-codegen/src/declared.rs:94-130 | on success, one registration an entry, with its name and count and a symbol that names a function of the module |
| DeclaredHandlers.PreparedAgain | compiler/mesh-codegen/src/declared.rs:132-342 | an entry prepared once is prepared again with nothing appended and the same symbol, whatever was appended since |
| DeclaredHandlers.SecondRunChangesNothing | compiler/mesh-codegen/src/declared.rs:94-130 | a second run on the result appends nothing and returns the same registrations |
| DeclaredHandlers.RefusedAsOtherKind | compiler/mesh-codegen/src/declared.rs:261-342 | a service entry whose helper exists and has a parameter is refused as of another kind exactly when the helper's name parses as that kind, and accepted exactly when it parses as the declared one |
| DeclaredHandlers.CastIsRefused | compiler/mesh-codegen/src/declared.rs:261-342 | so a cast helper whose name contains the mark of a call is refused |
| DeclaredHandlers.CallIsRefused | compiler/mesh-codegen/src/declared.rs:261-342 | and so is a helper for calls of a method named start |
| HandlerCalls.ServiceHandsOver | compiler/mesh-codegen/src/declared.rs:303-342 | the wrapper of a service, run on any values, makes one call, of the helper with those values in order, and returns what the helper returns: exactly when no two parameters of the helper have the same name |
| HandlerCalls.WorkHandsOver | compiler/mesh-codegen/src/declared.rs:150-227 | the actor body of a work target, run on any request key and attempt id, makes one call, of the target with the two in that order, or with nothing if it takes nothing, and returns nothing: exactly when the parameters of the target have different names |
| HandlerCalls.ServiceFits | compiler/mesh-codegen/src/declared.rs:303-342 | the wrapper takes and returns what the helper does, and its body is well typed |
| HandlerCalls.WorkFits | compiler/mesh-codegen/src/declared.rs:150-227 | the actor body takes two strings, returns nothing, and is well typed |
| HandlerTargets.SharesIff | compiler/mesh-codegen/src/declared.rs:356-385 | work and service entries share a wrapper exactly when they are of one kind and their names are alike |
| HandlerTargets.RegisteredNames | compiler/mesh-codegen/src/declared.rs:351-372 | the symbols that are registered |
| HandlerTargets.HandlersRunFirst | compiler/mesh-codegen/src/declared.rs:94-342 | in a module without generated names, every registration runs the target of the first entry that shares its wrapper, and hands its values over to it, well typed, if the parameter names of the target differ |
| HandlerTargets.OwnTargetIff | compiler/mesh-codegen/src/declared.rs:344-385 | every registration runs its own target exactly when entries that share a wrapper have the same target |
| HandlerTargets.SecondOfTwo | compiler/mesh-codegen/src/declared.rs:344-385 | of two entries that share a wrapper both run the first one's target, and the second never its own unless it is the same |
| HandlerTargets.SecondTargetNeverRuns | compiler/mesh-codegen/src/declared.rs:344-385 | a module and a plan with `A.b` and `A_b`: both are accepted, and both run the target of the first |
| BoardModel.NormalizeTrims | scripts/lib/m057_project_mutation_plan.py:203-207 | a value becomes its text without the spaces around it, and no value exactly when nothing else is in it |
| BoardModel.DesiredField | scripts/lib/m057_project_mutation_plan.py:550-574 | the normal form of the value, with the id of the option of that name if the field has options; refused exactly when it has options and none of that name |
| BoardModel.CommandKinds | scripts/lib/m057_project_mutation_apply.py:301-335 | whatever is desired: an empty field is cleared; a select field gets its option, the start and target dates a date, the others a text, never a blank one; anything else is refused |
| BoardModel.AcceptedIffTyped | scripts/lib/m057_project_mutation_apply.py:301-335 | the edit of a field the planner can produce is made and accepted by a board that takes only edits of the type of the field exactly when the field is empty or of the type the scripts take it for |
| BoardModel.CommandSetsDesired | scripts/lib/m057_project_mutation_apply.py:301-349 | for every field the planner can produce, of that type: the edit is accepted, sends the option, date or text desired, clears exactly the fields wanted empty, and the board and the local row both show exactly that field in normal form |
| BoardModel.AppliedFields | scripts/lib/m057_project_mutation_apply.py:948-972 | each change of distinct fields acts as if it were alone, and fields without a change stay |
| Inheritance.InheritanceResolver.Resolve | scripts/lib/m057_project_mutation_plan.py:597-644 | whatever was asked before, the answer is the one without a cache; only found values are remembered, none forgotten |
| Inheritance.InheritanceResolver.ResolveFrom | scripts/lib/m057_project_mutation_plan.py:603-644 | the same part way up a walk, errors included |
| Inheritance.PlainResolveIsAnswer | scripts/lib/m057_project_mutation_plan.py:603-644 | for every board and parent index the search ends, with the nearest value along a duplicate-free walk through blank rows or with the reason why there is none |
| Inheritance.AnswerIsUnique | scripts/lib/m057_project_mutation_plan.py:603-644 | there is only one such answer, so a cache cannot give another |
| Inheritance.ResolvesIffChain | scripts/lib/m057_project_mutation_plan.py:603-644 | a value is found exactly when some chain of blank rows leads to one |
| ProjectPlan.InferStatus | scripts/lib/m057_project_mutation_plan.py:577-586 | done exactly for closed issues, in progress exactly for open ones that are |
| ProjectPlan.BuildDesiredExistingRow | scripts/lib/m057_project_mutation_plan.py:647-731 | the desired row, or the first error in tracked order, whatever the resolver has cached |
| ProjectPlan.DesiredRowFields | scripts/lib/m057_project_mutation_plan.py:647-731 | a row can be planned exactly when each of its fields can, and holds those fields |
| PlanFixpoint.PlannedValue | scripts/lib/m057_project_mutation_plan.py:688-718 | an inherited field keeps its own value if it has one, else gets the nearest ancestor's, except on the one issue that inherits nothing |
| ProjectPlan.ComputeUpdateOperation | scripts/lib/m057_project_mutation_plan.py:970-1000 | the changed fields in tracked order; none exactly when no field changed |
| LedgerPlanning.BuildPlan | scripts/lib/m057_project_mutation_plan.py:1162-1211 | the deletes and updates of the plan, or the first error: drifted totals, a guard on a ledger row, a field that cannot be planned, a row of the transferred issue; with one resolver for all rows |
| LedgerPlanning.PlanRowsIff | scripts/lib/m057_project_mutation_plan.py:1162-1202 | the loop succeeds exactly when every guard holds and every retained row can be planned; it then holds the rows to be removed and the updates of the retained rows, each in ledger order |
| LedgerPlanning.PlanLedgerIff | scripts/lib/m057_project_mutation_plan.py:421-433 | and the whole planner exactly when besides the totals are those expected and the transferred issue has no row |
| LedgerRows.PlansIff | scripts/lib/m057_project_mutation_plan.py:1162-1211 | in plain words: when there is a plan (63 rows, 16 and 47 of them in the two repositories, none of the transferred issue, and each row of the ledger passes its guards and can be planned if it is kept) |
| LedgerRows.RowErrors | scripts/lib/m057_project_mutation_plan.py:1162-1202 | what the planner reports of a row that fails, guard by guard in their order |
| LedgerRows.UpdatesKeepRows | scripts/lib/m057_project_mutation_plan.py:577-731 | for every kept row, in terms of the live issue and the board alone: after the updates of the plan its status is done exactly if the issue is closed, in progress exactly if it is open and the row was, to do otherwise; its title is the issue's; any other field keeps its value, or gets the value at the end of a chain of blank ancestors, except on the one issue that inherits nothing; each option is the one the value names |
| LedgerRows.RunKeepsRows | scripts/lib/m057_project_mutation_plan.py:577-731 | the same after a run of the whole plan |
| LedgerSorting.OrderIsIrrelevant | scripts/lib/m057_project_mutation_plan.py:1162-1202 | whether there is a plan, and what is in it, does not depend on the order of the ledger |
| LedgerSorting.SortedPlan | scripts/lib/m057_project_mutation_plan.py:1325-1329 | sorting the plan of a ledger by issue gives the plan of the sorted ledger |
| PlanAndApply.PlanContents | scripts/lib/m057_project_mutation_plan.py:1158-1202 | the plan holds the changes of every row that has some, at most one update a row, and nothing else |
| PlanFixpoint.UpdatesApplyFully | scripts/lib/m057_project_mutation_plan.py:1158-1202 | executing the planned updates one by one brings every retained row to its planned fields and touches no other row |
| PlanFixpoint.InheritanceSurvives | scripts/lib/m057_project_mutation_plan.py:597-644 | after any part of the updates every issue that inherited from rows nobody else touched still has the same value, from the same chain or its beginning |
| PlanFixpoint.SameDesiredRow | scripts/lib/m057_project_mutation_plan.py:647-731 | after any part of the updates a retained row that inherits from untouched rows only is planned to the same fields |
| PlanFixpoint.ReplanAfterFullApply | scripts/lib/m057_project_mutation_plan.py:942-1000 | once every retained row has its planned changes, whatever else happened to the board, planning succeeds again, and plans nothing exactly when every field was steady |
| PlanFixpoint.ReplanAfterApply | scripts/lib/m057_project_mutation_plan.py:942-1000 | in particular after executing the planned updates |
| PlanFixpoint.NormalIdsAreSteady | scripts/lib/m057_tracker_inventory.py:503-519 | stripped option ids on the board and in the schema make every field steady |
| PlanFixpoint.SecondPlanIsEmpty | scripts/lib/m057_tracker_inventory.py:503-519 | on a captured board, whose option ids are stripped, the second plan is empty |
| PlanFixpoint.UntrimmedIdIsNeverSettled | scripts/lib/m057_tracker_inventory.py:411-419 | a captured schema whose option id ends in a blank, and a captured row that has the option: planning finds an update, executing it changes nothing, and planning finds it again |
| PlanFixpoint.ReplanFinishes | scripts/lib/m057_project_mutation_plan.py:647-731 | stopped after any part of the updates, planning the retained rows afresh succeeds and leads to the board of the uninterrupted run |
| ReplanSuccess.StillPlans | scripts/lib/m057_project_mutation_plan.py:597-731 | rows deleted, added and changed, the retained rows can still be planned if their source chains pass through rows that stay |
| ReplanSuccess.LostSource | scripts/lib/m057_project_mutation_plan.py:631-635 | with a row of its source chain deleted, a blank retained row cannot be planned |
| ProjectApply.EditsResume | scripts/lib/m057_project_mutation_apply.py:948-972 | after some of its edits a row asks for exactly the edits still missing |
| ProjectApply.OperationResumes | scripts/lib/m057_project_mutation_apply.py:814-987 | stopped between any two commands of an operation, the operation asks for exactly the rest |
| ProjectApply.OperationCarriesOut | scripts/lib/m057_project_mutation_apply.py:814-987 | the commands of an operation delete the row, or give it the wanted fields and leave its other fields and all other rows alone |
| ApplyRestart.RestartResumes | scripts/lib/m057_project_mutation_apply.py:1022-1059 | stopped after any number of commands and started again, the run issues exactly the commands it had not issued and ends on the same board with the same verdict |
| ApplyRestart.SecondRunIsIdle | scripts/lib/m057_project_mutation_apply.py:1022-1059 | after a successful run another one issues no command and finds every operation satisfied |
| ApplyRestart.RunAchieves | scripts/lib/m057_project_mutation_apply.py:1022-1059 | a run succeeds exactly when no row to update is missing; its statuses say truly which operations were satisfied, carried out or failed, and it stops at the first failure |
| ApplyRestart.UnplannedRowsStay | scripts/lib/m057_project_mutation_apply.py:1022-1059 | rows of issues outside the plan are untouched |
| ApplyRestart.RunSize | scripts/lib/m057_project_mutation_apply.py:814-936 | the board grows by the adds performed and shrinks by the deletes performed |
| ApplyRestart.SameIssueNeverSettles | scripts/lib/m057_project_mutation_apply.py:204-209 | a plan that deletes and adds one issue gets through its operations but has commands to issue on every board, the one it leaves included, which is why a restart needs distinct issues |
| StoppedRuns.StoppedBetween | scripts/lib/m057_project_mutation_apply.py:1022-1059 | stopped after any number of commands, every row is one the run found or leaves, and every field is as it started or as it ends |
| StoppedRuns.RunConcat | scripts/lib/m057_project_mutation_apply.py:204-209 | a run that gets through its deletes and adds issues their commands first |
| PlanAndApply.PlanIsExecutable | scripts/lib/m057_project_mutation_plan.py:970-1000 | deletes, adds and the planned updates together meet what the executor and a restart need |
| PlanAndApply.RunAppliesPlan | scripts/lib/m057_project_mutation_apply.py:1022-1059 | running deletes, adds and planned updates succeeds and brings every retained row to its planned fields |
| PlanAndApply.OthersStay | scripts/lib/m057_project_mutation_apply.py:1022-1059 | and leaves alone every row that is neither retained nor to be deleted or added |
| LedgerRestart.FreshPlanIff | scripts/lib/m057_project_mutation_plan.py:1171-1172 | stopped after any number of commands, planning the whole ledger afresh succeeds exactly when all of them were edits: none deleted and none added a row |
| LedgerRestart.PlanLedgerAgain | scripts/lib/m057_project_mutation_plan.py:1162-1211 | plan the ledger, run the whole plan, plan again: it succeeds exactly when there was nothing to delete and every issue to add was on the board; then it updates nothing exactly when every field was steady |
| LedgerRestart.FreshPlanFinishes | scripts/lib/m057_project_mutation_plan.py:647-731 | where a fresh plan succeeds and no retained row inherits through a row the adds edit, running it ends on the very board of the uninterrupted run |
| LedgerRestart.HeirLosesSource | scripts/lib/m057_project_mutation_plan.py:631-635 | a board and a plan in order that, stopped after its delete, leave a retained row that cannot be planned any more |
| PlanAndApply.FreshAddsAreNoSources | scripts/lib/m057_project_mutation_plan.py:597-644 | rows added that were not on the board are on no source chain |
| ProjectExecutor.RemoteBoard.ItemDelete | scripts/lib/m057_project_mutation_apply.py:827-832 | the board by issue loses that issue's row, and the command is logged |
| ProjectExecutor.RemoteBoard.ItemAdd | scripts/lib/m057_tracker_inventory.py:527-544 | the board by issue gains a row with the issue's title and nothing else, under an id never used before |
| ProjectExecutor.RemoteBoard.ItemEdit | scripts/lib/m057_project_mutation_apply.py:301-335 | carried out exactly if it is an edit of the type of the field, and of one of its options; then one field of one row changes and the command is logged, otherwise nothing changes |
| ProjectExecutor.ApplyContext.Refresh | scripts/lib/m057_project_mutation_apply.py:217-237 | both indexes hold the same new row objects, one for each item on the board and equal to it |
| ProjectExecutor.ApplyContext.CurrentRow | scripts/lib/m057_project_mutation_apply.py:282-287 | by planned id or by issue, the one live row of the issue, none exactly when the board has none |
| ProjectExecutor.ApplyContext.EditField | scripts/lib/m057_project_mutation_apply.py:948-972 | for any change: an edit that cannot be made or is not accepted changes nothing and fails; otherwise the board shows the text or the option's name, and the local row what was planned |
| ProjectExecutor.ApplyContext.SetField | scripts/lib/m057_project_mutation_apply.py:338-349 | the shared row object changes in both indexes and the remote board does not |
| ProjectExecutor.ApplyContext.ApplyMissing | scripts/lib/m057_project_mutation_apply.py:948-972 | exactly the changes the local row does not show when their turn comes, up to the first that fails |
| ProjectExecutor.ApplyContext.ApplyMutations | scripts/lib/m057_project_mutation_apply.py:895-922 | all the given edits, up to the first that fails |
| ProjectExecutor.DesiredAddMutations | scripts/lib/m057_project_mutation_apply.py:846-867 | the wanted fields, other than the title, that the row does not show |
| ProjectExecutor.MissingSuffices | scripts/lib/m057_project_mutation_apply.py:898-922 | choosing the missing fields first and editing them all is checking each in its turn |
| ProjectExecutor.ApplyContext.ExecuteDelete | scripts/lib/m057_project_mutation_apply.py:814-843 | commands, both boards and status are the operation's, and the indexes forget the row |
| ProjectExecutor.ApplyContext.ExecuteAdd | scripts/lib/m057_project_mutation_apply.py:870-936 | commands, both boards and status are the operation's, with a fresh capture between the add and the edits; a failed edit fails the operation and keeps what was done before it |
| ProjectExecutor.ApplyContext.ExecuteUpdate | scripts/lib/m057_project_mutation_apply.py:939-987 | commands, both boards and status are the operation's; a missing row fails without a command, a failed edit after those before it |
| ProjectExecutor.ApplyContext.ApplyOperations | scripts/lib/m057_project_mutation_apply.py:1022-1052 | the loop, for every plan, made against this schema or another, operations on one and the same issue included: commands, local rows, remote board, statuses and verdict of the run defined on two boards |
| ProjectExecutor.ApplyContext.FinalizeResults | scripts/lib/m057_project_mutation_apply.py:763-802 | captures the board afresh and passes exactly when it has the planned number of rows and the row of every operation is gone, or shows what was planned apart from titles and cleared fields |
| ProjectExecutor.ApplyContext.FinalRow | scripts/lib/m057_project_mutation_apply.py:671-686 | the same for one operation |
| ProjectExecutor.ApplyContext.ApplyPlan | scripts/lib/m057_project_mutation_apply.py:1022-1059 | for every plan: commands, statuses and board of that run, and success exactly when the run and the check succeed; for a plan of the current schema from a fresh capture, those of the run on one board, so all that is proved of that run holds, and with distinct issues only the number of rows can fail in the check |
| FinalState.SuccessIsRight | scripts/lib/m057_project_mutation_apply.py:763-802 | after a successful run of a plan of the current schema with distinct issues the check passes exactly when the number of rows is the planned one |
| FinalState.AddedInFull | scripts/lib/m057_project_mutation_apply.py:870-936 | after a successful run an added row has its issue's title, the planned value and option of every other field that has one, and nothing else |
| FinalState.LooksAt | scripts/lib/m057_project_mutation_apply.py:671-686 | what the check looks at: of an added row every field but the title that has a value or an option planned, of an updated row those among its changes |
| FinalState.RightIffIdle | scripts/lib/m057_project_mutation_apply.py:763-802 | for every plan without titles and cleared fields: the rows pass the check exactly when another run would succeed without a command |
| FinalState.SameIssueIsRefused | scripts/lib/m057_project_mutation_apply.py:779-788 | a plan that deletes and adds one issue passes the check on no board |
| FinalState.RenamedOptionIsRefused | scripts/lib/m057_project_mutation_apply.py:671-686 | the edit of an option renamed since the plan was made is reported as applied, and the check refuses it |
| ExecutorRuns.BothIsRun | scripts/lib/m057_project_mutation_apply.py:1022-1059 | with a plan of the current schema no edit fails and the local rows never differ from the board |
| ExecutorRuns.PlannableIsAccepted | scripts/lib/m057_project_mutation_apply.py:301-349 | every edit of a field the planner can produce is accepted, and leaves the planned field on both sides |
| ExecutorRuns.RunCommandsFit | scripts/lib/m057_project_mutation_apply.py:948-972 | every edit issued by a run of a plan of the current schema is of the type of its field, is accepted, and sends the option, date or text that an operation of the plan wants of that field, or clears a field wanted empty |
| ExecutorRuns.EditsStopAtFailure | scripts/lib/m057_project_mutation_apply.py:948-972 | for any plan: the edits of a row fail exactly when some edit fails; those before the first such one are made, and no other |
| ExecutorRuns.RunStopsAtFailure | scripts/lib/m057_project_mutation_apply.py:1022-1053 | for any plan: a run fails exactly when some operation fails; those before the first such one are carried out, that one as far as it got, and no other |
| ExecutorRuns.StatusTellsCommands | scripts/lib/m057_project_mutation_apply.py:870-987 | for any plan: an operation that finds itself satisfied issues no command and changes nothing, one that reports itself applied issues some |
| ExecutorRuns.AddRecaptures | scripts/lib/m057_project_mutation_apply.py:880-898 | an operation that adds a row leaves every other local row as the board has it |
| ExecutorRuns.RenamedOptionNeverSettles | scripts/lib/m057_project_mutation_apply.py:290-335 | an option renamed since the plan was made: its edit is carried out and reported as applied, local row and board differ, and a new run does the same again |

## Left out

- Unicode tables: which characters are alphabetic or numeric is a parameter of the lexer; only its values on ASCII are fixed.
- 32-bit spans: offsets are unbounded; sources are taken to be shorter than 2^32 bytes.
- Number values, escapes and atoms are not decoded by this lexer and not modelled.
- NameOrder.SortByName: stands for the library's stable sort by name, as a stable insertion sort.
- Keyword kinds: the 49 kinds are one constructor that carries the spelling.
- MeshLexer.Lexer.LexShared: the arms that the original writes out in both code states are one method here, as are the three radix scans (`LexRadix`).
- Positions.OffsetToPosition: an expression over the text; an offset inside a character, where the original panics, is excluded.
- The formatter's tree walker and whole-formatter idempotence: the syntax tree and parser are not part of this model.
- Trailing whitespace of printed lines: consecutive hard lines under an indent do print blanks, so it is no property of the printer.
- Linking, code generation and merging of modules: processes and foreign libraries.
- The clustered route plan and the startup filter of declared handlers: insertion into a map and a filter.
- MIR is reduced to what preparation reads and builds: names, parameters, types and calls.
- BoardModel.CommandSetsDesired: fields are of the types the scripts take them for (`BoardModel.WellTyped`): the start and target dates are the date fields, select fields have options. `BoardModel.AcceptedIffTyped` says that nothing less will do.
- HandlerCalls.RunFunction: a call of the target is a call by its name; what a code generator does with a parameter of the same name is not modelled.
- Project fields hold text or nothing; numeric fields and `value_type` labels are not modelled.
- The plan's adds come in as given: they are built from two hard-coded issues. `validate_plan`, which compares a finished plan with hard-coded totals, is not modelled.
- LedgerPlanning.BuildPlan: returns deletes and updates in ledger order; that sorting them afterwards gives the plan of the sorted ledger is `LedgerSorting.SortedPlan`.
- The capture's own checks of issues and fields (`validate_live_repo_totals`, `validate_field_schema`) are not modelled: no command of a run changes what they look at.
- ProjectExecutor.RemoteBoard: commands are atomic and seen at once by a capture; retries, time-outs, result files and time stamps are left out, and a failing command is a stop between two commands.
- ProjectApply.Execute: what the board service does with a command is taken as given: a select edit shows the option's name, an added item shows its issue's title and nothing else.
- ProjectExecutor.ApplyContext.Refresh: the duplicate checks of a capture cannot fail on a board with one item per issue and are not repeated.
- ProjectExecutor.ApplyContext.FinalizeResults: the final state recorded with an operation is taken to be the one its changes ask for, as the planner writes it. The summaries of well-known rows that are written into the results are not modelled.
- LexerSpelling.TokensFitTheirKinds: says nothing of the texts of error tokens, which are the subject of `ErrorTokens.ErrorsAreExplained`.
- InsertionOrder.ScriptOrderIrrelevant: about modules and orders as values; `InsertionOrder.SortScripts` is the statement about graph objects and sort results.
- PlanAndApply.PlanRunPlan: about the planning of retained rows alone, without the planner's guards; `LedgerRestart.PlanLedgerAgain` is about the whole planner.
- PlanAndApply.ReplansIffNoSourceDeleted: likewise; when the retained rows alone could be planned after every stop. `LedgerRestart.FreshPlanIff` is about the whole planner.
- PlanAndApply.StopReplanRun: likewise; `LedgerRestart.FreshPlanFinishes` is about the whole planner.
- ProjectExecutor.ApplyContext.ApplyPlan: the planned number of rows is a parameter, 55 in the source. Item ids in a plan belong to the plan's issues, as the planner takes them from the captured row. The board is taken to accept every edit of the type of the field with one of its options, whatever the text or date.
- ApplyRestart.RestartResumes: boards are compared by issue; ids of added items may differ between runs.
