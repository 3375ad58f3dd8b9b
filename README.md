# Padlock parser, modelled in Dafny

Padlock is an esoteric process-calculus language written with six lock and
pen glyphs. Its parser reads a program in one pass, one character at a
time. It drives a three-state machine:

- idle: waiting for an instruction;
- raw: inside a name literal;
- blank: after the end of the program.

As it reads, it grows a nested-list AST. It always appends at the list that
a cursor path (`stack_ptr`) selects. The cursor holds only -2 and -1: the
first or the second branch of the split that ends a list. `nil` closes a
branch. The program is over when `nil` closes the last open branch.

The project has six modules:

- `Instructions` (`instructions.dfy`): the six-entry instruction table, the
  glyph and letter symbol sets, the symbol lookup (`tuple.index`) and
  Python's whitespace test.
- `Ast` (`ast.dfy`):
  - the AST items (instruction, name, nested list);
  - Python's negative indexing;
  - the `AST` class, whose `Push` walks a path and appends;
  - the recursive stringifier and its properties.
- `Cursor` (`cursor.dfy`): the cursor path. It defines `PathOk`, the
  invariant that makes every negative index valid and land on a branch,
  and the two cursor moves `nil` makes: popping the finished second
  branches, then flipping the innermost first branch to second.
- `Parser` (`parser.dfy`):
  - the machine state, with the step function `Step`, the fold `Run` over
    the input and the outcome `ParseSpec` (AST or error);
  - the imperative `Parse` method, with the parser's loop and its local
    variables, proved equal to `ParseSpec` on every input;
  - lemmas on single steps: cursor moves, name collection, termination,
    errors.
- `Grammar` (`grammar.dfy`): what a parse produces, stated without the
  parser. It defines:
  - the grammar of complete programs (`Program`);
  - a position-by-position shape (`WellFormed`);
  - the machine invariant (`Shape`), proved to hold after every prefix of
    every input.

  The main consequences:
  - the `InvalidArgumentCount` error can never happen;
  - a successful parse yields a complete, well-formed program;
  - in that program's text every nested list starts its own line.
- `Invariance` (`invariance.dfy`): two changes to the input that do not
  change what `parse` makes of it.
  - Spelling a program with the letter symbols, and parsing with
    `ascii_symbols`, gives the same outcome as the glyphs. The AST is the
    same, except that every name is spelled the other way too.
  - A character that is not a symbol, read while waiting for an instruction
    or after the program, is ignored. The parse succeeds exactly as without
    it, with the same AST. An `InvalidSymbol` error comes one position
    later.

## Model

| member | source | states |
|---|---|---|
| Instructions.Symbols | padlock.py:131-147 | each symbol set holds one symbol per table entry, no two alike |
| Instructions.Delimiter | padlock.py:202 | the delimiter is the symbol of the `name` instruction, found at its position in the symbol set |
| Instructions.IsSpace | padlock.py:220 | no symbol, glyph or letter, is whitespace |
| Instructions.TableFacts | padlock.py:70-77 | every table entry takes 0 to 2 names and leaves 0 to 2 processes; only `nil` leaves 0 processes and only `split` leaves 2; these two take no names and every other instruction takes at least one |
| Instructions.IndexOf | padlock.py:168-169 | the result is absent exactly when the character is not in the tuple; otherwise it is the first position holding it |
| Instructions.SymbolsSelect | padlock.py:131-147 | in both symbol sets the k-th symbol is found at position k, so it selects `instructions[k]` |
| Ast.Abs | padlock.py:113-114 | a Python index valid for a list of length n denotes element i when non-negative and n+i when negative |
| Ast.AppendAt | padlock.py:108-115 | appending `value` at a path grows only the list reached by the path, by exactly that value at its end; the root grows by one only for the empty path |
| Ast.ReachSnoc | padlock.py:112-114 | characterises `Walkable` and `Reach` from the end of the path: walking one more index is possible exactly when it is valid and lands on a nested list, whose contents are then reached |
| Ast.Address | padlock.py:112-114 | every walkable path has an absolute (non-negative) address of the same length that reaches the same list |
| Ast.AppendAtFrame | padlock.py:108-115 | every list that is neither the target of `push` nor one of its ancestors is unchanged |
| Ast.AppendAtAncestors | padlock.py:112-115 | the lists on the way to the target keep their length and every element except the one the path goes through |
| Ast.AST.constructor | padlock.py:83-84 | a new AST has an empty root list |
| Ast.AST.Push | padlock.py:108-115 | the new root is the old one with `value` appended at the reached list; that list gains exactly `value` at its end; with no indices `value` is appended to the root |
| Ast.Indent | padlock.py:103 | indentation for depth d is exactly 2*d spaces |
| Ast.AST.ToString | padlock.py:89-90 | when no glyph or name holds a line break, the text of the AST has exactly one line break per nested list at any depth |
| Ast.Render | padlock.py:92-106 | when no glyph or name in the list holds a line break, its text has exactly one line break per nested list at any depth |
| Ast.RenderItem | padlock.py:98-104 | an instruction or a name without line breaks renders with no line break; a nested list renders with one more than its contents |
| Ast.RenderSnoc | padlock.py:96-106 | the rendering of a list with one more item is the old rendering followed by the item's rendering: text follows append order |
| Cursor.PathOk | padlock.py:113-114 | a usable cursor holds only -2 and -1 and can be walked from the root |
| Cursor.PathOkSnoc | padlock.py:191-193 | a cursor extended by a directive stays usable exactly when the list reached ends with two branches |
| Cursor.PathOkPrefix | padlock.py:178-179 | popping entries keeps the cursor usable |
| Cursor.PathOkAppend | padlock.py:172 | appending at the cursor keeps it usable |
| Cursor.PopSeconds | padlock.py:178-179 | popping yields a prefix of the cursor; everything popped was -1; and what remains, if anything, does not end with -1 |
| Cursor.NextBranch | padlock.py:178-187 | keeps the cursor up to its last remaining entry, which was not -1 and becomes -1; only -1 entries are dropped after it |
| Cursor.NextBranchOk | padlock.py:187 | turning the last remaining -2 into -1 keeps the cursor usable |
| Cursor.NextBranchFlips | padlock.py:178-187 | finishing a branch flips the innermost -2 to -1 and drops the -1 entries after it |
| Parser.Joins | padlock.py:220 | a name never takes a whitespace character; with `utf8_names` every other character joins it |
| Parser.Step | padlock.py:163-230 | keeps the cursor usable; fails only on a symbol after the program (`InvalidSymbol` at that position) or on a delimiter inside a name (`InvalidArgumentCount`); a non-symbol read while idle or after the program changes nothing; any symbol after the program is `InvalidSymbol` |
| Parser.Execute | padlock.py:168-196 | executing an instruction keeps the cursor usable |
| Parser.Terminate | padlock.py:174-187 | closing a branch keeps the cursor usable |
| Parser.Fork | padlock.py:189-193 | opening two branches keeps the cursor usable |
| Parser.Collect | padlock.py:200-224 | collecting a name keeps the cursor usable |
| Parser.ParseSpec | padlock.py:232-237 | the parse succeeds exactly when the run ends past the program, with the AST built by the run; an error met is returned as is; ending idle or inside a name is an unexpected end, flagged when inside a name; empty input is an unexpected end outside a name |
| Parser.Run | padlock.py:163 | after any prefix of the input the cursor is usable |
| Parser.RunSnoc | padlock.py:163 | reading one more character is one more step of the machine at that character's position, unless an error was already raised |
| Parser.FailureIsFinal | padlock.py:216 | once an error is raised, the rest of the input is not looked at |
| Parser.IdleSymbol | padlock.py:168-171 | while idle, symbol k executes instruction k of the table |
| Parser.CollectNames | padlock.py:202-224 | a delimiter appends the buffered name at the cursor, clears the buffer and counts one more name; any other character leaves the AST and count alone and joins the buffer only if it may be part of a name; the cursor never moves |
| Parser.ExecuteCursor | padlock.py:174-196 | `split` pushes -2; `nil` either empties the cursor and ends the program or moves to the next branch; other instructions keep the cursor |
| Parser.StepCursor | padlock.py:163-230 | only a `split` read while idle adds a cursor entry (-2); only a `nil` read while idle changes or removes entries; nothing read in a name or after the program moves the cursor |
| Parser.ForkAppends | padlock.py:189-193 | opening a fork appends two empty lists at the cursor and descends into the first, which is empty |
| Parser.SplitAppends | padlock.py:172 | a `split` appends, in order, itself and two empty branches to the target list, and the new target is the first, empty branch |
| Parser.StepNames | padlock.py:194-216 | the parser starts collecting names only for an instruction taking at least one; it returns to idle exactly when the delimiter completes the last name; the count never passes the arity |
| Parser.ReachingBlank | padlock.py:178-183 | the program ends only on a `nil` read while idle whose popping empties the cursor |
| Parser.BlankIsFinal | padlock.py:226-230 | after the program ends, characters that are not symbols leave the machine exactly as it was |
| Parser.BlankFailsAtSymbol | padlock.py:226-228 | after the program ends, the first symbol read stops the parse with `InvalidSymbol` at that symbol's position |
| Parser.SuccessfulParse | padlock.py:232-237 | a parse succeeds only if at some position a `nil` read while idle emptied the cursor; the returned AST is the one built up to there |
| Parser.ParseAfterEnd | padlock.py:226-237 | when the program ended at some position and no symbol follows, the parse succeeds with the AST built up to that position |
| Parser.ParseSymbolAfterEnd | padlock.py:226-228 | when the program ended at some position and a symbol follows, the parse fails with `InvalidSymbol` at the first such symbol |
| Parser.CloseBranch | padlock.py:176-187 | the loop pops exactly the trailing -1 entries; it reports the end of the program exactly when nothing is left, and otherwise returns the cursor with its last -2 flipped |
| Parser.ExecuteInstruction | padlock.py:168-196 | the imperative instruction step leaves the AST, cursor and state that `Execute` specifies |
| Parser.CollectCharacter | padlock.py:200-224 | the imperative name step fails exactly when `Collect` does, with `InvalidArgumentCount`, and otherwise leaves the state, AST, count and buffer that `Collect` specifies |
| Parser.Parse | padlock.py:117-237 | `parse` succeeds exactly when the specification does, with the same AST; otherwise it reports the same error |
| Grammar.CloseKeepsShape | padlock.py:174-187 | after `nil` the whole AST is a complete program when the cursor empties; otherwise the new target is an empty second branch below completed levels |
| Grammar.TerminateKeepsShape | padlock.py:174-187 | closing a branch keeps the parser invariant |
| Grammar.ForkKeepsShape | padlock.py:189-193 | opening two branches keeps the parser invariant |
| Grammar.ExecuteKeepsShape | padlock.py:168-196 | executing an instruction read while idle keeps the parser invariant |
| Grammar.DelimiterKeepsShape | padlock.py:202-216 | a delimiter never finds the arity already reached, and keeps the invariant |
| Grammar.CollectKeepsShape | padlock.py:200-224 | every character read inside a name keeps the invariant, and none raises `InvalidArgumentCount` |
| Grammar.StepKeepsShape | padlock.py:163-230 | every step keeps the parser invariant and never raises `InvalidArgumentCount` |
| Grammar.RunKeepsShape | padlock.py:202-216 | after every prefix of every input the invariant holds and `InvalidArgumentCount` has not been raised |
| Grammar.NameCountBound | padlock.py:194-216 | the name count never passes the arity, and stays below it while collecting names, which happens only for instructions taking names |
| Grammar.ParsedIsProgram | padlock.py:232-237 | a successful parse returns a complete program, and no parse ends with `InvalidArgumentCount` |
| Grammar.StmtsFit | padlock.py:202-214 | in a run of statements every instruction is followed by exactly as many names as it takes and then by an instruction |
| Grammar.ProgramWellFormed | padlock.py:172-193 | a complete program is well formed at every depth |
| Grammar.ParsedWellFormed | padlock.py:172-214 | in a parsed AST, at every depth: each instruction is followed in its own list by exactly as many names as it takes; `nil` is last in its list; `split` is followed by exactly its two branches and nothing else is appended after them; every name avoids the delimiter and holds only symbols, or non-whitespace characters with `utf8_names` |
| Grammar.NameCharNotNewline | padlock.py:220 | a name never holds a line break |
| Grammar.WellFormedNoLineBreaks | padlock.py:98-101 | in a well-formed AST no glyph and no name holds a line break |
| Grammar.ParsedRendering | padlock.py:89-106 | the text of a parsed AST has exactly one line break per nested list: each nested list starts a line of its own |
| Invariance.SwapChar | padlock.py:131-147 | exchanging glyph and letter maps the position of a character in one symbol set to its position in the other, and keeps whitespace as it is |
| Invariance.SymbolSetsDisjoint | padlock.py:131-147 | no glyph is a letter symbol and no letter symbol is a glyph |
| Invariance.SwapTwice | padlock.py:131-147 | exchanging twice gives the character back |
| Invariance.RenameReach | padlock.py:112-114 | renaming the names of an AST keeps every path walkable and renames the list reached |
| Invariance.RenamePathOk | padlock.py:112-114 | renaming the names keeps the cursor usable |
| Invariance.RenameAppend | padlock.py:108-115 | renaming after `push` is pushing the renamed item onto the renamed AST |
| Invariance.RenameExecute | padlock.py:168-196 | an instruction read while idle does the same to the renamed state |
| Invariance.RenameCollect | padlock.py:200-224 | a character read inside a name and the swapped character do the same to the state and its renaming |
| Invariance.RenameDelimiter | padlock.py:202-216 | the two delimiters complete the name and its renaming alike, with the same count and the same error |
| Invariance.RenameJoin | padlock.py:218-224 | a character joins a name exactly when the swapped character joins the renamed name |
| Invariance.RenameStep | padlock.py:163-230 | one step on the swapped character from the renamed state is the renamed step, with the same errors |
| Invariance.RenameRunAll | padlock.py:163-230 | the run over the swapped input with the letter symbols is the renamed run over the input with the glyphs |
| Invariance.SymbolSetsAgree | padlock.py:117-237 | parsing the swapped input with `ascii_symbols` gives the same error, or the same AST with every name swapped |
| Invariance.StepShift | padlock.py:163-230 | a step one position later differs only in the position of an `InvalidSymbol` error |
| Invariance.ShiftedSnoc | padlock.py:163-230 | two runs that differ only by one position in their errors still do after one more character |
| Invariance.RunSkip | padlock.py:163-230 | after a non-symbol read while idle or after the program, the run goes on as without it, one position later |
| Invariance.IgnoredCharacter | padlock.py:163-237 | inserting such a character leaves the parse outcome unchanged: success exactly as before, with the same AST; otherwise the same error, `InvalidSymbol` one position later |

## Left out

- Logging: the `log.debug` and `log.info` calls have no effect on the result.
- Exception messages: only the error kind is kept. `InvalidSymbol` also keeps the
  character's position, and `UnexpectedEOF` records whether input ended inside a name.
- In-place mutation and aliasing: `push` is modelled by rebuilding the lists on
  the path around the one that grows. No two lists of the AST share storage in
  `parse`, so nothing observable is lost.
- `__repr__` returns a fixed string.
- The mutable default argument of `push` is never mutated. Every call passes an
  explicit path.
- The execution semantics in the syntax comment at the end of the file: nothing
  executes Padlock programs.
- `Symbol` enum values: an instruction's glyph is kept as a character. The text
  form therefore shows glyphs even for programs read with letter symbols, as the
  code does.
- Ast.AST.Push: requires a path that can be walked. Python raises on any other
  path, and `parse` never passes one (`Cursor.PathOk`).
- `isspace` is written out as the fixed set of whitespace code points Python
  uses. Unicode database updates are not followed.
