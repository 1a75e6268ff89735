# OneOS: verified models of the configuration evaluator and the driver core

This project models six parts of a OneOS/STM32 source tree in Dafny 4.11 and proves what they are for. Run
`dafny verify dfyconfig.toml` to check everything. Source paths below are relative to the root of that tree.

**Kconfig evaluator** (`oneos/scripts/kconfiglib_ex.py`). `KconfigTree` is the finalised configuration tree and the
meaning of every value as the answer to a query, computed from the answers recorded so far. `KconfigEval` is evaluation
from scratch, which items a computation reads, and the uniqueness of consistent answers. `KconfigCache` is the running
program: a class with the cached values, the recursive evaluation with its short-circuits, and invalidation, which
stops at items without a cached visibility. The main result is that after any run of assignments and reads every cached
value is what evaluation from scratch gives. `ConfigText`, `KconfigReload`, `KconfigFile` and `ConfigWriter` are the
`.config` writer and loader down to characters, with the menu titles and comments that the writer puts between the
symbols: a full or a minimal configuration that is written and loaded back keeps every value, exactly when no optional
choice is in y mode without a selected symbol, no comment line resets a symbol and no number loses white space.
`KconfigLaws`, `KconfigLoading` and `ConfigLayout` say what all this means without the functions that compute it: which value a
symbol, choice or comparison has, what an assignment does, which lines of a file count when it is loaded, and where each line
of a written file comes from. `KconfigDeps` builds the dependency graph, and `KconfigLoops` is the search for loops in it with its detours through
choices. `KconfigOrder` leads from there to the recursive evaluation: which configurations have an order on which it ends,
which of them the check lets pass, and starting the program; `KconfigMissed` has the configurations that pass and should
not. `ExprText` prints and parses expressions, and `ExprGrammar` has the grammar whose sentences the parser accepts. `MenuForest`, `MenuDeps`, `MenuProps` and `MenuTree` are the rewriting of
the menu tree after parsing: propagation of dependencies, copying of properties to symbols and choices, implicit submenus,
flattening, removal of `if` nodes, and the iterative walk, on linked nodes. `MenuSane` and `MenuStart` join both halves: what
finalising makes of a parsed menu tree that passes the sanity checks is a configuration tree as the evaluator and the minimal
configuration need it, and the program is started on it. `MenuLaws` tells from the menu tree as it was written what its
symbols and choices end up with, and when a symbol is visible.

**Driver core.** `RingBlocks` is the allocator of contiguous blocks in a circular arena, `RingBuffer` the byte ring with
mirror bits, `Device` the blocking read and write protocol with its semaphores and interrupts as a state machine over
arbitrary interleavings, `Audio` the audio player as its client, `Scaling` the fixed-point factors of `calc_mult_shift`,
and `Crc` the nibble-table `crc16`. `Arith`, `Orders`, `Sums` and `Wrappers` hold what several modules need.

What does not hold of the code is stated as such, with its exact condition:

- A choice in y mode is inferred on loading from a symbol written as y. An optional choice in y mode without a selected
  symbol therefore comes back in n mode (`KconfigFile.EmptyChoiceLost`, with the condition in `KconfigFile.FullReload`).
- Loading a configuration with `replace` is documented to clear all existing user values. The selection of a choice stays if
  the file sets the mode of the choice by an m value but none of its symbols to y (`KconfigLoading.SelectionOutlives`, with
  the exact condition in `KconfigLoading.ReplacedIff`).
- The writer of minimal configurations compares a value with what the symbol would have by default, but counts implies whose
  direct dependencies are not met (`KconfigLaws.PlainDefaultIff`). Such a symbol gets a line although nobody has set it.
- A menu title or comment that starts with `CONFIG_X is not set` is written as a comment line that the loader reads as the
  line of X, and X is reset to n (`ConfigWriter.CommentResets`). `ConfigText.TitleRead` says exactly for which titles,
  and `ConfigWriter.WrittenReload` has the condition: every symbol whose last line in the file is such a comment is one
  that a user value n does not change.
- The loop check can pass although there is a loop. When it meets a symbol that is finished while the choice of that symbol
  is still being searched, it turns back. Without such an encounter it passes exactly if there is no loop, with the symbols
  of each choice taken together (`KconfigLoops.PassIffLoopFree`). In any case a loop that it misses enters a choice through
  one of its symbols (`KconfigLoops.OnlyDetoursMissed`). In `KconfigMissed.LoopMissed` the evaluation does not end exactly
  if the user has selected one symbol of the choice.
- A pass does not yield an order for the evaluation, because the check never follows the dependents of a choice itself: in
  `KconfigMissed.DependentsOfChoiceMissed` it passes, and evaluation never ends. Where it passes and misses nothing, the
  levels that give an order exist exactly if no such dependent leads back to its choice (`KconfigOrder.GradedIffNoneBack`,
  `KconfigOrder.GradesRank`); an order of any kind exists exactly if no answer is computed from itself
  (`KconfigOrder.RankedIff`).
- Lines are stripped on the right when they are read, of everything Python counts as white space, so a number with trailing
  white space comes back without it (`KconfigFile.NumberLosesSpace`). The condition in `KconfigFile.FullReload` is exact:
  it matters for a number that is shown and that, without that white space, is accepted as a user value and in its range.
  Values with line breaks are outside the format.
- `rb_ring_buff_put_force` keeps the newest bytes except when the call wraps and overflows while the mirrors are equal; it
  then flips both mirrors and the buffer reads as empty (`RingBuffer.PutForceLosesAll`).
- `calc_mult_shift` leaves its loop without a break when even the shift 1 exceeds the bound, and then returns the factor
  for the shift 1 together with the shift 0.
- `rbb_blk_alloc` does not compare a request with the buffer size when its list is empty.
- Overlapping nonblocking audio writes share `write_data`: one writer's bytes can be sent twice and the other's not at all.
- In `_expr_depends_on` the comparison `SYM != y` also counts as a dependency on SYM, because of how `and` and `or` bind;
  the comment above that line lists only `= m`, `= y` and `!= n` (`MenuForest.NotYDepends`, with the exact condition in
  `MenuForest.DocumentedIff`). The model follows the code.

## Model

| member | source | states |
|---|---|---|
| `KconfigEval.AnswerTotal` | oneos/scripts/kconfiglib_ex.py:4354-4572 | An evaluation never needs more than the values of the items it syntactically depends on |
| `KconfigEval.Eval` | oneos/scripts/kconfiglib_ex.py:4354-4590 | Evaluation from scratch: it ends on every loop-free tree and its result answers the query from lower-ranked results |
| `KconfigEval.ExprKept` | oneos/scripts/kconfiglib_ex.py:6047-6101 | A short-circuited evaluation gives the same value under every record that keeps the answers it actually read |
| `KconfigEval.AnswerKept` | oneos/scripts/kconfiglib_ex.py:4955-4974 | An answer stays right when the answers it read are kept, although the user values elsewhere changed |
| `KconfigEval.ConsistentIsEval` | oneos/scripts/kconfiglib_ex.py:4955-4974 | Records whose every entry is locally right hold exactly the values of evaluation from scratch |
| `KconfigEval.VisibilityRecorded` | oneos/scripts/kconfiglib_ex.py:4955-4974 | An item with any cached value has its visibility cached, so a missing visibility may stop invalidation |
| `KconfigLaws.Connectives` | oneos/scripts/kconfiglib_ex.py:6047-6076 | And, or and not are the least, the greatest and the opposite value |
| `KconfigLaws.Relations` | oneos/scripts/kconfiglib_ex.py:6078-6101 | A comparison is y exactly if it holds of the numbers, if both operands are numbers and not both string symbols, and else of the texts, ordered by their first difference; otherwise it is n |
| `KconfigLaws.StrCmpIs` | oneos/scripts/kconfiglib_ex.py:6431-6434 | Texts compare by the first character that differs, or by one being the start of the other |
| `KconfigLaws.Symbols` | oneos/scripts/kconfiglib_ex.py:4354-4375 | A logical symbol is y or n as its text says; strings and numbers count as n |
| `KconfigLaws.ModeOf` | oneos/scripts/kconfiglib_ex.py:5257-5274 | A choice is in y mode exactly if it is visible and, if it is optional, the user has set it to m or y |
| `KconfigLaws.ChoiceVisibility` | oneos/scripts/kconfiglib_ex.py:6356-6384 | A choice is visible exactly if one of its prompts is |
| `KconfigLaws.SymVisibilityOf` | oneos/scripts/kconfiglib_ex.py:6356-6384 | A symbol is visible exactly if one of its prompts is and the mode of its choice allows it |
| `KconfigLaws.LogicalValue` | oneos/scripts/kconfiglib_ex.py:4495-4558 | A symbol outside choices is y exactly if it is selected, or a user value that counts says so, or else its first default whose condition is not n, or an imply with met direct dependencies; it is to be written exactly if it is visible or y |
| `KconfigLaws.ChoiceSymValue` | oneos/scripts/kconfiglib_ex.py:4561-4569 | A symbol of a choice is y exactly if it is visible and selected, and to be written exactly if it is visible |
| `KconfigLaws.StringValue` | oneos/scripts/kconfiglib_ex.py:4471-4481 | A string is the user's if it is visible, else that of its first default whose condition is not n |
| `KconfigLaws.UserNumber` | oneos/scripts/kconfiglib_ex.py:4405-4428 | A visible, non-empty user number in the active range is used as it was written |
| `KconfigLaws.NumberByDefault` | oneos/scripts/kconfiglib_ex.py:4430-4466 | Otherwise it is the first default whose condition is not n; what lies below or above the first range whose condition is not n becomes its lower or upper bound |
| `KconfigLaws.NumberInRange` | oneos/scripts/kconfiglib_ex.py:4384-4466 | A number is in its active range, whatever users and defaults say, exactly if there is a number in it |
| `KconfigLaws.TextWritten` | oneos/scripts/kconfiglib_ex.py:4377-4489 | A string or number is to be written exactly if it may be and is visible or has a default whose condition is not n |
| `KconfigLaws.SelectionOf` | oneos/scripts/kconfiglib_ex.py:5483-5512 | Only in y mode a choice selects: the user's selection if visible, else the first visible default whose condition is not n, else the first visible symbol |
| `KconfigLaws.MinLineIff` | oneos/scripts/kconfiglib_ex.py:1648-1680 | Exactly which symbols the minimal configuration leaves out |
| `KconfigLaws.PlainDefaultIff` | oneos/scripts/kconfiglib_ex.py:4999-5032 | When the default that the minimal configuration compares with is the value a symbol has without the user |
| `KconfigLaws.UntouchedOmitted` | oneos/scripts/kconfiglib_ex.py:1648-1680 | Symbols that the user has not touched are left out, with the exceptions |
| `KconfigLaws.Assigned` | oneos/scripts/kconfiglib_ex.py:4618-4705 | Which arguments set_value() takes for which type, and all that it changes |
| `KconfigLaws.AssignedMode` | oneos/scripts/kconfiglib_ex.py:5303-5342 | The same for the mode of a choice |
| `KconfigLaws.SetThenRead` | oneos/scripts/kconfiglib_ex.py:4618-4705 | What has been set is what is read, if the symbol is visible |
| `KconfigLaws.ChosenThenRead` | oneos/scripts/kconfiglib_ex.py:4690-4700 | Setting a visible symbol of a choice in y mode to y makes it y and all others of the choice n |
| `KconfigLaws.CachedRecord` | oneos/scripts/kconfiglib_ex.py:4495-4590 | The laws hold of everything the program has cached, in every state |
| `KconfigCache.Kconfig.Visibility` | oneos/scripts/kconfiglib_ex.py:4584-4590 | Returns and records the visibility, keeps every earlier cached value and the invariant |
| `KconfigCache.Kconfig.SymVisibilityValue` | oneos/scripts/kconfiglib_ex.py:6356-6384 | The loop over the prompts and the choice adjustments compute the specified visibility |
| `KconfigCache.Kconfig.ExprValue` | oneos/scripts/kconfiglib_ex.py:6047-6101 | Evaluates as specified through the cache, reading operands only where the short-circuits do |
| `KconfigCache.Kconfig.TriValue` | oneos/scripts/kconfiglib_ex.py:4495-4572 | Returns and records the tristate value, keeps every earlier cached value and the invariant |
| `KconfigCache.Kconfig.StrValue` | oneos/scripts/kconfiglib_ex.py:4354-4492 | Returns and records the string value, including ranges, defaults and user values |
| `KconfigCache.Kconfig.ModeValue` | oneos/scripts/kconfiglib_ex.py:5257-5274 | A choice's mode from its visibility and user mode |
| `KconfigCache.Kconfig.SelectionValue` | oneos/scripts/kconfiglib_ex.py:5295-5300 | Returns and records the selection of a choice |
| `KconfigCache.Kconfig.UserSelection` | oneos/scripts/kconfiglib_ex.py:5483-5497 | The user's selection counts only while it is visible |
| `KconfigCache.Kconfig.SelectionFromDefaults` | oneos/scripts/kconfiglib_ex.py:5499-5512 | First visible default, else first visible symbol |
| `KconfigCache.Kconfig.RecInvalidate` | oneos/scripts/kconfiglib_ex.py:4946-4975 | Ends on every graph, cyclic or not, leaves no cached item that depends on an invalidated one, and drops only items that do; for MODULES it leaves nothing |
| `KconfigCache.DrainedConsistent` | oneos/scripts/kconfiglib_ex.py:4946-4975 | What invalidation leaves is right for the new user values, for all trees, records and changes around an item |
| `KconfigCache.ChoiceSymsCleared` | oneos/scripts/kconfiglib_ex.py:5518-5525 | Invalidating a choice reaches the cached values of its symbols through the choice/symbol cycle |
| `KconfigCache.Kconfig.Reassign` | oneos/scripts/kconfiglib_ex.py:4977-4997 | Storing user values and invalidating keeps the cache right, although promptless symbols are not invalidated |
| `KconfigCache.Kconfig.SetValue` | oneos/scripts/kconfiglib_ex.py:4618-4705 | Accepts exactly the values that fit the type, selects choice symbols set to y, keeps the cache right |
| `KconfigCache.Kconfig.UnsetValue` | oneos/scripts/kconfiglib_ex.py:4707-4714 | Removes exactly that user value and keeps the cache right |
| `KconfigCache.Kconfig.SetMode` | oneos/scripts/kconfiglib_ex.py:5303-5342 | Accepts exactly the modes that fit the type, keeps the cache right |
| `KconfigCache.Kconfig.UnsetMode` | oneos/scripts/kconfiglib_ex.py:5344-5351 | Removes user mode and selection, keeps the cache right |
| `KconfigCache.Kconfig.UnsetValues` | oneos/scripts/kconfiglib_ex.py:1940-1956 | Removes every user value, symbol by symbol and choice by choice, and keeps the cache right |
| `KconfigCache.Kconfig.Coherent` | oneos/scripts/kconfiglib_ex.py:4955-4974 | Every cached value equals evaluation from scratch on the current user values |
| `KconfigCache.Kconfig.Run` | oneos/scripts/kconfiglib_ex.py:4618-4714 | After any sequence of assignments and reads, every cached value equals evaluation from scratch |
| `ConfigText.UnescapeEscape` | oneos/scripts/kconfiglib_ex.py:6235-6253 | Unescaping an escaped string gives it back, for all strings |
| `ConfigText.LiteralEscape` | oneos/scripts/kconfiglib_ex.py:7243-7243 | The string match ends exactly at the closing quote of an escaped string, whatever follows |
| `ConfigText.QuotedValue` | oneos/scripts/kconfiglib_ex.py:1256-1270 | Quoting, matching and unescaping give every string back |
| `ConfigText.SetLineParsed` | oneos/scripts/kconfiglib_ex.py:930-931 | An assignment line is read back as that name and the right-stripped value, whatever the value is |
| `ConfigText.UnsetLineParsed` | oneos/scripts/kconfiglib_ex.py:930-931 | A line for an unset symbol is read back as that symbol |
| `ConfigText.QuotedLineParsed` | oneos/scripts/kconfiglib_ex.py:4593-4616 | The line of a string symbol is read back with its quoted value unchanged |
| `ConfigText.NumberLineParsed` | oneos/scripts/kconfiglib_ex.py:4593-4616 | A number's line is read back unchanged exactly if the number does not end in one of Python's white space characters |
| `ConfigText.CommentRead` | oneos/scripts/kconfiglib_ex.py:931-932 | A comment line is read as the line of an unset symbol exactly if that line is its start |
| `ConfigText.TitleRead` | oneos/scripts/kconfiglib_ex.py:1604-1609 | The comment line of a title is read as the line of an unset symbol exactly if the title starts with its name and " is not set" |
| `ConfigText.SplitJoin` | oneos/scripts/kconfiglib_ex.py:1192-1215 | Splitting a file of lines without breaks gives the lines back |
| `ConfigText.LineEnds` | oneos/scripts/kconfiglib_ex.py:1192-1214 | Lines end in \n, \r or \r\n |
| `ConfigText.LineRead` | oneos/scripts/kconfiglib_ex.py:930-932 | Exactly which lines are read as an assignment of which value, and which as the line of an unset symbol |
| `ConfigText.LiteralRead` | oneos/scripts/kconfiglib_ex.py:7243-7243 | A literal with any escapes is read as what it means |
| `ConfigText.LiteralSpelled` | oneos/scripts/kconfiglib_ex.py:7243-7243 | Nothing else is read as a literal |
| `KconfigReload.SelectionWritten` | oneos/scripts/kconfiglib_ex.py:1648-1680 | A selection that the minimal configuration omits is what its choice selects by default |
| `KconfigReload.OmittedPlain` | oneos/scripts/kconfiglib_ex.py:4999-5032 | A symbol omitted as default-valued or unchangeable has the same value without a user value |
| `KconfigReload.SelAgrees` | oneos/scripts/kconfiglib_ex.py:5483-5512 | The selections after loading are those before |
| `KconfigReload.ReloadConsistent` | oneos/scripts/kconfiglib_ex.py:1648-1680 | The old values are right for the loaded user values, for every set of lines between minimal and full |
| `KconfigFile.FileLoads` | oneos/scripts/kconfiglib_ex.py:1192-1311 | Loading a file of symbol lines and comments in any order leaves the written values, numbers stripped, modes and selections from y lines, and n for exactly the symbols whose last line is a comment that reads as theirs |
| `KconfigFile.FullReload` | oneos/scripts/kconfiglib_ex.py:1192-1311 | A file with the lines of all values to be written, and any comments, keeps every value and mode when it is loaded, if and only if no optional choice is in y mode without a selection, a user value n does not change the symbols that comments reset, and no shown number ends in white space without which it is accepted and in its range |
| `KconfigFile.MinReload` | oneos/scripts/kconfiglib_ex.py:1648-1680 | The same for a minimal configuration with its header, although default-valued and unchangeable symbols are omitted |
| `KconfigFile.EmptyChoiceLost` | oneos/scripts/kconfiglib_ex.py:1192-1311 | A concrete optional choice whose mode does not survive writing and loading |
| `KconfigFile.NumberLosesSpace` | oneos/scripts/kconfiglib_ex.py:1214-1216 | For every number with white space at its end that a user enters: writing and loading takes the white space off |
| `KconfigFile.ConfigString` | oneos/scripts/kconfiglib_ex.py:4593-4616 | The program's line for a symbol is the line of its value from scratch, and none if it is not to be written |
| `KconfigFile.StrDefaultValue` | oneos/scripts/kconfiglib_ex.py:4999-5032 | The default a symbol would get, from scratch values |
| `KconfigFile.WriteMinConfig` | oneos/scripts/kconfiglib_ex.py:1648-1680 | The minimal file is its header and the lines of exactly the symbols that are not unchangeable, default-valued or default-selected |
| `KconfigFile.LoadConfig` | oneos/scripts/kconfiglib_ex.py:1192-1311 | Loading with replace leaves exactly the user values of the file and a right cache |
| `KconfigLoading.ReadingIs` | oneos/scripts/kconfiglib_ex.py:1214-1293 | Which value a line gives to which symbol, by type |
| `KconfigLoading.LoadedSymbols` | oneos/scripts/kconfiglib_ex.py:1192-1311 | For every file: a symbol has a user value exactly if a line gives it one, and it is that of the last such line |
| `KconfigLoading.LoadedModes` | oneos/scripts/kconfiglib_ex.py:1241-1256 | A choice has a user mode exactly if a line sets it, and it is that of the last such line |
| `KconfigLoading.LoadedSelections` | oneos/scripts/kconfiglib_ex.py:1192-1311 | A choice has the selection of the last line that sets one of its symbols to y, or an old one if only its mode is set |
| `KconfigLoading.ReplacedIff` | oneos/scripts/kconfiglib_ex.py:1137-1139 | Exactly when the loaded user values do not depend on the old ones, as documented |
| `KconfigLoading.SelectionOutlives` | oneos/scripts/kconfiglib_ex.py:1300-1311 | For every tristate choice, a file after whose loading the old selection is still there and counts |
| `ConfigWriter.WriteConfig` | oneos/scripts/kconfiglib_ex.py:1538-1609 | The iterative walk writes the header, the titles and end comments of shown menus and comments, blank lines, and each symbol once, from the values evaluated from scratch |
| `ConfigWriter.AllEntries` | oneos/scripts/kconfiglib_ex.py:1586-1602 | The symbols with a line are exactly the visited ones that are to be written |
| `ConfigWriter.AllExplained` | oneos/scripts/kconfiglib_ex.py:1565-1609 | Every comment line comes from the header, is the title of a shown menu or comment, or resets nothing |
| `ConfigWriter.NoneSilenced` | oneos/scripts/kconfiglib_ex.py:1604-1609 | If no shown title reads as an unset symbol, the written file resets nothing |
| `ConfigWriter.HeaderUnsetsNothing` | oneos/scripts/kconfiglib_ex.py:1406-1407 | The default header resets nothing, in any tree |
| `ConfigWriter.WrittenReload` | oneos/scripts/kconfiglib_ex.py:1538-1609 | What the writer writes keeps every value and mode when it is loaded, if and only if no optional choice is in y mode without a selection, no symbol is reset for good by a title, and no number loses white space |
| `ConfigWriter.CommentResets` | oneos/scripts/kconfiglib_ex.py:1604-1609 | For every proper name, a symbol with default y and a comment after it: loading the written file sets the symbol to n |
| `ConfigWriter.SaveAndLoad` | oneos/scripts/kconfiglib_ex.py:1192-1311 | Writing and loading in the running program keeps every value, if and only if these three conditions hold |
| `ConfigWriter.SaveMinAndLoad` | oneos/scripts/kconfiglib_ex.py:1192-1311 | The same with a minimal configuration |
| `ConfigLayout.LayoutIs` | oneos/scripts/kconfiglib_ex.py:1538-1609 | The file is its header and, step by step, the end comments and titles of shown menus and comments, the line of each symbol at its first node, and a blank line between an end comment and a symbol |
| `ConfigLayout.OneLineEach` | oneos/scripts/kconfiglib_ex.py:1586-1602 | A symbol has one line if it is visited and is visible, y, or has a default whose condition is not n, as its type asks, and none otherwise |
| `ConfigLayout.LineIs` | oneos/scripts/kconfiglib_ex.py:4593-4616 | The text of the line |
| `ConfigLayout.EnteredInOrder` | oneos/scripts/kconfiglib_ex.py:1556-1609 | Every node is entered once, in the order of the menu tree |
| `ConfigLayout.LeftAfterChildren` | oneos/scripts/kconfiglib_ex.py:1565-1575 | A menu ends when its children, and nothing else, have been dealt with since its title |
| `KconfigDeps.MakeDependOn` | oneos/scripts/kconfiglib_ex.py:6386-6402 | Registers a dependent at exactly the non-constant items of an expression |
| `KconfigDeps.BuildDep` | oneos/scripts/kconfiglib_ex.py:3542-3601 | The graph has exactly the edges from the items in an item's properties |
| `KconfigDeps.AddChoiceDeps` | oneos/scripts/kconfiglib_ex.py:3603-3615 | With these edges every item is registered with everything its values read |
| `KconfigDeps.EdgeIff` | oneos/scripts/kconfiglib_ex.py:3542-3615 | The dependents of an item are exactly the symbols and choices in whose prompts, defaults, ranges or dependencies it occurs, and the choice of a symbol |
| `KconfigLoops.LoopCheck.CheckSym` | oneos/scripts/kconfiglib_ex.py:6633-6705 | The search of a symbol, with `ignore_choice`, does what the specified search does to marks and result |
| `KconfigLoops.LoopCheck.CheckChoice` | oneos/scripts/kconfiglib_ex.py:6708-6739 | The search of a choice, with the symbol to skip, does what the specified search does |
| `KconfigLoops.PassIffLoopFree` | oneos/scripts/kconfiglib_ex.py:6633-6739 | The check of all symbols passes without meeting a finished symbol of an unfinished choice, if and only if the dependencies, with the symbols of each choice taken together, have no loop |
| `KconfigLoops.OnlyDetoursMissed` | oneos/scripts/kconfiglib_ex.py:6671-6688 | Whatever the search met, a pass excludes every loop without a step from a symbol to its own choice |
| `KconfigLoops.AllReport` | oneos/scripts/kconfiglib_ex.py:6742-6788 | Whatever the check returns instead of passing is a raised error with a closed chain of dependencies and choice memberships |
| `KconfigLoops.NoClosedChain` | oneos/scripts/kconfiglib_ex.py:6633-6739 | Without loops no closed chain of steps goes through a dependency |
| `KconfigOrder.GradesRank` | oneos/scripts/kconfiglib_ex.py:1058-1069 | Levels that rise along every dependency, also of a choice itself, are an order on which recursive evaluation ends |
| `KconfigOrder.GradedIff` | oneos/scripts/kconfiglib_ex.py:1058-1069 | Such levels exist exactly if no chain of dependencies closes, with the symbols of each choice taken together |
| `KconfigOrder.GradedIffNoneBack` | oneos/scripts/kconfiglib_ex.py:6708-6739 | Without the loops that the check looks for, such levels exist exactly if no dependent of a choice leads back to the choice |
| `KconfigOrder.RankedIff` | oneos/scripts/kconfiglib_ex.py:4354-4590 | An order for the evaluation exists exactly if no answer may, step by step, be computed from itself |
| `KconfigOrder.RankedAnswers` | oneos/scripts/kconfiglib_ex.py:4354-4590 | With an order, every query is answered by some evaluation, whatever the user values |
| `KconfigMissed.LoopMissed` | oneos/scripts/kconfiglib_ex.py:6633-6739 | For all distinct names: a choice of three symbols and a fourth symbol that pass the check; for all user values, some evaluation gets to the fourth symbol if and only if the user has not selected the second |
| `KconfigMissed.DependentsOfChoiceMissed` | oneos/scripts/kconfiglib_ex.py:6708-6739 | A choice whose prompt depends on a symbol in one of its menus passes the check with nothing missed; whatever the user values, no evaluation gets to the visibility of either |
| `KconfigOrder.CheckDepLoops` | oneos/scripts/kconfiglib_ex.py:1062-1065 | The program's check: it raises only loops, and passes without a missed one exactly if there is none |
| `KconfigOrder.ChoiceFreeCheck` | oneos/scripts/kconfiglib_ex.py:1062-1065 | Without choices the check raises an error if and only if there is a loop, and misses nothing |
| `KconfigOrder.Start` | oneos/scripts/kconfiglib_ex.py:1058-1069 | From a tree with or without choices to a running evaluator: it stops exactly at an error of the check, and is then ready to answer every query if and only if there is an order, so whenever the levels exist |
| `ExprText.Parser.Expression` | oneos/scripts/kconfiglib_ex.py:3452-3491 | The parser, advancing its token index, computes the grammar's result or fails where it does |
| `ExprText.Parser.AndExpression` | oneos/scripts/kconfiglib_ex.py:3493-3500 | The same for `&&` expressions |
| `ExprText.Parser.Factor` | oneos/scripts/kconfiglib_ex.py:3502-3536 | The same for factors, relations and the treatment of m |
| `ExprText.Parser.CheckToken` | oneos/scripts/kconfiglib_ex.py:2569-2575 | Steps over a token exactly if it is next |
| `ExprText.PrintedParsed` | oneos/scripts/kconfiglib_ex.py:6119-6160 | Parsing the printed tokens takes all of them and gives the right-nested form, with m treated as asked |
| `ExprText.RightFormValue` | oneos/scripts/kconfiglib_ex.py:6047-6101 | The right-nested form has the same value under every valuation and fails where the original fails |
| `ExprText.RoundTrip` | oneos/scripts/kconfiglib_ex.py:6119-6160 | Print and parse: same value always, same tree if and only if chains are right-nested |
| `ExprText.SamePrint` | oneos/scripts/kconfiglib_ex.py:6405-6410 | Two expressions print the same exactly when they differ only in the nesting of chains |
| `ExprGrammar.AcceptedIff` | oneos/scripts/kconfiglib_ex.py:3461-3467 | The parser takes all tokens and gives an expression exactly if they are a sentence of the grammar that stands for it |
| `ExprGrammar.Unambiguous` | oneos/scripts/kconfiglib_ex.py:3461-3467 | Tokens have one meaning |
| `MenuForest.DependsOnIs` | oneos/scripts/kconfiglib_ex.py:6513-6538 | What `_expr_depends_on` computes: the documented comparisons, or a comparison with y by `!=`, in some conjunct |
| `MenuForest.DocumentedIff` | oneos/scripts/kconfiglib_ex.py:6519-6534 | It agrees with its comment if and only if no conjunct compares the symbol with y by `!=`, or a documented conjunct holds anyway |
| `MenuForest.NotYDepends` | oneos/scripts/kconfiglib_ex.py:6519-6534 | Where it does not: `SYM != y`, for every symbol |
| `MenuForest.TakenRequire` | oneos/scripts/kconfiglib_ex.py:3660-3670 | The following nodes that a symbol takes into its implicit submenu require it, by the condition of the prompt if there is one and else by the dependencies, and the first node left behind does not |
| `MenuForest.RestIsEnd` | oneos/scripts/kconfiglib_ex.py:3660-3678 | What a node leaves over is the end of its siblings; only symbols take any |
| `MenuForest.LevelKeeps` | oneos/scripts/kconfiglib_ex.py:6550-6602 | In a finished level only nodes with a prompt and choices have children, and these have kept all of theirs |
| `MenuForest.LevelItems` | oneos/scripts/kconfiglib_ex.py:6550-6602 | Flattening and removing `if` nodes keeps the pre-order of all other nodes, for every level |
| `MenuForest.FinalisedWalk` | oneos/scripts/kconfiglib_ex.py:3632-3711 | Finalising a whole tree keeps the pre-order and drops exactly the `if` nodes, whatever implicit submenus arise |
| `MenuTree.Menus.Flatten` | oneos/scripts/kconfiglib_ex.py:6550-6576 | The in-place rewriting links exactly the flattened level, with parents, and touches nothing else |
| `MenuTree.Menus.RemoveIfs` | oneos/scripts/kconfiglib_ex.py:6579-6602 | The in-place rewriting links exactly the level without its `if` nodes, and touches nothing else |
| `MenuTree.Menus.PropagateDeps` | oneos/scripts/kconfiglib_ex.py:3713-3763 | Gives every child its final expressions and changes no other node |
| `MenuTree.Menus.AddPropsToSym` | oneos/scripts/kconfiglib_ex.py:3765-3796 | Copies a node's properties to its symbol and adds to the reverse dependencies of what it selects and implies |
| `MenuTree.Menus.FinalizeChoice` | oneos/scripts/kconfiglib_ex.py:6605-6630 | Makes the symbols directly below the node symbols of the choice, and gives the choice and its symbols the types that they take from each other |
| `MenuTree.Menus.TakeDependents` | oneos/scripts/kconfiglib_ex.py:3660-3678 | A symbol's following dependents are finalised and become its children, linked as specified |
| `MenuTree.Menus.FinalizeNode` | oneos/scripts/kconfiglib_ex.py:3632-3711 | Links hold the finalised node and its remaining siblings; expressions of everything finalised are final; symbols and choices have got the properties of exactly the nodes finalised, in order |
| `MenuTree.Menus.Finalize` | oneos/scripts/kconfiglib_ex.py:1043-1043 | The whole tree is finalised, with consistent parent links, all expressions propagated, and the properties of all nodes copied |
| `MenuTree.Menus.NodeIter` | oneos/scripts/kconfiglib_ex.py:1884-1906 | The iterative walk over links visits every node but the top once, in pre-order; with `unique_syms` exactly the first node of each symbol and all other nodes |
| `MenuTree.FirstNodesUnique` | oneos/scripts/kconfiglib_ex.py:1876-1906 | With `unique_syms` no symbol comes twice |
| `MenuTree.Menus.FinalizeAndIterate` | oneos/scripts/kconfiglib_ex.py:1884-1906 | Walking the finalised tree visits every item of the parsed tree once, in its order |
| `MenuDeps.AndWorth` | oneos/scripts/kconfiglib_ex.py:2929-2941 | The y/n simplification of `&&` changes no value |
| `MenuDeps.OrWorth` | oneos/scripts/kconfiglib_ex.py:2943-2955 | The y/n simplification of the "or" operator changes no value |
| `MenuDeps.ValueIsWorth` | oneos/scripts/kconfiglib_ex.py:6047-6101 | Short-circuit evaluation agrees with full evaluation under every valuation extending the record |
| `MenuDeps.SpreadSettles` | oneos/scripts/kconfiglib_ex.py:3713-3763 | Final expressions exist for every tree with distinct nodes |
| `MenuDeps.SettledWorths` | oneos/scripts/kconfiglib_ex.py:3713-3763 | Every node's dependencies, prompt and other conditions are worth the originals limited along the node's path, through choices too |
| `MenuDeps.PromptWorth` | oneos/scripts/kconfiglib_ex.py:3713-3763 | A symbol's prompt is worth the least of its condition, its own and all ancestors' dependencies and all enclosing `visible if` conditions |
| `MenuDeps.DirectDepGuards` | oneos/scripts/kconfiglib_ex.py:3765-3783 | A symbol whose collected direct dependencies are n has no visible prompt |
| `MenuDeps.PlacesGuard` | oneos/scripts/kconfiglib_ex.py:3765-3783 | A tree whose symbols get prompts and direct dependencies that way is one that the minimal configuration relies on |
| `MenuProps.EachOrder` | oneos/scripts/kconfiglib_ex.py:3660-3700 | Properties are copied from the symbol nodes in the order of the nodes, whatever implicit submenus arise |
| `MenuProps.SymBuilt` | oneos/scripts/kconfiglib_ex.py:3765-3783 | A symbol ends up with the dependencies of its nodes, joined, and all that they add, in order |
| `MenuProps.ReverseBuilt` | oneos/scripts/kconfiglib_ex.py:3785-3796 | Reverse dependencies are worth the greatest of all selects (implies) of the symbol, each limited by the selecting symbol and its condition |
| `MenuProps.ChoiceBuilt` | oneos/scripts/kconfiglib_ex.py:6605-6617 | A choice gets exactly the symbols directly below its finalised nodes, in order |
| `MenuProps.AllReferBack` | oneos/scripts/kconfiglib_ex.py:6605-6617 | A symbol that a choice lists is a choice symbol, and the choice of a symbol lists it |
| `MenuProps.TypesBuilt` | oneos/scripts/kconfiglib_ex.py:6619-6630 | Given types stay, the symbols of a choice with a type have one, and a choice with a symbol that was given a type has one |
| `MenuProps.ChoiceKidsBound` | oneos/scripts/kconfiglib_ex.py:3713-3763 | The finalised children of a choice, whatever was flattened or moved, have conditions that are n or mention the choice |
| `MenuProps.ChoicePrompts` | oneos/scripts/kconfiglib_ex.py:3713-3763 | In the assembled tree, every prompt of a choice symbol without prompts outside of its choice is n or mentions the choice |
| `MenuProps.FinalisedGuards` | oneos/scripts/kconfiglib_ex.py:3765-3783 | The assembled tree is one that the minimal configuration relies on: direct dependencies n hide every prompt |
| `MenuSane.EachTops` | oneos/scripts/kconfiglib_ex.py:6605-6617 | However nodes are flattened, removed or moved, none is found directly below choices more often than it occurs |
| `MenuSane.UnderOne` | oneos/scripts/kconfiglib_ex.py:6605-6617 | So a node is directly below at most one choice |
| `MenuSane.InOneChoice` | oneos/scripts/kconfiglib_ex.py:3935-3951 | No symbol is in two choices, because a check finds prompts outside of a choice |
| `MenuSane.MembersExactly` | oneos/scripts/kconfiglib_ex.py:6605-6617 | Choice symbols and choices refer to each other, in both directions |
| `MenuSane.FinalisedSane` | oneos/scripts/kconfiglib_ex.py:3802-3951 | The assembled tree of a finalised menu tree that passes the sanity checks is sane, which is what evaluation needs |
| `MenuSane.NumbersUnselected` | oneos/scripts/kconfiglib_ex.py:3821-3828 | Strings and numbers have no reverse dependencies |
| `MenuSane.FinalisedGuarded` | oneos/scripts/kconfiglib_ex.py:3765-3796 | It is also what the minimal configuration relies on |
| `MenuStart.OutcomeSane` | oneos/scripts/kconfiglib_ex.py:1043-1052 | The tree that a parsed menu tree ends up as is sane and guarded |
| `MenuStart.FinalizeAndAssemble` | oneos/scripts/kconfiglib_ex.py:1043-1052 | The finalised links and properties, read by the walk, give that tree |
| `MenuStart.FinalizeAndStart` | oneos/scripts/kconfiglib_ex.py:1043-1069 | From a parsed menu tree to a running program: it starts unless there is a loop, and is ready exactly if the answers have an order |
| `MenuLaws.AddsWeighed` | oneos/scripts/kconfiglib_ex.py:3713-3783 | What the nodes of a symbol or choice add is copied in order, each condition worth the least of its own and all dependencies on the way to the node |
| `MenuLaws.PromptsWeighed` | oneos/scripts/kconfiglib_ex.py:3713-3763 | So are their prompts, limited by `visible if` as well |
| `MenuLaws.DefaultsJoin` | oneos/scripts/kconfiglib_ex.py:3780-3783 | Defaults are those of the properties, in order |
| `MenuLaws.RangesJoin` | oneos/scripts/kconfiglib_ex.py:3780-3783 | Ranges likewise |
| `MenuLaws.ChoiceAdds` | oneos/scripts/kconfiglib_ex.py:3703-3711 | A choice gets the dependencies of its nodes, joined, and their defaults, in order |
| `MenuLaws.TypesAre` | oneos/scripts/kconfiglib_ex.py:6619-6630 | A choice without a type gets that of its first symbol with one, and its symbols without a type that of the choice; no other type changes |
| `MenuLaws.OutcomeSymbol` | oneos/scripts/kconfiglib_ex.py:1043-1043 | The prompts, defaults and ranges that a symbol of a parsed menu tree ends up with |
| `MenuLaws.OutcomeChoice` | oneos/scripts/kconfiglib_ex.py:1043-1043 | The prompts and defaults that a choice ends up with |
| `MenuLaws.SeenInMenus` | oneos/scripts/kconfiglib_ex.py:3632-3783 | In the program started from a parsed menu tree, a symbol outside choices is visible exactly if a prompt of it, all dependencies above it and all `visible if` conditions above it are met |
| `RingBlocks.LayoutInside` | oneos/common/source/ring_blk_buff.c:157-256 | Every live block lies inside the arena |
| `RingBlocks.LayoutDisjoint` | oneos/common/source/ring_blk_buff.c:157-256 | No two live blocks overlap |
| `RingBlocks.WrapTest` | oneos/common/source/ring_blk_buff.c:179-179 | `head->buf <= tail->buf` exactly when the blocks do not wrap |
| `RingBlocks.PlaceKeepsLayout` | oneos/common/source/ring_blk_buff.c:174-250 | A new block keeps the one-run or two-run layout, except exactly an oversized one on an empty list |
| `RingBlocks.PlaceIff` | oneos/common/source/ring_blk_buff.c:174-240 | A request is refused exactly if no place for it gives a layout; it goes behind the newest block if that fits, else to the start |
| `RingBlocks.DropKeepsLayout` | oneos/common/source/ring_blk_buff.c:298-315 | Freeing the oldest block keeps the layout |
| `RingBlocks.FreedInv` | oneos/common/source/ring_blk_buff.c:298-315 | The block with the consumer is always the list head, so free removes the head |
| `RingBlocks.StepInv` | oneos/common/source/ring_blk_buff.c:157-315 | Every call keeps all invariants, except exactly an oversized request on an empty list |
| `RingBlocks.EveryRun` | oneos/common/source/ring_blk_buff.c:157-315 | In every state of every run with fitting requests: inside, disjoint, wrap test, listed exactly when in use, delivered in allocation order |
| `RingBlocks.RingBlk.constructor` | oneos/common/source/ring_blk_buff.c:57-80 | All descriptors unused, empty list, invariants hold |
| `RingBlocks.RingBlk.FindEmpty` | oneos/common/source/ring_blk_buff.c:39-55 | Finds the first unused descriptor exactly if there is one |
| `RingBlocks.RingBlk.Alloc` | oneos/common/source/ring_blk_buff.c:157-256 | Fails exactly if no descriptor is unused, or there are blocks and no place for one more would give a layout; otherwise the first unused descriptor gets the place behind the newest block if that fits, else the start of the arena; and when the invariants hold |
| `RingBlocks.RingBlk.PutBlk` | oneos/common/source/ring_blk_buff.c:258-265 | Changes only that block's status and keeps the invariants |
| `RingBlocks.RingBlk.GetBlk` | oneos/common/source/ring_blk_buff.c:267-296 | Hands out the oldest block, exactly if it has been put |
| `RingBlocks.RingBlk.FreeBlk` | oneos/common/source/ring_blk_buff.c:298-315 | Removes exactly the head and keeps the invariants |
| `RingBlocks.Perform` | oneos/common/source/ring_blk_buff.c:157-315 | Every call on the buffer is a step of the runs above |
| `RingBuffer.RingBuff.Reset` | oneos/common/source/ring_buff.c:96-106 | The queue is empty, whatever it held |
| `RingBuffer.RingBuff.GetState` | oneos/common/source/ring_buff.c:43-58 | Empty, full or in between, in terms of the queue |
| `RingBuffer.RingBuff.DataLen` | oneos/common/source/ring_buff.c:186-218 | The length of the queue |
| `RingBuffer.RingBuff.SpaceLen` | oneos/common/source/ring_buff.c:230-238 | The room left |
| `RingBuffer.RingBuff.Put` | oneos/common/source/ring_buff.c:254-290 | Appends as much of the data as fits; copies stay in bounds |
| `RingBuffer.RingBuff.Get` | oneos/common/source/ring_buff.c:367-409 | Takes out the oldest bytes in order; copies stay in bounds |
| `RingBuffer.RingBuff.PutChar` | oneos/common/source/ring_buff.c:422-451 | Appends a byte if there is room |
| `RingBuffer.RingBuff.GetChar` | oneos/common/source/ring_buff.c:510-537 | Takes out the oldest byte |
| `RingBuffer.RingBuff.PutCharForce` | oneos/common/source/ring_buff.c:463-496 | Appends a byte and keeps the newest |
| `RingBuffer.RingBuff.PutForce` | oneos/common/source/ring_buff.c:305-354 | Appends and keeps the newest bytes, if and only if the call does not wrap and overflow from equal mirrors; then the buffer reads as empty |
| `RingBuffer.PushEachKeepsLast` | oneos/common/source/ring_buff.c:463-496 | Repeated forced bytes mean "append, then keep the newest" |
| `RingBuffer.PutForceLosesAll` | oneos/common/source/ring_buff.c:305-354 | A buffer that holds something and has not wrapped is empty after a buffer's length of data is forced into it |
| `RingBuffer.LosingBuffer` | oneos/common/source/ring_buff.c:254-290 | Such a buffer: two bytes put into four |
| `RingBuffer.Conservation` | oneos/common/source/ring_buff.c:254-409 | In every run without forced puts, bytes read followed by the contents equal the contents before followed by bytes accepted |
| `RingBuffer.Perform` | oneos/common/source/ring_buff.c:254-537 | Every run of the operations does what the bounded queue does |
| `Device.InvStep` | oneos/drivers/device.c:451-555 | Every step of any task or interrupt keeps the semaphore count and the wake-up invariant |
| `Device.TransferGuarded` | oneos/drivers/device.c:465-478 | A task goes on to the driver exactly if the transfer need not wait, and gets there in no other way |
| `Device.TestedBefore` | oneos/drivers/device.c:465-478 | In every run, a task in the driver passed that test and has been there since |
| `Device.WakesOthers` | oneos/drivers/device.c:480-484 | Another task is woken exactly if something is left to read, or room to write |
| `Device.TokensChange` | oneos/drivers/device.c:465-484 | Tokens are made by posts, up to the limit, and taken by waits, and by nothing else |
| `Device.OneMoves` | oneos/drivers/device.c:451-488 | The order of the steps of a call; a waiting task goes on only with a token or leaves at a timeout |
| `Device.InvRun` | oneos/drivers/device.c:451-718 | So does every run |
| `Device.OneHolder` | oneos/drivers/device.c:465-486 | `dev->sem` has at most one holder |
| `Device.StuckIsSettled` | oneos/drivers/device.c:519-555 | If no task can move, `dev->sem` is free and whoever waits has nothing to transfer: no deadlock, no lost wake-up |
| `Device.ComesToRest` | oneos/drivers/device.c:451-555 | Without interrupts and new calls every schedule is finite, with a fixed bound, and ends settled |
| `Device.RestReached` | oneos/drivers/device.c:451-555 | A settled state is reachable from every reachable state |
| `Device.EveryRun` | oneos/drivers/device.c:451-718 | All of this after any run from any state without calls under way |
| `Audio.InvStep` | oneos/drivers/audio/audio_player.c:131-186 | Every step of any number of writers and completions keeps tx_count equal to reservations, allocated and transmitted blocks, within 0..tx_size |
| `Audio.ReturnsWhen` | oneos/drivers/audio/audio_player.c:143-150 | A call returns exactly when its whole buffer is taken or tx_count has reached tx_size |
| `Audio.InvRun` | oneos/drivers/audio/audio_player.c:37-47 | So does every run |
| `Audio.NeverBlocks` | oneos/drivers/audio/audio_player.c:157-157 | The allocation that waits forever never waits |
| `Audio.LoneStep` | oneos/drivers/audio/audio_player.c:131-186 | With one call at a time each block is in exactly one place and the call's blocks carry what it has taken |
| `Audio.Reported` | oneos/drivers/audio/audio_player.c:131-186 | In every such run a call's blocks carry, in order, exactly the prefix its return value reports; the hardware was started once |
| `Audio.NotOverwritten` | oneos/drivers/audio/audio_player.c:157-170 | No block changes while the hardware has it |
| `Audio.Overlap` | oneos/drivers/audio/audio_player.c:157-184 | From every state with room, two overlapping writers have a run in which a call returns its count although its blocks carry the other's bytes |
| `Scaling.CountHeadroom` | oneos/drivers/driver.c:32-40 | The first loop finds the largest number of factor bits that cannot overflow |
| `Scaling.HeadroomUnique` | oneos/drivers/driver.c:35-40 | That number is determined by the largest count |
| `Scaling.NoOverflow` | oneos/drivers/driver.c:42-46 | No intermediate leaves the 64-bit word |
| `Scaling.TryShifts` | oneos/drivers/driver.c:42-50 | The second loop finds the largest shift in 1..32 that meets the bound, if there is one |
| `Scaling.CalcMultShift` | oneos/drivers/driver.c:30-54 | On a break: largest shift, no overflow of `max_from*from*mult`, rounding to the nearest; break exactly if the shift 1 meets the bound |
| `Scaling.UsableIff` | oneos/drivers/driver.c:30-54 | The result is usable if and only if there is a break, or counts fill the word and the factor is 1 |
| `Scaling.NotUsable` | oneos/drivers/driver.c:30-54 | A concrete call with an unusable result |
| `Scaling.Conversion` | oneos/drivers/timer/clocksource.c:86-86 | A conversion within the promised range does not overflow and is off by less than one unit and the rounding of the factor |
| `Crc.Crc16` | oneos/drivers/driver.c:62-82 | The table loop equals bit-by-bit division for every initial value and message |
| `Crc.TableEntry` | oneos/drivers/driver.c:56-60 | Each table entry is four division steps on its nibble |
| `Crc.TableStepIsFour` | oneos/drivers/driver.c:70-76 | One table step does four single steps |
| `Crc.ChecksumIsRemainder` | oneos/drivers/driver.c:62-82 | The checksum is the remainder of long division of the message times x^16 by the generator of section 2 of ITU-T V.41 |
| `Crc.Divided` | oneos/drivers/driver.c:62-82 | The long division: what is divided equals the quotient times the generator plus the remainder |
| `Crc.DivisionUnique` | oneos/drivers/driver.c:62-82 | Quotient and remainder are determined by that equation |
| `Crc.ChecksumIsTheRemainder` | oneos/drivers/driver.c:62-82 | The checksum is the one word r for which the message times x^16 is a multiple of the generator plus r |
| `Crc.ChecksumConcat` | oneos/drivers/driver.c:62-82 | Checksums compose over concatenation |
| `Crc.BurstDetected` | oneos/drivers/driver.c:62-82 | Messages that differ within 16 consecutive bits have different checksums, exactly |
| `Crc.TwoBytesDetected` | oneos/drivers/driver.c:62-82 | Messages that differ only within two consecutive bytes have different checksums |
| `Crc.InitialValue` | oneos/drivers/driver.c:62-66 | An initial value acts like an exclusive or on the first two bytes |

## Left out

- MODULES enabled: the model takes it as undefined, so that m counts as y; with modules on, an m-visible tristate with
  `default y` does not survive writing and loading.
- MenuSane.FinalisedSane: of the sanity checks only those whose outcome the evaluator relies on are modelled
  (`MenuSane.PassesSanity`), as conditions on the tree. That the symbols of a choice are bool or tristate is assumed, too; the
  program does not check it.
- Python's number parsing and formatting are parameters of the tree (`KconfigTree.Numerals`). The reload theorems use of
  them that a number that is accepted is also accepted, as the same number, without the white space at its end, and that the
  empty string is not accepted (`KconfigReload.Pythonic`, which follows from how int() strips its argument by
  `KconfigReload.IntIsPythonic`). Not every white space character at the end need be accepted.
- KconfigLaws.NumberInRange: numbers are read back as they are shown, which Python does, and the empty string is none.
- KconfigLoading.LoadedSymbols: loading in place of the old configuration; merging (`replace` off) is not modelled.
- KconfigFile.FullReload: symbols with `option env` or `option defconfig_list` must have no user value, since they are
  never written; names must be proper, and values single lines.
- KconfigFile.MinReload: assumes of the tree what finalising gives it, that a prompt's condition includes the direct
  dependencies, and that only logical symbols are selected (`MenuSane.FinalisedGuarded`).
- ConfigWriter.WrittenReload: the header consists of comment and blank lines, titles are single lines, and every symbol has
  a menu node.
- KconfigLoops.PassIffLoopFree: whether the check met a finished symbol of an unfinished choice is a history variable of the
  search; it depends on the order in which the program iterates over sets.
- The cached `assignable` values of symbols and choices, which are computed from the modelled ones.
- Warnings, the tokenizer, the preprocessor, file access, `source`, `sync_deps`, `write_autoconf` and `__str__` text.
- ExprText.PrintedParsed: works on tokens; how a symbol or a quoted string becomes one token is not modelled.
- MenuStart.FinalizeAndStart: the menu tree is what the parser hands over; the parser itself is not modelled.
- `rbb_create`, `rbb_destroy`, `rb_ring_buff_create` and `rb_ring_buff_destroy`: wrappers around the heap.
- RingBlocks.RingBlk.PutBlk: the store happens outside the spinlock; the model takes each call as one step.
- RingBuffer.RingBuff.Put: sequential use only; index and mirror are separate stores, and the source claims no more.
- Device.EveryRun: one open period. The open and close calls of other users only take and give back `dev->sem`; driver code
  inside a call may set its own count at any time, a nonblocking call never makes the other side's data available, and an
  interrupt changes the count and posts in one step. Counts are unbounded integers.
- Device registration and lookup, callback lists, polling, the VFS and power state.
- Audio.Reported: calls one after the other, as the blocking write makes them; the transmit operation is present, and one
  completion follows per transmitted block with that block. Deinitialisation is not modelled.
- Scaling.CalcMultShift: `from` is not 0, since the program divides by it.
- The kernel's semaphores, pools and lists are taken at their documented meaning; their code is not part of this model.
- `application/`, `board/`, the other drivers and components and the other build scripts.
