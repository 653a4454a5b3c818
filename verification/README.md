# A model of the kernel configuration engine

`config/` reads menu descriptions, keeps the value of every configuration
symbol, arranges the symbols in a menu tree and saves the configuration. Its
values are three-valued, `n < m < y`: AND is the minimum, OR the maximum, NOT
`2 - x`. The modules here describe that behaviour and prove what it promises.

- **Expressions** (`Tristate`, `Symbols`, `Expressions`, `Expr*`): the
  simplifier of `expr.c`. The rewriting passes are functions on expression
  values with proofs about their meaning; `ExprHeap`, `ExprStore` and `ExprPasses`
  have the same passes in the form of the original, overwriting nodes, and prove
  that they compute those functions. In `ExprPasses` the arguments of
  `expr_eliminate_dups1(type, &e, &e)` are slots, the addresses of pointers, both
  into one expression, so that a pass rewrites what it still reads.
- **Printer and parser** (`ExprPrint`, `ExprGrammar`, `ExprParse`): `expr_print`
  against the shift-reduce machine of the expression rules.
- **Symbols** (`SymbolSpec`, `SymbolValues`, `SymbolSetting`, `SymbolCache`,
  `SymbolTables`, `SymbolInherit`, `SymbolStale`, `SymbolText`, `SymbolHash`):
  values as the unique solution of the declarations, case by case what they are,
  and the memoised `sym_calc_value`, the
  setters and the hash table, as classes whose methods are proved against that.
- **Menus** (`MenuForest`, `MenuBuild`, `MenuDeps`, `MenuConditions`, `MenuSteps`,
  `MenuReshape`, `MenuFront`, `MenuTrace`, `MenuFinalization`, `MenuDefined`,
  `MenuTaken`, `MenuSubmenu`, `MenuChoices`, `MenuWalk`): the tree of `next`, `list` and `parent` pointers, how it is built,
  how `menu_finalize` reshapes it, in place and as a function of trees, when that
  goes through, what the reshaped tree means, and the walk without a stack.
- **Files** (`ConfFormat`, `ConfLines`, `ConfData`, `ConfRoundTrip`,
  `ConfSaveLoad`, `ConfChoices`, `ConfRuns`, `ConfMenu`): `conf_read` and `conf_write` on sequences of lines.
- **Scanner** (`LexBuffer`): matching and refilling the buffer, for any
  transition table with an end marker.

Inputs from outside are parameters: the lines of a file, the pieces in which
the scanner's input arrives, the address of a new menu structure. The
declarations are acyclic, with a rank that falls from a symbol to what it
depends on and in which a choice and its values count as one unit.

`dafny verify dfyconfig.toml` checks everything.

## Model

| member | source | states |
|---|---|---|
| ExprEquality.ExprEqSound | config/expr.c:126-208 | two expressions that expr_eq calls equal have the same value in every environment |
| ExprEquality.EliminateEqCommonPart | config/expr.c:126-157 | both chains equal what is left of them combined with one and the same struck-out part |
| ExprEquality.ExprEqCompleteOnAtomChains | config/expr.c:126-208 | on AND or OR chains of symbols (other than y, n and quoted ones), negated symbols and comparisons, expr_eq answers true exactly when the operands are the same with their multiplicities, whatever the nesting and order |
| ExprJoining.JoinExact | config/expr.c:325-471 | every rule of expr_join_or and expr_join_and keeps the value wherever booleans are never m |
| ExprJoining.ExtractEqTopExact | config/expr.c:795-844 | each side equals its remainder combined with the common operands taken out |
| ExprTransformation.TransformExact | config/expr.c:605-740 | expr_transform keeps the value in every environment where booleans are never m |
| ExprTransformation.TransformIdempotent | config/expr.c:605-740 | the negation normal forms (NOT only above a symbol other than y, m, n; no boolean compared with them) are exactly the fixed points, and one pass reaches one |
| ExprDuplicates.Dups1Exact | config/expr.c:473-523 | the joining pass keeps the value, on whatever two slots of one tree it is started |
| ExprDuplicates.Dups2Refines | config/expr.c:525-579 | the absorbing pass never changes a y or n |
| ExprDuplicates.AbsorbExactIff | config/expr.c:525-579 | one absorption keeps the value if and only if the chain is not m |
| ExprDuplicates.EliminateDupsRefines | config/expr.c:581-603 | the whole of expr_eliminate_dups keeps every value of y and n, where booleans are never m |
| ExprDuplicates.EliminateDupsExactTwoValued | config/expr.c:581-603 | with no symbol at m it keeps the value exactly |
| ExprDecided.EliminateDupsDecides | config/expr.c:525-603 | `A && B` or `!A` or `!B` has the value m when A and B are m, and becomes y |
| ExprDuplicates.EliminateDupsNnf | config/expr.c:581-603 | simplification stays within the normal forms that expr_trans_bool needs |
| ExprFixpoint.EliminateDupsIrreducible | config/expr.c:581-603 | it stops at an expression in which no two operands of any chain join and none is absorbed, at once if and only if it is given one, and otherwise with a smaller expression free of y and n operands |
| ExprComplete.MergeableJoins | config/expr.c:325-471 | operands that expr_eq calls equal, `s='y'` with `s='m'` and the like, `s` with `s='y'` or `s!='n'`, `s='a'` with `s!='b'`, two tests `s!=`, and a boolean or-ed with its negation are joined, said in terms of the operands alone |
| ExprComplete.AbsorbComplete | config/expr.c:525-579 | an operand that is a chain of atoms is absorbed, under AND and under OR, when the negations of all its parts are operands of the chain around it |
| ExprComplete.EliminateDupsSimplified | config/expr.c:581-603 | after expr_eliminate_dups no chain, however deep, has two operands that are equal or could be joined, nor such an operand to be absorbed |
| ExprStore.SlotsDiffer | config/expr.c:490-491 | two slots of one expression hold the same pointer exactly when they are the same slot |
| ExprStore.WrittenNew | config/expr.c:502-506 | writing a new expression into an operand's slot leaves the chain with that operand replaced, its connectives in their nodes and everything else untouched |
| ExprPasses.Simplifier.RunDups1 | config/expr.c:473-523 | on two slots of one expression the pass leaves in the nodes the result of Dups1, and adds its count to trans_count |
| ExprPasses.Simplifier.RunDups2 | config/expr.c:525-579 | likewise for Dups2 |
| ExprPasses.Simplifier.RunEliminateYn | config/expr.c:210-291 | in the same nodes, the top one staying where it is, the result is EliminateYn and nothing else changes |
| ExprPasses.Simplifier.Run | config/expr.c:581-603 | the loop over the nodes ends with EliminateDups, and trans_count as it was found |
| ExprHeap.EliminateYnNode | config/expr.c:210-291 | in place, within the nodes of the expression, the result represents EliminateYn |
| ExprHeap.TransBoolNode | config/expr.c:296-320 | in place, the result represents TransBool |
| ExprHeap.TransformNode | config/expr.c:605-740 | in place, De Morgan's laws reusing nodes, the result represents Transform and uses only old or new nodes |
| ExprHeap.EliminateEqNodes | config/expr.c:126-157 | on two expressions without common nodes, both results are those of EliminateEq, still without common nodes |
| ExprHeap.ExprEqNodes | config/expr.c:171-208 | the answer is ExprEq and neither expression is changed, as copies are struck out |
| ExprComparison.TransBoolBounds | config/expr.c:296-320 | on normal forms expr_trans_bool never raises the value and is n exactly when the original is |
| ExprComparison.TransBoolNeedsNnf | config/expr.c:296-320 | for the comparison `s != n` under a NOT it is n exactly when the original is if and only if s is not m |
| ExprComparison.TransBoolTwoValuedExact | config/expr.c:296-320 | on normal forms without m the value stays the same |
| ExprComparison.TransBoolComplete | config/expr.c:296-320 | no test `s!=n` of a tristate is left anywhere, and nothing else changes |
| ExprComparison.TransCompareExact | config/expr.c:846-904 | comparing with y or n gives the truth value of the comparison when nothing that is negated is m |
| ExprComparison.TransCompareNotExactIff | config/expr.c:876-879 | for a negation that holds if and only if the negated expression is not m |
| ExprComparison.DependsSymbolSound | config/expr.c:766-793 | an expression that depends on a symbol is n whenever the symbol is n |
| ExprComparison.ContainsSymbolComplete | config/expr.c:742-764 | an expression that does not contain a symbol has a value independent of it |
| ExprComparison.ContainsSymbolIff | config/expr.c:742-764 | it answers true exactly for the symbols in the expression |
| ExprComparison.NothingRemainsImplies | config/expr.c:159-169 | when striking out leaves nothing of the second expression, the first is at most the second |
| ExprComparison.SubmenuJustified | config/menu.c:172-194 | an entry that passes the test for a submenu is not n only when the symbol is not n, or only when the symbol's prompt condition is not n |
| ExprParse.ParseIff | config/zconf.tab.c:404-412 | the shift-reduce machine accepts a token line with a tree if and only if the tree is of the grammar (NOT above AND above OR, left-leaning) and yields the tokens, so grammar trees are unique |
| ExprParse.ParseExpr | config/zconf.tab.c:1515-1547 | the loop over state and value stacks returns the expression that the semantic actions make of that tree, and none if there is no tree |
| ExprGrammar.SymbolForDistinct | config/zconf.tab.c:1550-1558 | different words and quoted texts stand for different symbols, y, m and n apart, and a quoted text for a constant of that text |
| ExprPrint.PrintParse | config/expr.c:947-1032 | parsing what expr_print prints gives the same expression, with chains leaning left and names looked up again |
| ExprPrint.PrintParseSame | config/expr.c:947-1032 | the value survives when no symbol is quoted; the expression is the identical one if and only if moreover its chains lean left |
| ExprPrint.PrintLean | config/expr.c:947-1032 | what is printed has no parentheses that could be left out |
| ExprPrint.RenestExact | config/expr.c:906-945 | making chains lean left changes no value |
| ExprPrint.QuotesLost | config/expr.c:975-1032 | a comparison with a quoted constant is y before and n after printing and parsing |
| ExprPrint.PrintNothing | config/expr.c:975-1042 | a missing condition is printed as y and read back with the same value |
| SymbolSpec.SolutionUnique | config/symbol.c:153-285 | acyclic declarations and settings, choices included, determine all values |
| SymbolSpec.SolutionExists | config/symbol.c:153-285 | and there always are such values |
| SymbolSpec.CalculatedDefinite | config/symbol.c:232-238 | a calculated boolean is never m, and no tristate is while MODULES is n |
| SymbolSpec.InvisibleChoice | config/symbol.c:217-224 | an invisible choice is n, and so is the choice value that its active default names, so taking over that value is no different |
| SymbolValues.VisibilityIsLargest | config/symbol.c:137-151 | the visibility is the largest of the prompt conditions, n without prompts |
| SymbolValues.LimitedByVisibility | config/symbol.c:194-238 | a visible symbol's value is at most its visibility wherever m can be had, and is m only there |
| SymbolValues.ValueOfVisible | config/symbol.c:194-238 | what the user set, or else the first active default, is the value if the visibility allows it; what is above becomes the visibility; n stays n only for an optional symbol; where m cannot be had it becomes y |
| SymbolValues.ValueOfInvisible | config/symbol.c:217-238 | an invisible symbol has the value of its first active default, and n without one |
| SymbolValues.TextOfSymbol | config/symbol.c:162-223 | a number or string has the user's text while visible, and else that of its first active default |
| SymbolValues.SelectionIs | config/symbol.c:242-284 | a choice selects the value the user asked for if that is visible, else the first active default that is visible, else its first visible value |
| SymbolValues.ChosenIsYes | config/symbol.c:195-284 | so with nothing asked for, the choice value of visibility y that is y is the one that default names |
| SymbolValues.WrittenIff | config/symbol.c:137-224 | a symbol is to be written exactly if some prompt is visible or some default active |
| SymbolTables.SymbolTable.CalcValue | config/symbol.c:153-285 | whatever is cached and whatever is calculated on the way, the symbol gets the value of the solution, what was right stays right and nothing valid becomes invalid, as long as no choice that is still to be calculated would take over a stale value |
| SymbolTables.SymbolTable.CalcRaw | config/symbol.c:186-224 | for any symbol the value before m is ruled out is right if and only if no stale value is taken over |
| SymbolTables.SymbolTable.InheritDefault | config/symbol.c:217-224 | an invisible choice gets the right value from its default if and only if that is not marked valid or stands at n |
| SymbolInherit.KeepsOldValue | config/symbol.c:186-224 | a run on a new table, by sets and calculations alone, after which a choice that should be n is about to get the old y of its default |
| SymbolCache.GuardedFresh | config/symbol.c:217-224 | nothing is ever stale where the condition of each choice default includes that of a prompt |
| SymbolTables.SymbolTable.CalcVisibility | config/symbol.c:137-151 | the visibility found is that of the solution |
| SymbolTables.SymbolTable.GetType | config/symbol.c:81-94 | a tristate counts as boolean exactly when m is not available to it |
| SymbolTables.SymbolTable.Calc | config/symbol.c:153-285 | from outside: every valid symbol is right before and after, and the one asked for is valid |
| SymbolTables.SymbolTable.InRange | config/symbol.c:306-329 | the answer is whether the value is within what visibility, choice and MODULES allow |
| SymbolTables.SymbolTable.SetTristate | config/symbol.c:331-357 | refused without effect unless in range or the present value; otherwise the settings are AfterSet; the cache is forgotten for another value and kept for the present one, right if KeepsSelection |
| SymbolTables.SymbolTable.SetString | config/symbol.c:430-480 | a logical symbol is set to what the first character stands for, as by sym_set_tristate_value, and nothing happens for other characters; numbers and strings are accepted if and only if the text is valid |
| SymbolTables.SymbolTable.SetText | config/symbol.c:446-480 | for numbers and strings the settings are AfterSetText and the cache is right |
| SymbolTables.SymbolTable.StringValid | config/symbol.c:382-428 | for a logical symbol: the first character stands for a value in range; for others: the text is valid for the type |
| SymbolText.PlainValid | config/symbol.c:386-410 | true exactly for any string, a decimal number without leading zeros, a hexadecimal number with or without prefix |
| SymbolText.IntIff | config/symbol.c:386-399 | the valid integers are the decimal forms of the natural numbers, with or without a minus sign |
| SymbolText.HexIff | config/symbol.c:400-410 | the valid hexadecimal numbers are digits of either case behind no prefix, 0x or 0X |
| SymbolText.LetterRead | config/symbol.c:430-445 | a value is set by its letter, small or capital, whatever follows, and by nothing else |
| SymbolSetting.SetObserved | config/symbol.c:306-357 | after a set in range the next solution gives the symbol that value, with its visibility unchanged |
| SymbolValues.SetObservedIff | config/symbol.c:306-357 | a value other than the present one is in range if and only if, once set, the next solution gives it to the symbol |
| SymbolValues.SetTouches | config/symbol.c:331-357 | a set changes the symbol's own setting and, with y, the selection of its choice, and nothing else |
| SymbolValues.SetTextObserved | config/symbol.c:446-480 | the text set is the text of the next solution, a hexadecimal number with its prefix |
| SymbolSetting.SetMovesChoice | config/symbol.c:331-357 | setting a y-visible choice value to y makes it the selection and y, and every other y-visible value of the choice n |
| SymbolSetting.ChoiceExclusive | config/symbol.c:195-216 | of the y-visible values of a choice exactly the selected one is y, and a stored one that is y-visible is selected |
| SymbolSetting.SelectionVisible | config/symbol.c:242-284 | the selection is a visible value of the choice whenever there is one |
| SymbolSetting.SetToCurrentKeepsIff | config/symbol.c:342-351 | leaving the cache alone when a symbol is set to its present value is right if and only if the selection of its choice is not touched |
| SymbolStale.SetToCurrentStale | config/symbol.c:342-351 | declarations, and settings reached by two sets, for which setting a symbol to its value touches the selection and makes the cache wrong |
| SymbolHash.HashTable.Lookup | config/symbol.c:518-566 | y, m and n are the fixed objects; any other name gives the one object with that name and constness, made if there is none; without a name always a new one |
| SymbolHash.HashTable.Find | config/symbol.c:568-595 | the object of that name that is not constant, and none only if there is none |
| SymbolHash.HashTable.OneObject | config/symbol.c:538-562 | two objects with the same name and constness are one |
| MenuBuild.MenuBuilder.AddEntry | config/menu.c:25-39 | through last_entry_ptr the entry becomes the last child of the open menu and the last in order, nothing else moves |
| MenuBuild.MenuBuilder.AddMenu | config/menu.c:45-49 | the entry just added becomes the open menu |
| MenuBuild.MenuBuilder.EndMenu | config/menu.c:51-55 | the menu around the open one is open again, behind the one that was closed |
| MenuBuild.MenuBuilder.AddDep | config/menu.c:57-60 | in every environment the condition of the current entry becomes the conjunction with the new one; the rest of it, the other entries and the tree are unchanged |
| MenuBuild.MenuBuilder.AddProp | config/menu.c:90-112 | the property comes last and one with a text becomes the prompt |
| MenuBuild.BuiltStarts | config/menu.c:19-55 | a tree built in this way meets what menu_finalize of the root starts from |
| MenuDeps.PushedExact | config/menu.c:145-169 | with no symbol at m, every condition has become the conjunction of itself, that of its entry and what the original parent passes on |
| MenuConditions.PushedForm | config/menu.c:150-154 | pushed conditions are in normal form and simplified, whatever was declared |
| MenuConditions.VisibleRefines | config/menu.c:155-169 | with symbols at m too, the condition of a property of a tristate or of no symbol is y or n wherever the conjunction is; that of another symbol has no test `s!=n` and is n where the conjunction is, and not n where that is y |
| MenuConditions.JudgeIff | config/menu.c:176-194 | an entry belongs below a symbol if one part of its condition needs the symbol, or it mentions it and has all parts of the prompt's condition; on chains of atoms only then, and never without mentioning it |
| MenuFinalization.MenuTree.PushChildren | config/menu.c:150-169 | the loops over children and properties give each child, and nothing else, the pushed conditions |
| MenuFinalization.MenuTree.TakeFollowing | config/menu.c:172-203 | the entries up to the first that the test does not let in are finalised and become the list, order kept, exactly as TakeIn says, and the run is lost exactly where TakeIn comes to an undefined test |
| MenuFinalization.MenuTree.HoistChildren | config/menu.c:204-226 | lists without a prompt move up a level as LiftAll says, order kept, and a choice gets its values, the last one first |
| MenuFinalization.MenuTree.Finalize | config/menu.c:124-227 | one call on any entry: on pointers it does what FinalizeTree does on trees, and is lost exactly when that is; otherwise it says which entries it takes, their order, pointers, conditions and choice values, and why each parent pointer is what it is |
| MenuFinalization.MenuTree.FinalizeAll | config/menu.c:124-227 | the run goes through if and only if the run on trees meets no undefined test, and leaves its tree; then the order of entries is kept, each is finalised once, the pointers again form a tree, conditions come from the original parents, and each entry is below its new parent because it, or an entry without prompt that held it, was there before or was taken in there |
| MenuDefined.GoesThrough | config/menu.c:172-194 | if no two of the conditions pushed down give an undefined test, the run goes through |
| MenuTaken.MustBeBelow | config/menu.c:172-226 | the converse of SubmenuSound: wherever in the tree an entry with a symbol, a prompt and no list is followed by entries whose conditions make them belong below it, they are below it after the run with all they hold; and whatever is in the list of an entry with a prompt stays below it |
| MenuTaken.TakenMentions | config/menu.c:177-194 | and only entries whose conditions mention the symbol are taken in |
| MenuTaken.BareListsGone | config/menu.c:204-226 | after the run only entries with a prompt have a list |
| MenuSteps.ChoiceValuesAt | config/menu.c:205-215 | a choice has one value for each entry with a symbol in its list, in the reverse order |
| MenuDefined.RunUndefined | config/menu.c:186-187 | a tree of three entries on which the run is lost |
| MenuTrace.TracedTake | config/menu.c:177-200 | taking an entry in keeps every parent pointer explained |
| MenuTrace.TracedHoist | config/menu.c:216-225 | so does moving an entry up out of a list without prompt |
| MenuSubmenu.SubmenuSound | config/menu.c:124-227 | in the reshaped tree an entry shows up only if the entry it is below shows up or has a symbol that is not n |
| MenuChoices.EliminateDupsUnder | config/expr.c:581-603 | simplifying a conjunction with a choice leaves a conjunction with the choice, a comparison of it with y, or n |
| MenuChoices.ChoiceValuesUnder | config/menu.c:136-169 | in the reshaped tree all conditions of choice values, prompts and defaults alike, are n by their form when the choice is, which is what the results on symbols ask of declarations |
| MenuForest.ParentHoldsChild | config/menu.c:196-223 | each parent pointer is the entry whose list holds the child |
| MenuWalk.Walk | config/confdata.c:242-335 | the walk over the pointers without a stack visits every entry once and in order |
| ConfData.Read | config/confdata.c:59-214 | reading forgets all settings, then takes the lines one by one; the table is right afterwards and counts as changed |
| ConfData.Write | config/confdata.c:216-354 | the lines written are those of the solution, each write flag is used once, and the table counts as saved |
| ConfMenu.WriteMenu | config/confdata.c:216-354 | the same over the pointers of the menu tree |
| ConfMenu.WrittenOnce | config/confdata.c:242-335 | the symbols in the file are exactly those in the tree that are to be written, each once |
| ConfMenu.TitleIff | config/confdata.c:244-254 | a menu structure without symbol adds its title to the file, framed, exactly when it has a prompt whose condition is not n |
| ConfRoundTrip.LineReadBack | config/confdata.c:89-199 | reading the line written for a symbol restores its setting |
| ConfLines.LogicalLine | config/confdata.c:137-166 | `NAME=y`, `NAME=n` and, for a tristate, `NAME=m` set a symbol that is in no choice to that and make it no longer new; with any other text nothing changes |
| ConfLines.TextLine | config/confdata.c:167-176 | `NAME=text` sets a number or string precisely if the text is valid for it |
| ConfLines.UnsetLineRead | config/confdata.c:112-134 | `# NAME is not set`, whatever follows it, sets a logical symbol to n and nothing else; any other comment of that form says nothing |
| ConfLines.MemberLine | config/confdata.c:153-199 | a line about a choice value sets it if it names a value; the choice then gets what the value has, and y makes it the selection |
| ConfLines.MemberSelected | config/confdata.c:181-199 | so `NAME=y` selects it and makes the choice y, and other values are passed on without touching the selection |
| ConfLines.OtherLine | config/confdata.c:108-152 | lines for unknown names and lines that begin otherwise say nothing |
| ConfLines.FileFrame | config/confdata.c:89-214 | before the first line everything is new and unset; after the last no choice is new |
| ConfLines.LineForms | config/confdata.c:268-316 | the lines of n, m, y, numbers and plain strings as they stand in the file |
| ConfLines.EscapeReversible | config/confdata.c:286-306 | quotes and backslashes, and nothing else, get a backslash, from which the text can be recovered |
| ConfSaveLoad.SaveLoad | config/confdata.c:59-354 | saving, loading and calculating give every symbol its value if and only if no default's tristate value is lost |
| ConfSaveLoad.SaveLoadSave | config/confdata.c:59-354 | saving what was loaded gives the same file |
| ConfSaveLoad.DefaultLost | config/confdata.c:153-199 | a string symbol with default m whose value is lost |
| ConfSaveLoad.TitleLost | config/confdata.c:112-133 | with a menu title of the form `FOO is not set`, last in the menu, every visible FOO that is not n loses its value by saving and loading |
| ConfChoices.ChoiceReadBack | config/confdata.c:137-199 | after a file has been written and read, a choice asks for the value that was y, and has been told y itself if no value behind that one in the file is m, and m otherwise |
| ConfChoices.ChoiceBackIff | config/confdata.c:181-199 | so a visible choice of value y is y again if and only if there is no such value, or m cannot be had |
| ConfChoices.ChoiceLost | config/confdata.c:181-199 | a choice of value y that is m after saving and loading |
| ConfRuns.Run | config/confdata.c:239-354 | over any sequence of reading, setting, calculating and saving, each file has what follows from the settings at that moment, every symbol to be written once |
| ConfRuns.BodyOfItems | config/confdata.c:255-335 | without titles the file has one line for each symbol written, in their order, and no other |
| LexBuffer.Scanner.GetNextBuffer | config/lex.zconf.c:2462-2590 | the unfinished token is kept, unread input follows it, bounds and end markers hold, and something new arrives unless there is nothing left |
| LexBuffer.Scanner.Refilled | config/lex.zconf.c:2490-2575 | after growing there is room for at least one character, and none is read only at the end of the input |
| LexBuffer.Scanner.PreviousState | config/lex.zconf.c:2592-2607 | running over the kept part of the token restores the state |
| LexBuffer.RunIsLongest | config/lex.zconf.c:1895-1915 | the match ends in the state that its text leads to, from which the next character leads nowhere |
| LexBuffer.Scanner.NextToken | config/lex.zconf.c:1895-2442 | the token and state found are those of the longest match in the whole input |
| LexBuffer.Scan | config/lex.zconf.c:1880-2452 | driven by any actions, the tokens are those of one contiguous scan, however the input arrives in pieces |

## Findings

Where the code does not do what one would expect, the model follows the code
and a lemma says exactly when it does.

- `expr_eliminate_dups` may turn m into y or n, because "x and not x" is taken
  to be n. One absorption is exact if and only if its chain is not m
  (`AbsorbExactIff`); `EliminateDupsDecides` is an expression of value m that becomes y.
- `expr_trans_compare` compares `!x` with y or n by flipping the comparison,
  which is right if and only if x is not m (`TransCompareNotExactIff`).
- `expr_trans_bool` turns `s!=n` into `s` under a NOT too, which makes n into m
  when s is m and is right if and only if it is not (`TransBoolNeedsNnf`); after
  `expr_transform` this does not happen (`TransBoolBounds`). It tests for
  S_TRISTATE, while the comment above it speaks of a bool.
- `menu_finalize` calls `expr_eliminate_eq` (`config/menu.c:186`) on conditions that
  may both be negations, comparisons or symbols. That function takes them for chains
  and reads a right-hand side that is NULL for a negation, and a symbol for the
  others. What happens then is unknown, so the model stops there (`lost`). A run goes
  through if and only if `FinalizeTree` does (`FinalizeAll`), which it does when no two
  conditions make such a pair (`GoesThrough`); `RunUndefined` has three entries with
  which it does not: FOO with a prompt `if !BAR`, BAZ with a prompt `if !FOO`, and BAR.
- An invisible choice takes over the value of its active default. When that choice
  value is just being calculated, as conf_write calculates choice values and not
  choices, it is marked valid and still has its old value, because `curr` is set only
  after the visibility (`config/symbol.c:186-193`). With `prompt "x" if COND` and a
  default, setting COND to n leaves choice and default at y. The value is right if
  and only if the default is not marked valid or stands at n (`CalcRaw`,
  `InheritDefault`); `KeepsOldValue` is a run in which it is not. It cannot happen to
  choices whose default conditions include that of a prompt (`GuardedFresh`).
- Setting a symbol to the value it has does not invalidate the cache but does
  store a selection. This is right if and only if the choice selects the same
  value afterwards (`SetToCurrentKeepsIff`); `SetToCurrentStale` has a choice for which it
  does not.
- A number or string whose default is y or m has that tristate value, which the
  file does not carry. Saving and loading restores all values if and only if no
  such default is in effect for a symbol whose line is read back (`SaveLoad`, `DefaultLost`).
- A choice has no line of its own; each line `NAME=y` or `NAME=m` of one of its values tells
  it its value, and the last one counts. A choice of value y with a value of m behind the
  selected one comes back as m: it stays y if and only if there is none (`ChoiceBackIff`);
  `ChoiceLost` is a choice that does not, with a second value `if m` that is m.
- A menu title `FOO is not set` is written as a comment that reads back as a setting.
  `SaveLoad` holds for titles that do not read so; `TitleLost` says what the others do.
- `expr_print` prints quoted constants without quotes (`QuotesLost`).
- `config/Kconfig-language.txt:112-133` calls `||` the minimum and `&&` the maximum and
  lists `||` as binding tighter. In the code `||` is the maximum, `&&` the minimum, and
  `&&` binds tighter (`ParseIff`).
- The values of a choice are listed last one first, so a choice without a
  default selects its last visible value (`HoistChildren`, `SelectionVisible`).

## Left out

- LineReadBack: assumes texts without quote, backslash and newline, as reading never undoes the escaping of `config/confdata.c:286-306`.
- SaveLoad: declarations without choices (for which it fails, as `ChoiceLost` shows), upper-case-initial names, every symbol with a prompt listed in the tree, and titles that do not read like a setting.
- SaveLoadSave: the same.
- ChoiceReadBack: takes the file as lines, and one value of the choice to be y; ChoiceBackIff has the prompt of the choice at y when it is read.
- WriteMenu: declarations without choices, as a choice's write flag passes to its values and stays there; the same holds for Write and Run.
- SubmenuSound: assumes that no symbol is m, that the conditions of entries taken in and of their takers have symbols of two or three values and no constant m, and that a choice without prompt is n when its condition is.
- SubmenuJustified: the same about the two conditions, and that expr_eliminate_eq is defined for them.
- TransCompareExact: symbols used as values are of two or three values, and the constant compared with is y or n, not m.
- ChoiceValuesUnder: assumes that every choice has a prompt and that nothing was taken into the choice (an empty choice has a nameless symbol, so no condition can mention it).
- CalcValue: declarations are acyclic; a default of a number or string is not a logical symbol, whose text is never set; the properties of a choice value are those declared inside the choice. All results on symbols share this.
- Calc: a choice that would take over a stale value is excluded by Fresh; what is calculated after it has been taken over is not described.
- GetNextBuffer: buffer sizes are unbounded, so the overflow of doubling and the fixed line buffers of confdata.c are not modelled; the same holds for Refilled.
- Scan: unput and the moving of the buffer it may need, and switching between buffers; yyless and actions that depend on the state are modelled.
- Lookup: the type, the flags and the text that a symbol object carries.
- AddProp: the properties of an entry are kept with the entry; the list of a symbol shared by several entries is not modelled.
- EliminateEqNodes: the two expressions share no nodes; trans_count, which __expr_eliminate_eq also raises but nobody reads there, is not counted.
- RunDups1: what expr_join_or and expr_join_and return is built as a value and then allocated, and freed nodes stay allocated; the same holds for RunDups2 and its copies, and for Run.
- EliminateDupsSimplified: absorbed operands are chains of atoms in normal form; MergeableJoins, AbsorbComplete and it leave `!e` of a nested e to EliminateDupsIrreducible.
- MustBeBelow: a condition that mentions the symbol without needing it belongs below where both simplified conditions are AND chains of atoms, or the prompt has none.
- ExtractEqTopExact: expr_extract_eq works on values, not on nodes in place.
- E_CHOICE nodes in the expression passes: they only list the values of a choice.
- menu_set_type and the type a choice passes to its values: types are part of a symbol's identity.
- menu_get_parent_menu, file_lookup, file_write_dep and the property types: lookups over the same tree.
- conf_expand_value, environment variables, file names, renaming and the header file autoconf.h that is written beside the configuration.
- SYMBOL_CHANGED, on which no value or file depends; sym_toggle_tristate_value and sym_is_changable, which combine the setters and tests above.
- The flex and bison tables as numbers: the scanner has any table, the parser the machine of rules 88 to 94.
- The parser's error recovery, its stack growth and the rules of the menu language other than expressions.
- malloc, free and running out of memory.
- conf.c, mconf.c and the dialog files: user interface. The C library headers: declarations.
