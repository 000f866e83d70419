# libbash: the cursor interpreter and what it runs on

libbash interprets bash by walking a flattened AST: a linear token stream with `DOWN` and `UP` markers
and a cursor that the control-flow rules move by hand. This project models that machine next to an
ordinary recursive interpreter over the tree and proves that the two agree for every command tree that
the walker can read, every store and every run that ends: same outcome (normal, break k, continue k,
return, error), same state, and on a normal outcome the cursor exactly one past the tree.

Reading order, one module a file:

- `TokenStream`: tokens, trees, flattening, the skip by depth counting, and the stream with its cursor.
- `Text`, `VariableStore`, `Arrays`: values, the global table under its stack of frames, sparse arrays,
  positional parameters and slices. `Interpreter` holds the same tables as objects on the heap, edits
  them in place, and refines `VariableStore`.
- `ArithmeticSyntax`, `ArithmeticSemantics`, `ArithmeticWalker`: expressions, their recursive evaluation,
  and the rules that evaluate them on the stream. `ArithmeticGrammar` is the precedence ladder of the
  parser with a printer; `Precedence` says which operator binds first, by the tokens as written;
  `ArithmeticLaws` says what the operators, assignments and steps mean; `NameChains` is about variables
  whose text is an expression.
- `ShellSyntax`, `ShellSemantics`, `ShellFacts`: command trees, the recursive interpreter, and what every
  run of it keeps. `TreeTokens` says where the tokens of each form stand; `CommandWalker` is the tree
  grammar's rules as methods over the stream, each proved against the interpreter. `ShellLaws` says what
  the commands mean, without the interpreter's own cases; `Echo` is the output of that builtin.
- `LoopControl`: break, continue and return in nested loops, functions and scripts. `Backtick`, `Braces`,
  `Inherit`, `InheritedList`, `InheritBuiltin`: unescaping, brace expansion, and the `inherit` builtin with
  its nesting.

Loops, calls and scripts inside scripts need not end. The recursive interpreter therefore takes a bound n
and answers None when the bound is too small; a method of a walker carries the bound as a ghost and is
specified for every n that suffices, that is, for every run that ends. `ShellFacts.RunsAreDetermined` and
`ArithmeticSemantics.EvalMore` say that the bound does not matter otherwise. Exceptions are outcomes: the
loop signals with their counts, return, and one outcome for all errors. The parsers, word splitting and
pattern matching are parameters (`World`); all that is required of the parsers is that they yield trees
which the walker can read, as `Wf` and `WfCompound` define them.

Where code and documentation differ the model follows the code: `while` stops on a status of exactly 1
and `until` on 0, `?:` evaluates both branches, `[ ]` evaluates both sides, `++` recognises a number only
by a leading digit, a function that is already defined keeps its first body, and echo with options but no
words writes not even a newline.

A signal thrown in the guard of a while loop is not caught by that loop, whose handler covers the body
only.

Five promises are false of the code as they stand, and are stated with their exact condition:
`ArithmeticSyntax.GreedyExactIff` (adjacent parenthesised operands run together in the stream;
`ArithmeticGrammar.AmbiguousTreesAreBuilt` is the witness), `TokenStream.SkipOperandExactIff` (a short
circuit skips one sibling, so a parenthesised list of several is not passed as a whole;
`ArithmeticGrammar.ShortCircuitMisses` is the witness), `Arrays.AppendIff` (a single null element is
replaced, not appended to), `Arrays.StarSliceUnsetIff` (without parameters `${*:0:n}` loses $0), and
`NameChains.StepOnNumberIff` (`++` and `--` on a number that carries a sign throw; `NameChains.StepTexts`
shows both signs).

## Model

| member | source | states |
|---|---|---|
| TokenStream.HoldsIsSlice | bashast/features_script/features.sh.walker.tokens:1 | a tree stands at a position of the stream if and only if the slice there is its flattening, with DOWN and UP only around children |
| TokenStream.FlattenUnique | bashast/features_script/features.sh.walker.tokens:1 | a flattened tree can be read back in one way only, whatever follows |
| TokenStream.SkipTree | bashast/libbashWalker.g:78-99 | from any tree with children, anywhere in a stream, the depth count that starts at LA(4) ends exactly one past the closing UP |
| TokenStream.SkipLeafThenTree | bashast/libbashWalker.g:1125-1126 | at a leaf followed by such a tree (CASE_COMMAND, LIST) the same count ends one past both |
| TokenStream.SkipOperandExactIff | bashast/libbashWalker.g:101-107 | the one-token-or-one-tree skip passes exactly the operand if and only if the operand is a single sibling |
| TokenStream.NodeStream.SeekToNextTree | bashast/libbashWalker.g:78-99 | the loop over LA(i) ends, never reads past the stream where a skip exists, and moves the cursor to where the scan stops |
| TokenStream.NodeStream.SkipNextTokenOrTree | bashast/libbashWalker.g:101-107 | one token if no DOWN follows, else the whole tree |
| VariableStore.ResolveIsTop | src/core/interpreter.cpp:133-149 | resolving reads the top of the name's stack of bindings, and finds nothing under the empty name |
| VariableStore.SetValueOnStacks | src/core/interpreter.h:315-326 | set_value replaces the top of that stack or creates a global; it fails exactly on a readonly top; no other name changes |
| VariableStore.UnsetOnStacks | src/core/interpreter.cpp:424-443 | unset removes exactly the binding that resolve returns and uncovers the next one; it fails exactly on a readonly one or a positional name |
| VariableStore.DefineLocalOnStacks | src/core/interpreter.h:373-382 | define_local replaces the frame's own binding or pushes one above the outer ones |
| VariableStore.PushPopOnStacks | src/core/interpreter.h:114-131 | a scope pushed and popped leaves the tables as they were, and an empty one hides nothing |
| VariableStore.ReadonlySurvives | src/core/interpreter.h:315-326 | a readonly binding survives every sequence of set_value and unset |
| VariableStore.LocalIsolation | src/core/interpreter.h:373-382 | once a name is local to a frame, no run of operations inside that frame that neither unsets the name nor defines it globally changes an outer binding of it, and popping the frame shows the old value again |
| VariableStore.UnsetAtOnStacks | src/core/interpreter.cpp:452-464 | unsetting one element takes it out of the top of that stack; it fails exactly on a readonly top or a positional name |
| Interpreter.Variable.GetAllValues | src/core/symbols.hpp:169-177 | the values in increasing key order |
| Interpreter.Variable.SetValue | src/core/symbols.hpp:183-191 | one element changes, or none if readonly |
| Interpreter.Variable.UnsetValue | src/core/symbols.hpp:195-201 | one element goes, or none if readonly |
| Interpreter.Variable.Shift | src/core/symbols.hpp:244-270 | the in-place copy down and the erasure of the tail leave Shifted of the old map, for any sparse map; status 1 and no change beyond its size |
| Interpreter.Interpreter.ResolveVariable | src/core/interpreter.cpp:133-149 | the object bound in the innermost table that has the name, none for an empty name; what it reads as is the store's value |
| Interpreter.Interpreter.SetValue | src/core/interpreter.h:315-326 | the edited object makes the tables stand for the store's set_value; no object is shared between bindings before or after |
| Interpreter.Interpreter.Define | src/core/interpreter.h:359-366 | a fresh object in the global table |
| Interpreter.Interpreter.DefineLocal | src/core/interpreter.h:373-382 | a fresh object in the innermost frame; fails without one |
| Interpreter.Interpreter.Unset | src/core/interpreter.cpp:424-443 | the search through the frames, then the globals, removes what the store's unset removes |
| Interpreter.Interpreter.UnsetIndex | src/core/interpreter.cpp:452-464 | one element of the visible variable |
| Interpreter.Interpreter.PushScope | src/core/interpreter.h:119-124 | a new empty innermost frame |
| Interpreter.Interpreter.PopScope | src/core/interpreter.h:126-130 | the innermost frame goes with its bindings |
| Interpreter.Interpreter.Shift | src/core/interpreter.cpp:508-515 | a negative number changes nothing and returns 1, whether `*` is bound or not; else the visible `*` is shifted in place |
| Interpreter.Interpreter.DefinePositionalArguments | src/core/interpreter.cpp:325-339 | arguments under keys 1 to n, global outside functions and local inside |
| Interpreter.Interpreter.AppendArray | bashast/libbashWalker.g:251-260 | `name+=(…)`: every element set in key order, or nothing at all if the variable is readonly or a subscript is negative |
| Interpreter.CollectElements | bashast/libbashWalker.g:262-271 | a bare element goes behind the one before it, subscripted or not; a negative subscript is an error |
| Interpreter.Interpreter.DefineArray | bashast/libbashWalker.g:245-250 | `name=(…)` outside `local`: a fresh global array of exactly these elements, or nothing at all if a subscript is negative |
| Interpreter.ElementsFailIff | bashast/libbashWalker.g:70-75 | an array literal fails if and only if one of its subscripts is negative |
| Interpreter.CollectArguments | src/core/interpreter.cpp:314-323 | the numbering loop yields exactly the dense positional map |
| Interpreter.AppendArrayIff | bashast/libbashWalker.g:251-260 | without subscripts the array's values become the old ones followed by the new, if and only if it is not one null element at index 0 to which something is appended |
| Interpreter.BareElementsAppend | bashast/libbashWalker.g:262-271 | merging the collected elements is appending them one by one |
| Arrays.PositionalInOrder | src/core/interpreter.cpp:314-323 | reading all values of positional parameters gives back the arguments in order |
| Arrays.ShiftDrops | src/core/symbols.hpp:244-270 | on dense parameters shift by k drops the first k; for k beyond the end nothing changes and the status is 1 |
| Arrays.ShiftsCompose | src/core/symbols.hpp:244-270 | shift by i then j is shift by i + j |
| Arrays.ParametersStayDense | src/core/interpreter.cpp:314-339 | through every run of calls, `set --`, shift and operations on other names the parameters of every scope stay dense on 1 to n |
| Arrays.StarSlice | src/core/interpreter.cpp:190-220 | `${*:k:n}` is the slice of $0 and the arguments from k, at most n long, in spite of the decremented offset |
| Arrays.StarSliceUnsetIff | src/core/interpreter.cpp:190-220 | with no parameters bound at all that fails, exactly when the slice would begin with a non-empty $0 |
| Arrays.StarSliceFromEnd | src/core/interpreter.cpp:190-220 | a negative offset counts from the end of the arguments |
| Arrays.NamedSlice | src/core/interpreter.cpp:190-220 | `${a[@]:k:n}` of any other array is the slice of its values in key order from k, at most n long; a negative k counts from the end |
| Arrays.AppendIff | bashast/libbashWalker.g:251-260 | appending is sequence concatenation if and only if the array is not a single null element at index 0 |
| Arrays.AllValuesAppend | src/core/symbols.hpp:169-177 | an element above all keys comes last |
| Backtick.Find | bashast/libbashWalker.g:1142-1146 | the first occurrence from a position on |
| Backtick.ErasePass | bashast/libbashWalker.g:1141-1146 | the find-and-erase loop drops the first character of every non-overlapping pair, left to right |
| Backtick.Unescape | bashast/libbashWalker.g:1138-1147 | the two passes in their order |
| Backtick.UnescapeInverts | bashast/libbashWalker.g:1138-1147 | unescaping inverts the escaping that doubles backslashes and then escapes backticks, for every text |
| Backtick.NestingInverts | bashast/libbashWalker.g:1138-1147 | so a command nested any number of backticks deep comes out as written |
| ArithmeticSyntax.GreedyExactIff | bashast/libbashWalker.g:1189-1194 | the greedy run of ARITHMETIC siblings ends where the first of two operands ends if and only if not both are parenthesised |
| ArithmeticSyntax.AdjacentGroupsAmbiguous | bashast/libbashWalker.g:1189-1194 | two different conditional expressions with the same flat stream (that both can be written is `ArithmeticGrammar.AmbiguousTreesAreBuilt`) |
| ArithmeticSyntax.UniqueDecoding | bashast/libbashWalker.g:1189-1344 | readable expressions with the same stream are the same expression |
| ArithmeticSyntax.FormOfRoot | bashast/libbashWalker.g:1196-1344 | the root token alone decides the alternative |
| ArithmeticSemantics.EvalMore | src/core/interpreter.cpp:502-506 | the result does not depend on the nesting bound once it suffices, and no evaluation opens or closes a scope |
| ArithmeticSemantics.BitwiseBits | bashast/libbashWalker.g:1219-1221 | the three bitwise operators act bit by bit, at every position of the two's complement |
| ArithmeticSemantics.DivisionTruncates | bashast/libbashWalker.g:1235-1236 | `/` truncates toward zero and the remainder has the sign of the dividend |
| ArithmeticWalker.Arithmetics | bashast/libbashWalker.g:1189-1194 | value, variables and outcome of the tree's evaluation; on success the cursor is one past the operand's siblings |
| ArithmeticWalker.Arithmetic | bashast/libbashWalker.g:1196-1344 | the same for every alternative |
| ArithmeticWalker.ShortCircuit | bashast/libbashWalker.g:1197-1218 | value and state of the tree's evaluation, in which a skipped operand has no effect (`ArithmeticLaws.ShortCircuits`), and the cursor lands behind the node either way |
| ArithmeticWalker.BinaryOperation | bashast/libbashWalker.g:1219-1241 | left operand first, then right, then the operator |
| ArithmeticWalker.Calculate | bashast/libbashWalker.g:1237-1241 | the counting loop of `**` computes the power for exponents of at least 0 |
| ArithmeticWalker.ArithmeticCondition | bashast/libbashWalker.g:1244-1246 | all three operands are evaluated, in order |
| ArithmeticWalker.Reference | bashast/libbashWalker.g:1247-1250 | the variable's text evaluated as an expression of its own, 0 if empty |
| ArithmeticWalker.StepOperation | bashast/libbashWalker.g:1251-1286 | `++` and `--` in all four forms |
| ArithmeticWalker.Assignment | bashast/libbashWalker.g:1287-1339 | for a target written without `$`: subscript, right side, then the variable's own value, then the write, for all eleven operators |
| ArithmeticWalker.VariableName | bashast/libbashWalker.g:217-227 | name and subscript; a negative subscript is an error |
| ArithmeticWalker.EvalArithmetic | src/core/interpreter.cpp:502-506 | a walker of its own over the parsed text |
| ArithmeticGrammar.RoundTrip | bashast/bashast.g:1000-1086 | printing any tree that the modelled rules build and parsing the tokens gives the tree back with nothing left, over all levels (which operator binds first is `Precedence.TwoOperators`) |
| ArithmeticGrammar.ListRoundTrip | bashast/bashast.g:1000-1001 | the same for comma lists |
| ArithmeticGrammar.BuiltIff | bashast/bashast.g:1000-1086 | the trees so described are exactly those that some tokens yield under the modelled rules |
| ArithmeticGrammar.ChainsGroupLeft | bashast/bashast.g:1061-1086 | operators of one level group to the left, `**` included, at every level but the comparisons |
| ArithmeticGrammar.LevelRead | bashast/bashast.g:1061-1086 | every level reads back its trees before any token that cannot continue them |
| ArithmeticGrammar.NotTarget | bashast/bashast.g:1006-1008 | only an assignment passes the first assignment lookahead |
| ArithmeticGrammar.ArithBuilt | bashast/bashast.g:1006-1015 | whatever the parser returns has its operands at the levels the ladder demands |
| ArithmeticGrammar.AmbiguousTreesAreBuilt | bashast/libbashWalker.g:1189-1194 | the grammar builds two different conditional expressions whose trees are one and the same |
| ArithmeticGrammar.ShortCircuitMisses | bashast/libbashWalker.g:101-107 | `1 OR (2, 3)`, written with two bars, can be typed, and the skip of its right operand does not reach the end of that operand |
| ArithmeticGrammar.NameRead | bashast/bashast.g:957-959 | a subscripted name reads back |
| Precedence.TwoOperators | bashast/bashast.g:1060-1086 | of two operators in a row, taken from the written rungs by their tokens, the one of the later rung takes its operands first; operators of one rung group to the left, and a second comparison is not read at all |
| Precedence.SignsFirst | bashast/bashast.g:1051-1059 | a sign takes the operand behind it before any binary operator does, and the tree has the node of that sign |
| Precedence.StepsByToken | bashast/bashast.g:1041-1050 | two plus or minus signs before or behind a variable are the step that they spell |
| Precedence.AssignmentTakesTheRest | bashast/bashast.g:1006-1028 | each of the eleven assignment operators takes the whole chain of binary operators to its right, under its own node |
| Precedence.ConditionIsLoosest | bashast/bashast.g:1011-1015 | `?` and `:` separate three chains of binary operators |
| Precedence.DollarForms | bashast/bashast.g:996-998 | `$name` is the variable, and both dollar forms of an expansion are the list in them |
| ArithmeticLaws.BinaryByToken | bashast/libbashWalker.g:1219-1241 | left operand, right operand, then what the root token says: sum, difference, product, quotient rounded toward zero and its remainder, power, shifts as products and floors, comparisons as 1 or 0, bits one by one |
| ArithmeticLaws.UnaryByToken | bashast/libbashWalker.g:1234-1243 | the sign at the root applied to the operand's value |
| ArithmeticLaws.ShortCircuits | bashast/libbashWalker.g:1197-1218 | when the left operand decides, value and variables are those of the left for every right operand whatsoever, also one that assigns, throws or does not end; otherwise the right one is evaluated behind the left and decides alone |
| ArithmeticLaws.ConditionTakesOne | bashast/libbashWalker.g:1244-1246 | condition and both branches in this order, and the value of the branch that the condition chooses |
| ArithmeticLaws.ListsRunInOrder | bashast/libbashWalker.g:1189-1194 | a comma list runs its items from left to right, and its value is that of the last |
| ArithmeticLaws.VariablesAreTexts | bashast/libbashWalker.g:1247-1250 | a variable means what its text means as an expression, 0 without one, and an unreadable text throws |
| ArithmeticLaws.AssignmentStores | bashast/libbashWalker.g:1287-1339 | subscript, right side, then the element's own value; what the operator in the root makes of the two is stored in this element, no other element and no other name changes, and it is the value; a readonly variable throws |
| ArithmeticLaws.StepsByText | bashast/libbashWalker.g:1251-1286 | a step changes an element whose text starts with a digit by one and gives the new or the old value, by the root; an empty text comes to 0; any other text is put together with the operator and evaluated |
| ArithmeticLaws.OperandsThrow | bashast/libbashWalker.g:1196-1246 | what throws in an operand throws in the whole, with the variables as they are then |
| ArithmeticLaws.SubscriptsAndListsThrow | bashast/libbashWalker.g:217-227 | so does what throws in a subscript, a right side or a list |
| ArithmeticLaws.NegativeSubscriptsThrow | bashast/libbashWalker.g:217-227 | a negative subscript is an error for reading, stepping and assigning |
| ArithmeticLaws.NumbersAsTexts | src/core/symbols.hpp:48-106 | a text is a number if it is a numeral behind an optional sign, and counts as 0 otherwise |
| ArithmeticLaws.ShortestNumerals | src/core/symbols.hpp:48-106 | a number becomes its shortest numeral, behind a dash if it is negative |
| ArithmeticLaws.NumeralsAreDecimal | bashast/libbashWalker.g:132-138 | a numeral is a number to base ten |
| NameChains.EvalIsSubst | bashast/libbashWalker.g:1247-1250 | if the elements that the expression can reach through the texts form no cycle and assign nothing, evaluation with any bound from the rank on is evaluation of the variable-free expression got by substitution, and changes no variable; what other variables hold does not matter |
| NameChains.AcyclicEndsIff | bashast/libbashWalker.g:1247-1250 | then it ends under some bound if and only if the variable-free expression does, which it always does without `**`, and the value is the same for every bound from the rank on |
| NameChains.CyclesNeverEnd | bashast/libbashWalker.g:1247-1250 | a variable on a cycle of names, of whatever length, is never evaluated to an end |
| NameChains.StepOnChain | bashast/libbashWalker.g:1251-1286 | on a chain of names that ends in a decimal, `++` and `--` change the last variable by exactly one and give the new or the old value |
| NameChains.StepChangesOneVariable | bashast/libbashWalker.g:1251-1286 | every other name keeps its whole stack of bindings |
| NameChains.StepOnNumberIff | bashast/libbashWalker.g:170-173 | for a variable that holds a number, signed or not, a step changes it by one if and only if its text starts with a digit; otherwise, with `+5` as with `-5`, it throws and changes nothing |
| NameChains.StepTexts | bashast/bashast.g:1039-1055 | what the grammar makes of the texts that the steps put together |
| ShellFacts.RunsAreDetermined | bashast/libbashWalker.g:659-784 | a script that ends has one result, whatever bound on loops and nesting it is interpreted with |
| ShellFacts.CommandsRestore | bashast/libbashWalker.g:659-718 | every command leaves scope depth and the three current streams as it found them, keeps every function, and writes only to the end of its current output and to streams that it opens itself, on every outcome, however deeply calls, evals and substitutions nest; a signal in flight counts at least 1 |
| ShellLaws.RightCommandRunsIff | bashast/libbashWalker.g:771-780 | behind status 0 `&&` runs its command, behind any other status the command between two bars does; a command that does not run leaves outcome and state of the left side as they are, whatever it is |
| ShellLaws.NothingRunsBehindASignal | bashast/libbashWalker.g:771-780 | neither runs behind a signal or an error |
| ShellLaws.ListsRunInOrder | bashast/libbashWalker.g:784-784 | a list runs its commands in order up to the first signal or error |
| ShellLaws.FirstHoldingBranchRuns | bashast/libbashWalker.g:1039-1075 | `if` runs the commands of the first branch whose condition ends with status 0, and nothing behind it |
| ShellLaws.ElseRuns | bashast/libbashWalker.g:1039-1075 | without such a branch the commands behind `else` run |
| ShellLaws.FirstMatchingArmRuns | bashast/libbashWalker.g:1098-1129 | `case` runs the commands of the first arm that matches, and no later arm is looked at |
| ShellLaws.NoArmRuns | bashast/libbashWalker.g:1098-1129 | without such an arm nothing runs, behind the expansion of all patterns |
| ShellLaws.WhileTurns | bashast/libbashWalker.g:996-1037 | `while` ends on a guard status of 1 and `until` on 0; otherwise the body runs and then the whole loop again, also behind its own `continue`; its own `break` ends it normally |
| ShellLaws.ForTurns | bashast/libbashWalker.g:904-923 | the variable takes the next value and nothing else changes, the body runs, then the loop over the rest; a readonly variable is an error |
| ShellLaws.ForLists | bashast/libbashWalker.g:881-903 | `for` runs over its words, or without any over the positional parameters in order; a list of words that comes to nothing sets the status to 0 |
| ShellLaws.CForTurns | bashast/libbashWalker.g:944-975 | the condition decides, an absent one never ends the loop; the modification runs behind the body, also behind its own `continue` |
| ShellLaws.CForStarts | bashast/libbashWalker.g:934-943 | the initialization runs once, before the first turn |
| ShellLaws.WordsJoin | bashast/libbashWalker.g:273-306 | a word is its pieces one behind the other, evaluated from left to right |
| ShellLaws.Pieces | bashast/libbashWalker.g:313-350 | text stands for itself, a variable for its element, an expansion for the decimal of its value |
| ShellLaws.ArgumentsByNumber | bashast/libbashWalker.g:313-350 | `$1`, `$2` and so on are the arguments in order, and nothing behind the last |
| ShellLaws.OneArgument | bashast/libbashWalker.g:760-769 | an argument that comes to nothing is dropped; one whose last piece is quoted, or of a command that does not split, is kept whole; any other is split at IFS |
| ShellLaws.ArgumentsInOrder | bashast/libbashWalker.g:760-769 | arguments keep their order |
| ShellLaws.OneForWord | bashast/libbashWalker.g:882-891 | in the list of a `for` a quoted word stays even when it is empty, and every other one is split |
| ShellLaws.BranchesInOrder | bashast/libbashWalker.g:394-414 | the alternatives of an arm keep their order |
| ShellLaws.PatternsInOrder | bashast/libbashWalker.g:402-412 | the pieces of a pattern keep their order |
| ShellLaws.PatternPieces | bashast/libbashWalker.g:416-454 | the two wildcards by their tokens; any other piece matches as the text that it comes to |
| ShellLaws.SubstitutionsCapture | bashast/libbashWalker.g:1131-1153 | the script writes to a new stream of its own and to no earlier one; the value is what it wrote there but for the newlines at the end; the streams are those of before |
| ShellLaws.Delimiters | bashast/libbashWalker.g:1137-1150 | what stands between the delimiters is the script, and in backticks it was escaped |
| ShellLaws.RedirectionsOpenStreams | bashast/libbashWalker.g:720-722 | the command runs with a new stream as its input or output, by the token |
| ShellLaws.RedirectedCommands | bashast/libbashWalker.g:659-663 | behind a redirected command the streams are those of before, whatever its outcome |
| ShellLaws.DefinitionSets | bashast/libbashWalker.g:239-244 | one element of the visible variable, or of a new global one, has the text; nothing else changes; a readonly variable is an error |
| ShellLaws.LocalDefinitionSets | bashast/libbashWalker.g:239-244 | a local definition binds the name in the innermost scope and nothing outside of it; without a scope it is an error |
| ShellLaws.FunctionNames | src/core/interpreter.cpp:340-352 | exactly an optional digit, one plain character that is no digit, and plain characters |
| ShellLaws.FirstDefinitionStays | src/core/interpreter.cpp:353-359 | a definition makes the function known unless one of that name is; nothing else changes, not even the status |
| ShellLaws.CallsPassArguments | src/core/interpreter.cpp:361-373 | a call runs the body with the arguments as positional parameters of the innermost scope, everything else being as it was, and catches return; a function goes before a builtin of its name |
| ShellLaws.CallsNeedAScope | src/core/interpreter.cpp:361-373 | a call without any scope is an error |
| ShellLaws.SimpleCommandsRun | bashast/libbashWalker.g:671-718 | name, arguments, definitions, command, in this order and in a scope of their own that is gone afterwards; four names have none, three do not split |
| ShellLaws.BangTurnsTheStatus | bashast/libbashWalker.g:718-718 | `!` turns the status of a command that ends normally around, and changes nothing else |
| ShellLaws.EchoWrites | src/builtins/echo_builtin.cpp:35-85 | the words behind the options, one blank between two, and a newline unless an option has an n, at the end of the current output and nowhere else |
| ShellLaws.BuiltinsDo | bashast/libbashWalker.g:709-716 | the constants set the status, and an unknown name is an error that sets it to 1 |
| ShellLaws.ShiftDropsArguments | src/builtins/shift_builtin.cpp:31-44 | `shift k` drops the first k parameters, by default one; beyond the last and below 0 it changes nothing and the status is 1 |
| ShellLaws.SetReplacesArguments | src/builtins/set_builtin.cpp:28-52 | behind `set --` the arguments are the parameters |
| ShellLaws.EvalRunsInPlace | src/builtins/eval_builtin.cpp:33-38 | eval runs its arguments, joined by blanks, in the scopes of its surroundings |
| ShellLaws.LocalRunsInPlace | src/builtins/local_builtin.cpp:33-43 | local runs its arguments, joined by nothing, in the scopes of its surroundings, and its status is 0 |
| ShellLaws.ArithmeticCommands | bashast/libbashWalker.g:789-789 | an arithmetic command leaves the effects of its expressions and not even a status |
| ShellLaws.ConditionsSetTheStatus | bashast/libbashWalker.g:795-797 | status 0 if the condition holds and 1 if not |
| ShellLaws.ConditionsShortCircuit | bashast/libbashWalker.g:834-864 | in `[[ ]]` a deciding left side leaves the right one out; in `[ ]` both are evaluated; the values are those of and, or and not |
| ShellLaws.ComparisonsByToken | bashast/libbashWalker.g:803-831 | equal, different, before or behind in the dictionary, and the six numeric tests, by the root of the tree, of the expanded words in order |
| ShellLaws.EmptinessTests | bashast/libbashWalker.g:808-832 | `-z` holds of an empty word, `-n` of any other, and so does a word alone |
| ShellLaws.WordsThrow | bashast/libbashWalker.g:273-306 | what a word throws, the arguments, loop lists, commands, definitions, redirections, comparisons and `case` around it throw |
| ShellLaws.ListsThrow | bashast/libbashWalker.g:1131-1153 | what a condition or a guard throws, the command around it throws |
| ShellLaws.ArithmeticThrows | bashast/libbashWalker.g:1189-1194 | an arithmetic exception is an error of the word, definition, test or loop that it is in |
| ShellLaws.SubstitutionsThrow | bashast/libbashWalker.g:1131-1153 | what the script of a substitution throws the word throws, with the streams put back |
| Echo.Collect | src/builtins/echo_builtin.cpp:35-85 | the loop over the options yields the text that is written |
| Echo.WritesWords | src/builtins/echo_builtin.cpp:35-85 | the words, and a newline unless an option has an n; nothing at all, not even the newline, when there are options and no words |
| Echo.LastLetterDecides | src/builtins/echo_builtin.cpp:87-120 | escapes are on if and only if the last e or E of the options is an e |
| CommandWalker.FunctionTable.Insert | src/core/interpreter.cpp:353-359 | every stored index is the start of its own body in its own AST; a name already defined keeps its function |
| CommandWalker.StringPart | bashast/libbashWalker.g:313-350 | value and quoting of a piece of a word that is plain or single-quoted text, an arithmetic expansion, `$name`, `$name[i]` in braces, `$1` and so on, or a command substitution |
| CommandWalker.StringExpr | bashast/libbashWalker.g:273-306 | for a word without brace groups, the values of the pieces joined; quoted if the last piece is |
| CommandWalker.CommandSubstitution | bashast/libbashWalker.g:1131-1153 | the script runs with its output going to a stream of its own; the streams are put back on every outcome |
| CommandWalker.InnerText | bashast/libbashWalker.g:1137-1150 | the text between the delimiters, unescaped for backticks |
| CommandWalker.RunScript | src/core/bash_ast.h:129-144 | a whole script over its own stream, with the AST stack as before afterwards |
| CommandWalker.CommandList | bashast/libbashWalker.g:784-784 | every item up to the first abnormal outcome |
| CommandWalker.LogicCommandList | bashast/libbashWalker.g:782-782 | a command or a chain |
| CommandWalker.LogicCommand | bashast/libbashWalker.g:771-780 | outcome and state of the tree's run, in which the right command runs or not (`ShellLaws.RightCommandRunsIff`); one that does not is jumped over as one tree |
| CommandWalker.CommandRule | bashast/libbashWalker.g:659-663 | redirections and body, with the three streams put back on every outcome |
| CommandWalker.Redirections | bashast/libbashWalker.g:663-663 | all redirections in order |
| CommandWalker.Redirection | bashast/libbashWalker.g:720-722 | for a redirection from or to a named file, the current input or output stream replaced |
| CommandWalker.CommandAtom | bashast/libbashWalker.g:665-669 | the first token decides |
| CommandWalker.VariableDefinitions | bashast/libbashWalker.g:206-210 | local or not, definition by definition |
| CommandWalker.VarDefs | bashast/libbashWalker.g:206-210 | definitions in order up to the first failing one |
| CommandWalker.VarDef | bashast/libbashWalker.g:239-244 | one element set, in the visible variable or in the frame |
| CommandWalker.FunctionDefinition | bashast/libbashWalker.g:1155-1165 | the stored index is that of the body, whose tree is then jumped over |
| CommandWalker.SimpleCommand | bashast/libbashWalker.g:671-678 | name, arguments, then execution |
| CommandWalker.Arguments | bashast/libbashWalker.g:760-769 | empty ones dropped, unquoted ones split unless the name forbids it |
| CommandWalker.ExecuteCommand | bashast/libbashWalker.g:680-687 | a local scope around everything, popped on every outcome |
| CommandWalker.RunInScope | bashast/libbashWalker.g:687-718 | local definitions, then the command, then `!`, with the cursor back where it was before the call |
| CommandWalker.RunNamed | bashast/libbashWalker.g:693-716 | function, builtin or error, in this order |
| CommandWalker.CallFunction | src/core/bash_ast.cpp:250-264 | the body at the stored index of the stored AST runs with that AST on the stack; `return` ends the call normally (`LoopControl.ReturnEndsTheCall`) |
| CommandWalker.RunNestedScript | src/builtins/eval_builtin.cpp:33-38 | eval and local run a script parsed from their arguments |
| CommandWalker.RunBuiltin | src/builtins/break_builtin.cpp:30-51 | outcome and state of the modelled builtins (break, continue, return, shift, `set --`, echo, `:`, true, false), as `LoopControl.WrittenSignals` and the laws of `ShellLaws` state them |
| CommandWalker.CompoundCommand | bashast/libbashWalker.g:786-793 | the first token decides between the seven compound commands |
| CommandWalker.CurrentShell | bashast/libbashWalker.g:787-787 | the list inside |
| CommandWalker.ArithmeticCommand | bashast/libbashWalker.g:789-789 | the expression's effects, the status untouched |
| CommandWalker.CondExpr | bashast/libbashWalker.g:795-797 | status 0 for true |
| CommandWalker.Condition | bashast/libbashWalker.g:834-866 | `[[ ]]` and `[ ]` without `=~`: outcome, value and state of the tree's evaluation, cursor one past it |
| CommandWalker.LogicalCondition | bashast/libbashWalker.g:834-864 | a deciding left operand of `[[ ]]` leaves the right one without effect and the cursor behind the node; `[ ]` evaluates both |
| CommandWalker.CommonCondition | bashast/libbashWalker.g:799-832 | `-z`, `-n`, a word alone, and the comparisons of numbers and texts |
| CommandWalker.Comparison | bashast/libbashWalker.g:803-831 | for the six numeric and four textual comparisons, both words first, then the comparison |
| CommandWalker.WhileExpr | bashast/libbashWalker.g:996-1037 | while and until over the tree, cursor one past it |
| CommandWalker.WhileBody | bashast/libbashWalker.g:1006-1031 | every way out of the loop leaves the cursor on the first token of the body |
| CommandWalker.ForExpr | bashast/libbashWalker.g:881-926 | word list or positional parameters; an empty list skips the body |
| CommandWalker.ForValues | bashast/libbashWalker.g:882-891 | the split words, and whether there was a list at all |
| CommandWalker.ForBody | bashast/libbashWalker.g:904-923 | every way out leaves the cursor on the body |
| CommandWalker.CForExpr | bashast/libbashWalker.g:927-985 | initialization, loop, and the cursor one past the node for all combinations of the three expressions |
| CommandWalker.CForParts | bashast/libbashWalker.g:934-981 | the parts are found by skipping, and the trailing skips leave exactly the body and the modification behind |
| CommandWalker.CForBody | bashast/libbashWalker.g:944-975 | condition, body and modification by jumps; the modification follows `continue` too; every way out leaves the cursor on the body |
| CommandWalker.ForExpression | bashast/libbashWalker.g:987-994 | one of the three expressions |
| CommandWalker.IfExpr | bashast/libbashWalker.g:1039-1075 | the first matching branch or else; cursor one past the node |
| CommandWalker.IfClauses | bashast/libbashWalker.g:1048-1054 | branches behind the matching one are jumped over |
| CommandWalker.ElifExpr | bashast/libbashWalker.g:1077-1096 | one branch |
| CommandWalker.CaseExpr | bashast/libbashWalker.g:1098-1105 | arms tried in order; behind a match all are skipped |
| CommandWalker.CaseClauses | bashast/libbashWalker.g:1099-1105 | the state of the first arm that matches |
| CommandWalker.CaseClause | bashast/libbashWalker.g:1107-1129 | an arm with or without commands, matching or not |
| CommandWalker.CompositePattern | bashast/libbashWalker.g:394-414 | the alternatives of an arm, expanded in order |
| CommandWalker.BasicPatterns | bashast/libbashWalker.g:402-412 | the pieces of one alternative |
| CommandWalker.BasicPattern | bashast/libbashWalker.g:416-454 | the two wildcards, and text |
| LoopControl.SignalLeaves | src/builtins/builtin_exceptions.h:60-68 | from inside d nested loops of any kinds and any turn, through groups, conditions, branches, case arms, loop guards, chains, function bodies and nested scripts, a signal that counts more than d leaves with its count less d, and scopes and streams are unwound; errors leave unchanged, and so does return outside a called function |
| LoopControl.BreakEndsTheInnermost | src/builtins/builtin_exceptions.h:92-113 | `break k` with 1 <= k <= d ends exactly the k innermost loops, also across function calls and nested scripts: the nest of these is one command of the rest, and it ends normally |
| LoopControl.ContinueResumesTheKth | src/builtins/builtin_exceptions.h:70-90 | `continue k` ends k - 1 loops and goes on with the next turn of the k-th, the modification of a C-style loop first |
| LoopControl.LaterTurn | bashast/libbashWalker.g:944-975 | a loop that reaches the head of a later turn goes on from there |
| LoopControl.OutOfLoop | src/builtins/builtin_exceptions.h:60-68 | one loop takes one off the count that its body throws |
| LoopControl.OutOfGuard | bashast/libbashWalker.g:1006-1031 | a loop does not catch what its own guard throws, nor does it take one off the count |
| LoopControl.OutOfCall | src/core/bash_ast.cpp:250-264 | a call passes the signals of its body on to the loops around the call, in the scopes and streams of the caller |
| LoopControl.OutOfScript | src/builtins/eval_builtin.cpp:33-38 | eval passes the signals of its script on, and so does local |
| LoopControl.ReturnEndsTheCall | bashast/libbashWalker.g:693-707 | `return` in a function, however many loops, branches and scripts deep, ends the innermost call around it and nothing else: the call ends normally, in the scopes and streams in which it began, with the status at the `return`, turned around by a `!` before the call |
| LoopControl.WrittenSignals | src/builtins/break_builtin.cpp:30-51 | break and continue as written throw the count that their one argument spells, 1 without an argument; a number below 1, another text and two arguments are errors; return sets the status that its argument spells |
| LoopControl.BreakAsWritten | src/builtins/break_builtin.cpp:30-51 | `break k` as written, inside d loops: with k at most d exactly the k innermost end, otherwise it leaves them all with d less |
| LoopControl.ContinueAsWritten | src/builtins/continue_builtin.cpp:30-51 | `continue k` as written: the k-th loop goes on with its next turn, or it leaves them all with d less |
| LoopControl.ReturnAsWritten | src/builtins/return_builtin.cpp:30-38 | `return k` as written: the innermost call ends normally with status k |
| Braces.ExpandBraces | bashast/libbashWalker.g:285-306 | rewriting the vector of prefixes yields as many results as the product of the group sizes, the n-th spelled by the mixed-radix digits of n |
| Braces.MultiplyOut | bashast/libbashWalker.g:293-305 | every prefix followed by every alternative |
| Braces.AppendToAll | bashast/libbashWalker.g:286-288 | a text behind every prefix |
| Braces.OneGroup | bashast/libbashWalker.g:285-306 | a text expands to itself, a brace group to its alternatives as they stand |
| Braces.SideBySide | bashast/libbashWalker.g:285-306 | two words side by side expand to every result of the first followed by every result of the second, in this order |
| Braces.LexicographicOrder | bashast/libbashWalker.g:285-306 | results stand in lexicographic order of their choices |
| Braces.EveryChoiceOccurs | bashast/libbashWalker.g:285-306 | every choice of alternatives occurs, at its place |
| Inherit.ExecFacts | src/builtins/inherit_builtin.cpp:59-142 | every run that completes, however nested and whatever the eclasses inherit conditionally: ECLASS_DEPTH and the metadata regain their entry values, ECLASS is the caller's or unset, and every E_ variable has grown by exactly the eclasses' non-empty values in order of completion |
| Inherit.EbuildNames | src/builtins/inherit_builtin.cpp:59-142 | the variables that the builtin uses are all distinct, so that the statement applies to them |
| Inherit.OneFacts | src/builtins/inherit_builtin.cpp:82-128 | one eclass, whose file may inherit further, and what it inherits may depend on the variables |
| Inherit.PrepareFacts | src/builtins/inherit_builtin.cpp:84-97 | before the file runs ECLASS is its name, the name for exported functions goes by the depth, the metadata are saved and read as empty, and the collections are untouched |
| Inherit.CleanUpFacts | src/builtins/inherit_builtin.cpp:99-127 | afterwards each collection has grown by the value if it is not empty, and the saved values are back |
| InheritedList.ExecListed | src/builtins/inherit_builtin.cpp:59-142 | every run that completes, however nested: INHERITED has the names of the eclasses that have finished enrolled in the order of completion, each unless it occurs in the list by then |
| InheritedList.NobodyIsMissing | src/builtins/inherit_builtin.cpp:59-142 | hence nothing is dropped from it, and every eclass that has finished occurs in it |
| InheritedList.EbuildListApart | src/builtins/inherit_builtin.cpp:59-142 | the name INHERITED is none of the others, so that the statement applies to it |
| InheritBuiltin.Builtin.Exec | src/builtins/inherit_builtin.cpp:59-142 | the loop over the eclasses computes the specification |
| InheritBuiltin.Builtin.OneEclass | src/builtins/inherit_builtin.cpp:82-128 | the loop body |
| InheritBuiltin.Builtin.BackupGlobals | src/builtins/inherit_builtin.cpp:46-50 | save, then unset |
| InheritBuiltin.Builtin.AppendGlobals | src/builtins/inherit_builtin.cpp:32-36 | appended unless unset or null |
| InheritBuiltin.Builtin.RestoreGlobals | src/builtins/inherit_builtin.cpp:38-44 | an empty value is unset |
| Text.IntRoundTrip | src/core/symbols.hpp:48-106 | a number stored as text reads back unchanged |

## Left out

- ArithmeticWalker.Calculate: integers have no width; division by zero and a negative shift, which C++ leaves undefined, are errors here, and a negative exponent, whose loop never ends, is excluded.
- ArithmeticWalker.EvalArithmetic: the AST pushed for the nested expression and popped behind it is not recorded, since expressions define no functions.
- ArithmeticWalker.Assignment: targets written `$name` or `${…}`, which assign to the variable that the value names, are left out.
- CommandWalker.StringPart: double-quoted strings, ANSI-C quoting, brace groups, `$?`, `$#`, `$!` and the operators inside `${…}` are not pieces of a word here; brace groups are in `Braces`, slices in `Arrays`.
- CommandWalker.VarDef: array literals are modelled on the symbol tables only (`Interpreter.AppendArray`), not as rules over the stream.
- CommandWalker.StringExpr: brace groups, and with them several results joined by blanks, are not on the stream here; `Braces` has the loops.
- CommandWalker.Condition: `=~` is left out.
- CommandWalker.CommonCondition: file tests, pattern matching and `-o` are left out.
- CommandWalker.Comparison: file tests, `-o`, pattern and regular-expression matching are left out; the numeric tests evaluate their left operand first.
- CommandWalker.BasicPattern: bracket expressions of patterns; whether an expanded pattern matches is a parameter.
- CommandWalker.Redirection: files are not modelled, only which stream is current and what is written to it; here-strings and file descriptors are left out.
- CommandWalker.RunBuiltin: unset, source, declare, export, printf, read, shopt, test and let are errors here, as are echo with escapes switched on and all of set but `--`; a function named set, local, declare or eval has no scope of its own, so that calling it without one is an error; shifting an unbound or readonly `*` by a number that is not negative is an error too, where the source takes a bound one for granted and asserts that it is writable.
- CommandWalker.RunNestedScript: only eval and local; how their text is parsed is a parameter.
- CommandWalker.FunctionDefinition: unset_function, which would break the promise that functions stay.
- Interpreter.Interpreter.Shift: requires a bound and writable `*` for a number that is not negative, as the source does.
- Interpreter.CollectElements: subscripts are values; the expressions they come from, and what these do to variables, are evaluated before.
- ArithmeticGrammar.RoundTrip: tokens, not characters: the lexer reads `((` as one token, so that a parenthesised list which starts with another cannot be typed without a blank that the grammar does not allow; command substitutions, `${…}` and assignments to `$name` are left out.
- ArithmeticGrammar.ListRoundTrip: command substitutions, `${…}` and assignments to `$name` are left out.
- ArithmeticGrammar.BuiltIff: the same.
- ArithmeticGrammar.NotTarget: the second lookahead, for an assignment to `$name`, is left out.
- NameChains.StepOnChain: that a parser reads `name++` as a step is a hypothesis; `NameChains.StepTexts` proves it of the grammar's tokens.
- LoopControl.SignalLeaves: a command inside a command substitution, and so inside a word, is not a place here; what it throws leaves through the word.
- Inherit.ExecFacts: the functions exported by EXPORT_FUNCTIONS and the eclass directory are not part of the statement; `__export_funcs_var` is not restored by the source either.
- InheritBuiltin.Builtin.Exec: specified for runs that complete; an eclass is a list of assignments, unsets and further inherits, whose values and names may depend on the variables.
- Braces.ExpandBraces: nested braces, ranges and the refusal of braces beside expansions.
- The kinds under which the lexer splits words, names and numbers (NAME, LETTER, UNDERSCORE, DIGIT, NUMBER) are merged.
- Pipes, subshells, select, process substitution, background jobs and associative arrays, which the source does not support.
- The ANTLR runtime, lifetimes of ASTs, memory, `set -u`, `is_unset`, which looks at globals only, and the tables of shopt options.
