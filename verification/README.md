# The engine of bash 4.1 in Dafny

Pgbash is built on bash 4.1. This project models the parts of that engine
whose correctness rests on an argument rather than on a glance, and proves
what they are for. Routines that work by changing globals, nodes or arrays
are methods on classes with those fields; each is proved to compute a
function of the old state, and the properties are proved about that function
for all inputs.

- **Brace expansion and its inverse** (`Braces`, `BraceWords`,
  `BraceLiterals`, `BraceSequences`, `BraceTrees`, `Quoting`,
  `BraceCompletion`). `brace_expand` is a scanner called in two passes, with
  vectors of results. It expands a word to the left-major product of its
  parts, quoted text of every kind staying together. `really_munge_braces`
  folds a list of names into such a word, and expanding the word gives the
  list back, under a condition that is exact. Names may be any C strings: the
  model includes the quoting of `sh_backslash_quote`, the removal of the
  backslashes, and a reader under which a quoted string is to be one word.
- **Arithmetic** (`Numerals`, `Arithmetic`, `Operators`, `Expr`,
  `ExprTrees`, `ExprLexing`, `ExprParsing`, `ExprRoundTrip`, `ExprPrinting`,
  `ExprOperations`, `ExprForms`, `ExprErrors`, `ExprShortCircuit`,
  `ExprTexts`, `ExprEvaluator`). `evalexp` evaluates while it parses, with one
  token of lookahead in globals, a `noeval` counter, a bounded context stack
  and 64-bit arithmetic. It computes what the expression tree of its text means
  in C, precisely when no operand that C skips is faulty, and it terminates for
  all texts and stores. What every operator computes is said without the
  model's own functions (`Operators`) and carried to whole texts
  (`ExprOperations`, `ExprForms`, `ExprErrors`). A store has integers and texts; the names whose value
  an expression asks for must not hold texts, which are expressions of their
  own.
- **The executor** (`ShellSemantics`, `ShellExecution`, `ShellRefinement`,
  `ShellTheorems`, `ShellLaws`, `ShellFuel`, `ShellCommand`,
  `ShellExecutor`). The counters
  `breaking` and `continuing` and the flag `CMD_IGNORE_RETURN`, set in the
  commands while they run, refine a semantics with structured outcomes in which
  the place of a command decides whether its failure counts. `ShellSemantics`
  is that reference, `ShellExecution` the source's control flow as functions,
  and `ShellExecutor` the same on mutable command nodes; `ShellLaws` says what
  each construct of the reference runs and returns. A `World` supplies the
  results of commands, word expansion, pattern matching and whether a variable
  can be assigned, each depending on the whole history.
- **The job table** (`Jobs`, `JobTable`, `JobLaws`, `PipelineRing`). One
  invariant holds over every run of installing, deleting, cleaning,
  compacting, resuming and waiting: counters, end indices, the current and
  previous job and the state of every job are right. The choice of the two and
  the effect of every event are also given in terms of slots and processes.
- **Sparse arrays** (`SparseItems`, `SparseArrays`, `SparseArrayRuns`): a
  sorted ring with a roving pointer shared by all arrays agrees with a map,
  over any operations on any number of arrays.
- **The hash table and buffered input** (`HashTable`, `BufferedInput`) agree
  with a map and with a file that is read once, in order.

## What the code does otherwise

Eight properties that one might expect do not hold. The model follows the code
in each case.

- `ExprShortCircuit.SkippedDivisionFails`: a division by zero in an operand
  that C would skip is an error (expr.c:755-756). `ShortCircuit` has the exact
  condition.
- `ExprTexts.UntakenSideAssigns`: the untaken side of a conditional can assign
  when a variable in it holds a text, because its first token is read before
  `noeval` is raised (expr.c:499-506 and 514-523). `UntakenElse`, `UntakenThen`
  and `TokenEffect` say exactly what it changes; the logical operators raise
  `noeval` first and change nothing (`UntakenOr`, `UntakenAnd`).
- `ShellTheorems.ContinueInTestLeaks`: `continue` in the test of a loop that
  ends by that test stays pending (execute_cmd.c:3069-3080). Programs without
  such a `continue`, and without one that leaves a function body, are safe
  (`CountersReturnToZero`).
- `ShellTheorems.TurningOnUnderInversionExits`: `!` protects a command from
  `set -e` only if the option was on before the command began
  (execute_cmd.c:550-551). `CalmRunsAgree` has the programs for which this
  cannot matter. Which others happen to agree depends on what their commands
  return, so no condition on the program alone is exact; for every program the
  only possible difference is an early exit under `-e` with a nonzero status,
  up to which the trace is that of the structured run (`EveryRunRefines`).
- `SparseArrays.Arrays.Insert`: `array_insert` does reach its failure return,
  precisely for a negative index in an empty array (array.c:633-651). The
  callers in the shell refuse negative indices first (arrayfunc.c:275, 489,
  665), so only a direct call gets there.
- `BufferedInput.EndMovesOffset`: synchronizing after the end of the file was
  seen moves the offset past the end (input.c:524-539). `Sync` has the offset
  for every state.
- `BraceCompletion.CollatedNamesAreLost` and `ShortNameIsOverrun`: the
  completer sorts the names itself only in a multibyte locale
  (bracecomp.c:173-174); otherwise it takes them in its caller's order, which a
  collating locale can make one that loses names or reads past one.
  `RoundTripIffTidy` has the exact condition.
- `Quoting.NewlineIsLost`: `sh_backslash_quote` puts a backslash before a
  newline (shquote.c:176-189), and the reader drops the two together
  (parse.y:4318-4327). A tilde is not quoted at all, the code for it being
  switched off (shquote.c:190-202). `Quoting.QuoteIsRead` has the exact
  condition under which a quoted string is read as itself.

## Model

| member | source | states |
|---|---|---|
| BraceCompletion.HackBracesCompletion | pgbash-8r4.1/src/bracecomp.c:165-185 | End to end, for any C strings: brace-expanding the word and removing the backslashes gives the matches back, none lost, doubled or moved, if and only if the names are Tidy; they are whenever the completer sorts them itself (a multibyte locale), and whenever names with a common beginning stand together. In the word, and in every word it expands to, each character that the shell does not read as itself stands behind a backslash, but for the braces and commas that are to be expanded; so each match comes back from the shell as one word exactly if it holds no newline and no tilde where one is expanded. |
| BraceCompletion.WordIsShielded | pgbash-8r4.1/src/bracecomp.c:65-150 | In the word built of any names everything special but its braces and commas stands behind a backslash, and in the words it expands to everything special does. |
| BraceCompletion.ShieldedReadAlike | pgbash-8r4.1/src/bracecomp.c:165-185 | What the reader makes of the words that such a word expands to: each comes back as one word, with the backslashes removed, exactly if that is readable. |
| BraceCompletion.CompareIs | pgbash-8r4.1/src/bracecomp.c:152-163 | The comparison routine puts strings that begin with a byte of 128 or more before all others, and is strcmp otherwise. |
| BraceCompletion.ReallyMungeBraces | pgbash-8r4.1/src/bracecomp.c:65-150 | On any names the loop builds exactly the text of the specified word at every level of the recursion (inside a group its last comma has become the closing brace), and runs past the end of a name exactly where the specification says. |
| BraceCompletion.MungeGroup | pgbash-8r4.1/src/bracecomp.c:112-144 | One turn of the loop on any run of names: a single name, or a quoted prefix with the braces around the rest. |
| BraceCompletion.GroupEnd | pgbash-8r4.1/src/bracecomp.c:88-100 | The inner loop, on any names: it finds where the run of names sharing more than g characters with the first one ends, and the length found last. |
| BraceCompletion.RoundTripIffTidy | pgbash-8r4.1/src/bracecomp.c:65-150 | The exact condition, for all names at every level: expanding the text that is built gives names[lo..hi] without their first g characters back if and only if in every run at every level the last common prefix with the first name is the smallest of the run (Tidy). |
| BraceCompletion.GroupedIsTidy | pgbash-8r4.1/src/bracecomp.c:88-100 | Names of which those with a common beginning stand together are tidy, and stay so at every level. |
| BraceCompletion.CollatedNamesAreLost | pgbash-8r4.1/src/bracecomp.c:170-174 | The counterexample: abc, aBd, abe, in the order of a collating locale, become ab{c,d,e}; aBd is lost and abd invented. |
| BraceCompletion.ShortNameIsOverrun | pgbash-8r4.1/src/bracecomp.c:112-131 | A second one: for abc, a, abd the loop reads past the end of the name a. |
| BraceCompletion.ApartButTidy | pgbash-8r4.1/src/bracecomp.c:88-100 | ab, c, ad do not stand together and yet come back: the condition is weaker than grouping. |
| BraceCompletion.StringGcd | pgbash-8r4.1/src/bracecomp.c:47-63 | The loop counts exactly the longest common prefix. |
| BraceCompletion.SortedIsGrouped | pgbash-8r4.1/src/bracecomp.c:152-163 | Names sorted by the comparison routine (first bytes signed) or by strcmp share less and less with an earlier name, which is what the munging loop relies on. |
| BraceCompletion.SortedNames | pgbash-8r4.1/src/bracecomp.c:172-174 | The sorted list is a permutation of the names and is ordered by the comparison routine. |
| Quoting.ShBackslashQuote | pgbash-8r4.1/src/lib/sh/shquote.c:165-215 | The loop quotes every character that needs it, and a leading #. |
| Quoting.UnquoteQuote | pgbash-8r4.1/src/lib/sh/shquote.c:165-215 | Removing the backslashes from a quoted string gives the string back. |
| Quoting.QuoteIsInert | pgbash-8r4.1/src/lib/sh/shquote.c:165-215 | A quoted string holds nothing that brace expansion would act on. |
| Quoting.QuoteHides | pgbash-8r4.1/src/lib/sh/shquote.c:174-208 | Which characters get a backslash, by their role for the shell: blanks, quoting characters, operators, reserved characters, pattern characters, expansion characters, the caret, the comma, and a leading #; no other does, and all characters stay in order. |
| Quoting.SpecialIsQuoted | pgbash-8r4.1/src/lib/sh/shquote.c:176-189 | The switch and the list of roles agree on every character. |
| Quoting.QuoteIsRead | pgbash-8r4.1/src/lib/sh/shquote.c:165-215 | Quoting for the shell's reader: the reader of words makes the string itself, as one word, of its quoted form, without an operator, an expansion, a pattern or a comment, if and only if the string is not empty and has no newline and no tilde at its start or behind = or :. |
| Quoting.ShieldedIsRead | pgbash-8r4.1/src/parse.y:4300-4340 | The same of any text in which every special character is behind a backslash, as the words are that completion builds. |
| Quoting.NewlineIsLost | pgbash-8r4.1/src/lib/sh/shquote.c:176-189 | The counterexample: a newline in a name is quoted with a backslash, with which the reader drops it, so a, newline, b comes back as ab. |
| BraceWords.ParsePrint | pgbash-8r4.1/src/braces.c:89-244 | Printer and parser are inverse: for every well-formed word, what brace expansion finds in its printed text (preamble, pieces, postamble, nested to any depth) is the word itself. Text may hold backslash pairs, runs between any of the three quotes and parameters in ${ }, with commas, dots and braces in them. |
| BraceWords.ParsePrintAmble | pgbash-8r4.1/src/braces.c:250-301 | The pieces between the braces are read off one by one, up to the end of the amble. |
| BraceWords.SkipWord | pgbash-8r4.1/src/braces.c:478-591 | The scanner passes over a whole word, in any state outside quotes: its braces balance and its commas stay inside them. |
| BraceWords.SkipAmble | pgbash-8r4.1/src/braces.c:478-591 | Passing over an amble counts a separator at its own level exactly when the amble has two pieces or is a sequence. |
| BraceWords.FindGroup | pgbash-8r4.1/src/braces.c:105-136 | The search at the head of the routine stops at the first brace of a printed group and pairs it with that group's closing brace. |
| BraceTrees.ExpansionIsMeaning | pgbash-8r4.1/src/braces.c:89-244 | Brace expansion of the printed form of any tree of text, concatenation, alternatives (two or more, nested to any depth) and sequences lists exactly the strings of the tree, left-major: the cartesian product of the parts; a counting sequence stands for its numbers or letters, with its step and its padding. |
| BraceTrees.ProductAssociates | pgbash-8r4.1/src/braces.c:598-634 | Concatenation of result vectors is associative, so the grouping in which tacks are joined does not matter. |
| BraceSequences.CountingIsRead | pgbash-8r4.1/src/braces.c:359-467 | For all 32-bit bounds and steps, and for letters, the text a..b or a..b..c as it is printed, with leading zeros or without, is read as the numbers or letters from a to b by that step, zero-padded if a bound was. |
| BraceSequences.SpellingIsRead | pgbash-8r4.1/src/braces.c:359-467 | Every spelling of a sequence is read as what it spells: numbers with a sign or none, zeros before them, blanks around the first and spaces before the increment, of any size (cut to 64 and then to 32 bits as the code cuts them), or two letters. |
| BraceSequences.OnlySpellings | pgbash-8r4.1/src/braces.c:359-467 | And nothing else is: whatever is read as a sequence is such a spelling. |
| BraceSequences.PrintedPadded | pgbash-8r4.1/src/braces.c:327-346 | A padded term is the number with as many zeros before its digits, behind the sign, as the width asks for. |
| BraceSequences.SequenceIs | pgbash-8r4.1/src/braces.c:308-357 | What a sequence holds, up or down, for every increment: the k-th term is k steps of its size from start towards end, 1 if it is 0, and there is one precisely as long as that has not passed the end; it is that number or letter, padded to the width. |
| Braces.BraceExpand | pgbash-8r4.1/src/braces.c:89-244 | The recursive routine with its vectors computes the meaning of the parsed word, for every text, and terminates. |
| Braces.ExpandInside | pgbash-8r4.1/src/braces.c:195-231 | An amble without a comma that is no sequence expression is left alone; otherwise its choices are expanded. |
| Braces.SplitAmble | pgbash-8r4.1/src/braces.c:250-301 | The loop over the commas yields the choices of all pieces in order. |
| Braces.BraceGobbler | pgbash-8r4.1/src/braces.c:478-591 | The scanning loop ends where the step-by-step specification says: at the first unquoted match at level 0 (with a separator for a closing brace), or at the end, reporting nothing found. |
| Braces.SeekBrace | pgbash-8r4.1/src/braces.c:107-135 | The do-while loop stops at the first open brace with a matching close brace and reports where that is. |
| Braces.SeekComma | pgbash-8r4.1/src/braces.c:198-216 | The scan finds a comma outside backslash pairs if and only if there is one. |
| Braces.ArrayConcat | pgbash-8r4.1/src/braces.c:598-634 | The two nested loops compute the product with the left operand varying slowest. |
| Braces.MkSeq | pgbash-8r4.1/src/braces.c:308-357 | The do-while loop produces the whole sequence and never more strings than the vector allocated for it has slots. |
| Braces.ExpandTerm | pgbash-8r4.1/src/braces.c:359-467 | The reading of the two or three parts and the call of mkseq, on any text: refused or listed as specified. |
| Braces.TermsAreTheProgression | pgbash-8r4.1/src/braces.c:322-354 | The k-th term is start + k * increment and the list ends with the last one that does not pass end, up or down. |
| BraceLiterals.NothingToExpand | pgbash-8r4.1/src/braces.c:105-231 | A text without one of the braces, or without a comma that no backslash hides and without two dots, is left as it is. |
| BraceLiterals.CommaCounts | pgbash-8r4.1/src/braces.c:198-216 | An amble counts as one with commas if and only if one of them has an even number of backslashes before it. |
| BraceLiterals.OpensHere | pgbash-8r4.1/src/braces.c:558-572 | An open brace begins an expression if and only if it has a closing one and does not stand by itself between blanks; {} behind a blank stays. |
| BraceLiterals.LiteralBracesStay | pgbash-8r4.1/src/braces.c:195-231 | Braces around text without a separator stay, also with dots right before the closing one, and whatever follows them, any well-formed word, is expanded all the same. |
| BraceLiterals.QuotedPieceStays | pgbash-8r4.1/src/braces.c:538-543 | Whatever stands between two of any of the three quotes stays together: commas, dots, blanks and braces in it do not count. |
| BraceLiterals.QuotedCommaStays | pgbash-8r4.1/src/braces.c:538-543 | For instance {"a,b",c} is "a,b" and c. |
| BraceLiterals.ParameterStays | pgbash-8r4.1/src/braces.c:519-528 | The same of what stands in ${ }. |
| BraceLiterals.TwoPiecesStay | pgbash-8r4.1/src/braces.c:89-244 | Two pieces of any inert text, quoted or not, in braces are these two words. |
| Numerals.StrToIMaxItos | pgbash-8r4.1/src/lib/sh/itos.c:43-51 | Printing any 64-bit integer and reading it again gives the integer and stops right after it. |
| Numerals.ConvertNumeral | pgbash-8r4.1/src/lib/sh/strtol.c:90-250 | A numeral behind spaces, whatever is not a digit behind it, is converted to the sum of its digits times their powers of ten with its sign, out of range to the nearest end. |
| Numerals.ConvertedNumeral | pgbash-8r4.1/src/lib/sh/strtol.c:90-250 | Nothing else is converted. |
| Numerals.DecIsPlaces | pgbash-8r4.1/src/lib/sh/itos.c:43-51 | A printed number is the sum of its digits times their powers of ten, without a zero before them. |
| ExprRoundTrip.EvaluationIsTheTrees | pgbash-8r4.1/src/expr.c:314-351 | For every expression tree, every text that spells it (parentheses where precedence needs them, blanks anywhere between the lexemes) and every store of strings in which no name whose value the tree asks for holds a text, evaluation returns the tree's value and leaves its store (integers printed, all other texts as they were), or fails with the tree's error and the store at that point; the context stack is empty again. What the operators of a tree compute is said by Operators.Applied, and for whole texts by the rows of ExprOperations and ExprForms. |
| Operators.Applied | pgbash-8r4.1/src/expr.c:590-766 | What every binary operator computes, for all 64-bit operands and without its own terms: + - * the sum, difference and product up to a multiple of 2^64; / and % the quotient toward zero and the remainder with the sign of the dividend, by q * b + r == a; comparisons 1 or 0; << and >> doubling and halving (rounded down) as often as the low six bits of the count say; the three bit operators bit by bit, the signs included. Only a division by zero fails. |
| Operators.ComputesOnce | pgbash-8r4.1/src/expr.c:590-766 | That description leaves no other value. |
| Operators.BitsBit | pgbash-8r4.1/src/expr.c:589-638 | Every bit of a joined number, the signs included, is the joined bit. |
| Operators.PowerIsIntPower | pgbash-8r4.1/src/expr.c:768-787 | The power that wraps at every step is the power, up to a multiple of 2^64. |
| ExprOperations.TwoOperands | pgbash-8r4.1/src/expr.c:314-351 | End to end on texts: for every infix operator of the grammar, any two operands (printed integers or variables) and any blanks, evalexp of the text gives what the operator yields of their values, or the error of / % ** , and changes no variable. |
| ExprOperations.ThreeOperands | pgbash-8r4.1/src/expr.c:389-787 | Precedence and associativity on texts: of any two operators the one of the higher rank takes the middle operand; of one rank the left one does, except for **. |
| ExprForms.ParenthesesRight | pgbash-8r4.1/src/expr.c:848-858 | Parentheses around the second operation overrule that, for all pairs of operators. |
| ExprForms.ParenthesesLeft | pgbash-8r4.1/src/expr.c:848-858 | And around the first. |
| ExprForms.PrefixOperand | pgbash-8r4.1/src/expr.c:789-847 | On texts: unary - negates in 64 bits, + changes nothing, ! gives 1 or 0, ~ gives the opposite of every bit. |
| ExprForms.PrefixFirst | pgbash-8r4.1/src/expr.c:789-847 | A prefix operator binds more strongly than every infix one, ** included. |
| ExprForms.Conditional | pgbash-8r4.1/src/expr.c:489-531 | On texts c ? a : b: the condition chooses between the other two. |
| ExprForms.Assignment | pgbash-8r4.1/src/expr.c:404-486 | On texts x = b: the value is that of b, x holds it, no other variable changes. |
| ExprForms.UpdateAssignment | pgbash-8r4.1/src/expr.c:430-473 | On texts x op= b, for each of the ten operators and any x that holds no text: value and new x are what op yields of x and b; a division by zero changes nothing. |
| ExprForms.PrefixStep | pgbash-8r4.1/src/expr.c:820-837 | On texts ++x and --x, x holding no text: one more or one less in 64 bits, and that is the value. |
| ExprForms.PostfixStep | pgbash-8r4.1/src/expr.c:859-891 | On texts x++ and x--: the same of x, and the value is the old one. |
| ExprErrors.SecondOperand | pgbash-8r4.1/src/expr.c:375-380 | A number and, behind blanks, another operand are a syntax error. |
| ExprErrors.OpenParenthesis | pgbash-8r4.1/src/expr.c:848-854 | An open parenthesis, any expression and no closing one: the error of the expression, or the missing parenthesis. |
| ExprErrors.AssignToNumber | pgbash-8r4.1/src/expr.c:418-419 | A number before = or any op= is an assignment to no variable, whatever stands behind. |
| ExprErrors.NothingChosen | pgbash-8r4.1/src/expr.c:499-501 | A number and a question mark with nothing or a colon behind it: an expression is expected. |
| ExprErrors.ChoiceUnfinished | pgbash-8r4.1/src/expr.c:512-516 | n ? k without a colon, and n ? k : with nothing behind it, each with its own error. |
| ExprErrors.NoRightOperand | pgbash-8r4.1/src/expr.c:896-897 | A number and any binary operator with nothing behind it: an operand is expected. |
| ExprErrors.IllegalFirst | pgbash-8r4.1/src/expr.c:1171-1176 | A character that begins no token, at the start of a text: an operand is expected. |
| ExprErrors.IllegalAfter | pgbash-8r4.1/src/expr.c:1171-1178 | The same behind a number: an invalid operator. |
| ExprErrors.SubscriptFails | pgbash-8r4.1/src/expr.c:1059-1071 | A name with an opening bracket behind it ends in the error that stands for subscripts here. |
| ExprErrors.NumeralText | pgbash-8r4.1/src/expr.c:1098-1112 | A text that is a numeral has its value, or its error. |
| ExprErrors.BlankText | pgbash-8r4.1/src/expr.c:363-366 | Nothing at all is 0. |
| ExprErrors.NameHoldsItself | pgbash-8r4.1/src/expr.c:235-255 | A variable that holds its own name is asked for until the stack of 1024 contexts is full, and ends in the recursion error. |
| ExprErrors.TwoSigns | pgbash-8r4.1/src/expr.c:1154-1166 | ++ and -- are two signs unless they stand behind a name or before one. |
| ExprPrinting.PrintedSpells | pgbash-8r4.1/src/expr.c:1021-1191 | Every valid tree has a text that spells it: its lexemes with a blank after each. |
| ExprPrinting.PrintThenEvaluate | pgbash-8r4.1/src/expr.c:314-351 | Print, then evaluate: the text printed for a tree evaluates to the value, the store or the error of the tree. |
| ExprRoundTrip.SubExprSpelled | pgbash-8r4.1/src/expr.c:353-387 | The same inside another evaluation, noeval set or not: the caller's context comes back unchanged. |
| ExprRoundTrip.ParseLevel | pgbash-8r4.1/src/expr.c:389-900 | Each grammar routine, given the spelling of a tree for its level before any text that may follow, stops after it with the tree's value, the lookahead being the next lexeme; or it fails with the tree's error. |
| ExprRoundTrip.EvalInRange | pgbash-8r4.1/src/expr.c:389-900 | Values and variables never leave the 64-bit range. |
| ExprShortCircuit.EvaluationAgainstC | pgbash-8r4.1/src/expr.c:314-351 | For every tree and store as above, evaluation succeeds if and only if C evaluation (ISO C section 6.5) does and no operand that C skips is faulty; then value and store are those of C. |
| ExprShortCircuit.ShortCircuit | pgbash-8r4.1/src/expr.c:489-587 | The same on trees, with the exact condition: agreement with C when no skipped operand is faulty, an error whenever one is. Faulty is read off the guards: somewhere in the operand, assignments off, a divisor is 0 or an exponent negative. |
| ExprShortCircuit.FaultyFails | pgbash-8r4.1/src/expr.c:489-587 | That condition is right for the evaluator under noeval: it fails exactly on a faulty operand, and otherwise computes the value with no assignment made. |
| ExprShortCircuit.SkippedKeepsStore | pgbash-8r4.1/src/expr.c:489-587 | On trees: the untaken sides of the conditional and of the two logical operators assign nothing, even when they fail. For stores of any strings see the next rows. |
| ExprTexts.UntakenOr | pgbash-8r4.1/src/expr.c:534-559 | For every store of strings: once the left side is true, the right sides of the logical or change no variable to the end of the chain, whatever they hold and whether or not they fail. |
| ExprTexts.UntakenAnd | pgbash-8r4.1/src/expr.c:562-587 | For every store of strings: once the left side is false, the right sides of the logical and change no variable to the end of the chain. |
| ExprTexts.UntakenElse | pgbash-8r4.1/src/expr.c:514-531 | For every store of strings: the untaken second side of the conditional changes exactly what reading its first token changes, hence nothing unless that token asks for the value of a name with a text. |
| ExprTexts.UntakenThen | pgbash-8r4.1/src/expr.c:497-510 | The same for the untaken first side. |
| ExprTexts.TokenEffect | pgbash-8r4.1/src/expr.c:1047-1096 | What reading a token changes, exactly: what evaluating the text of the name does if the token is a name with a value that is asked for (no assignment operator behind it, no subscript, the lookahead readable), and otherwise nothing. |
| ExprTexts.IntegerChangesNothing | pgbash-8r4.1/src/expr.c:902-957 | Such a name changes nothing either if it holds a printed integer. |
| ExprTexts.UntakenSideAssigns | pgbash-8r4.1/src/expr.c:514-523 | The counterexample 1?2:x with x holding y=5: the value is 2, as in C, but y is assigned. |
| ExprShortCircuit.SkippedDivisionFails | pgbash-8r4.1/src/expr.c:755-756 | The counterexample 0 && 1/0: it is 0 in C, here it is a division by zero. |
| Expr.Exp | pgbash-8r4.1/src/expr.c:389-900 | For any variables, strings included: every routine terminates, consumes its operand, returns noeval, the expression and the context stack as they were, and with noeval set changes no variable. |
| Expr.ReadTok | pgbash-8r4.1/src/expr.c:1021-1191 | The lexer terminates although it evaluates variables, moves forward unless the text is used up, and with noeval set changes no variable. |
| Expr.SubExpr | pgbash-8r4.1/src/expr.c:353-387 | Evaluating a variable's value as an expression restores the caller's whole context, or fails; the measure is the room on the stack, so variables that refer to themselves or to each other end in the recursion error. |
| Expr.StrEval | pgbash-8r4.1/src/expr.c:902-957 | Looking a variable up keeps the caller's context, whatever its value says. |
| Expr.EvalExp | pgbash-8r4.1/src/expr.c:314-351 | Terminates for every text and every store of strings; the stack is what it was after a value and empty after an error, and noeval is 0 in both cases. |
| ExprLexing.ReadNameLexeme | pgbash-8r4.1/src/expr.c:1047-1096 | A name is read with its value although the token after it is peeked at and put back; the only trace of the peek is assigntok. A name that holds a text is read just as well where its value is not asked for, before an assignment. |
| ExprLexing.OperatorRead | pgbash-8r4.1/src/expr.c:1118-1190 | Every operator is read as itself in the longest form, whatever follows it that may follow; ++ and -- are postfix exactly after a name. |
| ExprLexing.EvalPrinted | pgbash-8r4.1/src/expr.c:902-957 | Evaluating a printed integer gives the integer, the most negative one included. |
| ExprLexing.EvalVariable | pgbash-8r4.1/src/expr.c:902-957 | A variable that holds a printed integer has that value, and looking it up changes nothing. |
| Arithmetic.NumeralRoundTrip | pgbash-8r4.1/src/expr.c:1208-1289 | For every base 2..64 and every natural number, base#digits in the documented alphabet is read back as that number modulo 2^64: exactly, if it is in range. |
| Arithmetic.DecimalRoundTrip | pgbash-8r4.1/src/expr.c:1208-1289 | Plain decimal numerals are read back, modulo 2^64. |
| Arithmetic.OctalIsRead | pgbash-8r4.1/src/expr.c:1229-1245 | 0 and octal digits have the value of the digits, modulo 2^64. |
| Arithmetic.HexadecimalIsRead | pgbash-8r4.1/src/expr.c:1236-1241 | 0x or 0X and hexadecimal digits, in either case of letters, likewise. |
| Arithmetic.DecimalIsRead | pgbash-8r4.1/src/expr.c:1246-1250 | Decimal digits likewise, of any length. |
| Arithmetic.BaseNumeralIsRead | pgbash-8r4.1/src/expr.c:1252-1285 | base#digits likewise, for every base 2..64: the digit values are the positions in the documented alphabet, upper-case letters being lower-case ones up to base 36. |
| Arithmetic.BaseIsRead | pgbash-8r4.1/src/expr.c:1252-1265 | The digits before # are the base, of any length; outside 2..64 it is an error. |
| Arithmetic.HashAfterZero | pgbash-8r4.1/src/expr.c:1254-1256 | A # behind an octal numeral is an error. |
| Arithmetic.HashTwice | pgbash-8r4.1/src/expr.c:1254-1256 | And so is a second one. |
| Arithmetic.DigitTooGreat | pgbash-8r4.1/src/expr.c:1266-1283 | Reading on from any point, a digit not below the base is an error wherever it stands, base prefix or not. |
| Arithmetic.BadDigitRejected | pgbash-8r4.1/src/expr.c:1208-1289 | The same of the whole numeral, decimal, octal or hexadecimal: 1a, 08 and the like are rejected. |
| Arithmetic.BadDigitAfterBase | pgbash-8r4.1/src/expr.c:1208-1289 | The same of the digits behind base# for every base. |
| Arithmetic.StrLongInRange | pgbash-8r4.1/src/expr.c:1208-1289 | What is read fits 64 bits. |
| Arithmetic.ReadStrLong | pgbash-8r4.1/src/expr.c:1219-1289 | The loop with its base, foundbase and wrapping accumulator reads numerals as specified, errors included. |
| Arithmetic.RaiseTo | pgbash-8r4.1/src/expr.c:768-787 | The multiplication loop computes the power, wrapping at every step; PowerIsIntPower says what that is. |
| ExprEvaluator.Evaluator.NextToken | pgbash-8r4.1/src/expr.c:1021-1191 | readtok on the globals ends in exactly the specified state, token and error. |
| ExprEvaluator.Evaluator.NextName | pgbash-8r4.1/src/expr.c:1047-1096 | Reading a name: the context is saved, the next token peeked at with noeval set, the context restored and the variable evaluated, as specified. |
| ExprEvaluator.Evaluator.ScanOperator | pgbash-8r4.1/src/expr.c:1118-1190 | The character scan, one or two characters ahead, finds the operator, its length and the error that the specification gives. |
| ExprEvaluator.Evaluator.NextOperator | pgbash-8r4.1/src/expr.c:1118-1190 | Reading an operator leaves the specified token, assigntok and position, or the specified error. |
| ExprEvaluator.Evaluator.StrValue | pgbash-8r4.1/src/expr.c:902-957 | An unset or empty variable is 0; any other value goes through the evaluator. |
| ExprEvaluator.Evaluator.PushContext | pgbash-8r4.1/src/expr.c:235-255 | Fails with the recursion error exactly at depth 1024 and then changes nothing; otherwise the whole context is pushed. |
| ExprEvaluator.Evaluator.PopContext | pgbash-8r4.1/src/expr.c:259-273 | Restores the whole context pushed last. |
| ExprEvaluator.Evaluator.Subexpression | pgbash-8r4.1/src/expr.c:353-387 | Pushes, evaluates and pops as specified, on every state. |
| ExprEvaluator.Evaluator.ExpComma | pgbash-8r4.1/src/expr.c:389-402 | The loop at the lowest level: value, globals and error are those of the specification, on every state. |
| ExprEvaluator.Evaluator.ExpAssign | pgbash-8r4.1/src/expr.c:404-486 | Likewise for = and OP=, with the left-hand side saved before the right one is evaluated and nothing bound under noeval. |
| ExprEvaluator.Evaluator.ExpCond | pgbash-8r4.1/src/expr.c:489-531 | Likewise for the conditional, noeval going up and down around the untaken side. |
| ExprEvaluator.Evaluator.ExpLor | pgbash-8r4.1/src/expr.c:534-559 | Likewise for the logical or. |
| ExprEvaluator.Evaluator.ExpLand | pgbash-8r4.1/src/expr.c:562-587 | Likewise for the logical and. |
| ExprEvaluator.Evaluator.ExpBinary | pgbash-8r4.1/src/expr.c:590-766 | Likewise for the eight left-associative binary levels. |
| ExprEvaluator.Evaluator.ExpPower | pgbash-8r4.1/src/expr.c:768-787 | Likewise for **, which associates to the right, with its negative exponent error. |
| ExprEvaluator.Evaluator.ExpUnary | pgbash-8r4.1/src/expr.c:789-808 | Likewise for ! and ~. |
| ExprEvaluator.Evaluator.ExpOperand | pgbash-8r4.1/src/expr.c:810-900 | Likewise for signs, parentheses, numbers, names and the increments before and after a name. |
| ExprEvaluator.Evaluator.Unwind | pgbash-8r4.1/src/expr.c:275-291 | The error exit empties the stack; the context at the bottom is what counts afterwards. |
| ExprEvaluator.Evaluator.Evaluate | pgbash-8r4.1/src/expr.c:314-351 | evalexp on the globals is the specified evaluation, after a value and after an error. |
| ShellTheorems.EveryRunRefines | pgbash-8r4.1/src/execute_cmd.c:514-998 | For any command, whatever marks earlier runs left in it, the counters and marks give the effects, the status and the outcome of the structured semantics (normal, break k, continue k, return, exit); or the shell has exited early, then with -e on, a nonzero status that is the last one, and a trace that is a beginning of the trace of the structured run. Break and continue are never both pending; the marks left behind stand only where failures are ignored. |
| ShellLaws.InvertedStatus | pgbash-8r4.1/src/execute_cmd.c:967-971 | Of the code, for every command: `!' in front of it makes the status 0 exactly when the same command without it, its failures ignored if -e is on, has a nonzero one, and 1 otherwise; where it does not return, and in everything else, nothing differs. |
| ShellLaws.InvertedPlain | pgbash-8r4.1/src/execute_cmd.c:967-971 | For a plain command: the status and $? are 0 exactly when it returned nonzero. |
| ShellLaws.InvertedMeaning | pgbash-8r4.1/src/execute_cmd.c:967-971 | The same of the structured semantics. |
| ShellLaws.PlainRuns | pgbash-8r4.1/src/execute_cmd.c:783-790 | What a plain command does: it is run once, its status is $?, and it ends the shell only if it fails under -e where failures count. |
| ShellLaws.SimpleFailures | pgbash-8r4.1/src/execute_cmd.c:783-790 | The same exit for an unknown function, a return outside functions, and a break or continue of no loops. |
| ShellLaws.ListsRun | pgbash-8r4.1/src/execute_cmd.c:2219-2299 | Which commands of a list, an and-list and an or-list of two are run, in which order, and with which status. |
| ShellLaws.ListsExit | pgbash-8r4.1/src/execute_cmd.c:2219-2299 | The same under -e: the first of an and-list or an or-list may fail, the last one not, and neither of a list with a semicolon. |
| ShellLaws.IfRuns | pgbash-8r4.1/src/execute_cmd.c:3107-3136 | The test chooses the branch; its failure never ends the shell. |
| ShellLaws.IfNothing | pgbash-8r4.1/src/execute_cmd.c:3107-3136 | Without a branch to run the status is 0. |
| ShellLaws.GroupRuns | pgbash-8r4.1/src/execute_cmd.c:514-998 | A group of one command runs as the command does, failures included. |
| ShellLaws.CaseRuns | pgbash-8r4.1/src/execute_cmd.c:2971-3012 | The first clause with a matching pattern is run; after ;& also the next one, after ;;& the next that matches, and without a match the status is 0. |
| ShellLaws.ClauseFails | pgbash-8r4.1/src/execute_cmd.c:2971-3012 | A failing clause ends the shell under -e where failures count. |
| ShellLaws.WhileRuns | pgbash-8r4.1/src/execute_cmd.c:3045-3102 | while and until take as many turns as the test lets, for any number of them; the status is that of the last turn, or 0. |
| ShellLaws.WhileTests | pgbash-8r4.1/src/execute_cmd.c:3055-3084 | The test of a loop never ends the shell, wherever it stands; a failing action does under -e where failures count. |
| ShellLaws.ForRuns | pgbash-8r4.1/src/execute_cmd.c:2320-2454 | for binds each word in turn and runs the action; the status is that of the last turn, or 0. |
| ShellLaws.ActionFails | pgbash-8r4.1/src/execute_cmd.c:2363-2432 | So does a failing action of a for loop. |
| ShellLaws.ForFails | pgbash-8r4.1/src/execute_cmd.c:2345-2376 | A name that is no identifier, or a variable that cannot be assigned: status 1, and no action is run. |
| ShellLaws.BreakLeaves | pgbash-8r4.1/src/builtins/break.def:64-88 | break n leaves n loops, or all there are; nothing behind it in the action is run. |
| ShellLaws.BreakWhile | pgbash-8r4.1/src/execute_cmd.c:3086-3090 | The same in a while loop. |
| ShellLaws.ContinueNext | pgbash-8r4.1/src/execute_cmd.c:3092-3097 | continue goes on with the next word. |
| ShellLaws.ContinueOuter | pgbash-8r4.1/src/builtins/break.def:104-128 | continue n leaves n - 1 loops and goes on with the next one. |
| ShellLaws.ReturnEnds | pgbash-8r4.1/src/execute_cmd.c:3994-4207 | return v ends the function with that status and not what stands around the call. |
| ShellLaws.CallFails | pgbash-8r4.1/src/execute_cmd.c:3994-4207 | A failure in a function counts where the call stands. |
| ShellLaws.BreakInFunction | pgbash-8r4.1/src/execute_cmd.c:4042 | A break in a function leaves the loops around the call. |
| ShellLaws.NothingToLeave | pgbash-8r4.1/src/builtins/break.def:64-128 | Outside loops break and continue do nothing and succeed. |
| ShellLaws.OtherSimple | pgbash-8r4.1/src/execute_cmd.c:4919-4948 | A definition changes the functions only and set -e the option only, both with status 0; an unknown function is 127, a return outside functions 1. |
| ShellTheorems.CalmRunsAgree | pgbash-8r4.1/src/execute_cmd.c:545-551 | A program that turns -e on neither under an inversion nor in a function body runs exactly as the structured semantics says and exits exactly when it says so: on the first failing simple command that stands neither in a condition, nor left of && or an or-list, nor under an inversion. |
| ShellTheorems.IgnoredNeverExits | pgbash-8r4.1/src/execute_cmd.c:545-551 | Of the structured semantics: nothing that runs where failures are ignored exits the shell, through loops and function calls. The code breaks this, see TurningOnUnderInversionExits; the next row says when it does not. |
| ShellTheorems.CalmIgnoredStays | pgbash-8r4.1/src/execute_cmd.c:783-790 | Of the code: a command that turns -e on neither under an inversion nor in a function body never exits the shell where failures are ignored. |
| ShellTheorems.CountersReturnToZero | pgbash-8r4.1/src/execute_cmd.c:3046-3102 | If no continue leaves the test of a loop or a function body, no break or continue is left over at the top level and loop_level is 0 again. |
| ShellTheorems.ContainedRun | pgbash-8r4.1/src/execute_cmd.c:2363-2432 | Of the structured semantics: such a program never asks for more loops than surround it. |
| ShellTheorems.ContainedCounters | pgbash-8r4.1/src/execute_cmd.c:3046-3102 | Of the code: on a normal return from such a program at most one of the counters is pending, and neither is above the number of loops around. |
| ShellTheorems.ContinueInTestLeaks | pgbash-8r4.1/src/execute_cmd.c:3069-3080 | The counterexample: after `until continue; do :; done` a continue stays pending and every later command is skipped. |
| ShellTheorems.TurningOnUnderInversionExits | pgbash-8r4.1/src/execute_cmd.c:545-551 | The counterexample `! { set -e; f; }`: the group is marked only if -e was on before, so the failure of f exits although it is inverted. |
| ShellTheorems.FuelSuffices | pgbash-8r4.1/src/execute_cmd.c:514-998 | Of the structured semantics: a run that was not cut short is the same with more fuel. |
| ShellFuel.ExecFuel | pgbash-8r4.1/src/execute_cmd.c:514-998 | Of the code: with more fuel a run that was not cut short leaves the same globals, marks, status and jump, so the bound stands for no behaviour of its own. |
| ShellSemantics.SemExtends | pgbash-8r4.1/src/execute_cmd.c:514-998 | The structured run only ever adds to the trace, which is what makes the trace of an early exit a beginning of it. |
| ShellRefinement.RefineExec | pgbash-8r4.1/src/execute_cmd.c:514-998 | The refinement at every place: whatever loops, calls and ignored contexts surround a command, executing it with counters and marks is the structured run of the command without marks, and leaves loop_level and the catch flag as they were. |
| ShellExecution.Exec | pgbash-8r4.1/src/execute_cmd.c:514-998 | Execution changes nothing in a command but its marks, and on a normal return loop_level and return_catch_flag are restored. |
| ShellExecutor.Executor.ExecuteCommand | pgbash-8r4.1/src/execute_cmd.c:362-389 | End to end on commands in memory: the globals after a top-level command are those of the structured semantics, or the shell has exited early as described above; exactly those for programs that turn -e on in harmless places only. Of an inverted command the status that is left is 0 exactly when the command itself fails in the same place. |
| ShellExecutor.Executor.Execute | pgbash-8r4.1/src/execute_cmd.c:514-998 | The routine on mutable nodes leaves the globals, the marks, the status and the jump that the functional form computes, and no stored function body is touched. |
| ShellExecutor.Executor.Finished | pgbash-8r4.1/src/execute_cmd.c:783-790 | The exit check for simple commands and the inversion of the status, at the end of the routine. |
| ShellExecutor.Executor.ExecuteSemi | pgbash-8r4.1/src/execute_cmd.c:2219-2235 | Both commands of a list are run, marked if the list is. |
| ShellExecutor.Executor.ExecuteAndOr | pgbash-8r4.1/src/execute_cmd.c:2263-2299 | The first command is marked, and the second runs depending on its status. |
| ShellExecutor.Executor.ExecuteIf | pgbash-8r4.1/src/execute_cmd.c:3107-3136 | The test is marked, the branches only if the command is. |
| ShellExecutor.Executor.ExecuteWhile | pgbash-8r4.1/src/execute_cmd.c:3045-3102 | The loop with its counters, on the globals and the marks of the parts. |
| ShellExecutor.Executor.ExecuteFor | pgbash-8r4.1/src/execute_cmd.c:2320-2454 | Likewise over the expanded words, the variable being bound before each turn; a word that is no identifier and a variable that cannot be assigned end the command with status 1, the loop level restored. |
| ShellExecutor.Executor.ExecuteClauses | pgbash-8r4.1/src/execute_cmd.c:2971-3012 | Clauses are tried in order; ;& and ;;& go on as documented. |
| ShellExecutor.Executor.ExecuteFunction | pgbash-8r4.1/src/execute_cmd.c:3994-4207 | A fresh copy of the body is marked and run, return comes back to it, and loop_level is what it was. |
| ShellExecutor.Executor.CopyBody | pgbash-8r4.1/src/execute_cmd.c:4028-4030 | The copy has the stored body's structure and marks in fresh nodes, so that no later run sees a stale mark. |
| ShellExecutor.Executor.DefineFunction | pgbash-8r4.1/src/variables.c:2424-2465 | A function is bound to a copy: the command it was defined by can be marked and run again without changing it. |
| ShellExecutor.Executor.BreakLoops | pgbash-8r4.1/src/builtins/break.def:64-88 | breaking is the argument cut to loop_level; an argument below 1 breaks all loops and fails; outside loops nothing happens. |
| ShellExecutor.Executor.ContinueLoops | pgbash-8r4.1/src/builtins/break.def:104-128 | Likewise for continuing; a bad argument breaks all loops. |
| ShellExecutor.Executor.CountTurn | pgbash-8r4.1/src/execute_cmd.c:3086-3097 | After a turn one pending break or continue is counted off; the loop is left unless the continue was meant for it. |
| ShellCommand.CopyCommand | pgbash-8r4.1/src/copy_cmd.c:356-450 | A deep copy: equal structure and marks, only fresh nodes, the original untouched. |
| ShellCommand.CopyClauses | pgbash-8r4.1/src/copy_cmd.c:93-106 | The clauses of a case command are copied in order, with their actions. |
| JobTable.Table.StopPipeline | pgbash-8r4.1/src/jobs.c:475-649 | The pipeline becomes the newest job, in a slot that was free and directly behind the last job; table, marks and remembered statuses are exact in every case, with room, after growing, and after the compaction of a full table that may not grow; no job that is not dead is lost or moved past another. |
| JobTable.Table.MakeRoom | pgbash-8r4.1/src/jobs.c:491-549 | There is always a free slot, and it is the one directly behind the last job; the table is exactly the cleaned one, grown or compacted where that is needed. |
| JobTable.Table.Install | pgbash-8r4.1/src/jobs.c:595-606 | The slot written to was free; the counters and j_lastj follow. |
| JobTable.Table.FindSlot | pgbash-8r4.1/src/jobs.c:505-533 | Both searches, backward from the end and forward from j_lastj, find the slot directly behind the last job, or report that it is past the end. |
| JobTable.Table.Grow | pgbash-8r4.1/src/jobs.c:541-549 | The jobs keep their slots and there are eight free ones behind them. |
| JobTable.Table.DeleteJob | pgbash-8r4.1/src/jobs.c:993-1054 | Exactly that slot is emptied; the counters and ends stay exact, the status is remembered, and the current and previous job are chosen again if one of them went. |
| JobTable.Table.ResetJobIndices | pgbash-8r4.1/src/jobs.c:779-816 | After an end slot was emptied the searches find the new first and last live slot; the branches for an exhausted search are never taken. |
| JobTable.Table.CleanupDeadJobs | pgbash-8r4.1/src/jobs.c:819-849 | Exactly the dead and notified jobs go; their statuses are remembered in order, and current and previous are chosen again at each deletion of one of them. |
| JobTable.Table.MarkDeadJobs | pgbash-8r4.1/src/jobs.c:4008-4114 | Exactly the oldest dead jobs are marked, up to where childmax stops it; in a script the last asynchronous process keeps its status. |
| Jobs.MarkingSpares | pgbash-8r4.1/src/jobs.c:4068-4110 | Only flags of dead jobs change, never that of the last asynchronous job of a script, and while there are more than childmax dead processes, more than childmax of them are left as they were. |
| JobTable.Table.ReallocJobsList | pgbash-8r4.1/src/jobs.c:897-966 | The new table is larger than the number of jobs and holds exactly the live ones, in order; current and previous follow their jobs; copying within the same array loses nothing. |
| JobTable.Table.MoveJobs | pgbash-8r4.1/src/jobs.c:912-929 | The copying loop, also onto the array it reads from. |
| JobTable.Table.CompactJobsList | pgbash-8r4.1/src/jobs.c:974-989 | The table is exactly the compaction of what marking and cleaning leave, current and previous follow their jobs, and the slot returned is free and directly behind the last job. |
| JobTable.Table.SetCurrentJob | pgbash-8r4.1/src/jobs.c:2695-2746 | The job becomes current, and the previous one is chosen by the whole preference, stated with quantifiers (PreviousChosen): the old current job, or the old previous one if current stays, if it is stopped and another job; else for a stopped job the newest older stopped one; else the newest running one, older than a running current job; else the job itself, and only if there is none of these. |
| JobTable.Table.ResetCurrentJob | pgbash-8r4.1/src/jobs.c:2756-2786 | Afterwards the current job is the old current one if stopped, else the old previous one if stopped, else the newest stopped, else the newest running one, else there is neither a current nor a previous job; and the previous one is chosen as above. |
| JobTable.Table.SetJobRunning | pgbash-8r4.1/src/jobs.c:2790-2809 | A stopped job is running again; the invariant holds with its processes running and their last status kept. |
| JobTable.Table.StartJob | pgbash-8r4.1/src/jobs.c:2815-2926 | A dead job is refused and a running one, in the background, reported; otherwise exactly that job changes: it runs, its processes resumed, and it counts as notified precisely if it was stopped. In the foreground it becomes the current job; in the background the marks are chosen again, and well, whatever they were. |
| JobTable.Table.ReportEvent | pgbash-8r4.1/src/jobs.c:3101-3133 | A reported child is found in the pipeline under construction or in exactly one job, and only that one changes; the current job is to be chosen again exactly when the job is stopped or goes on. |
| JobTable.Table.SetJobStatus | pgbash-8r4.1/src/jobs.c:3182-3250 | The job's state follows its processes and j_ndead follows the state; a job that is stopped or goes on asks for a new current job. |
| JobTable.Table.WaitChildren | pgbash-8r4.1/src/jobs.c:3031-3160 | For any sequence of exit, stop and continue events the table, the pipeline under construction, the current and the previous job are exactly what the events applied one by one make of them, and the table invariant holds. |
| Jobs.ReportedSlotsValid | pgbash-8r4.1/src/jobs.c:3195-3250 | After every event each job is dead if and only if none of its processes is running or stopped. |
| Jobs.EventsKeepTheDead | pgbash-8r4.1/src/jobs.c:3101-3138 | Over any sequence of events every job's state stays right, no dead job changes and no job comes or goes. |
| Jobs.DeadStaysDead | pgbash-8r4.1/src/jobs.c:3101-3133 | No event changes a dead job. |
| Jobs.ResetCurrentChooses | pgbash-8r4.1/src/jobs.c:2756-2786 | The choice of the current job is right for every table and whatever the marks were, invalid ones included. |
| Jobs.SetCurrentPrefers | pgbash-8r4.1/src/jobs.c:2695-2746 | The preference for the previous job, on any table and any marks. |
| Jobs.ResetCurrentPrefers | pgbash-8r4.1/src/jobs.c:2756-2786 | The preference for both marks when they are chosen again. |
| JobLaws.NewJobIs | pgbash-8r4.1/src/jobs.c:555-592 | A new job has exactly the processes of the pipeline, is running if one of them is, else stopped if one is, else dead, and in the foreground unless it is asynchronous. |
| JobLaws.JobReportedIs | pgbash-8r4.1/src/jobs.c:3182-3250 | One event of a job: one process changes; a job that was not stopped goes on while a process of it runs, otherwise it is stopped and no longer in the foreground if a process is stopped, otherwise running again or dead; the change is yet to be notified. |
| JobLaws.EventIs | pgbash-8r4.1/src/jobs.c:3101-3133 | Which process an event is about: the first living one with its id, in the pipeline under construction before any job, in the first job that has one, or none; and all that it changes, the choice of a new current job included. |
| JobLaws.StartedIs | pgbash-8r4.1/src/jobs.c:2815-2926 | A stopped job that runs again: every stopped process runs, nothing else of the processes changes. |
| JobLaws.RememberIs | pgbash-8r4.1/src/jobs.c:668-693 | The status remembered is the exit code, or 128 and the signal, and the newest statuses are kept, as many as there may be. |
| JobLaws.CleaningRemembers | pgbash-8r4.1/src/jobs.c:819-849 | Cleaning remembers the status of the last process of each job it removes, in the order of the slots, the newest of all. |
| JobLaws.CleanedIs | pgbash-8r4.1/src/jobs.c:819-849 | Cleaning frees exactly the slots of dead jobs whose end was notified. |
| JobLaws.MarkedIff | pgbash-8r4.1/src/jobs.c:4068-4110 | Exactly those dead jobs are marked without which, and all marked before, more than childmax dead processes are left. |
| JobLaws.NewSizeIs | pgbash-8r4.1/src/jobs.c:904-909 | The size of a compacted table is the multiple of eight that leaves four to eleven slots free. |
| JobLaws.RoomyIs | pgbash-8r4.1/src/jobs.c:541-549 | A table grows by eight free slots, exactly if the slot looked for is behind its end. |
| JobLaws.CrammedIs | pgbash-8r4.1/src/jobs.c:537-539 | When a shell compacts instead of growing: a table of 4096 slots or more with a job in its last one. |
| Jobs.SetCurrentIsLive | pgbash-8r4.1/src/jobs.c:2695-2746 | Both marks are live afterwards. |
| Jobs.CompactedKeeps | pgbash-8r4.1/src/jobs.c:912-929 | Compaction keeps every job, at the index that counts the live ones before it. |
| Jobs.CompactedCounters | pgbash-8r4.1/src/jobs.c:904-946 | Compaction keeps the jobs, their order and all counters. |
| Jobs.CleanedSurvivors | pgbash-8r4.1/src/jobs.c:819-849 | Cleaning up keeps every job that is not dead. |
| Jobs.NewStateValid | pgbash-8r4.1/src/jobs.c:577-588 | A new job's state is right. |
| Jobs.NextStateValid | pgbash-8r4.1/src/jobs.c:3195-3250 | The state computed after an event is right for every job that was not dead, whatever its state was. |
| Jobs.ResumedValid | pgbash-8r4.1/src/jobs.c:2790-2809 | Resuming keeps a job's state right. |
| PipelineRing.Pipeline.MakePipeline | pgbash-8r4.1/src/jobs.c:1096-1135 | After k calls and one stop_pipeline the ring is a cycle of exactly those k processes in creation order. |
| PipelineRing.Pipeline.AddProcess | pgbash-8r4.1/src/jobs.c:1096-1135 | A new process goes to the front and the ring stays a ring. |
| PipelineRing.Pipeline.TakePipeline | pgbash-8r4.1/src/jobs.c:557-566 | The ring is cut, reversed in place and closed again; no status changes. |
| PipelineRing.ListReverse | pgbash-8r4.1/src/list.c:62-76 | The list is reversed in place: the same nodes in the opposite order. |
| PipelineRing.RawJobExitStatus | pgbash-8r4.1/src/jobs.c:2278-2304 | The status of the last command, or with pipefail that of the rightmost one that failed. |
| PipelineRing.RightmostFailing | pgbash-8r4.1/src/jobs.c:2286-2299 | It is 0 if and only if no command failed, and otherwise the status of one after which none failed. |
| SparseArrays.Arrays.Reference | pgbash-8r4.1/src/array.c:683-706 | The search from the roving pointer, forward or backward, finds the value the map has, on any array; the pointer stays an element of the array it belongs to. |
| SparseArrays.Arrays.Insert | pgbash-8r4.1/src/array.c:607-652 | The element list becomes the updated one, max_index and num_elements stay exact; it fails if and only if the array is empty and the index negative, and then changes nothing. |
| SparseArrays.Arrays.Remove | pgbash-8r4.1/src/array.c:658-678 | The element with that index is unhooked and returned, or null if there is none; the roving pointer does not point to it. |
| SparseArrays.Arrays.Flush | pgbash-8r4.1/src/array.c:99-116 | Nothing but the head is left. |
| SparseArrays.Arrays.Copy | pgbash-8r4.1/src/array.c:129-147 | Equal contents in fresh elements. |
| SparseArrays.Arrays.Shift | pgbash-8r4.1/src/array.c:203-256 | The first n elements go, all other indices fall by n; the elements that went are returned as a list closed by null unless they are freed. |
| SparseArrays.Arrays.Rshift | pgbash-8r4.1/src/array.c:263-297 | All indices grow by n, with a new element 0 if there is a value, on any array; the result is an ordered array if and only if no index that was negative is left at or below the new 0. |
| SparseArrays.Arrays.Push | pgbash-8r4.1/src/array.h:106-107 | A new first element, on any array; it stays ordered if and only if no index was negative, and then all indices stay natural. |
| SparseArrays.Arrays.Pop | pgbash-8r4.1/src/array.h:108-109 | The first element goes and the others move down, on any array; natural indices stay natural. |
| SparseArrayRuns.Run | pgbash-8r4.1/src/array.c:607-706 | Many arrays and one roving pointer: any list of operations, each on any of the arrays in any order, gives the answers of the lists one by one and leaves every array valid, with disjoint rings. |
| SparseArrays.Array.AddBefore | pgbash-8r4.1/src/array.c:48-54 | Splicing keeps the ring linked in both directions. |
| SparseItems.PutIsUpdate | pgbash-8r4.1/src/array.c:607-652 | On the map, inserting is updating one key. |
| SparseItems.DeleteIsRemoval | pgbash-8r4.1/src/array.c:658-678 | On the map, removing is removing one key. |
| SparseItems.ShiftedLeftStaysNatural | pgbash-8r4.1/src/array.c:203-256 | Shifting left keeps indices natural and increasing, however sparse the array. |
| SparseItems.RightIsSorted | pgbash-8r4.1/src/array.c:263-297 | Exactly when shifting right keeps the order. |
| SparseItems.IndexAtLeast | pgbash-8r4.1/src/array.c:203-256 | The k-th index is at least k. |
| SparseItems.ShiftedLeftLookup | pgbash-8r4.1/src/array.c:203-256 | On the map, for every index: the first n elements are gone, every other one is found at its index less n, and nothing else is. |
| SparseItems.ShiftedRightLookup | pgbash-8r4.1/src/array.c:263-297 | On the map, for every index: every element is found at its index plus n, the new one at 0, and nothing else is. |
| SparseItems.MaxIndexIs | pgbash-8r4.1/src/array.c:607-626 | max_index is the largest index in use, or -1. |
| SparseArrayRuns.AppliedIs | pgbash-8r4.1/src/array.c:203-297 | What every operation makes of the array as a map, counts that are not positive included. |
| SparseItems.PushThenPop | pgbash-8r4.1/src/array.h:106-109 | Pushing and then popping restores every sparse array exactly. |
| HashTable.Table.Search | pgbash-8r4.1/src/hashlib.c:165-205 | Finds the entry if and only if there is one, counts the hit for that entry only, creates one only on demand, and leaves every other key alone. |
| HashTable.Table.Insert | pgbash-8r4.1/src/hashlib.c:244-277 | The key is in the map afterwards, stored once, all others as before. |
| HashTable.Table.Remove | pgbash-8r4.1/src/hashlib.c:210-240 | Exactly that key goes and its entry is returned. |
| HashTable.Table.Flush | pgbash-8r4.1/src/hashlib.c:282-313 | No key is left. |
| HashTable.Table.Copy | pgbash-8r4.1/src/hashlib.c:108-126 | The same map with copied data in fresh nodes; the table copied is untouched. |
| HashTable.CopyBucket | pgbash-8r4.1/src/hashlib.c:74-106 | A chain is copied in order into fresh nodes. |
| HashTable.Table.SizeIsKeys | pgbash-8r4.1/src/hashlib.c:67-72 | nentries is the number of keys: none is stored twice in any bucket. |
| HashTable.EntriesAreKeys | pgbash-8r4.1/src/hashlib.c:67-72 | The same for the first n buckets, for any hash function. |
| HashTable.BucketIsRemainder | pgbash-8r4.1/src/hashlib.c:37-39 | With a power of two as the number of buckets, masking leaves the remainder, so every bucket can be used. |
| BufferedInput.Stream.Getc | pgbash-8r4.1/src/input.c:503-508 | The next pending character is returned, once and in order, whatever amounts the kernel returns, before and after the end was seen; the logical position moves by one. |
| BufferedInput.Stream.Fill | pgbash-8r4.1/src/input.c:470-501 | A refill loses and repeats nothing: what was pending is the character returned and what is pending now. |
| BufferedInput.Stream.Ungetc | pgbash-8r4.1/src/input.c:510-520 | The character pushed back, whatever it is, is read next; at the start of the buffer the call fails, and once the end was seen the character is lost. |
| BufferedInput.Stream.Sync | pgbash-8r4.1/src/input.c:524-539 | The kernel offset becomes the logical position in every state, so a child starts at exactly the first byte not consumed, and what is to be read stays the same as long as the buffer holds the bytes of the file. |
| BufferedInput.Stream.ReadRest | pgbash-8r4.1/src/input.c:541-555 | Reading to the end gives exactly what was pending: the rest of the file from the logical position. |
| BufferedInput.EndMovesOffset | pgbash-8r4.1/src/input.c:524-539 | The counterexample: a script read to its end and synced again leaves the offset beyond the end of the file. |

## Left out

Brace expansion:
- Command and process substitutions inside a brace word, which the scanner skips with a routine of the word expander.
- Multibyte characters: a character is one step of every scan.
- Overflow of `end - start`, of its absolute value and of the counter in `mkseq`; integers there are unbounded, so sequences that end within one increment of the limits of an int may differ.
- The readline side of completion, and freeing the list of matches.
- Quoting.QuoteIsRead: the reader is that of plain words, in which quotations, operators, expansions, patterns, comments and tildes count as not plain; what the shell makes of those is not part of this model, and characters that a backslash protects are plain.
- BraceCompletion.ReallyMungeBraces: reading past the end of a name is an outcome of its own, and what memory is read then is not modelled.

Arithmetic:
- Subscripts of array variables, which re-enter the evaluator through another file: a name followed by an opening bracket is an error of its own here.
- Shift counts outside 0..63 are taken modulo 64, as most machines do, and the most negative value divided by -1 wraps; C leaves both undefined.
- The nounset option, the saving of error messages, and the integer attribute's second evaluation when a variable is bound.
- The eight binary levels of the grammar are eight routines with the same loop in expr.c; here `ExprEvaluator.Evaluator.ExpBinary` is that loop, with the level as a parameter.
- A longjmp to the top of the evaluator is an error result that every routine passes on.
- ExprRoundTrip.EvaluationIsTheTrees: trees that ask for the value of a name with a text are not given a meaning, because the text is an expression of its own; for them `Expr.EvalExp` has termination and restoration, `Expr.Exp` that nothing is assigned under noeval, and `ExprTexts` what a skipped side changes.

Executor:
- Pipelines, subshells, background commands, redirections, traps, select, arithmetic for and command, conditional expressions, eval and sourced files.
- Redirections and source locations in copied commands; words are plain strings.
- Posix mode, in which a bad or read-only variable of a for loop ends a script, and restrictions on the names of functions; an unknown function is a command that returns 127.
- Loops over the clauses of a case command and their copying are recursive here.
- Fuel bounds loop turns and nested calls, because shell programs need not terminate; `ShellFuel.ExecFuel` shows that it does nothing else.
- ShellTheorems.CalmRunsAgree: sufficient, not necessary; see above.
- ShellTheorems.CountersReturnToZero: sufficient, not necessary: whether a stray `continue` is reached depends on the results of commands.

Jobs:
- Forking, process groups, the terminal, signals, notification texts, frozen job lists, recycled process ids and the guesses made when waitpid knows no child.
- The statistics c_living, c_reaped and c_totreaped, and the search for statuses by process id.
- The ring of a job is a sequence in `JobTable`; `PipelineRing` has the nodes. The list of background statuses is a sequence as well.
- Stopping a job with SIGTSTP breaks all loops; the executor model has no jobs.

Arrays:
- Slices, walks, quoting, subranges and conversions.

Hash tables and input:
- `hash_string` is any function from keys to naturals, which is all that the table relies on; walking, disposal and null tables are not modelled.
- HashTable.Table.Insert: with HASH_NOSRCH the key must be new, as the callers see to; otherwise it would be stored twice.
- Read errors, growing buffers, text-mode translation and the table of streams.
