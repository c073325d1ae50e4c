# A verified model of the WLP4 compiler

This project models the stages of a compiler for WLP4, a small language of integers and pointers, and proves what the
stages promise: the tokeniser, the Earley recogniser, the parser that reads the recogniser's final chart backward, the
type checks, and the generation of LLVM basic blocks.

`dafny verify dfyconfig.toml` checks everything.

## How the project is laid out

| stage | files |
|---|---|
| tokens | `Tokens`, `Numerals`, `Lexing` (the rules), `Tokeniser` (the character loop), `Texts` (how tokens are written, from a table of its own) and `Printing` (how programs are) |
| grammar | `Symbols`, `Grammar` (rewriting), `Wlp4Grammar` (the 49 rules), `Yields` and `Sentences` (what trees are written with, and that it is derived), `Trees` (a tree for every sentence) |
| recogniser | `Earley` (what a chart should hold), `Charts` (room, growth and order), `Recogniser` (the class), `FinalChart` and `TypedDcls` (the list handed to the parser) |
| the final chart of a program | `Items` and `Programs` (the items of a program, computed from its trees), `Traces` (how each item came into its list), `Lists` (what one list holds), `Openings` and `Operands` (from one list to the next), `ExprLists`, `StatementLists`, `DclLists`, `ProgramLists` (the final chart is exactly the items) |
| trees and types | `Ast`, `Types` |
| parser | `Reading` and `Passes` (what is computed), `Parser` (the cursor and its tables), `Checking` and `Accepted` (what is accepted is sound), `ReadBack`, `ReadStatements`, `ReadDeclarations`, `ReadNames`, `ProgramReadBack` (reading them gives the program), `Tidy`, `Staying`, `Versions` and `ProgramVersions` (what is made of any program), `Faults`, `Refusals`, `StatementAnswers` and `ProgramAnswers` (what is refused, and why), `Misreading`, `Miscalls`, `GivenBack` and `OtherResults` (when a tree is not given back, or is all the same) |
| code generation | `Machine` (blocks, slots, heap, steps), `Semantics` (the source language), `Lowering` (the shape of the code), `Codegen` (the builder), `Flow` and `Shapes` (well-formed graphs), `Procedures`, `Typing` (the types of generated values) |
| correctness | `Simulation`, `Runs`, `Correctness`, `Deviations`, `Laws` (what the operators give, said independently), and `Compiler`, which joins parser and generator |
| the whole compiler | `Driver` (from text to blocks), `Linked` (programs whose calls are answered by their own procedures) and `Examples` (three programs) |

Results that join the stages: a program written down with a table of spellings, in any spacing, is tokenised as its own
tokens (`Driver.WrittenIsRead`); the sentences of tokens are exactly what programs are written with
(`Driver.SentencesHaveSources`); the final chart of a program is exactly the list of its items
(`ProgramLists.FinalChartIsItems`); whatever program the parser accepts, what it builds of each procedure has that
procedure's declarations and is typed and resolved in them (`ProgramVersions.AcceptedIsRight`); a program in which calls
come first is given back if it is well-formed and answered with its first fault if not, in a stated order of looking
(`ProgramAnswers.ProgramIsAnswered`). The compiler makes a well-formed graph of the code of every procedure or says why
not (`Driver.CompileText`), and the code means what the source procedure means, calls included
(`Driver.CodeMeansTheSource`), whatever answers the calls; answered by the program's own procedures, source and code give
the same replies to any depth (`Linked.ProgramIsCorrect`). What the operators give is stated by laws that do not use the
evaluator's own functions (`Laws`).

Results that show the code departing from what one would expect:

* A text that ends in a comment, or in one of the tokens `=`, `<`, `>`, `/`, without a newline after it is refused with an
  unknown token, since what was read past the end cannot be put back (`LexFile`, `OpenEnd`); with a newline it is not
  (`NewlineCloses`).
* The recogniser accepts exactly the viable prefixes, not only the sentences, because the last list is never closed; the
  empty text is one (`NothingIsViable`).
* An expression is given back, with the cursor where its items end, if and only if it is typed, its calls resolve, and no
  right operand and no later argument opens with a call (`ExprReadExactly`). Where one does, the operand or argument to
  its left is read from what the call leaves behind. The tree alone may still come out right, as in `f + (f())` or
  `g(f, f())`, where the leftover name is the operand itself; `SumIsGivenBack`, `ProductIsGivenBack`, `TestIsGivenBack`
  and `ArgsAreGivenBack` say exactly when. For whole programs calls-first is therefore sufficient and not necessary:
  `int f() { return 1; } int wain(int f, int b) { return b + f(); }` is accepted with the result `(b + f) + f()`
  (`AddIsMisread`), and a program that returns `g(f, f())` is given back (`PassIsGivenBack`).
* The parameters of every procedure but `wain` come out in reverse (`ParamsInOrder`), and so do the arguments the
  generated code expects (`CompilesCorrectly`). A call passes its arguments in source order, so that
  `int g(int a, int b) { return a; }` returns its second argument (`FirstIsSecond`); calls mean what they should where
  every procedure but `wain` has at most one parameter (`OrderIsKept`).
* The code of a typed tree has the types its instructions demand if and only if no loaded address is an operand, and every
  call has arguments as the callee takes them, which is not checked (`ExprIsTyped`, `SimpleIsTyped`, `TestCodeIsTyped`).
* Taking the address of an lvalue that holds an int generates the code that loads its value, so that what should be a
  pointer is an int at run time (`AddressIsLoaded`); arrays of 2^30 elements or more, or of a negative number of them, get
  another size (`ArraysHaveTheirSize`); moving a pointer back by the smallest integer moves it the other way
  (`PointersMoveBack`).
* The difference of two pointers divides the address of the left one by that of the right one, and fails where that
  quotient is undefined (`DifferenceIsQuotient`).
* Neither the grammar nor the parser compares the type of a declaration with its initial value. `int x = NULL;` takes the
  semicolon for the value, which `std::stoi` refuses, so code generation fails, and for well-formed programs it
  fails in no other case (`TextHasValues`, `CompileText`); `int* p = 5;` silently starts with NULL
  (`InitialValuesAreTaken`).

## Model

| member | source | states |
|---|---|---|
| `Tokeniser.Tokeniser.Tokenise` | src/tokeniser.cpp:29-166 | For every text the character loop adds exactly the tokens of the declarative lexer, or stops with its first error; a text that ends open stops with an unknown token |
| `Lexing.NewlineCloses` | src/tokeniser.cpp:65-107 | Every text lexes as it does with a newline after it, and with that newline it never ends open, so it is the lexer's tokens or first error that come out |
| `Lexing.OpenEnd` | src/tokeniser.cpp:65-107 | A text that lexes ends open, so that a character too many is read and cannot be put back, if and only if its last line holds `//`, its last character is `/`, `<` or `>`, or an equals sign is left over at its end when they are taken two by two, the first with a `!`, `<` or `>` before it |
| `Lexing.MunchIsLexeme` | src/tokeniser.cpp:48-159 | What is taken off the front of the text is punctuation, a word or a run of digits |
| `Lexing.MunchIsLongest` | src/tokeniser.cpp:84-159 | No longer prefix of the text is a lexeme: the longest match is taken |
| `Lexing.PrintRoundTrip` | src/tokeniser.cpp:29-166 | Printing any valid tokens with a space after each and lexing the result gives the same kinds and values |
| `Lexing.LexedAreTokens` | src/tokeniser.cpp:29-166 | Every token that comes out has a value that spells its kind, so printing and lexing again changes nothing |
| `Lexing.NumbersAreSpelled` | src/tokeniser.cpp:141-159 | A number is the value of a NUM token, spelled in decimal, if and only if it is at most 2147483647, and `stoi` gives it back |
| `Lexing.SpellingsAreNumbers` | src/tokeniser.cpp:141-159 | Every NUM token is the decimal spelling of the number it stands for |
| `Texts.TokensAreWritten` | src/tokeniser.cpp:38-159 | The tokens of the tokeniser are exactly those of an independent table: each sign and word with its own spelling, names that are no word, and digits without a leading zero for numbers of at most 2147483647 |
| `Texts.TextIsLexed` | src/tokeniser.cpp:29-164 | Tokens written down with the table, with blanks and comments around them and at least where two would run into each other, lex to exactly those tokens |
| `Texts.FileIsLexed` | src/tokeniser.cpp:65-107 | Such a text, as a whole file, gives exactly those tokens, unless its very last character belongs to `=`, `<`, `>` or `/`: then an unknown token is reported |
| `Texts.BadNumberIsRefused` | src/tokeniser.cpp:148-156 | A run of digits that is no number is refused, for its leading zero or else for its size |
| `Texts.StrangeIsRefused` | src/tokeniser.cpp:86-163 | A character that is no blank, letter or digit and begins no sign is refused as unknown |
| `Printing.ProgramPrints` | src/tokeniser.cpp:29-166 | The tokens a program is printed with, from its trees and the table, are of the kinds of its grammar and spell its names and numbers where the trees have them |
| `Wlp4Grammar.Wlp4IsAdmissible` | src/state.cpp:37-93 | In the rule table every nonterminal that derives the empty string has an empty rule of its own, and only rule 0 is for the start symbol |
| `Wlp4Grammar.ViableMeansPrefixOfSentence` | src/state.cpp:37-93 | For this table a viable prefix of terminals is a prefix of a sentence, since every form derives some terminals |
| `Wlp4Grammar.NothingIsViable` | src/recogniser.cpp:27-53 | The empty text is viable, so it is accepted, and it is no sentence |
| `Recogniser.Recogniser.constructor` | src/recogniser.cpp:22-25 | A recogniser starts with an empty chart over the given rules and tokens |
| `Recogniser.Recogniser.SetupNullableRules` | src/recogniser.cpp:56-66 | The map holds true for exactly the nonterminals with an empty rule |
| `Recogniser.Recogniser.ExistsInStateList` | src/recogniser.cpp:68-75 | The scan finds an item if and only if it is in the list |
| `Recogniser.Recogniser.AddToChart` | src/recogniser.cpp:77-86 | The item is appended once to its list; lists stay free of duplicates, hold only items that belong, and keep every item after what completed it |
| `Recogniser.Recogniser.Predictor` | src/recogniser.cpp:88-97 | Every rule for the symbol is predicted, and the item is stepped over a nullable symbol |
| `Recogniser.Recogniser.Scanner` | src/recogniser.cpp:99-105 | Every item that awaits the token is advanced into the next list, which is created if there is one |
| `Recogniser.Recogniser.Completer` | src/recogniser.cpp:107-120 | After the loop over the growing list, every completed item has advanced every item that awaited it |
| `Recogniser.Recogniser.CloseList` | src/recogniser.cpp:34-46 | The loop over the list that grows under it ends with the list closed, by the room left in it |
| `Charts.DistinctItemsFit` | src/recogniser.cpp:77-86 | A list k without duplicates holds at most (k + 1) times the number of dot positions of the grammar |
| `Earley.CompletedIsValid` | src/recogniser.cpp:107-120 | Advancing an item over a completed one gives an item that belongs: its part derives the tokens and its left side can follow |
| `Earley.SkippedIsValid` | src/recogniser.cpp:92-95 | Stepping over a nullable symbol gives an item that belongs |
| `Earley.ClosedChartIsComplete` | src/recogniser.cpp:34-46 | A chart closed below k holds every item that belongs in list k, empty completions included, whatever the order of additions |
| `Earley.ViableIsReached` | src/recogniser.cpp:27-32 | If the first k tokens are a viable prefix, list k exists |
| `Recogniser.Recogniser.FillChart` | src/recogniser.cpp:22-54 | The loop accepts if and only if the tokens are a viable prefix, every closed list holds exactly the items that belong, and an error names the first token that cannot be extended |
| `Recogniser.Recogniser.Recognise` | src/recogniser.cpp:22-54 | For the WLP4 table: accepts if and only if the tokens are a viable prefix, otherwise names the first token that cannot be extended; on acceptance the final chart is made of the completed items |
| `FinalChart.LongTypeStandsAlone` | src/state.cpp:231-241 | A completed `type -> INT STAR` is alone among the completed items of its list, and `type -> INT` from the same start is alone in the list before |
| `Recogniser.Recogniser.AddToFinalChart` | src/state.cpp:231-241 | Adding the long type first removes the last item, which is there |
| `FinalChart.ListIsPushed` | src/recogniser.cpp:122-131 | Pushing a list with these removals gives the completed items in order, with exactly the superseded short types taken out |
| `Recogniser.Recogniser.PopulateFinalChart` | src/recogniser.cpp:122-131 | The final chart is the completed items of all lists in order without the superseded types |
| `TypedDcls.DclFollowsItsType` | src/parser.cpp:386-394 | In the final chart of any accepted text every declaration stands right after the item of its type, the long one exactly when there is a star |
| `Traces.FilledIsTraced` | src/recogniser.cpp:22-54 | In the chart of an accepted text every item that is there was brought by exactly what the loop does with an earlier one, and every item has been answered |
| `ExprLists.ExprIsListed` | src/recogniser.cpp:34-46 | Where an expression is wanted and its tokens follow, the lists up to its end complete exactly the items of the tree, with the empty and chained completions of what it ends, in order |
| `StatementLists.BodyIsListed` | src/recogniser.cpp:34-46 | Where statements are wanted and their tokens follow, the lists up to their end complete exactly the items of the statements |
| `DclLists.DclsAreListed` | src/recogniser.cpp:34-46 | Where declarations are wanted and their tokens follow, the lists up to their end complete exactly the items of the declarations |
| `ProgramLists.FinalChartIsItems` | src/recogniser.cpp:22-54 | For every program with wain last, calls first or not, the final chart the recogniser hands on is exactly the list of items computed from its trees |
| `Sentences.ProgramsAreViable` | src/state.cpp:37-93 | The terminals of every program with `wain` last are derived from the start symbol, so the recogniser accepts them |
| `Trees.SentencesArePrograms` | src/state.cpp:37-93 | Every sentence of the tokeniser's tokens is what some program is written with, with wain last, two parameters for it, and types for all names |
| `Tidy.ExprTidy` | src/recogniser.cpp:107-120 | In the items of an expression every item is right above the last part it was completed from, and nothing that starts further left can be taken for its left part |
| `Parser.Parser.GotoCorrectRule` | src/parser.cpp:124-131 | The cursor stops at the last item at or below it with the wanted left-hand side, or fails |
| `Parser.Parser.ParseExpr` | src/parser.cpp:133-148 | The walk gives the expression and cursor, or the error, of the reading function |
| `Parser.Parser.ParseTerm` | src/parser.cpp:150-169 | The walk for terms gives the term and cursor, or the error, of the reading function, operands of products checked |
| `Parser.Parser.CheckValidCall` | src/parser.cpp:171-189 | The loop accepts if and only if the callee is known, is declared at a place no later than the caller, and wain does not call itself |
| `Parser.Parser.ParseFactor` | src/parser.cpp:191-254 | The walk for factors gives the factor and cursor, or the error, of the reading function, with calls and their arities |
| `Parser.Parser.ParseLvalue` | src/parser.cpp:256-275 | The walk for lvalues gives the lvalue and cursor, or the error, of the reading function |
| `Parser.Parser.ParseArglist` | src/parser.cpp:277-288 | The walk for arguments, which meets the last one first, gives them in source order |
| `Parser.Parser.ParseBody` | src/parser.cpp:290-296 | The loop that prepends statements gives the statements of the reading function in source order |
| `Parser.Parser.ParseStatement` | src/parser.cpp:298-347 | The walk for statements gives the statement and cursor, or the error, of the reading function, for all five kinds |
| `Parser.Parser.ParseTest` | src/parser.cpp:349-362 | The walk for tests, right side first, gives the test and cursor, or the error, of the reading function |
| `Parser.Parser.ParseDcl` | src/parser.cpp:375-398 | The declaration is read from its two items and its type is recorded |
| `Parser.Parser.PopulateTables` | src/parser.cpp:35-67 | The first pass fills the tables as the first-pass function says, or fails with its error |
| `Parser.Parser.BuildProcedures` | src/parser.cpp:69-121 | The second pass builds the procedures as the second-pass function says |
| `Parser.Parser.Parse` | src/parser.cpp:35-122 | Both passes together give the procedures of the reading functions in source order, or the first error |
| `Parser.ProcedureNode.ValidateName` | src/ast/procedure.cpp:52-63 | The two scans succeed if and only if no parameter and no declaration has the name |
| `Parser.ProcedureNode.AddParam` | src/ast/procedure.cpp:26-29 | A parameter is appended unless its name is taken |
| `Parser.ProcedureNode.AddDeclaration` | src/ast/procedure.cpp:35-38 | A declaration is appended unless its name is taken |
| `Parser.ProcedureNode.AddStatement` | src/ast/procedure.cpp:40-42 | A statement is prepended |
| `Checking.ReadExprIsSound` | src/parser.cpp:143-145 | From any chart, an expression that is read has a type by the typing rules, the one it computes for itself, and all its calls resolve |
| `Checking.ReadTermIsSound` | src/parser.cpp:163-165 | From any chart, a term that is read and computes a type for itself has that type by the typing rules, and all its calls resolve |
| `Checking.ReadFactorIsSound` | src/parser.cpp:221-238 | From any chart, a factor that is read and computes a type for itself has that type by the typing rules, though only some branches check |
| `Checking.ReadLvalueIsSound` | src/parser.cpp:265-267 | From any chart, an lvalue that is read and computes a type for itself has that type by the typing rules |
| `Checking.ReadStatementIsSound` | src/parser.cpp:298-347 | A statement that is read follows the typing rules: both sides of assignments and tests agree, println has an int and delete a pointer |
| `Checking.TimelyCallees` | src/parser.cpp:171-189 | With distinct names a procedure may call exactly itself and those before it |
| `Accepted.ParseIsSound` | src/parser.cpp:35-122 | From any chart at all: if the parser accepts, all types in its tables come from declaration items of the chart, and every result and statement it takes, as it goes down the chart, is typed by the rules and resolved in the tables it has at that item |
| `Types.ExprTypeIsUnique` | src/ast/expr.cpp:38-73 | The typing rules give an expression at most one type, and it is the computed one |
| `Types.TermTypeIsUnique` | src/ast/term.cpp:31-43 | The typing rules give a term at most one type, and it is the computed one |
| `Types.FactorTypeIsUnique` | src/ast/factor.cpp:31-68 | The typing rules give a factor at most one type, and it is the computed one |
| `Types.LvalueTypeIsUnique` | src/ast/lvalue.cpp:20-36 | The typing rules give an lvalue at most one type, and it is the computed one |
| `ReadBack.ExprReadBack` | src/parser.cpp:133-254 | Read from its top item, a checked expression whose calls come first is given back exactly, past the noise of its prefixes |
| `Misreading.ExprReadOnlyIf` | src/parser.cpp:133-254 | An expression that is given back with the right cursor has its calls first |
| `Misreading.ExprReadExactly` | src/parser.cpp:133-254 | An expression is given back as a tree with the cursor below its items if and only if it is typed, its calls resolve, and no right operand and no later argument opens with a call |
| `Miscalls.SumWithCallIsMisread` | src/parser.cpp:133-148 | Where an int variable has the name of the procedure, `l + f()` is read as `(l + f) + f()`, with the cursor at what l leaves behind, and passes every check |
| `GivenBack.SumIsGivenBack` | src/parser.cpp:133-148 | A sum whose operands have their calls first comes out as the same tree, wherever the cursor is, if and only if it is typed and resolves and its right operand does not open with a call, unless that call is enclosed and the name it leaves behind is the left operand |
| `GivenBack.ProductIsGivenBack` | src/parser.cpp:150-169 | The same exact condition for products |
| `GivenBack.TestIsGivenBack` | src/parser.cpp:349-362 | A test comes out as the same tree if and only if it is typed and resolves and its right side does not open with a call, unless the name that call leaves behind is the left side |
| `GivenBack.ArgsAreGivenBack` | src/parser.cpp:277-288 | Arguments come out as the same list if and only if they are typed and resolve and the second does not open with a call, unless the name that call leaves behind is the first |
| `OtherResults.SumResultIsMisread` | src/parser.cpp:69-121 | A whole program, right but for a last result `l + f()` where f is also an int variable, is accepted and gets the result `(l + f) + f()` |
| `OtherResults.CallResultIsGivenBack` | src/parser.cpp:69-121 | A whole program with the last result `g(f, f())` where f is also an int variable is given back, though its calls are not first |
| `Examples.AddIsMisread` | src/parser.cpp:133-148 | From the chart of the text `int f() { return 1; } int wain(int f, int b) { return b + f(); }` the parser makes a wain that returns `(b + f) + f()`, and reports nothing |
| `Examples.PassIsGivenBack` | src/parser.cpp:277-288 | From the chart of a text whose wain returns `g(f, f())` the parser gives exactly the program |
| `ReadStatements.TestReadBack` | src/parser.cpp:349-362 | Tests are given back with their operands and operator |
| `ReadStatements.StatementReadBack` | src/parser.cpp:298-347 | Statements of any nesting are given back, the false branch, the true branch and the test each from its own items |
| `ReadStatements.BodyReadBack` | src/parser.cpp:290-347 | Lists of statements are given back in source order, and the cursor ends right below their empty list |
| `ReadDeclarations.DclsAreCollected` | src/parser.cpp:82-86 | Declarations are collected last one first, skipping the empty statement lists between them |
| `ReadDeclarations.ParamsAreCollected` | src/parser.cpp:110-114 | Parameters are collected last one first, one for each completed list of parameters |
| `ReadNames.FirstPassReadsNames` | src/parser.cpp:35-67 | Over the items of any program, whatever its bodies are, the first pass succeeds if and only if the procedures have distinct names and the second parameter of wain is an int; it then finds the procedures in source order, their numbers of parameters and the types of their names |
| `ReadDeclarations.DclsAreFresh` | src/ast/procedure.cpp:35-38 | Declarations are only collected if their names differ from each other and from those already there |
| `ReadDeclarations.ParamsAreFresh` | src/ast/procedure.cpp:26-29 | Parameters are only collected if their names differ from each other and from those already there |
| `Staying.ExprStays` | src/parser.cpp:124-254 | Whatever tree is read from the item of an expression, the cursor goes no further left than the items that start where it starts |
| `Refusals.ExprIsAnswered` | src/parser.cpp:133-254 | From the items of an expression in which calls come first the reader gives that expression with its cursor if it is without fault, and otherwise the error of its first fault, looked for from right to left and inside out |
| `Faults.ExprIsFaultless` | src/parser.cpp:133-254 | An expression is without fault if and only if it has a type by the typing rules and all its calls resolve |
| `Faults.StatementIsFaultless` | src/parser.cpp:298-362 | A statement is without fault if and only if it follows the typing rules and all its calls resolve |
| `StatementAnswers.BodyIsAnswered` | src/parser.cpp:290-362 | From the items of statements in which calls come first the reader gives those statements if they are without fault, and otherwise the error of the first fault, from the last statement to the first |
| `ProgramAnswers.FaultlessNamesAre` | src/ast/procedure.cpp:52-63 | No name of a procedure is taken again if and only if its parameters and declarations have distinct names |
| `ProgramAnswers.ProgramIsAnswered` | src/parser.cpp:35-122 | For every program in which calls come first the parser gives back its procedures in source order if it is without fault, and otherwise exactly the error of its first fault: headings before bodies, each from the last procedure to the first, results before statements before names; without fault are exactly the well-formed programs |
| `Versions.BodyIsRead` | src/parser.cpp:290-347 | From the items of any statements as many statements of the same kinds are read, those in which calls come first unchanged, and the cursor ends right below them, or the reader fails |
| `ProgramReadBack.ProgramReadsBack` | src/parser.cpp:35-122 | Every well-formed program is given back, procedures in source order with their statements, results and declarations |
| `ProgramVersions.AcceptedIsRight` | src/parser.cpp:35-122 | Of any program, calls first or not: if it is accepted, names are declared once, wain takes an int, and each procedure built has the declarations of its source, statements of the same kinds and a result, typed by the rules in the types of its own declarations with all calls resolved; statements and results with calls first are its own |
| `ProgramVersions.ProgramReadsExactly` | src/parser.cpp:35-122 | A program in which calls come first is accepted if and only if it is well-formed (names declared once, wain takes an int, statements and results typed by the rules, calls resolved), and is then given back |
| `Compiler.ParamsInOrder` | src/parser.cpp:110-114 | The parameters keep their order if and only if the procedure is wain or has at most one |
| `Compiler.CalleesExist` | src/codegen.cpp:287-295 | When the code of a procedure of a well-formed program is generated, the map of functions holds the callee of each of its calls, a procedure generated no later, with as many parameters as the call has operands in the code |
| `Compiler.ArgsAreCounted` | src/ast/arglist.cpp:23-24 | The number of arguments is the number of values their code computes |
| `Compiler.CallsFit` | src/codegen.cpp:287-295 | In the code of every procedure of a well-formed program each call is of a function in the map by then, with exactly as many operands as that function has parameters |
| `Codegen.CodeGenerator.Emit` | src/codegen.cpp:56-57 | One instruction is appended at the insertion point |
| `Codegen.CodeGenerator.GenExpr` | src/codegen.cpp:318-348 | The instructions of the expression, right operand first, are appended to the insertion block and nothing else changes |
| `Codegen.CodeGenerator.GenTerm` | src/codegen.cpp:299-316 | The instructions of the term, right operand first, are appended to the insertion block and nothing else changes |
| `Codegen.CodeGenerator.GenFactor` | src/codegen.cpp:256-297 | The instructions of the factor, calls included, are appended to the insertion block and nothing else changes |
| `Codegen.CodeGenerator.GenArgs` | src/codegen.cpp:350-359 | The instructions of the arguments are appended first argument first, and their values come out in source order |
| `Codegen.CodeGenerator.GenLvalue` | src/codegen.cpp:148-160 | The slot of a variable, or the value of the pointer whose code is appended |
| `Codegen.CodeGenerator.GenTest` | src/codegen.cpp:241-254 | The instructions of both sides and the comparison of the operator are appended to the insertion block |
| `Codegen.CodeGenerator.GenSimple` | src/codegen.cpp:162-170 | Assignment, println and delete append their code to the insertion block |
| `Codegen.CodeGenerator.GenStatement` | src/codegen.cpp:79-84 | Entered with an empty insertion block, a statement becomes blocks in the relation of its kind and leaves the finished ones alone |
| `Codegen.CodeGenerator.GenIf` | src/codegen.cpp:108-146 | Test, both branches and the exit block are wired so that the branches meet at the exit |
| `Codegen.CodeGenerator.GenWhile` | src/codegen.cpp:172-196 | The back edge goes to a block holding the code of the test and nothing before it |
| `Codegen.CodeGenerator.GenProcedure` | src/codegen.cpp:26-91 | The graph is the code of the procedure, with one return, every block finished and on a way from entry to return, operands defined before use, and a slot for every name set up first |
| `Flow.ExprIsDefined` | src/codegen.cpp:256-348 | In the code of any expression every operand is a constant, an argument, a slot, or defined earlier in the same block |
| `Flow.OperandsDecide` | src/codegen.cpp:256-348 | The effect of an instruction depends on the listed operands and on nothing else of the arguments and values, and it sets a value exactly if it is listed as defining one |
| `Shapes.IfGrown` | src/codegen.cpp:108-146 | The blocks of an if statement span the graph between its first block and its exit |
| `Shapes.WhileGrown` | src/codegen.cpp:172-196 | The blocks of a while statement span the graph between its first block and its exit |
| `Procedures.EntryAllocates` | src/codegen.cpp:47-78 | Every name has a slot that the entry block sets up before its first store |
| `Typing.ExprIsTyped` | src/codegen.cpp:256-348 | The code of a typed expression has operands of the types its instructions demand if and only if no loaded address is an operand and calls have arguments of the types the callee takes; its result then has the lowered type, or is an int if it is a loaded address |
| `Typing.TestCodeIsTyped` | src/codegen.cpp:241-254 | The same for tests: both sides or none may be loaded addresses |
| `Typing.SimpleIsTyped` | src/codegen.cpp:148-170 | The same for assignments, println and delete: every store matches its place if and only if no loaded address is stored, freed or stored through |
| `Typing.EntryIsTyped` | src/codegen.cpp:47-78 | The entry block is typed: every parameter and initial value is stored to a slot of its type |
| `Simulation.ExprRuns` | src/codegen.cpp:256-348 | The code of a typed expression in the fragment, calls included, computes the value of the expression, with its effects, or fails when it does |
| `Simulation.CallRuns` | src/codegen.cpp:289-294 | The code of a call computes its arguments first to last, invokes the callee once with their values in source order, and has the returned number as its value, with the heap and the output the callee leaves |
| `Simulation.TestRuns` | src/codegen.cpp:241-254 | The code of a test decides as the test does; pointers are the same or not, and are ordered by their addresses |
| `Laws.ProductsAreRight` | src/codegen.cpp:299-316 | Quotient and remainder of two ints x and y fail together, exactly if y is 0 or x is the smallest int and y is -1; otherwise x is q times y plus r, r is smaller than y in magnitude and has the sign of x or is 0; a product is the 32-bit number congruent to the exact one |
| `Laws.DivisionIsUnique` | src/codegen.cpp:309-314 | Only one quotient and one remainder meet that law |
| `Laws.ProductsRunRight` | src/codegen.cpp:299-316 | The generated code of products, quotients and remainders ends with numbers of the same laws, and fails exactly where they say |
| `Laws.SumsAreRight` | src/codegen.cpp:318-348 | Sums and differences of ints are the 32-bit numbers congruent to the exact ones; an int added to a pointer, on either side, or taken from it moves it by as many words within its allocation |
| `Laws.TestsAreRight` | src/codegen.cpp:241-254 | A test of two ints decides by their order, of two pointers for equality by whether they are the same, and otherwise by the order of their addresses |
| `Laws.ArraysAreFresh` | src/codegen.cpp:264-282 | A new array is a place that is neither NULL nor in use and holds as many zeros as were asked for; nothing else changes |
| `Laws.StoresAreSeen` | src/codegen.cpp:162-170 | A store succeeds exactly where a load does; a load then gives the stored number there and the old one everywhere else |
| `Laws.FreedIsGone` | src/codegen.cpp:228-240 | NULL and the start of an allocation can be deleted and nothing else; then nothing is read from that allocation and all else stays |
| `Runs.StatementRuns` | src/codegen.cpp:108-196 | For every budget of loop iterations, the blocks of a statement follow the source to its end, to an error, or for at least as many steps |
| `Correctness.ProcedureRuns` | src/codegen.cpp:26-91 | For every budget of loop iterations, the blocks of a procedure, from entry to return, give the outcome of the source within it, or go on for at least as many steps |
| `Correctness.ProcedureIsCorrect` | src/codegen.cpp:26-91 | The source halts with a value, heap and output, or an error, if and only if the blocks do |
| `Correctness.DivergenceIsPreserved` | src/codegen.cpp:26-91 | The source runs forever if and only if the blocks do |
| `Compiler.BuiltMeansTheSame` | src/ast/procedure.cpp:26-38 | The procedure the parser builds means what the source procedure means, given its arguments in the order of its own parameters |
| `Compiler.CompilesCorrectly` | wlp4c.cpp:44-51 | From the items of a well-formed program to the blocks of its procedures: both have the same outcomes, with arguments in source order for wain and in reverse for the others |
| `Compiler.CompileProcedure` | src/codegen.cpp:26-91 | Generating a procedure gives a well-formed graph of its code, or fails exactly when an int declaration has no number |
| `Deviations.ArraysHaveTheirSize` | src/codegen.cpp:264-281 | A new array has the wanted number of elements modulo 2^30, which is the wanted number if and only if that is at least 0 and below 2^30 |
| `Deviations.PointersMoveBack` | src/codegen.cpp:332-336 | Moving a pointer back by n is right if and only if n is not the smallest 32-bit integer, by which it moves in the wrong direction |
| `Deviations.AddressIsLoaded` | src/codegen.cpp:283-288 | For every lvalue that holds an int, however it is enclosed, the code for its address computes its value: where it does not fail it ends with an int, never with a pointer |
| `Deviations.DifferenceIsQuotient` | src/codegen.cpp:337-343 | Where both operands give pointers, the code of their difference ends with the 32-bit address of the left one divided by that of the right one, rounded toward zero, and fails exactly if there is no such quotient |
| `Deviations.DifferenceFails` | src/codegen.cpp:337-343 | If an operand of such a difference fails, its code does |
| `Deviations.InitialValuesAreTaken` | src/parser.cpp:375-398 | An initial value is taken as it is if and only if it is of the kind of its declaration; an int that starts with NULL is left without a number, and a pointer that starts with a number starts with NULL |
| `Driver.TextHasValues` | src/codegen.cpp:64-72 | In the tokens of a program every declaration of a procedure has an initial value if and only if no int of it starts with NULL |
| `Driver.SentencesHaveSources` | src/state.cpp:37-93 | The tokeniser's tokens are a sentence if and only if they are those of some program |
| `Driver.TextIsRead` | wlp4c.cpp:45-46 | What the recogniser hands on for the tokens of a program: accepted, its procedures are right as above; with calls first it is given back if it is well-formed, and refused with its first fault if not |
| `Driver.ReadTokens` | wlp4c.cpp:45-46 | Running both stages: not recognised if and only if the tokens are no viable prefix; the tokens of a program are either refused by the parser or become procedures that are right, with calls first the program itself exactly if it is well-formed, and its first fault if not |
| `Driver.GenerateAll` | wlp4c.cpp:48-51 | Succeeds if and only if every procedure is complete and every int declaration has a number, and then gives the code of each, as well-formed graphs in order, with the map of functions filled |
| `Driver.CompileTokens` | wlp4c.cpp:45-51 | Every sentence is a program's; it becomes the code of right procedures made of it, is refused by the parser, or fails because an int starts with NULL; with calls first it is refused exactly if it is not well-formed, with its first fault |
| `Driver.CompileText` | wlp4c.cpp:44-51 | The same from any text, with the tokeniser's error if there is one; a program written down in any spacing is answered as such, and becomes the code of its procedures if it is well-formed, has calls first and starts no int with NULL |
| `Driver.WrittenIsRead` | src/tokeniser.cpp:29-166 | A program written down from its trees with the table of spellings, in any spacing, is tokenised as the tokens of that program |
| `Driver.CodeMeansTheSource` | wlp4c.cpp:44-51 | The code of a procedure of a well-formed program halts with a value, heap and output, or an error, if and only if the source procedure does, whatever answers the calls of both |
| `Linked.RepliesAreTheSame` | src/codegen.cpp:287-295 | With calls answered by the program's own procedures, source and blocks give the same reply to every call, for any depth of nesting |
| `Linked.ProgramIsCorrect` | wlp4c.cpp:44-51 | A well-formed program in the fragment and its blocks, each with calls answered by its own procedures to any depth, halt with the same outcomes |
| `Linked.OrderIsKept` | src/parser.cpp:110-114 | Where every procedure but wain has at most one parameter, calls give what they give with arguments bound in source order |
| `Linked.FirstIsSecond` | src/parser.cpp:110-114 | `int g(int a, int b) { return a; }` called with x and y gives y |
| `Examples.SumIsAProgram` | wlp4c.cpp:44-51 | There are programs to which all of this applies |

## Left out

- `ProgramVersions.ProgramReadsExactly`: that calls come first is a hypothesis; at program level it is sufficient and not necessary. Beyond it every accepted program is right (`AcceptedIsRight`), and the model proves when single sums, products, tests and argument lists come out as the same tree (`GivenBack`), and results of two forms (`OtherResults`).
- `Driver.TextIsRead`: beyond programs with calls first, which programs are accepted, and with which error others are refused, is not stated, only what is built of them.
- `Driver.ReadTokens`: the same.
- `Driver.CompileTokens`: the same.
- `Driver.CompileText`: the same.
- `GivenBack.SumIsGivenBack`: the operands have their calls first; nested trees with calls further right inside are not covered.
- `GivenBack.ProductIsGivenBack`: the same.
- `GivenBack.TestIsGivenBack`: the same for both sides.
- `GivenBack.ArgsAreGivenBack`: the same for the arguments.
- `Typing.ExprIsTyped`: what each procedure takes is a parameter, and the statements are those of straight-line code, which all blocks consist of.
- `Simulation.ExprRuns`: the meaning theorem leaves out address-of and the difference of two pointers, as the generated code does not compute what the language says; what it computes instead is stated by `AddressIsLoaded` and `DifferenceIsQuotient`.
- `Runs.StatementRuns`: statements of the same fragment.
- `Correctness.ProcedureRuns`: procedures of the same fragment.
- `Correctness.ProcedureIsCorrect`: procedures of the same fragment.
- `Correctness.DivergenceIsPreserved`: procedures of the same fragment.
- `Compiler.CompilesCorrectly`: meaning is carried over for procedures of the same fragment, the blocks for all.
- `Driver.CodeMeansTheSource`: procedures of the same fragment, in programs without procedures named `printf`, `malloc` or `free`: in one module such a procedure is found instead of the library's, and println, new or delete call it.
- `Linked.ProgramIsCorrect`: calls nest at most as deep as the bound says, for every bound; a callee that fails or runs forever gives its caller no reply, which is an error there.
- `Deviations.DifferenceIsQuotient`: the division is an ordinary one; that the code marks it as exact, so that LLVM need not round where something remains, is not modelled.
- `Recogniser.Recogniser.Recognise`: a text without tokens is accepted by the theorem and the code alike; the parser's behaviour on accepted texts that are not whole programs is an error here where the code reads past its data.
- Reading a token or item that is not there is an error value here and undefined in the code.
- Trees are values, not owned objects, and their setters are constructors; only procedures under construction are objects.
- `typeForDcl` adds a default entry for a missing name; no later type depends on it, and it is not modelled.
- The nested loops of the source are split into methods of their own: `TakePunctuation`, `CompleteOne`, `ProcessItem`, `CloseList`, `ParseBody`, `SkimDcls`, `CountParams`, `BuildDcls`, `BuildParams`, `GenBody`, `GenBranch`, `GenNext`, `CloseIf`.
- Operands of stores and comparisons are generated in one fixed order (value before target, right before left); C++ leaves it open.
- Allocation always succeeds and gives zeros, reading freed or foreign memory is an error, and `printf` appends to a trace. The numeric addresses of pointers are a parameter of the machine.
- LLVM itself: targets, object files, linkage, alignment, constant folding in the builder, poison from inbounds arithmetic, and the declarations of `malloc`, `free` and `printf`.
- Line and column numbers, command line and files, the text of error messages, and the embedded C program.
