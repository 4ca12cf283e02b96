# Verified model of the toyhoodle components

This project models five components of the repository in Dafny and proves what they guarantee.

1. **The LQL compiler and interpreter** (cube). `ReadFile` skips blank lines and comments.
   `Compile` is a recursive-descent parser that resolves what is assigned to while it parses;
   `Analyize` runs the action tree, looks up all reads by name, and rewrites `@name` texts by
   replacing one name at a time. Each of the three is a class whose loops and field updates are
   proved against specification functions. About those functions it is proved that the parser
   accepts exactly the well-nested texts, that it undoes a printer (for actions and for whole
   files), that the rewriting loop is simultaneous substitution exactly when no token is headed by
   an earlier one, that it ends exactly when no name reached refers to itself, that programs without
   WHILE end, and that compilation preserves meaning.
   Files: `Text`, `ReadFile`, `Syntax`, `Compile`, `Grammar`, `Printing`, `PrintedFile`,
   `Headers`, `Refusals`, `Declarations`, `Substitution`, `References`, `Quoting`, `Analyize`, `Numbers`, `Operands`,
   `Interpreter`, `Meaning`, `Program`, `Redeclaration`, `Loops`, `Statements`, `Termination`.
2. **The RPC protocol** (phone). The table of outstanding requests, the write listener, the sweeps
   over the table and the server's replies form a step system in which senders interleave with the
   event loop. Proved over all runs: no request is lost, how often a callback runs, what a
   synchronous caller gets, and that answers belong to their requests.
   Files: `Transport` (the classes), `RpcSystem` (the steps and invariants).
3. **`jQuery.Callbacks`, `jQuery.Deferred` and `jQuery.when`** (shipped in monitorView). A machine
   that stops at each function called, which may then do anything to the list, and goes on when it
   returns; so all re-entrant behaviour is covered. Files: `Callbacks`, `CallbackRuns`, `Passes`,
   `Deferred`, `When`.
4. **`TimeReelHistory`** (localCache). The pruned queue of a node against the full log of visits.
   File: `TimeReelHistory`.
5. **`LRUCache` and `BalanceScheduler`** (localCache, snipe). What the cache holds after any run;
   round robin and fairness. Files: `LRUCache`, `Expiry`, `BalanceScheduler`.

`Wrappers` holds the option type they share.

Every class method is proved to do what a specification function says; the theorems are about those
functions and about runs of any length. `dafny verify dfyconfig.toml` checks everything.

## Where the code does not do what one might expect

The model follows the code; these are the places where it differs from its documentation or from
what a reader might assume, with the theorems that say exactly when.

- An assignment compiled before its name is declared again goes to a Param that nobody reads
  (`WholeFile.AssignmentMeansItsNameExactlyWhen`, `Redeclaration.RedeclaredNameGoesStale`).
- `replace` also replaces the head of longer names (`Substitution.RewriteSubstitutesExactlyWhen`),
  and what it writes is rewritten again: where no name is a prefix of another and values refer to
  defined names, rewriting ends exactly when no name that the text reaches refers to itself, directly
  or through others (`References.RewriteEndsExactlyWhen`).
- The documentation of cube shows a FOREACH with a table only; the code wants parameters too. A row
  with more columns than parameters fails (`LoopFacts.BindRowExactly`). `==` compares the text of
  its left side with the right value, so that it is not always the negation of `!=`
  (`Operands.EqualNegatesDifferentExactlyWhen`), and `<`, `<=`, `>=` always fail.
- The line after ELSE is taken for an action whatever it is, so ELSE before ENDIF is refused; ELSE
  may be repeated (`Grammar.ParserAcceptsExactlyTheGrammar`).
- A failed write leaves its entry in the table, so that the next sweep calls the callback a second time.
  It is called once only if a sweep had cleared the entry without meeting it, or if the closing of the
  channel had been handled when the write failed and no exception is caught afterwards
  (`RpcSystem.FailedWriteCallsTwiceExactlyWhen`).
- `getEffectiveTime` never ends when entered before the base is overdue
  (`TimeReel.PollEndsExactlyWhenOverdue`); a visit tests this first, the sweeper thread does not.
- A lower capacity does not shrink the cache (`Lru.OverfullStays`); a list of servers shorter than
  the rotation makes one call fail (`Balancing.ChangeIsSafeExactlyWhen`).

## Model

| member | source | states |
|---|---|---|
| `Reading.ReadFile.ReadLien` | cube/src/main/java/com/toy/cube/lql/ReadFile.java:19-28 | yields the next line that is neither blank nor a comment, trimmed, or None at the end; exactly the skipped lines are consumed, and the counter is the number of physical reads so far, those at the end of the file included |
| `Reading.LayoutIsInvisible` | cube/src/main/java/com/toy/cube/lql/ReadFile.java:19-28 | blank and comment lines put anywhere, in any number, do not change the lines the compiler sees |
| `Reading.LayoutIsBlankOrComment` | cube/src/main/java/com/toy/cube/lql/ReadFile.java:19-28 | the lines skipped are those that are blank or start with '#' after their margin, and no others |
| `Compiling.CompilationIgnoresLayout` | cube/src/main/java/com/toy/cube/lql/Compile.java:30-45 | and so do not change what a file compiles to or whether it is accepted |
| `Text.JoinPieces` | cube/src/main/java/com/toy/cube/util/StringUtil.java:10-18 | splitting at a separator loses nothing but separators: joining the pieces gives the text back |
| `Text.PiecesCut` | cube/src/main/java/com/toy/cube/util/StringUtil.java:12-16 | splitting cuts at the first occurrence of the separator |
| `Text.TrimSplitsOff` | cube/src/main/java/com/toy/cube/util/StringUtil.java:12-13 | trimming takes away blank margins only, and leaves none |
| `Compiling.Exe.GetParams` | cube/src/main/java/com/toy/cube/lql/Exe.java:30-36 | the loop gives one Param a name, in order, or fails on the first name without one |
| `Compiling.Exe.PutParam` | cube/src/main/java/com/toy/cube/lql/Exe.java:48-50 | makes a new Param and puts it in place of what the trimmed name denoted |
| `Declarations.TypeIsNamedExactly` | cube/src/main/java/com/toy/cube/lql/Param.java:15-32 | a type is named by its name, in upper or lower case and with any margins, and by no other text |
| `Declarations.DeclarationDeclares` | cube/src/main/java/com/toy/cube/lql/Compile.java:135-142 | a line of the parameter section puts a new Param of the type named, without a value, under its name, and changes nothing else |
| `Declarations.ConnectionConnects` | cube/src/main/java/com/toy/cube/lql/Compile.java:144-148 | a line of the data source section puts a connection with its address and its driver, in this order, under its name, if it can be opened, and else fails |
| `Declarations.SectionsAreHeaders` | cube/src/main/java/com/toy/cube/lql/Compile.java:122-134 | a line starts a section exactly if it starts with its header |
| `Declarations.SectionsDeclare` | cube/src/main/java/com/toy/cube/lql/Compile.java:30-45 | a data source section and a parameter section declare their connection and parameter for the lines that follow |
| `Compiling.Compile.CompileAll` | cube/src/main/java/com/toy/cube/lql/Compile.java:30-45 | the section loop compiles exactly what the specification says of the meaningful lines, or fails as it says |
| `Compiling.Compile.ModelTransform` | cube/src/main/java/com/toy/cube/lql/Compile.java:121-133 | switches the section exactly on a header line |
| `Compiling.Compile.PutAction` | cube/src/main/java/com/toy/cube/lql/Compile.java:47-119 | reads one action: result, tables and unread lines are those of the specification, on which the theorems below are proved; the unread lines shrink |
| `Compiling.Compile.PutBranches` | cube/src/main/java/com/toy/cube/lql/Compile.java:56-66 | the loop of IF with its branch switch builds the two branches of the specification |
| `Compiling.Compile.PutBlock` | cube/src/main/java/com/toy/cube/lql/Compile.java:91-97 | the loop of WHILE and FOREACH builds the body of the specification and stops at its own END line |
| `Compiling.Compile.PutQuery` | cube/src/main/java/com/toy/cube/lql/Compile.java:69-89 | reads a query up to its END line; its target is a new table from the QUERY line on |
| `Grammar.ParserAcceptsExactlyTheGrammar` | cube/src/main/java/com/toy/cube/lql/Compile.java:47-119 | the parser succeeds on a text, with a given result and rest, if and only if a well-nested concrete tree has exactly the consumed lines and that meaning; so each block is closed by its own END line, and only ELSE lines after the first are dropped |
| `Grammar.ParsedIsWellNested` | cube/src/main/java/com/toy/cube/lql/Compile.java:50-118 | whatever is accepted is a well-nested tree over exactly the lines consumed |
| `Grammar.WellNestedIsParsed` | cube/src/main/java/com/toy/cube/lql/Compile.java:50-118 | every well-nested tree whose names resolve is accepted, with its own meaning and the following lines unread |
| `Grammar.BindBranchesSplits` | cube/src/main/java/com/toy/cube/lql/Compile.java:52-66 | binding an IF body in one pass with the branch switch is binding the then branch and after it the else branch |
| `Refusals.UnclosedIsRefused` | cube/src/main/java/com/toy/cube/lql/Compile.java:50-118 | a block of any kind and depth without its last line is refused for want of its own END line |
| `Refusals.UndeclaredIsRefused` | cube/src/main/java/com/toy/cube/lql/Compile.java:100-116 | an assignment or FOREACH to undeclared names is refused with the first of them |
| `Refusals.NamesAreLookedUp` | cube/src/main/java/com/toy/cube/lql/Exe.java:30-36 | several names are found if and only if all are declared, each as the Param it denotes, in order |
| `Refusals.UnknownIsRefusedExactly` | cube/src/main/java/com/toy/cube/lql/Compile.java:117-118 | a line is refused as unknown if and only if it starts with none of the keywords and no '@' |
| `Headers.HeadersStandInQueries` | cube/src/main/java/com/toy/cube/lql/Compile.java:50-118 | of all lines of a well-nested tree, of any depth, the section headers are those in the texts of its queries, in order |
| `Headers.HeadersInBlocksSwitchNothing` | cube/src/main/java/com/toy/cube/lql/Compile.java:30-45 | in an action section, an accepted action takes up all its lines without a change of section, and every header line among them is query text |
| `Printing.PrintedIsWellNested` | cube/src/main/java/com/toy/cube/lql/Compile.java:50-118 | the printed text of any printable tree, of any depth, is well nested and stands for that tree |
| `Printing.ReadsPrintedHead` | cube/src/main/java/com/toy/cube/lql/Compile.java:50-118 | the head line printed for an action is read back as that action's kind and operands |
| `Printing.ParserInvertsPrinter` | cube/src/main/java/com/toy/cube/lql/Compile.java:47-119 | compiling the printed lines of a tree gives that tree with its names resolved and leaves exactly the following lines unread |
| `PrintedFile.PrintedIsReadable` | cube/src/main/java/com/toy/cube/lql/ReadFile.java:19-28 | printed lines pass through the reader unchanged and unskipped |
| `PrintedFile.SectionAfter` | cube/src/main/java/com/toy/cube/lql/Compile.java:30-45 | after declarations without actions, an action section compiles with exactly what they declared |
| `PrintedFile.CompilerInvertsPrinter` | cube/src/main/java/com/toy/cube/lql/Compile.java:30-119 | a whole file of declarations and printed actions compiles to exactly those actions, names resolved |
| `Interpreting.Analyize.GetEndIndex` | cube/src/main/java/com/toy/cube/lql/Analyize.java:104-118 | the nearest of the three delimiters at or after the start, or -1 exactly if there is none |
| `Interpreting.EndOfToken` | cube/src/main/java/com/toy/cube/lql/Analyize.java:87-92 | the text up to that delimiter is the token there |
| `Interpreting.Analyize.ParamChage` | cube/src/main/java/com/toy/cube/lql/Analyize.java:83-102 | the loop with its local text computes the specified rewriting |
| `Substitution.RoundTakesAnAt` | cube/src/main/java/com/toy/cube/lql/Analyize.java:86-99 | with values without '@' each round strictly lowers the number of '@' in any text, which bounds the rounds |
| `Substitution.ReplaceSweeps` | cube/src/main/java/com/toy/cube/lql/Analyize.java:96-98 | replacing one more name throughout a text in which others were replaced is one sweep over the original text |
| `Substitution.RewriteIsOnePass` | cube/src/main/java/com/toy/cube/lql/Analyize.java:83-102 | for any names the loop terminates and does what one pass does, in which a name once replaced also replaces the head of later tokens it is a prefix of |
| `Substitution.RewriteSubstitutes` | cube/src/main/java/com/toy/cube/lql/Analyize.java:83-102 | if no token has an earlier one as a prefix, the loop is simultaneous substitution, quoted exactly for strings in SQL; it fails exactly if substitution does |
| `Substitution.RewriteSubstitutesExactlyWhen` | cube/src/main/java/com/toy/cube/lql/Analyize.java:83-102 | the exact condition, for every clean text: it means substitution in all environments with plain values if and only if no token first occurs after a token that is a prefix of it |
| `Quoting.NameIsWritten` | cube/src/main/java/com/toy/cube/lql/Analyize.java:86-99 | one name in a text: in SQL a string parameter is written as its text in quotes, null as 'null'; any other parameter, or any outside SQL, as its bare text; rewriting fails exactly if the name is undeclared, or the value is null and not quoted; and what was written is rewritten in turn |
| `Quoting.PlainNameIsWritten` | cube/src/main/java/com/toy/cube/lql/Analyize.java:86-99 | so a value without '@' is written for good, in one round |
| `Quoting.SubstitutionWrites` | cube/src/main/java/com/toy/cube/lql/Analyize.java:95-98 | simultaneous substitution writes exactly that for each name of a text |
| `Quoting.TextIsJavaText` | cube/src/main/java/com/toy/cube/lql/Analyize.java:95-98 | the text of a value is that of Java: a table is the list of its rows, each the list of its columns with their values |
| `References.RewriteEndsExactlyWhen` | cube/src/main/java/com/toy/cube/lql/Analyize.java:83-102 | when values refer to other names: for names none of which is a prefix of another and values over defined names, rewriting a text over these names ends, for some number of rounds, if and only if the names it reaches have ranks, each above those its value refers to |
| `References.AllTextsEndExactlyWhen` | cube/src/main/java/com/toy/cube/lql/Analyize.java:83-102 | all texts over the names of such an environment end if and only if all its names have such ranks |
| `References.RewriteIsExpansion` | cube/src/main/java/com/toy/cube/lql/Analyize.java:83-102 | a text that ends comes to the expansion of every name by its value, values included, for every bound of at least as many rounds as there are replacements to make |
| `References.SelfReferenceNeverEnds` | cube/src/main/java/com/toy/cube/lql/Analyize.java:86-99 | a text with a name that refers to itself, directly or round a cycle of any length, is rewritten for ever, whatever the bound |
| `Interpreting.Analyize.DoAnalyize` | cube/src/main/java/com/toy/cube/lql/Analyize.java:31-81 | one action run in place on the Param objects has the effect, queries and ending of the specification |
| `Interpreting.Analyize.RunWhile` | cube/src/main/java/com/toy/cube/lql/Analyize.java:44-52 | the WHILE loop does |
| `Interpreting.Analyize.RunTable` | cube/src/main/java/com/toy/cube/lql/Analyize.java:63-80 | the FOREACH loop over the rows the table had at entry does |
| `Interpreting.Analyize.BindColumns` | cube/src/main/java/com/toy/cube/lql/Analyize.java:67-73 | the loop over a row's columns does, its guard letting one column too many through |
| `Interpreting.Analyize.RunSql` | cube/src/main/java/com/toy/cube/lql/Analyize.java:57-62 | a query sends the rewritten text and stores its rows, if it has a target |
| `Interpreting.Analyize.AssignmentAnalyize` | cube/src/main/java/com/toy/cube/lql/Analyize.java:143-172 | the right-hand side: a call over rewritten arguments, or a value |
| `Interpreting.Analyize.AnalyizeExe` | cube/src/main/java/com/toy/cube/lql/Analyize.java:23-28 | all actions, in order, until one fails |
| `Statements.QueryStoresItsAnswer` | cube/src/main/java/com/toy/cube/lql/Analyize.java:57-62 | a query that can be sent: the log grows by exactly the one call with its rewritten text; the rows answered, or null for no result, are the target's value, and no other parameter changes; a failing database breaks the run and changes no parameter |
| `Statements.UnsentQueryChangesNothing` | cube/src/main/java/com/toy/cube/lql/Analyize.java:57-62 | a query whose text cannot be rewritten, or without a connection, breaks the run, changes nothing and sends nothing |
| `Statements.QueryThenForeach` | cube/src/main/java/com/toy/cube/lql/Analyize.java:57-80 | a FOREACH over the target of the query before it runs its body once for each row that the database answered, in order |
| `Statements.SqlTextOfLine` | cube/src/main/java/com/toy/cube/lql/Compile.java:81-88 | the text a query sends has all its lines, in order, each with a space before and after it |
| `Statements.AssignmentStoresItsValue` | cube/src/main/java/com/toy/cube/lql/Analyize.java:53-56 | an assignment stores the value of its right-hand side, keeps the type, and changes nothing else; without a value it breaks the run and changes nothing |
| `Statements.ValueIsRead` | cube/src/main/java/com/toy/cube/lql/Analyize.java:175-188 | a text without a dot is a literal, or the value of the parameter of that name, which has to be declared and no table |
| `Statements.CallPassesItsArguments` | cube/src/main/java/com/toy/cube/lql/Analyize.java:143-168 | the function of that name is given exactly the words that the rewritten text between the parentheses has between its commas, and its result is the value |
| `Statements.CallPassesParameter` | cube/src/main/java/com/toy/cube/lql/Analyize.java:143-168 | a parameter as argument is passed as its bare text, a string without quotes |
| `Statements.EmptyCallPassesEmptyText` | cube/src/main/java/com/toy/cube/lql/Analyize.java:143-168 | a call with nothing between its parentheses passes one argument, the empty text |
| `Statements.TrailingCommaIsIgnored` | cube/src/main/java/com/toy/cube/lql/Analyize.java:143-168 | a comma behind the last argument is ignored |
| `Statements.TrailingEmptyIsDropped` | cube/src/main/java/com/toy/cube/lql/Analyize.java:144-146 | splitting drops exactly the empty pieces at the end |
| `Statements.IfComparesStrings` | cube/src/main/java/com/toy/cube/lql/Analyize.java:31-43 | an IF that compares a string parameter with a literal runs its then branch exactly if they are equal, or for `!=` different, and else its else branch |
| `Statements.IfComparesNumbers` | cube/src/main/java/com/toy/cube/lql/Analyize.java:31-43 | an IF that compares numbers, written in decimal, runs its then branch exactly if the first is greater |
| `Statements.UnreadableConditionBreaks` | cube/src/main/java/com/toy/cube/lql/Analyize.java:124-138 | a condition that starts with an undeclared or null parameter breaks the run and changes nothing |
| `Operands.EqualNegatesDifferentExactlyWhen` | cube/src/main/java/com/toy/cube/lql/Analyize.java:124-138 | `==` is the negation of `!=` if and only if the left value is a string or the right one is neither that value nor its text |
| `Operands.OrderTests` | cube/src/main/java/com/toy/cube/lql/Analyize.java:126-136 | `>` compares 32-bit integers and fails exactly if one text is none; the other orderings always fail |
| `Numbers.ParseIntExactly` | cube/src/main/java/com/toy/cube/lql/Analyize.java:130-131 | the numbers compared: exactly an optional sign and at least one digit, worth what the digits are by their places, in 32 bits |
| `Numbers.ParseIntReadsWritten` | cube/src/main/java/com/toy/cube/lql/Analyize.java:130-131 | every number of 32 bits written in decimal is read back |
| `Operands.DottedTextIsRead` | cube/src/main/java/com/toy/cube/lql/Analyize.java:175-188 | a text with one dot is a column of a table's first row or another parameter's value, and fails exactly as specified |
| `Operands.ColumnIsFound` | cube/src/main/java/com/toy/cube/lql/Analyize.java:183-184 | the first column of that name, or null |
| `Operands.CallIsRead` | cube/src/main/java/com/toy/cube/lql/Analyize.java:143-148 | a call without further parentheses is read as its name and arguments |
| `Operands.NestedCallIsCut` | cube/src/main/java/com/toy/cube/lql/Analyize.java:143-148 | of a call among the arguments only its name is left, less the last character |
| `Meaning.RunByName` | cube/src/main/java/com/toy/cube/lql/Analyize.java:31-81 | running code tied to Param objects gives by name what running its source gives: same values, same queries in order, same ending, for every database and every bound on loops |
| `WholeFile.DenotesInTheEnd` | cube/src/main/java/com/toy/cube/lql/Exe.java:22-28 | what a name denotes where it stands is what it denotes in the end if and only if it is not declared again in between |
| `WholeFile.BindTies` | cube/src/main/java/com/toy/cube/lql/Compile.java:100-116 | the targets resolved while parsing an action, whatever its depth, are what their names denote at run time if and only if none of them is declared again after it is used there |
| `WholeFile.FileIsTied` | cube/src/main/java/com/toy/cube/lql/Compile.java:30-45 | the actions of a file that compiles are well-nested trees over its meaningful lines, and the compiled code is tied to them if and only if no target of an action is declared again after it |
| `WholeFile.CompilationPreservesMeaning` | cube/src/main/java/com/toy/cube/lql/Compile.java:30-119 | compilation preserves meaning: for every file that compiles and in which no name that an action assigns to or iterates over is declared again after that action, running the compiled actions on Param objects equals, by name, running the source actions with every parameter's name looked up when used; it is exactly in these files that the code refers to what its names denote, and a file that declares no name twice is one of them |
| `WholeFile.Start` | cube/src/main/java/com/toy/cube/lql/Analyize.java:23-28 | compiling a file and running it does what the specification says |
| `WholeFile.AssignmentMeansItsNameExactlyWhen` | cube/src/main/java/com/toy/cube/lql/Exe.java:48-50 | a compiled assignment acts on its name, for all values, if and only if the name still denotes the Param it was compiled for |
| `Redeclaration.RedeclaredNameGoesStale` | cube/src/main/java/com/toy/cube/lql/Exe.java:48-50 | for every name and literal: the file that declares the name, assigns the literal and declares the name again compiles and does not meet that condition, and its compiled run leaves null under the name where the source leaves the literal |
| `LoopFacts.BindRowExactly` | cube/src/main/java/com/toy/cube/lql/Analyize.java:67-73 | a row is accepted if and only if it has at most as many columns as there are parameters; the parameters reached hold their last column and nothing else changes, also when it is refused |
| `LoopFacts.ForeachRunsOncePerRow` | cube/src/main/java/com/toy/cube/lql/Analyize.java:63-80 | a FOREACH that ends has run its body exactly once for each row of the table at entry, in order, whatever the body does to the table: each time from the state it left the time before with that row in the parameters, the state left by the last time being the result |
| `LoopFacts.WhileUnfolds` | cube/src/main/java/com/toy/cube/lql/Analyize.java:44-52 | a WHILE is an IF around its body and itself |
| `LoopFacts.RunAllConcat` | cube/src/main/java/com/toy/cube/lql/Analyize.java:23-28 | actions run one list after the other run as one list, up to the first that fails |
| `LoopFacts.RunKeepsKeys` | cube/src/main/java/com/toy/cube/lql/Analyize.java:31-81 | running never makes or loses a Param |
| `Termination.WhileFreeTerminates` | cube/src/main/java/com/toy/cube/lql/Analyize.java:31-102 | an action without WHILE ends, done or failed, whatever its texts: if no value in the store, in answers or in results of functions and no literal assigned contains '@', for every bound of at least the number of '@' in the text with the most; and no value with '@' is left |
| `Termination.WhileFreeProgramsTerminate` | cube/src/main/java/com/toy/cube/lql/Analyize.java:23-102 | so do all programs without WHILE |
| `LoopFacts.BoundIsImmaterial` | cube/src/main/java/com/toy/cube/lql/Analyize.java:31-102 | the bound on rounds only cuts runs short: a run that ends within a bound ends the same way, in the same state, within every larger one |
| `Transport.TransportResponseHandler.Handle` | phone/src/main/java/com/toy/common/network/TransportResponseHandler.java:33-59 | a reply for an outstanding request removes it and runs its callback; any other is ignored |
| `Transport.TransportResponseHandler.FailOutstandingRequests` | phone/src/main/java/com/toy/common/network/TransportResponseHandler.java:75-81 | every entry's callback is failed once, in some order, and then the table is cleared |
| `Transport.TransportResponseHandler.AddRpcRequest` | phone/src/main/java/com/toy/common/network/TransportResponseHandler.java:93-96 | puts the callback under the id and sets the time of the last request |
| `Transport.TransportClient.SendRpc` | phone/src/main/java/com/toy/common/network/TransportClient.java:46-54 | refused exactly if timed out or closed; else registered before it is written |
| `Transport.TransportClient.WriteFinished` | phone/src/main/java/com/toy/common/network/TransportClient.java:54-73 | a failed write closes the channel and fails the callback, but leaves the entry |
| `Transport.Await` | phone/src/main/java/com/toy/common/network/TransportClient.java:78-104 | the synchronous caller is given the first outcome that comes before its deadline, later ones changing nothing, and times out exactly if there is none |
| `Transport.TransportRequestHandler.ProcessRpcRequest` | phone/src/main/java/com/toy/common/network/TransportRequestHandler.java:50-69 | every reply the application gives is sent, in order, as one message under the request's id, then the exception if it throws, and nothing else |
| `Transport.TransportChannelHandler.ExceptionCaught` | phone/src/main/java/com/toy/common/network/TransportChannelHandler.java:61-67 | all outstanding requests fail, then the channel is closed |
| `Transport.TransportChannelHandler.ChannelInactive` | phone/src/main/java/com/toy/common/network/TransportChannelHandler.java:85-98 | all outstanding requests fail |
| `Transport.TransportChannelHandler.UserEventTriggered` | phone/src/main/java/com/toy/common/network/TransportChannelHandler.java:38-58 | the client is timed out and closed exactly if the connection was quiet too long and requests are outstanding or idle connections are to be closed |
| `RpcSystem.StepInv` | phone/src/main/java/com/toy/common/network/TransportResponseHandler.java:33-96 | every step of client, network and server keeps the invariant of the system |
| `RpcSystem.NoRequestIsLost` | phone/src/main/java/com/toy/common/network/TransportResponseHandler.java:75-96 | in every reachable state each registered request is outstanding, or has been called back, or its write is unfinished; with the channel closed and handled and all writes done, every callback has run |
| `RpcSystem.CallbackMultiplicity` | phone/src/main/java/com/toy/common/network/TransportClient.java:51-75 | over every run, a request whose write succeeded is called back at most once, however many replies the server sends; one whose write failed once or twice, with failures only |
| `RpcSystem.ExactlyOnceInTheEnd` | phone/src/main/java/com/toy/common/network/TransportClient.java:46-76 | in the end a request whose write succeeded has been called back exactly once |
| `RpcSystem.FailedWriteCallsTwiceExactlyWhen` | phone/src/main/java/com/toy/common/network/TransportClient.java:61-73 | for every run in which a write fails and which goes on until the closing of the channel is handled: the callback has run twice if and only if a sweep had already failed the entry, or the entry was in the table at the failure and the closing was not handled yet or an exception is caught later; and else once |
| `RpcSystem.SynchronousOutcome` | phone/src/main/java/com/toy/common/network/TransportClient.java:78-104 | over every run, whatever the deadline: the synchronous caller times out if and only if its callback has not run by then; else it gets the first outcome, a failure for a failed write and the only outcome there ever is for a successful one |
| `RpcSystem.AnswersBelongToTheirRequests` | phone/src/main/java/com/toy/common/network/TransportRequestHandler.java:50-69 | in every reachable state an answer given to a callback was produced by the server while processing that very request, and goes to the callback the request registered |
| `RpcSystem.Serve` | phone/src/main/java/com/toy/common/network/TransportRequestHandler.java:50-69 | each message that the handler sends while it processes a request is a reply that the server puts in flight for that very request, in order, and there is no other; so the step system speaks of this handler |
| `RpcSystem.RepliesAreConserved` | phone/src/main/java/com/toy/common/network/TransportResponseHandler.java:33-59 | over every run each reply has been received as often as the server gave it, less those in flight |
| `RpcSystem.EachRequestIsSentOnce` | phone/src/main/java/com/toy/common/network/TransportClient.java:46-60 | over every run the client has sent exactly one message for each request whose write has begun, and none for any other |
| `RpcSystem.EachCallRegistersOnce` | phone/src/main/java/com/toy/common/network/TransportClient.java:46-54 | over every run the calls that found the client usable are as many as the requests registered and those still to be |
| `RpcSystem.UnusableTakesNoRequest` | phone/src/main/java/com/toy/common/network/TransportClient.java:46-50 | a client that has timed out or whose channel is closed takes no further request, then or later; any other does |
| `RpcSystem.HandlersAreSteps` | phone/src/main/java/com/toy/common/network/TransportClient.java:54-73 | when the event loop is idle, closing, timing out, the end of a write and an arrived reply are each one step that does what the class's method does |
| `RpcSystem.SweepMayMeetNewEntry` | phone/src/main/java/com/toy/common/network/TransportResponseHandler.java:75-81 | a request registered while the table is swept may be met by the sweep or not |
| `RpcSystem.UninterruptedSweep` | phone/src/main/java/com/toy/common/network/TransportResponseHandler.java:75-81 | the steps of a sweep that nothing interrupts do what the handler's method does, for both sweeps |
| `RpcSystem.ExceptionCaughtAtOnce` | phone/src/main/java/com/toy/common/network/TransportChannelHandler.java:61-67 | so the step system and the handler agree on exceptionCaught, with an empty table too |
| `RpcSystem.ChannelInactiveAtOnce` | phone/src/main/java/com/toy/common/network/TransportChannelHandler.java:85-98 | and on channelInactive |
| `Callbacks.CallbackList.FireNow` | monitorView/src/main/resources/static/webapp/assets/js/jquery-1.10.2.js:3093-3118 | fire, with its loop up to the next function it calls |
| `Callbacks.CallbackList.Finish` | monitorView/src/main/resources/static/webapp/assets/js/jquery-1.10.2.js:3106-3117 | the end of a pass: the next fire waiting, an emptied list, or a disabled one |
| `Callbacks.CallbackList.AddAll` | monitorView/src/main/resources/static/webapp/assets/js/jquery-1.10.2.js:3122-3151 | add during a pass, after a remembered fire, or before |
| `Callbacks.CallbackList.Splice` | monitorView/src/main/resources/static/webapp/assets/js/jquery-1.10.2.js:3156-3168 | the search-and-splice loop leaves exactly the other functions, and moves the firing index back by as many entries as went at or before it |
| `Callbacks.SpliceRemoves` | monitorView/src/main/resources/static/webapp/assets/js/jquery-1.10.2.js:3156-3168 | the splicing loop, one adjustment at a time, is the removal of all occurrences at once |
| `Callbacks.KeptConcat` | monitorView/src/main/resources/static/webapp/assets/js/jquery-1.10.2.js:3156-3168 | what is kept before the firing position is what the index moves back to |
| `Callbacks.CallbackList.FireAll` | monitorView/src/main/resources/static/webapp/assets/js/jquery-1.10.2.js:3206-3217 | fires, waits or is ignored |
| `CallbackRuns.PassCallsEachOnce` | monitorView/src/main/resources/static/webapp/assets/js/jquery-1.10.2.js:3093-3172 | removal during firing neither skips nor repeats: in every run that only adds and removes during passes, the firing length is the list's, entries behind the index have been called, once each, in order, with the pass's arguments, and those ahead have not |
| `Passes.PassEndsExactlyWhen` | monitorView/src/main/resources/static/webapp/assets/js/jquery-1.10.2.js:3100-3105 | in every such run a pass ends when a function returns if and only if that function returned false on a list that stops on false, or each entry on the list that the pass covers has been called; otherwise the first of them not called is called next |
| `Passes.OnlyReturnsEnd` | monitorView/src/main/resources/static/webapp/assets/js/jquery-1.10.2.js:3093-3172 | nothing else ends a pass or calls anybody during one |
| `Passes.FireCallsEachOnce` | monitorView/src/main/resources/static/webapp/assets/js/jquery-1.10.2.js:3093-3118 | a fire calls each function on a resting list once, in order, with its arguments, up to the first that stops it, and then the list rests |
| `Passes.AddCallsEachOnce` | monitorView/src/main/resources/static/webapp/assets/js/jquery-1.10.2.js:3140-3148 | adding to a resting list that remembers a fire calls the functions it puts on the list, and no others, in the same way with the arguments remembered |
| `Passes.StopForgets` | monitorView/src/main/resources/static/webapp/assets/js/jquery-1.10.2.js:3101-3104 | a stop on false keeps functions added later from being called |
| `Passes.AddPutsBehind` | monitorView/src/main/resources/static/webapp/assets/js/jquery-1.10.2.js:3122-3148 | the functions added go behind those on the list, in order; with `unique` those that are not on it yet, each once, where it comes first |
| `Passes.UniqueHoldsOnce` | monitorView/src/main/resources/static/webapp/assets/js/jquery-1.10.2.js:3122-3148 | with `unique`, no function is twice on the list in any run |
| `Passes.EmptyCallsNobody` | monitorView/src/main/resources/static/webapp/assets/js/jquery-1.10.2.js:3179-3183 | after empty, also during a pass, nobody is called until a function is added |
| `Passes.DisableCallsNobody` | monitorView/src/main/resources/static/webapp/assets/js/jquery-1.10.2.js:3185-3188 | after disable nobody is called and no fire is accepted, unless the list is emptied |
| `Passes.LockIgnoresFires` | monitorView/src/main/resources/static/webapp/assets/js/jquery-1.10.2.js:3194-3200 | after lock no fire is accepted and those waiting never begin |
| `CallbackRuns.RunPassInv` | monitorView/src/main/resources/static/webapp/assets/js/jquery-1.10.2.js:3093-3172 | every such run keeps that invariant, whatever the functions called do |
| `CallbackRuns.FiresAreServedInOrder` | monitorView/src/main/resources/static/webapp/assets/js/jquery-1.10.2.js:3093-3217 | in every run fires begin in the order accepted, and the pass made is that of the fire begun last |
| `CallbackRuns.EveryFireIsServed` | monitorView/src/main/resources/static/webapp/assets/js/jquery-1.10.2.js:3093-3217 | no fire of a list neither locked nor disabled is dropped or reordered: begun and waiting fires are exactly those asked for, and at rest all have begun |
| `Deferreds.SettlesOnce` | monitorView/src/main/resources/static/webapp/assets/js/jquery-1.10.2.js:3235-3319 | in every run of resolve, reject, done, fail, notify and progress calls, also from inside callbacks: the state is that of the first settlement; exactly the functions added to its side, before, during or after, are called, once each, in order of addition, with its arguments; nobody on the other side is called; only notifications before it count |
| `Deferreds.StateIsPermanent` | monitorView/src/main/resources/static/webapp/assets/js/jquery-1.10.2.js:3293-3299 | once a deferred has left the pending state, no operation changes its state |
| `Deferreds.SettlesAtOnce` | monitorView/src/main/resources/static/webapp/assets/js/jquery-1.10.2.js:3291-3299 | the three functions the deferred adds itself do their work before any user's function is called |
| `Deferreds.StepKeeps` | monitorView/src/main/resources/static/webapp/assets/js/jquery-1.10.2.js:3235-3319 | every operation keeps the deferred in step with its simple account |
| `Deferreds.DeferredObject.SettleWith` | monitorView/src/main/resources/static/webapp/assets/js/jquery-1.10.2.js:3301-3306 | resolve and reject, on the lists as objects |
| `Deferreds.DeferredObject.CallBuiltIns` | monitorView/src/main/resources/static/webapp/assets/js/jquery-1.10.2.js:3291-3299 | the deferred's own functions, run on the lists as objects |
| `Deferreds.DeferredObject.AddCallbacks` | monitorView/src/main/resources/static/webapp/assets/js/jquery-1.10.2.js:3287-3289 | done and fail, on the lists as objects |
| `Joining.WhenSettlesWithItsInputs` | monitorView/src/main/resources/static/webapp/assets/js/jquery-1.10.2.js:3322-3372 | for any inputs but a single promise, and any order of answers: once registration is complete `remaining` is the number of promises not resolved; after the call the master is resolved exactly if all are: place i holds input i if that is no promise, else the argument its promise was resolved with, the list of them if there are several, or undefined if there is none; and it is rejected exactly if some promise was, with the first rejection |
| `Joining.NotesAreAnswers` | monitorView/src/main/resources/static/webapp/assets/js/jquery-1.10.2.js:3334-3363 | what is noted of the answers is what the steps of the run are: who was resolved with what, and the first rejection |
| `Joining.CallGoesThroughInputs` | monitorView/src/main/resources/static/webapp/assets/js/jquery-1.10.2.js:3350-3369 | the loop registers the inputs one by one, and the call is over with the test after it |
| `Joining.StepTracks` | monitorView/src/main/resources/static/webapp/assets/js/jquery-1.10.2.js:3334-3363 | every step of registration, resolution and rejection keeps the counter and the master in step with the answers |
| `Joining.CallIsRun` | monitorView/src/main/resources/static/webapp/assets/js/jquery-1.10.2.js:3350-3369 | the call itself, with promises that are settled already, is one of these runs |
| `Joining.Join.RegisterAll` | monitorView/src/main/resources/static/webapp/assets/js/jquery-1.10.2.js:3350-3369 | the registration loop and the test after it |
| `Joining.Join.Update` | monitorView/src/main/resources/static/webapp/assets/js/jquery-1.10.2.js:3334-3345 | updateFunc: stores the value in place, counts down, and resolves at zero |
| `TimeReel.NodeObject.GetEffectiveTime` | localCache/src/main/java/com/toy/cache/history/TimeReelHistory.java:120-135 | the polling loop, for any number of rounds and from any state, leaves the node and gives the time of the specification; a removed node throws |
| `TimeReel.PollEndsExactlyWhenOverdue` | localCache/src/main/java/com/toy/cache/history/TimeReelHistory.java:120-135 | the polling loop ends, within one round more than the queue is long and with the node pruned, if and only if the base is overdue when it is entered; otherwise it goes round for ever and changes nothing |
| `TimeReel.NodeObject.AddAndGetCount` | localCache/src/main/java/com/toy/cache/history/TimeReelHistory.java:137-145 | adds the visit, prunes if overdue, and returns the queue's size |
| `TimeReel.NodeObject.PutAndIsCache` | localCache/src/main/java/com/toy/cache/history/TimeReelHistory.java:147-155 | the same, compared with hitNum |
| `TimeReel.PruneRemovesExpired` | localCache/src/main/java/com/toy/cache/history/TimeReelHistory.java:120-135 | pruning removes exactly the expired prefix and the first live visit, which becomes the base; without a live visit, everything |
| `TimeReel.VisitRemembers` | localCache/src/main/java/com/toy/cache/history/TimeReelHistory.java:137-145 | the queue is always the suffix of the full visit log after the base, sorted, everything before the base is expired, and the base is not overdue after a visit |
| `TimeReel.CountIsClose` | localCache/src/main/java/com/toy/cache/history/TimeReelHistory.java:137-145 | the count is within one of the truth below and within the visits of age validTime above, and exact if and only if the base is no live visit and nothing queued has age exactly validTime |
| `TimeReel.CountsAreClose` | localCache/src/main/java/com/toy/cache/history/TimeReelHistory.java:80-91 | over every run of visits to any keys and clearings, under a clock that never goes back and for every positive validTime, every count told has these bounds |
| `TimeReel.HitsAreClose` | localCache/src/main/java/com/toy/cache/history/TimeReelHistory.java:66-77 | the hitNum test inherits both bounds |
| `TimeReel.BoundsAreReached` | localCache/src/main/java/com/toy/cache/history/TimeReelHistory.java:120-145 | both bounds are reached: one live visit missed, one stale visit of age exactly validTime counted |
| `TimeReel.TimeReelHistory.PutAndCount` | localCache/src/main/java/com/toy/cache/history/TimeReelHistory.java:80-91 | each key has a node of its own, made on its first visit; a visit changes only that node |
| `Lru.LRULinkedHashMap.Access` | localCache/src/main/java/com/toy/cache/lru/LRULinkedHashMap.java:9-12 | in access order, a key that is found becomes the youngest |
| `Lru.LRULinkedHashMap.Insert` | localCache/src/main/java/com/toy/cache/lru/LRULinkedHashMap.java:9-17 | only a new entry can make the eldest go, and at most one goes |
| `Lru.LRUCache.Find` | localCache/src/main/java/com/toy/cache/LRUCache.java:30-42 | get with its re-entry after an expired node was removed |
| `Lru.LRUCache.NodeOf` | localCache/src/main/java/com/toy/cache/LRUCache.java:50-62 | getNode: the node found, or a new one, or none if the map dropped it at once |
| `Lru.GetKeyTouches` | localCache/src/main/java/com/toy/cache/LRUCache.java:30-42 | a get that succeeds makes its key the youngest, however often its node expires on the way |
| `Expiry.GetGivesUnexpired` | localCache/src/main/java/com/toy/cache/LRUCache.java:30-42 | a get goes on exactly as long as the node it finds or makes is older than the timeout; the first that is not stays in the cache, with its time; without one the call fails; nodes of other keys are not made again |
| `Lru.HoldsMostRecentKeys` | localCache/src/main/java/com/toy/cache/LRUCache.java:30-67 | for a fixed capacity c >= 1, after any run of gets that succeed the cached keys are exactly the c most recently requested distinct keys, in recency order |
| `Lru.ByRecencyIs` | localCache/src/main/java/com/toy/cache/LRUCache.java:30-67 | that reference order has every requested key once |
| `Lru.ByRecencyOrder` | localCache/src/main/java/com/toy/cache/LRUCache.java:30-67 | and orders keys by their last requests |
| `Lru.SizeNeverExceedsLargest` | localCache/src/main/java/com/toy/cache/lru/LRULinkedHashMap.java:15-22 | with capacities set at will, removals, clearings and failing gets, the size never exceeds the largest capacity so far in force |
| `Lru.OverfullStays` | localCache/src/main/java/com/toy/cache/lru/LRULinkedHashMap.java:15-22 | a smaller capacity does not shrink a fuller cache: a put then keeps the size |
| `Lru.NodeIsMissingExactlyWhen` | localCache/src/main/java/com/toy/cache/LRUCache.java:50-62 | a get finds no node, and fails, exactly if nothing is cached and the capacity is not positive |
| `Balancing.BalanceScheduler.GetServerAddress` | snipe/src/main/java/com/toy/snipe/tcp/BalanceScheduler.java:30-36 | moves the rotation on, then looks the address up; a null list or a slot out of range fails |
| `Balancing.BalanceScheduler.SetServerAddress` | snipe/src/main/java/com/toy/snipe/tcp/BalanceScheduler.java:39-42 | replaces list and length, leaving the rotation; a null list is stored before the method fails |
| `Balancing.CallsGoRound` | snipe/src/main/java/com/toy/snipe/tcp/BalanceScheduler.java:30-36 | the rotation stays in 1..n, and call k returns slot k mod n |
| `Balancing.WindowsAreFair` | snipe/src/main/java/com/toy/snipe/tcp/BalanceScheduler.java:30-36 | in any window of m calls, wherever it starts, each slot is used m/n times or once more, and no two differ by more than one |
| `Balancing.ChangeIsSafeExactlyWhen` | snipe/src/main/java/com/toy/snipe/tcp/BalanceScheduler.java:39-42 | changing to a non-empty list is safe if and only if it is at least as long as the rotation is far; otherwise exactly the next call fails |
| `Balancing.NoServersNoAddress` | snipe/src/main/java/com/toy/snipe/tcp/BalanceScheduler.java:18-36 | with a null or empty list every call fails |

## Left out

- LQL: JDBC and the driver manager are an oracle that may answer according to all queries so far;
  `opens` says which connections can be opened. Reflection and the date functions are an
  uninterpreted function of name and arguments.
- LQL: Java assertions are disabled, as they are by default. Exceptions are kept apart by kind; the
  line number in their texts is only the reader's counter, and where a line has several faults the
  kind may be that of another one.
- LQL: WHILE and the rewriting loop run for at most `fuel` rounds, so that a run that never ends is
  a run that ends for no `fuel`; `LoopFacts.BoundIsImmaterial` says that the bound changes nothing
  else.
- LQL: `split` is modelled for the literal separators the code uses, `trim` for characters up to the
  space, `toLowerCase` and `parseInt` for ASCII. A query keeps its body as a list of lines, of which
  `SqlText` gives the text sent. A row is the sequence of its columns in iteration order.
- WholeFile.CompilationPreservesMeaning: connections are not run-time state, so a QUERY's connection is
  the one its name denotes where the QUERY stands, in the source too; a QUERY target counts as a
  declaration of its name.
- RpcSystem.FailedWriteCallsTwiceExactlyWhen: a write that fails after the closing of the channel was
  handled is counted when no sweep is under way.
- Termination.WhileFreeProgramsTerminate: is about values without '@'; with others a program without
  WHILE may rewrite for ever, as `References.SelfReferenceNeverEnds` shows.
- References.RewriteEndsExactlyWhen: is about names none of which is a prefix of another, and values
  over defined names; an undefined name ends the rewriting with a failure.
- Substitution.RewriteSubstitutesExactlyWhen: is about texts in which '@' only heads tokens and
  values without '@'; `References.RewriteIsExpansion` is about values with '@'.
- RPC: netty's bootstrap and threads, byte buffers, serialization and logging. The network keeps
  replies in no order and may never deliver them. Ids are fresh. The event loop runs replies,
  write listeners and sweeps one at a time, while other threads send; user callbacks do not throw
  and do not send from inside a sweep.
- RPC: a write succeeds only while the channel is open, and a request whose write fails never reaches
  the server. That a request whose write failed gets failures only, and that no request is lost, rest
  on these two assumptions about the network library.
- RPC: a deadline of the synchronous wait is a point of the run; time itself is not modelled.
- RPC: one-way messages are only written; `channelActive` does nothing.
- jQuery: `this` and contexts, `has`, `promise`, `then`, `always` and the conversion of options; a
  serial number, which the code does not have, tells two additions of one function apart. What a
  function does while it is called is a sequence of operations of the machine; functions on
  different lists may return in any order, which allows more runs than a call stack does.
- Joining.WhenSettlesWithItsInputs: progress of the inputs is not passed on, and a single promise,
  which is then used as the master itself, is not an input of the model.
- CallbackRuns.PassCallsEachOnce: is about runs in which a list is not emptied, disabled or locked
  while it is being fired.
- TimeReelHistory: the sweeper thread, which calls `getEffectiveTime` without its guard and takes
  every key it visits out of the table. Without it no node is removed while in the table, so the
  retry after a removed node is not reached.
- TimeReelHistory and LRUCache: clock readings are parameters; milliseconds are unbounded integers.
- LRUCache: the value of `get` (always null), `QueryTask` and the source of values; locking. A get
  makes one round for each reading it is given, the readings standing for the depth of the call
  stack.
- BalanceScheduler: parsing of addresses. The rotation is updated atomically, so concurrent calls
  count in the order of their updates.
- Configuration loaders, DataBus, monitor agents, the Spring application, netty servers and the rest
  of jQuery: plumbing, or not part of these components.
