# A verified model of a small Scheme interpreter

The modelled program is a Scheme interpreter written in C. It has four stages.

- **tokenizer.c** reads characters and produces a list of tokens. The tokens are parentheses, integers, doubles, booleans, strings and symbols.
- **parser.c** turns the token list into a parse tree. It uses a stack of pending open parentheses and a depth counter.
- **linkedlist.c** provides the cons-list algebra that every other stage is built on.
- **interpreter.c** evaluates each top-level expression in a global frame. The global frame holds twelve primitives. The evaluator has special forms (`quote`, `define`, `lambda`, `let`, `let*`, `letrec`, `set!`, `begin`, `and`, `or`, `cond`, `if`) and an `apply` for closures and primitives.

The Dafny modules follow these files:

| module | file | models |
|---|---|---|
| `Values` | values.dfy | the tagged `Value` shared by all stages, and the error kinds (`texit(1)` becomes `Err`) |
| `LinkedList` | linkedlist.dfy | linkedlist.c over immutable values; `ToSeq` gives a list's contents |
| `Tokenizer` | tokenizer.dfy | tokenizer.c over a `seq<char>`; `Lex` is the reference lexer, and `Tokenize` is the source's character loop proved equal to it |
| `Parser` | parser.dfy | parser.c; `Push` is one stack step, and `AddToParseTree`/`Parse` are the source's loops proved equal to it |
| `Primitives` | primitives.dfy | the integer paths of the twelve primitives |
| `Environment` | environment.dfy | frames and bindings as an arena: lookup, and the updates the evaluator makes |
| `Semantics` | semantics.dfy | the evaluator as reference functions: store before, and result plus store after |
| `Evaluator` | interpreter.dfy | the evaluator as it runs: class `Interpreter` owns every frame and value cell, and its methods update them in place. Each method is proved to give exactly the outcome of its reference function |
| `Properties` | properties.dfy | what the evaluator promises, as lemmas over the reference functions |

The environment is an arena of frames and value cells. A frame has a bindings list, newest first, and an optional parent frame. A binding pairs a symbol name with the index of a value cell. Cells have identity, because `set!` overwrites the value of the binding it finds in place (interpreter.c:877). Every later lookup through that frame sees the new value, including lookups from closures that captured the frame. `letrec` does not overwrite cells: it replaces its frame's bindings with fresh ones (interpreter.c:851). Frames and cells are never freed, and a frame's parent never changes (`Environment.Grows`).

Evaluation need not terminate. Every nested `eval` therefore uses one unit of fuel, and running out gives `Err(OutOfFuel)`.

The model follows the code, not textbook Scheme:
- `and` returns the boolean `#t`/`#f`, never the last value.
- `if`, `or` and `cond` treat only the boolean `#t` as true. `if` compares the test's text with `#t`, but no other value can have that text: a string token keeps its quotes, and `#` cannot appear in a symbol.
- A closure as the expression to evaluate falls through into the "unspecified" error.
- Body loops stop early when the next body item is the empty list.

Some of the C behaviour is undefined. Those spots yield `Err(Undefined)` instead of invented semantics:
- `strcmp` on the text field of a value that has none (an operator, an `if` test, a `set!` target, a `lambda` parameter);
- integer division or modulo by zero;
- the uninitialised result of `eval`'s default branch.

Other spots become explicit errors:
- `car`/`cdr` of a non-pair inside the evaluator gives `Err(AssertionFailure)`.
- A comment or string that runs to the end of the input gives `Err(Unterminated)`. The C loop never ends there.
- A token longer than the 300-character buffers gives `Err(BufferOverrun)`.

## Model

| member | source | states |
|---|---|---|
| LinkedList.MakeNull | linkedlist.c:9-13 | the empty list is a proper list with no elements |
| LinkedList.ConsCell | linkedlist.c:16-22 | the new pair's car and cdr are exactly the two arguments; consing onto a list adds one element in front |
| LinkedList.Car | linkedlist.c:65-69 | defined only on pairs (the source's assertion is the precondition); on a list it is the first element |
| LinkedList.Cdr | linkedlist.c:73-77 | defined only on pairs; on a list it is the list without its first element |
| LinkedList.IsNull | linkedlist.c:81-84 | true exactly for the list with no elements |
| LinkedList.Reverse | linkedlist.c:53-60 | the result is a new list holding the input's elements in reverse order; the input is an immutable value and is unchanged |
| LinkedList.RevLength | linkedlist.c:53-60 | reversal keeps the length |
| LinkedList.RevRev | linkedlist.c:53-60 | reversing twice gives the original elements in the original order |
| LinkedList.FromToSeq | linkedlist.c:16-22 | a proper list is determined by its contents |
| LinkedList.Length | linkedlist.c:88-101 | 0 for any non-pair, including the empty list; otherwise the number of elements |
| Tokenizer.CharClassesNested | tokenizer.c:9-38 | every initial character is subsequent, and every subsequent character is valid |
| Tokenizer.NumberToken | tokenizer.c:84-99 | a run of number characters is a symbol exactly when it is `+` or `-`, a double exactly when it contains `.`, and an integer otherwise |
| Tokenizer.ScanAt | tokenizer.c:47-173 | one lexer step ends exactly at the end of the input; otherwise it moves strictly forward or fails |
| Tokenizer.ReadNumber | tokenizer.c:69-103 | the buffer loop yields the token of the maximal run of number characters, and the next read starts at the character that ended the run |
| Tokenizer.ReadString | tokenizer.c:107-127 | the string loop yields the text with both quotes, and the next read starts after the closing quote |
| Tokenizer.ReadSymbol | tokenizer.c:147-164 | the symbol loop yields the maximal run of subsequent characters |
| Tokenizer.SkipComment | tokenizer.c:50-54 | reading resumes just after the end of the line |
| Tokenizer.Tokenize | tokenizer.c:42-178 | the character loop with a prepended accumulator, reversed at the end, gives exactly the reference lexer's tokens in input order, or its first error |
| Tokenizer.LexShift | tokenizer.c:42-178 | lexing from a position does not depend on the text in front of it |
| Tokenizer.LexConcat | tokenizer.c:176-177 | tokens come out in input order: the tokens of two texts, the first ending in a blank, are the first text's tokens followed by the second's |
| Tokenizer.LexParen | tokenizer.c:55-65 | `(` and `)` are single OPEN and CLOSE tokens |
| Tokenizer.LexBlank | tokenizer.c:167-173 | a space or newline produces no token |
| Tokenizer.LexComment | tokenizer.c:50-54 | `;` discards everything up to and including the end of the line; a comment that reaches the end of the input never ends |
| Tokenizer.LexNumber | tokenizer.c:69-103 | a maximal run of number characters is one token, classified by `NumberToken`; a run longer than the buffer overruns it |
| Tokenizer.LexSymbol | tokenizer.c:147-164 | an initial character followed by the maximal run of subsequent characters is one symbol token |
| Tokenizer.LexString | tokenizer.c:107-127 | a string token keeps both double quotes; a string that reaches the end of the input never ends |
| Tokenizer.LexBoolean | tokenizer.c:131-142 | `#t` and `#f` are booleans; `#` followed by anything else, or by nothing, is a syntax error |
| Tokenizer.LexInvalid | tokenizer.c:166-170 | a character that starts no token and is not valid is a syntax error |
| Parser.FindOpen | parser.c:19-22 | the position of the topmost open marker, with no marker above it |
| Parser.AddToParseTree | parser.c:11-39 | the cons-list loop gives exactly the stack step `Push`, on the tree's contents, with the new depth |
| Parser.PushNonClose | parser.c:12-15 | an open token or any non-parenthesis token goes on top of the stack unchanged; only the open token raises the depth by one |
| Parser.CloseWraps | parser.c:17-33 | a close token replaces the items above the topmost open marker, and the marker, by one sublist of those items in input order; the depth goes down by one |
| Parser.CloseUnmatched | parser.c:24-27 | a close token with no pending open is a syntax error |
| Parser.Parse | parser.c:44-66 | the token loop gives exactly the reference `ParseTokens` result as a list |
| Parser.ParseDepth | parser.c:61-65 | the depth is always the number of unclosed open markers, so parsing fails exactly when one is left unclosed or a close is unmatched |
| Parser.ParseNoParens | parser.c:35-37 | tokens without parentheses parse to the same tokens in the same order |
| Parser.ParseTokensOf | parser.c:44-66 | parsing the tokens that spell a program (a list of data) gives back its top-level items in order |
| Primitives.CRem | interpreter.c:426-431 | C's `%`: the dividend is divisor times truncated quotient plus remainder, the remainder is smaller than the divisor, and it has the dividend's sign |
| Primitives.TwoArgs | interpreter.c:156-164 | the shared argument check accepts exactly two arguments whose first is not the empty list |
| Primitives.PrimNull | interpreter.c:83-103 | `null?` takes one argument and answers whether it is the empty list |
| Primitives.PrimCons | interpreter.c:106-120 | `cons` takes two arguments, rejects an empty-list first one, and returns the pair of them |
| Primitives.PrimCar | interpreter.c:135-151 | `car` takes one pair argument and returns its first element; a non-pair, non-empty argument is a type error |
| Primitives.PrimCdr | interpreter.c:123-132 | `cdr` of a pair argument is its rest |
| Primitives.NumericPair | interpreter.c:166-188 | integer paths are taken only for two integers; any other pair of numbers is the floating-point path, anything else a type error |
| Primitives.PrimMinus | interpreter.c:154-190 | the difference of two integers |
| Primitives.PrimCompare | interpreter.c:193-328 | `<`, `>` and `=` on two integers give the boolean of the comparison |
| Primitives.PrimDivide | interpreter.c:364-405 | two integers with a non-zero divisor give their exact quotient: an integer exactly when the C remainder is zero, otherwise a double |
| Primitives.PrimModulo | interpreter.c:408-435 | `modulo` takes two integers, with a non-zero divisor, and gives C's remainder; any non-integer argument is a type error |
| Primitives.FoldFromList | interpreter.c:50-80 | the accumulation loop over a list is the sum (or product) of its elements, a type error for a non-number, and the floating-point path when a double appears |
| Primitives.AddMultiply | interpreter.c:50-80 | `+` is the sum of an all-integer argument list, and `*` (the same loop at interpreter.c:331-361) is its product |
| Primitives.Fold | interpreter.c:50-80 | the accumulator loop gives exactly the reference fold |
| Primitives.Call | interpreter.c:574-583 | running a primitive gives exactly the reference `CallPrimitive` |
| Environment.NewFrame | interpreter.c:647-651 | a new empty frame with the given parent; nothing else changes |
| Environment.AddBinding | interpreter.c:438-454 | one binding to a fresh cell is prepended to one frame; every other frame is unchanged |
| Environment.SetCell | interpreter.c:876-877 | one cell is overwritten; every other cell and every frame is unchanged |
| Environment.SetBindings | interpreter.c:851 | one frame's bindings are replaced; every other frame and every cell is unchanged |
| Environment.FindFrom | interpreter.c:632-638 | the first binding with the name at or after a position, or none |
| Environment.Lookup | interpreter.c:629-644 | a symbol's value is found exactly when some frame of the chain binds it; otherwise it is the unbound-symbol error |
| Environment.ResolveFirstVisible | interpreter.c:629-644 | resolution picks the first binding of the name among all visible bindings, scanned newest first and then outward |
| Environment.LookupVisible | interpreter.c:629-644 | lookup fails exactly when no visible binding has the name; otherwise it yields the value of the first one that has it |
| Semantics.Quote | interpreter.c:460-473 | `quote` needs exactly one argument and returns it unevaluated |
| Semantics.CountUpTo | interpreter.c:480-491 | the counting loop succeeds exactly for a proper list within the limit, and reports its length |
| Semantics.DistinctFrom | interpreter.c:536-547 | the inner parameter loop succeeds only when no later parameter has the same text |
| Semantics.Params | interpreter.c:527-552 | the parameter loops accept only a proper list of pairwise distinct symbols, and return their names in order |
| Semantics.Lambda | interpreter.c:514-559 | a closure keeps the parameter names, the unevaluated body and the current frame |
| Semantics.EvalEach | interpreter.c:562-571 | the operands' values form a list with one value per operand, in source order |
| Semantics.BindArgs | interpreter.c:588-600 | binding parameters changes only bindings and cells: no frame is added or re-parented |
| Semantics.HasItems | interpreter.c:612-618 | the argument check of `if` succeeds only when the required elements exist |
| Semantics.EvalBody | interpreter.c:701-712 | an empty body is rejected without changing the store |
| Semantics.BindingPair | interpreter.c:658-679 | a binding-list element is accepted only as a pair of a symbol and a non-empty initializer |
| Semantics.EvalBegin | interpreter.c:895-911 | `begin` with no expressions is Void and changes nothing |
| Semantics.EvalAnd | interpreter.c:914-930 | `and` yields a boolean, never an operand's value |
| Semantics.EvalOr | interpreter.c:933-949 | `or` yields a boolean |
| Semantics.Eval | interpreter.c:1018-1114 | evaluation keeps the store well formed, never frees or re-parents a frame, and returns a value that mentions existing frames only |
| Semantics.Installed | interpreter.c:987-1002 | after the k-th `bind`, the global frame holds the first k primitives, newest first, each in its own cell |
| Semantics.RunFrom | interpreter.c:1005-1012 | a program that runs without error produces one value per top-level expression, after what was produced before |
| Semantics.Interpret | interpreter.c:984-1013 | a program that runs without error produces one value per top-level expression |
| Evaluator.Interpreter.constructor | interpreter.c:987-1002 | the interpreter starts with only the global frame, whose twelve bindings are made in the source's order |
| Evaluator.Interpreter.PushFrame | interpreter.c:778-780 | allocates one new empty frame with the given parent, as the last frame |
| Evaluator.Interpreter.Prepend | interpreter.c:692-695 | prepends one binding to one frame, to a fresh cell |
| Evaluator.Interpreter.Bind | interpreter.c:438-454 | `bind` prepends one primitive binding to the global frame |
| Evaluator.Interpreter.LookUpSymbol | interpreter.c:629-644 | the frame-by-frame scan gives exactly `Lookup` |
| Evaluator.Interpreter.Eval | interpreter.c:1018-1114 | `eval` updates the frames and cells exactly as the reference `Eval` does, and returns its result |
| Evaluator.Interpreter.EvalPair | interpreter.c:1050-1104 | the pair case dispatches on the operator's text in the source's order, exactly as `EvalForm` |
| Evaluator.Interpreter.CountArgs | interpreter.c:480-491 | the counting loop gives exactly `CountUpTo` |
| Evaluator.Interpreter.EvalDefine | interpreter.c:476-511 | `define` on the running interpreter gives exactly the reference outcome (see Properties.DefineSpec) |
| Evaluator.Interpreter.EvalLambda | interpreter.c:514-559 | the two nested parameter loops give exactly `Lambda` (see Properties.LambdaSpec) |
| Evaluator.Interpreter.EvalEach | interpreter.c:562-571 | the accumulate-then-reverse loop gives exactly the in-order reference `EvalEach` |
| Evaluator.Interpreter.Apply | interpreter.c:574-607 | `apply` gives exactly the reference outcome (see Properties.ApplySpec) |
| Evaluator.Interpreter.EvalIf | interpreter.c:610-626 | `if` gives exactly the reference outcome (see Properties.IfSpec) |
| Evaluator.Interpreter.EvalSequence | interpreter.c:701-712 | the body loop, which stops before an empty-list item, gives exactly `BodyLoop` |
| Evaluator.Interpreter.BoundHere | interpreter.c:681-689 | the duplicate check answers whether the frame itself already binds the name |
| Evaluator.Interpreter.EvalLet | interpreter.c:647-714 | `let` gives exactly the reference outcome (see Properties.LetStep, Properties.LetRejectsRepeat) |
| Evaluator.Interpreter.EvalLetStar | interpreter.c:717-773 | `let*` gives exactly the reference outcome (see Properties.LetStarStep) |
| Evaluator.Interpreter.Allocate | interpreter.c:844 | allocates one fresh cell holding the value |
| Evaluator.Interpreter.Assign | interpreter.c:877 | overwrites one cell in place |
| Evaluator.Interpreter.ReplaceBindings | interpreter.c:851 | replaces one frame's bindings at once |
| Evaluator.Interpreter.EvalLetrec | interpreter.c:776-866 | `letrec` gives exactly the reference outcome (see Properties.LetrecSingle) |
| Evaluator.Interpreter.LetrecPlaceholders | interpreter.c:783-830 | the placeholder loop, then the remaining phases, give exactly `LetrecInit` |
| Evaluator.Interpreter.LetrecValues | interpreter.c:834-865 | the evaluation loop, the replacement of the bindings and the body give exactly `LetrecEval` from the snapshot of the frame's bindings |
| Evaluator.Interpreter.LetrecStep | interpreter.c:836-848 | one pass of the evaluation loop either stops with an error and the reference outcome, or evaluates the placeholder's initializer, allocates one fresh cell holding its value, and puts a binding of the name to that cell in front of the finished ones |
| Evaluator.Interpreter.SetBang | interpreter.c:869-892 | `set!` gives exactly the reference outcome (see Properties.SetBangSpec) |
| Evaluator.Interpreter.SetFound | interpreter.c:875-882 | the found branch, reached at the first visible binding of the name, gives exactly the reference outcome |
| Evaluator.Interpreter.EvalBegin | interpreter.c:895-911 | `begin` gives exactly the reference outcome |
| Evaluator.Interpreter.EvalAnd | interpreter.c:914-930 | `and` gives exactly the reference outcome (see Properties.AndLiterals) |
| Evaluator.Interpreter.EvalOr | interpreter.c:933-949 | `or` gives exactly the reference outcome (see Properties.OrLiterals) |
| Evaluator.Interpreter.EvalCond | interpreter.c:952-972 | `cond` gives exactly the reference outcome (see Properties.CondSpec) |
| Evaluator.Interpret | interpreter.c:984-1013 | the global set-up followed by the top-level loop gives exactly the reference transcript |
| Evaluator.ScanResolves | interpreter.c:872-887 | the scan of `set!` stops at the binding `Resolve` finds, or finds none exactly when `Resolve` does |
| Evaluator.SetBangEarly | interpreter.c:869-892 | `set!` with a missing target, a target without text, or a name no frame binds stops with an error and changes nothing |
| Properties.EvalBasics | interpreter.c:1021-1047 | literals evaluate to themselves and a symbol to its binding, without touching the store; a closure as the expression is the placeholder error; `quote` returns its argument |
| Properties.EvalLiteral | interpreter.c:1021-1036 | integer, double, boolean and string literals evaluate to themselves |
| Properties.EachLiterals | interpreter.c:562-571 | operands are evaluated left to right: literal operands come out as a list in source order after those already evaluated |
| Properties.EvalEachLiterals | interpreter.c:562-571 | a list of literal operands evaluates to itself |
| Properties.CountUpToList | interpreter.c:480-491 | on a proper list, the counting loop can only fail with an arity error |
| Properties.DefineSpec | interpreter.c:476-511 | `define` needs exactly two arguments, the first a symbol; it evaluates the value in the current frame, prepends exactly one binding to that frame only, and returns Void |
| Properties.SetBangSpec | interpreter.c:869-892 | `set!` overwrites the nearest binding's cell in place and returns Void; frames and all other cells stay as evaluation left them; an unbound symbol is an error |
| Properties.DistinctFromAccepts | interpreter.c:536-547 | the inner parameter loop accepts every list of symbols different from the name |
| Properties.ParamsComplete | interpreter.c:527-552 | every proper list of pairwise distinct symbols passes the parameter check |
| Properties.ParamsAccepts | interpreter.c:527-552 | the parameter check accepts exactly the proper lists of pairwise distinct symbols |
| Properties.LambdaSpec | interpreter.c:514-559 | `lambda` succeeds exactly for two arguments whose first is a list of distinct symbols; the closure keeps their names in order, the body, and the current frame |
| Properties.Pairing | interpreter.c:588-600 | the i-th parameter is bound to the i-th fresh cell, newest first |
| Properties.BindArgsCount | interpreter.c:588-605 | binding succeeds exactly when the parameter and argument counts agree; otherwise it is an arity error |
| Properties.BindArgsCells | interpreter.c:588-600 | binding allocates one cell per argument, holding the arguments in order |
| Properties.BindArgsOthers | interpreter.c:588-600 | binding changes no frame other than the new one |
| Properties.BindArgsOwn | interpreter.c:588-600 | the new frame receives the positional bindings in front of what it had |
| Properties.BindArgsPositional | interpreter.c:588-600 | with matching counts, each parameter is bound by position, in the new frame only, to a fresh cell holding its argument |
| Properties.ApplySpec | interpreter.c:574-607 | a closure gets one new frame whose parent is its captured frame, with its parameters bound by position, and its body runs there; a count mismatch is an arity error; a primitive runs on the arguments; anything else is not callable |
| Properties.LetLoopEmptyBody | interpreter.c:701-705 | the `let` binding loop never succeeds into an empty body |
| Properties.LetStarLoopEmptyBody | interpreter.c:761-765 | the `let*` binding loop never succeeds into an empty body |
| Properties.LetrecEvalEmptyBody | interpreter.c:854-858 | the `letrec` evaluation phase never succeeds into an empty body |
| Properties.LetrecInitEmptyBody | interpreter.c:854-858 | the `letrec` placeholder phase never succeeds into an empty body |
| Properties.EmptyBodyRejected | interpreter.c:701-705 | `let` without a body is an error, and so are `let*` and `letrec` (the same check at interpreter.c:761-765 and 854-858); `begin` without expressions is Void (interpreter.c:897-902) |
| Properties.ResolveLocal | interpreter.c:629-644 | resolution from a frame depends only on that frame and its ancestors |
| Properties.LetHidesNewBindings | interpreter.c:692 | a binding added to a newer frame is invisible from an older frame |
| Properties.NewestFirst | interpreter.c:695 | the binding just prepended is the first one found in its frame |
| Properties.LetLoopStep | interpreter.c:657-698 | one `let` binding: the initializer is evaluated in the outer frame and its value is bound in the new frame |
| Properties.LetStep | interpreter.c:657-698 | one `let` binding is evaluated in the outer frame, bound in the new frame, and stays invisible to the next initializer |
| Properties.LetStarLoopStep | interpreter.c:721-759 | one `let*` binding: a fresh frame is chained to the previous one and receives the binding |
| Properties.LetStarStep | interpreter.c:721-759 | `let*` chains one frame per binding; each initializer is evaluated in the previous frame, and the rest see the new binding |
| Properties.LetrecPrebound | interpreter.c:778-830 | after phase one, a one-binding `letrec` frame holds the symbol bound to a fresh placeholder |
| Properties.LetrecOneBinding | interpreter.c:776-830 | one-binding `letrec` is phase one followed by the evaluation phase from that snapshot |
| Properties.LetrecPlaceholderValue | interpreter.c:838-842 | an initializer that yields a placeholder is an error |
| Properties.LetrecSelfReference | interpreter.c:776-842 | an initializer that is the symbol itself sees the placeholder, which is an error |
| Properties.LetrecEvalStep | interpreter.c:836-848 | each initializer is evaluated in the new frame, and its value goes into a fresh binding in front of the finished ones |
| Properties.LetrecEvalDone | interpreter.c:850-865 | once all initializers are done, the frame's bindings are replaced at once and the body runs |
| Properties.LetrecSingle | interpreter.c:776-866 | one-binding `letrec` runs its body in a frame whose only binding holds the initializer's value |
| Properties.SoleBinding | interpreter.c:851 | after the replacement the frame binds exactly that symbol to that cell, and every other symbol is looked up in the parent |
| Properties.BodyStopsAtEmpty | interpreter.c:707-712 | a body loop stops before an empty-list item: what follows is never evaluated |
| Properties.LetRejectsRepeat | interpreter.c:681-689 | `let` rejects a symbol bound twice in one binding list |
| Properties.LetLoopDuplicate | interpreter.c:681-689 | a symbol already bound in the new frame is a duplicate-binding error, and the store is unchanged |
| Properties.HasItemsCount | interpreter.c:612-618 | on a proper list, the `if` argument check succeeds exactly with enough elements, and otherwise fails with an arity error |
| Properties.IfSpec | interpreter.c:610-626 | `if` with fewer than three arguments is an arity error; the consequent is taken only when the test's text is `#t`; a test without text is undefined |
| Properties.AndLiterals | interpreter.c:914-930 | over literal arguments, `and` is false exactly when one is the boolean false, and true otherwise |
| Properties.OrLiterals | interpreter.c:933-949 | over literal arguments, `or` is true exactly when one is the boolean true, and false otherwise |
| Properties.ShortCircuit | interpreter.c:914-949 | `and` stops at the first false and `or` at the first true; the remaining arguments are not evaluated |
| Properties.CondSpec | interpreter.c:952-972 | an `else` clause selects its expression; otherwise the test is evaluated, an error in it stops `cond`, the boolean true selects the clause's expression (evaluated in the store the test left), and any other value passes on to the next clause; no clauses give Void |
| Properties.CondLiteralTests | interpreter.c:958-966 | with a literal test, only the boolean true selects the clause; any other literal, however truthy, passes on to the next clause without touching the store |
| Properties.GlobalBindings | interpreter.c:991-1002 | every primitive's name resolves, in the global frame, to that primitive |

## Left out

- Printing: `printValue`, `printTree`, `display` and `displayTokens` are not modelled. `interpret`'s loop collects the values it would print in a `Transcript`.
- Reading standard input (`fgetc`/`ungetc`): the lexer reads a `seq<char>`, where one model character stands for one input byte. The pushed-back character is an index that is not advanced. Two byte-level effects are not captured. First, the source stores each byte in a `char` and stops at `EOF` (tokenizer.c:45-47), so with a signed `char` a 0xFF byte ends the input; the model treats that character as invalid and gives a syntax error. Second, the 300-byte buffer limit is counted in model characters, so text in a multi-byte encoding overruns the source's buffers sooner than the model's.
- `talloc` and `texit`: allocation is arena growth or a fresh immutable value; a process exit is an `Err` that stops evaluation.
- Floating-point arithmetic: every double path of the primitives yields `Err(FloatingPoint)`. This covers the double branches of `-`, `/`, `<`, `>` and `=`, the float accumulators of `+` and `*`, and the comparisons that involve a double. Integer `/` that is not exact gives `Double` with the exact rational quotient, not a rounded double. `strtod` is modelled as an exact decimal.
- Primitives.AddMultiply: the result is the exact integer sum or product. The source accumulates in a single-precision `float` and casts the total back to `int`, so a sum or product beyond 2^24 may come out rounded there. Primitives.FoldFromList and Primitives.Fold share this simplification.
- Primitives.PrimCompare: two integers are compared exactly. The source first casts both to single-precision `float` (interpreter.c:222-224, 268-270, 314-316), so there integers beyond 2^24 can compare equal, as in `(= 16777216 16777217)`.
- Primitives.PrimDivide: an inexact integer quotient is the exact rational. The source computes it in single precision.
- Integer width: `int` in the model is unbounded. The 32-bit or 64-bit overflow of `+`, `-`, `*` and of `strtol` is not modelled.
- Cell identity of cons values: a list or pair is an immutable value, so aliasing of C cons cells outside the frame bindings is not captured. This matters only for `set!` on bindings, which the arena does model.
- Evaluator.Interpreter.Eval: the contract holds up to the fuel bound. With too little fuel the result is `Err(OutOfFuel)` where the C program would go on recursing.
- Closures keep their parameter names, not the parameter list value. `lambda` has already checked that the list is a proper list of distinct symbols.
- The driver that chains the tokenizer, the parser and `interpret` is not part of this model.
