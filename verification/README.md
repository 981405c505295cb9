# Learn Go with tests: the fundamentals, modelled in Dafny

This project models the sequential parts of the "fundamentals" chapters of the
learn-go-with-test repository. Each Go file below becomes one Dafny module:

- **Roman numerals** (`Roman`). A conversion table sorted by decreasing value, and a
  linear-search lookup `ValueOf`. `ConvertToRoman` is a greedy encoder.
  `ConvertToArabic` is a left-to-right decoder that reads two-letter subtractive
  numerals such as `CM` as a single numeral.
- **Dictionary** (`Maps`). A `map[string]string` that is changed in place by `Add`,
  `Update` and `Delete` and read by `Search`. Each of these returns a typed error.
- **Stacks** (`Generics`). `StackGeneric[T]` with `Push`, `IsEmpty` and `Pop`, where
  `Pop` on an empty stack returns the zero value and `false`. The int, string and
  `interface{}` stacks are instances of the same class.
- **Folds** (`Folds`, `ArraySlice`):
  - `Reduce` and `Reduce2` as loops that compute a left fold.
  - `SumGeneric` and `SumAllTailsGeneric`, built on the fold.
  - The ledger: `applyTransactions`, `NewBalanceFor` and `BalanceFor`.
  - The loop-based `Sum` and `SumAll`.
- **Small helpers** (`Iteration`, `HelloWorld`, `Integers`). `Repeat` builds a string
  in a counted loop. `SayHallo` greets by language. `Add` is 64-bit addition.
- **Wallet** (`Wallets`). A balance that is changed in place. A withdrawal of more
  than the balance is refused with `ErrInsufficientFunds`.
- **Countdown** (`Mocking`). The countdown is modelled as the trace of sleeps and
  writes it issues. Observation functions read off the written text, the number of
  sleeps, and the call names a spy records. There are also the spy sleepers and
  `ConfigurableSleeper`.

Go's `nil`-or-error results become `Option` values. A value returned with a
`bool` flag stays a pair. Each imperative operation is a `method` or a class member.
A loop is proved against a specification function. An operation that changes a
dictionary, stack, wallet or spy has a contract that gives its whole new state.
Lemmas then state the properties promised by the source and by its tests.

## Model

| member | source | states |
|---|---|---|
| Roman.ValueIn | fundamentals/test/intro_to_property_based_test.go:22-32 | gives 0 when no table row is spelled `symbol`; otherwise gives the value of the first row spelled so |
| Roman.ValueOf | fundamentals/test/intro_to_property_based_test.go:22-32 | the linear search with early return gives the value of the first row whose symbol matches, and 0 when none does |
| Roman.CouldBeSubstractive | fundamentals/test/intro_to_property_based_test.go:123-127 | true exactly when a next character exists and the current one opens a two-letter row of the table |
| Roman.SubtractiveLeaders | fundamentals/test/intro_to_property_based_test.go:123-127 | the letters that open a two-letter row are exactly I, X and C |
| Roman.DistinctSymbols | fundamentals/test/intro_to_property_based_test.go:34-48 | no two rows of the table are spelled alike |
| Roman.LookupOwnRow | fundamentals/test/intro_to_property_based_test.go:22-48 | looking up a row's own symbol finds that row's value |
| Roman.TableDescending | fundamentals/test/intro_to_property_based_test.go:34-48 | the table's values strictly decrease, from M = 1000 down to I = 1 |
| Roman.ConvertToArabic | fundamentals/test/intro_to_property_based_test.go:100-121 | the loop, including its manual skip of the second letter of a pair, computes the decoding of the whole string |
| Roman.DecodeAt | fundamentals/test/intro_to_property_based_test.go:103-117 | at position i the decoder takes a known two-letter pair as one numeral and skips its second letter; otherwise it adds the value of the single letter and moves on by one |
| Roman.DecodeSkipsUnknown | fundamentals/test/intro_to_property_based_test.go:100-121 | a character that is not a Roman letter adds nothing to the total |
| Roman.ConvertToRoman | fundamentals/test/intro_to_property_based_test.go:87-98 | the nested loops write the greedy sequence of numerals: for each row in descending order, as many copies as still fit |
| Roman.GreedyRows | fundamentals/test/intro_to_property_based_test.go:87-98 | the encoder only emits rows of the table at or after the current row |
| Roman.GreedyDescending | fundamentals/test/intro_to_property_based_test.go:87-98 | the emitted numerals never increase in value |
| Roman.GreedySum | fundamentals/test/intro_to_property_based_test.go:87-98 | the values of the emitted numerals add up to the input, when the input is below the previous row's value |
| Roman.EmittedSumToInput | fundamentals/test/intro_to_property_based_test.go:34-98 | for every non-negative input the loop ends with nothing left: the emitted values sum to the input |
| Roman.NonPositiveIsEmpty | fundamentals/test/intro_to_property_based_test.go:90-95 | zero and every negative number encode as the empty string |
| Roman.NoPairWithNext | fundamentals/test/intro_to_property_based_test.go:34-98 | after a one-letter numeral, the encoder never writes a letter that would pair with it into a table row |
| Roman.PairRowDecodes | fundamentals/test/intro_to_property_based_test.go:100-121 | a two-letter row at the front is decoded as that row's value |
| Roman.SingleRowDecodes | fundamentals/test/intro_to_property_based_test.go:100-121 | a one-letter row at the front is decoded alone when the next letter does not pair with it |
| Roman.DecodePair | fundamentals/test/intro_to_property_based_test.go:105-111 | a two-letter numeral of the table at the front is read as one numeral |
| Roman.DecodeSingle | fundamentals/test/intro_to_property_based_test.go:112-117 | a one-letter numeral at the front is read alone when it does not pair with the next letter |
| Roman.DecodeStep | fundamentals/test/intro_to_property_based_test.go:87-121 | decoding a row's symbol followed by what the encoder writes next adds that row's value |
| Roman.DecodeGreedy | fundamentals/test/intro_to_property_based_test.go:87-121 | decoding the encoder's output from any reachable row gives back the number |
| Roman.RoundTrip | fundamentals/test/intro_to_property_based_test.go:141-151 | ConvertToArabic(ConvertToRoman(n)) == n for every n >= 0, so the decoder reads back whatever the encoder writes |
| Roman.EncodesTestTable | fundamentals/test/intro_to_property_based_test.go:50-139 | each of the 29 numbers of the test table encodes as the numeral the table pairs it with |
| Roman.DecodesTestTable | fundamentals/test/intro_to_property_based_test.go:50-151 | each of the first 20 numerals of the test table, the ones the decoding test reads, decodes to its number |
| Maps.DictionaryErr.Error | fundamentals/test/maps_test.go:10-20 | each error reports its own message, word for word as the source declares it |
| Maps.ErrorMessagesDistinct | fundamentals/test/maps_test.go:10-20 | the three dictionary errors have pairwise distinct messages |
| Maps.Dictionary.Search | fundamentals/test/maps_test.go:22-30 | a present word gives its definition and no error; a missing word gives "" and ErrNotFound; the map is untouched |
| Maps.Dictionary.Add | fundamentals/test/maps_test.go:32-45 | an existing word gives ErrWordExist and leaves the map unchanged; otherwise the word is added; no other key changes |
| Maps.Dictionary.Update | fundamentals/test/maps_test.go:47-60 | an existing word gets the new definition; a missing word gives ErrWordDoesNotExist and leaves the map unchanged; no other key changes |
| Maps.Dictionary.Delete | fundamentals/test/maps_test.go:62-75 | an existing word is removed with no error; a missing word gives ErrNotFound; afterwards the word is absent and nothing else changed |
| Maps.FindScenario | fundamentals/test/maps_test.go:84-121 | "text" is found with definition "hallo", and "hallo" is reported with ErrNotFound |
| Maps.AddScenario | fundamentals/test/maps_test.go:123-162 | the two new words are added with no error, and adding "hallo" again gives ErrWordExist |
| Maps.UpdateScenario | fundamentals/test/maps_test.go:164-198 | updating the missing "world" gives ErrWordDoesNotExist; updating "hallo" gives no error and the new definition is found |
| Maps.DeleteScenario | fundamentals/test/maps_test.go:200-231 | deleting the missing "world" gives ErrNotFound; deleting "hallo" gives no error and the word is gone |
| Generics.StackGeneric.Push | fundamentals/test/generic_test.go:224-226 | the value is appended on top of the stack |
| Generics.StackGeneric.IsEmpty | fundamentals/test/generic_test.go:228-230 | true exactly when the stack holds nothing |
| Generics.StackGeneric.Pop | fundamentals/test/generic_test.go:232-243 | an empty stack gives the zero value and false and stays empty; otherwise it gives the top element and true and drops it; in every case the old stack is the new one plus what was popped |
| Generics.PushThenPop | fundamentals/test/generic_test.go:224-243 | popping right after a push gives back the pushed value and restores the stack (last in, first out) |
| Generics.NewStacksOfInts | fundamentals/test/generic_test.go:50-72 | the int stack is the generic stack with zero value 0 |
| Generics.NewStacksOfStrings | fundamentals/test/generic_test.go:74-96 | the string stack is the generic stack with zero value "" |
| Generics.NewStack | fundamentals/test/generic_test.go:163-189 | the interface{} stack is the generic stack with zero value nil |
| Generics.IntStackScenario | fundamentals/test/generic_test.go:246-273 | the int stack test: empty, then not empty, pops 2 then 1, empty again, and pushing and popping 1 and 2 gives a sum of 3 |
| Generics.StringStackScenario | fundamentals/test/generic_test.go:275-292 | the string stack test pops "b" then "a" |
| Generics.InterfaceStackScenario | fundamentals/test/generic_test.go:197-216 | both values popped from the interface{} stack are ints and they sum to 3 |
| Generics.PopEmptyScenario | fundamentals/test/generic_test.go:232-236 | popping an empty stack of each kind gives that kind's zero value and false |
| ArraySlice.Sum | fundamentals/test/array_slice_test.go:8-16 | the loop returns the arithmetic sum of the slice |
| ArraySlice.SumAll | fundamentals/test/array_slice_test.go:47-56 | one result per input slice, in order, each the sum of that slice |
| ArraySlice.SumExamples | fundamentals/test/array_slice_test.go:18-44 | the slice sums the Sum tests expect |
| ArraySlice.SumAllScenario | fundamentals/test/array_slice_test.go:58-87 | the SumAll test cases give [6, 15] and [4, 15] |
| Folds.FoldLeftSnoc | fundamentals/test/revisiting_array_slice_generic_test.go:8-15 | folding one more element applies the accumulator once more to the result so far |
| Folds.Reduce | fundamentals/test/revisiting_array_slice_generic_test.go:8-15 | the loop computes the left fold of the collection from the initial value |
| Folds.Reduce2 | fundamentals/test/revisiting_array_slice_generic_test.go:115-122 | the same, with an accumulator type that may differ from the element type |
| Folds.ReduceScenario | fundamentals/test/revisiting_array_slice_generic_test.go:99-113 | the product of [1, 2, 3, 4] is 24 and the concatenation of a, b, c is "abc" |
| Folds.FoldPlus | fundamentals/test/revisiting_array_slice_generic_test.go:18-24 | folding addition adds the arithmetic sum to the starting value |
| Folds.SumGeneric | fundamentals/test/revisiting_array_slice_generic_test.go:18-24 | the fold of the `add` closure (Folds.Plus) from 0 equals the arithmetic sum, so it agrees with the loop-based Sum on every input |
| Folds.SumTail | fundamentals/test/revisiting_array_slice_generic_test.go:28-35 | the `sumTail` closure appends the slice's tail sum to what was accumulated: 0 for an empty slice, otherwise the sum of all elements but the first |
| Folds.FoldSumTail | fundamentals/test/revisiting_array_slice_generic_test.go:27-38 | folding sumTail keeps what was accumulated and appends one tail sum per slice |
| Folds.SumAllTailsGeneric | fundamentals/test/revisiting_array_slice_generic_test.go:27-38 | one entry per input slice: 0 for an empty slice, otherwise the sum of all its elements but the first |
| Folds.GenericSumExamples | fundamentals/test/revisiting_array_slice_generic_test.go:40-97 | [1,2,3] sums to 6 and [5,2,3,4] to 14; the tails of ([3,2,3], [3,5,6]) sum to [5, 11] and those of ([1,3], [3,5,6]) to [3, 11] |
| Folds.NewTransaction | fundamentals/test/revisiting_array_slice_generic_test.go:152-154 | the transaction records the payer's name, the payee's name and the amount |
| Folds.ApplyTransactions | fundamentals/test/revisiting_array_slice_generic_test.go:183-193 | keeps the name; debits a payer, credits a payee, and leaves the account as it was when it is both or neither |
| Folds.FoldApply | fundamentals/test/revisiting_array_slice_generic_test.go:161-193 | folding applyTransactions keeps the name and adds the account's net flow |
| Folds.NewBalanceFor | fundamentals/test/revisiting_array_slice_generic_test.go:161-167 | the new balance is the old balance plus what the account received less what it paid, across all transactions |
| Folds.AdjustBalance | fundamentals/test/revisiting_array_slice_generic_test.go:170-178 | the `adjustBalance` closure adds the transaction's net flow into `name`, less the amount again when `name` pays itself, because the payer test comes first |
| Folds.FoldAdjust | fundamentals/test/revisiting_array_slice_generic_test.go:169-181 | folding adjustBalance adds the net flow less the account's transfers to itself |
| Folds.BalanceFor | fundamentals/test/revisiting_array_slice_generic_test.go:169-181 | the balance from zero is the net flow, except that a transfer to oneself counts only as a debit |
| Folds.BalanceForAgrees | fundamentals/test/revisiting_array_slice_generic_test.go:161-181 | without transfers to oneself, BalanceFor equals NewBalanceFor from a zero balance |
| Folds.SelfTransferDiffers | fundamentals/test/revisiting_array_slice_generic_test.go:169-193 | on a transfer to oneself the two ledger functions disagree: 0 against -10 |
| Folds.BadBank | fundamentals/test/revisiting_array_slice_generic_test.go:124-144 | after Chris pays Riya 100 and Adil pays Chris 25, the balances are 200, 0 and 175 |
| Iteration.Repeat | fundamentals/test/iteration_test.go:8-14 | the counted loop builds the string repeated `repeat` times, and "" for a non-positive count |
| Iteration.RepeatedLength | fundamentals/test/iteration_test.go:8-14 | the result is `repeat` times as long as the string, and empty for a non-positive count |
| Iteration.RepeatedLetters | fundamentals/test/iteration_test.go:8-14 | every position of the result holds the string's letter at that position modulo its length |
| Iteration.RepeatScenario | fundamentals/test/iteration_test.go:22-50 | "a" five times is "aaaaa", and "" five times is "" |
| HelloWorld.GettingPrefix | fundamentals/test/hello_world_test.go:11-22 | "Hola, " exactly for Spanish, "Bonjour, " exactly for French, and "Hallo, " exactly for any other language |
| HelloWorld.SayHallo | fundamentals/test/hello_world_test.go:24-32 | the greeting is the language's prefix followed by the name, or by "World" when the name is empty |
| HelloWorld.SayHalloDistinguishes | fundamentals/test/hello_world_test.go:11-32 | equal greetings come from the same prefix and the same name, except that "" and "World" greet alike |
| HelloWorld.PrefixesDifferEarly | fundamentals/test/hello_world_test.go:5-9 | the three prefixes already differ in their first two letters |
| HelloWorld.EmptyNameIsWorld | fundamentals/test/hello_world_test.go:27-29 | an empty name greets the World |
| HelloWorld.HalloExamples | fundamentals/test/hello_world_test.go:34-78 | the five greeting test cases |
| Integers.Wrap | fundamentals/test/integers_test.go:5-7 | gives the int64 congruent to n modulo 2^64, and leaves n unchanged when it is in range |
| Integers.Add | fundamentals/test/integers_test.go:5-7 | the sum in range, and otherwise the sum wrapped by 2^64 as Go's 64-bit int does |
| Integers.AddCommutesWithIdentity | fundamentals/test/integers_test.go:5-7 | addition commutes and 0 is its identity |
| Integers.AdderExamples | fundamentals/test/integers_test.go:9-31 | 1 + 1 is 2, and the largest int64 plus 1 wraps to the smallest |
| Wallets.WalletErr.Error | fundamentals/test/pointers_errors_test.go:8 | the insufficient-funds error reports the source's message, misspelling included |
| Wallets.Wallet.constructor | fundamentals/test/pointers_errors_test.go:12-14 | a new wallet holds nothing |
| Wallets.Wallet.Deposit | fundamentals/test/pointers_errors_test.go:16-18 | the balance grows by the amount |
| Wallets.Wallet.Balance | fundamentals/test/pointers_errors_test.go:20-22 | gives the current balance |
| Wallets.Wallet.Withdraw | fundamentals/test/pointers_errors_test.go:24-31 | more than the balance is refused with ErrInsufficientFunds and the balance is kept; otherwise the amount is taken and no error is returned; a successful withdrawal never leaves the balance negative |
| Wallets.DepositThenWithdraw | fundamentals/test/pointers_errors_test.go:16-31 | on a new wallet, withdrawing after a deposit succeeds exactly when the amount is at most the deposit, and the balance follows |
| Wallets.WalletScenario | fundamentals/test/pointers_errors_test.go:33-69 | depositing 10 leaves 10, and withdrawing the 10 deposited leaves 0, both without error |
| Mocking.Countdown | fundamentals/test/mocking_test.go:27-35 | as written: three sleeps, the text "3\n2\n1\ngo", and every sleep before any write, which is not the order TestCountdownString expects |
| Mocking.CountdownInterleaved | fundamentals/test/mocking_test.go:69-87 | the intended countdown: the same text and three sleeps, with each line written before its sleep, which is the call order the test expects |
| Mocking.SequentialIsNotInterleaved | fundamentals/test/mocking_test.go:27-82 | the as-written order of calls differs from the expected one |
| Mocking.Extend | fundamentals/test/mocking_test.go:60-67 | one more effect adds its text to the output, its call name to the spy's record, and one to the sleep count if it is a sleep |
| Mocking.SpySleeper.Sleep | fundamentals/test/mocking_test.go:23-25 | each sleep adds one to the count |
| Mocking.SpyCountdownOperations.Sleep | fundamentals/test/mocking_test.go:60-62 | records "sleep" after the calls so far |
| Mocking.SpyCountdownOperations.Write | fundamentals/test/mocking_test.go:64-67 | records "write" after the calls so far, and reports 0 bytes and no error |
| Mocking.DeliverToOperations | fundamentals/test/mocking_test.go:69-87 | handing each call of a trace to the operations spy records exactly the trace's call names, in order |
| Mocking.DeliverSleeps | fundamentals/test/mocking_test.go:19-30 | handing a trace to the counting sleeper counts exactly its sleeps |
| Mocking.CountdownScenario | fundamentals/test/mocking_test.go:37-87 | the countdown tests on the intended countdown: the text written and the interleaved calls; the three sleeps are a property of the countdown that no test checks |
| Mocking.SpyTime.Sleep | fundamentals/test/mocking_test.go:102-104 | records the duration asked for |
| Mocking.ConfigurableSleeper.Sleep | fundamentals/test/mocking_test.go:94-96 | hands the sleeper's own duration to its clock |
| Mocking.ConfigurableSleeperScenario | fundamentals/test/mocking_test.go:106-115 | a sleeper configured with five seconds makes the clock record five seconds |

## Left out

- The concurrent code is not part of this model, because it is goroutines, `select`, channels, mutexes and real HTTP. This covers the context-cancelling `Server`/`SpyStore`, the `Racer`, and the mutex `Counter`.
- Reflection (`walk`), the shapes' float32 `Area`, `Greet`, and the command-line web server are not part of this model. They rely on the `reflect` package, on floating point with `math.Pi`, on an `io.Writer`, and on process and network I/O.
- Test helpers (`AssertEqual`, `AssertTrue` and the like) and `BenchmarkRepeat` are left out. They only report, and their checks appear as the scenario members' ensures.
- A nil `Dictionary` is not modelled. In Go, `Add` of a new word panics on a nil map; here every dictionary is built by the constructor from a real map, so that panic has no counterpart.
- `Dictionary.ResetDictionary` is left out. It logs, and it deletes keys that equal some *value* while ranging over the map in an unspecified order.
- Wallets.Wallet.Withdraw: `Bitcoin` is float32 and the ledger uses float64, but both are modelled as `real`. IEEE rounding is therefore not modelled, and the ledger lemmas hold for exact arithmetic.
- Go's fixed-width `int` overflow is modelled only in `Integers.Add`. `Sum`, `SumGeneric`, `Repeat` lengths, Roman values and nanosecond durations use unbounded integers.
- Strings are sequences of characters, whereas Go indexes bytes. The two agree on the ASCII inputs of the tests and on every Roman numeral.
- For the countdown, the real `io.Writer` and `fmt` are left out. Each `Fprintln`/`Fprint` is one write event carrying its text, and `Mocking.Decimal` stands for fmt's formatting of an int. `time.Sleep` and the real delay are left out too.
- `ConfigurableSleeper` holds a function value in Go. Here it holds a reference to the `SpyTime` clock whose `Sleep` it calls.
- The three Go stack types are one generic class, `Generics.StackGeneric`. A `zero` constant stands for Go's zero value, and `interface{}` values are limited to nil, ints and strings (`Generics.Any`). The zero value is a constructor argument, so the class itself does not tie it to the element type as Go does: `new StackGeneric(5)` pops 5 when empty. Only the factories `NewStacksOfInts`, `NewStacksOfStrings` and `NewStack` fix it to 0, "" and nil.

## Findings

| source | as written | input that shows it | evidently intended | confidence | as-written member | corrected member |
|---|---|---|---|---|---|---|
| fundamentals/test/mocking_test.go:27-35 | `Countdown` sleeps three times in a first loop, then writes 3, 2, 1 and "go" in a second loop | the operations spy used as both sleeper and writer (mocking_test.go:69-87) records sleep, sleep, sleep, write, write, write, write | each line is written and then followed by a sleep, then "go" is written: write, sleep, write, sleep, write, sleep, write, the list expected at mocking_test.go:74-82 | high; not executed | Mocking.Countdown | Mocking.CountdownInterleaved |
