/** Left folds (Reduce, Reduce2) and what is built from them: a generic sum, the sums of
    all tails, and a ledger of transactions between named accounts. */
module Folds {
  import opened ArraySlice

  /** The left fold f(...f(f(init, x0), x1)..., x(n-1)); `init` for an empty sequence. */
  function FoldLeft<A, B>(f: (B, A) -> B, init: B, xs: seq<A>): B {
    if xs == [] then init else FoldLeft(f, f(init, xs[0]), xs[1..])
  }

  /** Folding one more element at the end applies `f` once more to the result so far. */
  lemma {:induction false} FoldLeftSnoc<A, B>(f: (B, A) -> B, init: B, xs: seq<A>, x: A)
    ensures FoldLeft(f, init, xs + [x]) == f(FoldLeft(f, init, xs), x)
  {
    if xs != [] {
      assert (xs + [x])[1..] == xs[1..] + [x];
      FoldLeftSnoc(f, f(init, xs[0]), xs[1..], x);
    }
  }

  /** Runs the accumulator over the collection from left to right, starting from the
      initial value. */
  method Reduce<A>(collection: seq<A>, accumulator: (A, A) -> A, initialValue: A) returns (result: A)
    ensures result == FoldLeft(accumulator, initialValue, collection)
  {
    result := initialValue;
    for i := 0 to |collection|
      invariant result == FoldLeft(accumulator, initialValue, collection[..i])
    {
      FoldLeftSnoc(accumulator, initialValue, collection[..i], collection[i]);
      assert collection[..i + 1] == collection[..i] + [collection[i]];
      result := accumulator(result, collection[i]);
    }
    assert collection[..|collection|] == collection;
  }

  /** Reduce with an accumulator whose type may differ from the element type. */
  method Reduce2<A, B>(collection: seq<A>, accumulator: (B, A) -> B, initialValue: B) returns (result: B)
    ensures result == FoldLeft(accumulator, initialValue, collection)
  {
    result := initialValue;
    for i := 0 to |collection|
      invariant result == FoldLeft(accumulator, initialValue, collection[..i])
    {
      FoldLeftSnoc(accumulator, initialValue, collection[..i], collection[i]);
      assert collection[..i + 1] == collection[..i] + [collection[i]];
      result := accumulator(result, collection[i]);
    }
    assert collection[..|collection|] == collection;
  }

  /** The Reduce tests: the product of [1, 2, 3, 4] from 1 is 24, and the concatenation of
      "a", "b" and "c" from "" is "abc". */
  method ReduceScenario() returns (product: int, text: string)
    ensures product == 24 && text == "abc"
  {
    var multiply := (x: int, y: int) => x * y;
    product := Reduce([1, 2, 3, 4], multiply, 1);
    var concatenate := (x: string, y: string) => x + y;
    text := Reduce(["a", "b", "c"], concatenate, "");
  }

  /** The closure SumGeneric folds with. */
  function Plus(acc: int, x: int): int {
    acc + x
  }

  /** Folding Plus adds the arithmetic sum to the starting value. */
  lemma {:induction false} FoldPlus(acc: int, xs: seq<int>)
    decreases xs
    ensures FoldLeft(Plus, acc, xs) == acc + Total(xs)
  {
    if xs != [] {
      FoldPlus(acc + xs[0], xs[1..]);
    }
  }

  /** The sum of a slice as a fold; it agrees with the loop-based Sum on every input. */
  function SumGeneric(numbers: seq<int>): (total: int)
    ensures total == Total(numbers)
  {
    FoldPlus(0, numbers);
    FoldLeft(Plus, 0, numbers)
  }

  /** The closure SumAllTailsGeneric folds with: appends 0 for an empty slice, otherwise the
      sum of all elements but the first. */
  function SumTail(acc: seq<int>, x: seq<int>): (r: seq<int>)
    ensures r == acc + [TailTotal(x)]
  {
    if |x| == 0 then acc + [0] else acc + [SumGeneric(x[1..])]
  }

  /** The sum of all elements but the first, and 0 for an empty slice. */
  function TailTotal(x: seq<int>): int {
    if x == [] then 0 else Total(x[1..])
  }

  /** Folding SumTail keeps what was accumulated and appends one tail sum per slice. */
  lemma {:induction false} FoldSumTail(acc: seq<int>, xs: seq<seq<int>>)
    decreases xs
    ensures |FoldLeft(SumTail, acc, xs)| == |acc| + |xs|
    ensures FoldLeft(SumTail, acc, xs)[..|acc|] == acc
    ensures forall i :: 0 <= i < |xs| ==> FoldLeft(SumTail, acc, xs)[|acc| + i] == TailTotal(xs[i])
  {
    if xs != [] {
      var acc' := SumTail(acc, xs[0]);
      assert acc' == acc + [TailTotal(xs[0])];
      FoldSumTail(acc', xs[1..]);
      var r := FoldLeft(SumTail, acc, xs);
      assert r == FoldLeft(SumTail, acc', xs[1..]);
      assert r[..|acc|] == r[..|acc'|][..|acc|];
      forall i | 0 <= i < |xs|
        ensures r[|acc| + i] == TailTotal(xs[i])
      {
        if i == 0 {
          assert r[|acc|] == r[..|acc'|][|acc|];
        } else {
          assert r[|acc| + i] == r[|acc'| + (i - 1)];
          assert xs[i] == xs[1..][i - 1];
        }
      }
    }
  }

  lemma FoldSumTailFromEmpty(xs: seq<seq<int>>)
    ensures |FoldLeft(SumTail, [], xs)| == |xs|
    ensures forall i :: 0 <= i < |xs| ==> FoldLeft(SumTail, [], xs)[i] == TailTotal(xs[i])
  {
    var empty: seq<int> := [];
    var r := FoldLeft(SumTail, empty, xs);
    FoldSumTail(empty, xs);
    forall i | 0 <= i < |xs|
      ensures r[i] == TailTotal(xs[i])
    {
      assert r[|empty| + i] == TailTotal(xs[i]);
    }
  }

  /** One entry per input slice: 0 for an empty slice, otherwise the sum of all its
      elements but the first. */
  function SumAllTailsGeneric(numbers: seq<seq<int>>): (sums: seq<int>)
    ensures |sums| == |numbers|
    ensures forall i :: 0 <= i < |numbers| ==> sums[i] == TailTotal(numbers[i])
  {
    FoldSumTailFromEmpty(numbers);
    FoldLeft(SumTail, [], numbers)
  }

  /** The fold-based sums the tests expect: [1,2,3] sums to 6 and [5,2,3,4] to 14; the tails of ([3,2,3], [3,5,6])
      sum to [5, 11] and those of ([1,3], [3,5,6]) to [3, 11]. */
  lemma GenericSumExamples()
    ensures SumGeneric([1, 2, 3]) == 6
    ensures SumGeneric([5, 2, 3, 4]) == 14
    ensures SumAllTailsGeneric([[3, 2, 3], [3, 5, 6]]) == [5, 11]
    ensures SumAllTailsGeneric([[1, 3], [3, 5, 6]]) == [3, 11]
  {
    assert [3, 2, 3][1..] == [2, 3] && [3, 5, 6][1..] == [5, 6] && [1, 3][1..] == [3];
  }

  /** A transfer of `sum` from the account named `from` to the account named `to`. */
  datatype Transaction = Transaction(from: string, to: string, sum: real)

  /** A named account and its balance. */
  datatype Account = Account(name: string, balance: real)

  /** A transaction between two accounts records their names and the amount. */
  function NewTransaction(from: Account, to: Account, sum: real): (t: Transaction)
    ensures t.from == from.name && t.to == to.name && t.sum == sum
  {
    Transaction(from.name, to.name, sum)
  }

  /** Debits the account when it is the payer and credits it when it is the payee. */
  function ApplyTransactions(a: Account, transaction: Transaction): (r: Account)
    ensures r.name == a.name
    ensures a.name == transaction.from && a.name != transaction.to ==> r.balance == a.balance - transaction.sum
    ensures a.name == transaction.to && a.name != transaction.from ==> r.balance == a.balance + transaction.sum
    ensures (a.name == transaction.from) == (a.name == transaction.to) ==> r == a
  {
    var paid := if a.name == transaction.from then a.(balance := a.balance - transaction.sum) else a;
    if paid.name == transaction.to then paid.(balance := paid.balance + transaction.sum) else paid
  }

  /** What one transaction moves into the account named `name`: what it receives less
      what it pays. */
  function Flow(name: string, t: Transaction): real {
    (if t.to == name then t.sum else 0.0) - (if t.from == name then t.sum else 0.0)
  }

  /** The net flow of all `transactions` into the account named `name`. */
  function NetFlow(transactions: seq<Transaction>, name: string): real {
    if transactions == [] then 0.0 else Flow(name, transactions[0]) + NetFlow(transactions[1..], name)
  }

  /** Folding ApplyTransactions keeps the name and adds the account's net flow. */
  lemma {:induction false} FoldApply(a: Account, transactions: seq<Transaction>)
    decreases transactions
    ensures FoldLeft(ApplyTransactions, a, transactions).name == a.name
    ensures FoldLeft(ApplyTransactions, a, transactions).balance == a.balance + NetFlow(transactions, a.name)
  {
    if transactions != [] {
      FoldApply(ApplyTransactions(a, transactions[0]), transactions[1..]);
    }
  }

  /** The account after every transaction has been applied in order. */
  function NewBalanceFor(account: Account, transactions: seq<Transaction>): (r: Account)
    ensures r.name == account.name
    ensures r.balance == account.balance + NetFlow(transactions, account.name)
  {
    FoldApply(account, transactions);
    FoldLeft(ApplyTransactions, account, transactions)
  }

  /** The closure BalanceFor folds with: a payment by `name` is debited, otherwise a
      receipt by `name` is credited. */
  function AdjustBalance(name: string, currentBalance: real, t: Transaction): (r: real)
    ensures r == currentBalance + Flow(name, t) - (if t.from == name && t.to == name then t.sum else 0.0)
  {
    if t.from == name then currentBalance - t.sum
    else if t.to == name then currentBalance + t.sum
    else currentBalance
  }

  function Adjuster(name: string): (real, Transaction) -> real {
    (currentBalance: real, t: Transaction) => AdjustBalance(name, currentBalance, t)
  }

  /** What `name` sent to itself across all `transactions`. */
  function SelfTransfers(transactions: seq<Transaction>, name: string): real {
    if transactions == [] then 0.0
    else (if transactions[0].from == name && transactions[0].to == name then transactions[0].sum else 0.0)
         + SelfTransfers(transactions[1..], name)
  }

  lemma {:induction false} FoldAdjust(name: string, start: real, transactions: seq<Transaction>)
    decreases transactions
    ensures FoldLeft(Adjuster(name), start, transactions)
         == start + NetFlow(transactions, name) - SelfTransfers(transactions, name)
  {
    if transactions != [] {
      FoldAdjust(name, Adjuster(name)(start, transactions[0]), transactions[1..]);
    }
  }

  /** The balance of `name` from zero over all transactions: the net flow, except that a
      transfer to itself counts only as a payment. */
  function BalanceFor(transactions: seq<Transaction>, name: string): (b: real)
    ensures b == NetFlow(transactions, name) - SelfTransfers(transactions, name)
  {
    FoldAdjust(name, 0.0, transactions);
    FoldLeft(Adjuster(name), 0.0, transactions)
  }

  /** Without transfers to itself, BalanceFor agrees with NewBalanceFor from a zero balance. */
  lemma BalanceForAgrees(transactions: seq<Transaction>, name: string)
    requires forall t :: t in transactions ==> !(t.from == name && t.to == name)
    ensures BalanceFor(transactions, name) == NewBalanceFor(Account(name, 0.0), transactions).balance
  {
    NoSelfTransfers(transactions, name);
  }

  lemma {:induction false} NoSelfTransfers(transactions: seq<Transaction>, name: string)
    requires forall t :: t in transactions ==> !(t.from == name && t.to == name)
    ensures SelfTransfers(transactions, name) == 0.0
  {
    if transactions != [] {
      assert transactions[0] in transactions;
      NoSelfTransfers(transactions[1..], name);
    }
  }

  /** A transfer to oneself: NewBalanceFor nets it to nothing, BalanceFor debits it. */
  lemma SelfTransferDiffers()
    ensures NewBalanceFor(Account("Riya", 0.0), [Transaction("Riya", "Riya", 10.0)]).balance == 0.0
    ensures BalanceFor([Transaction("Riya", "Riya", 10.0)], "Riya") == -10.0
  {
  }

  /** The ledger test: Chris pays Riya 100 and Adil pays Chris 25. */
  lemma BadBank()
    ensures var transactions := [NewTransaction(Account("Chris", 75.0), Account("Riya", 100.0), 100.0),
                                 NewTransaction(Account("Adil", 200.0), Account("Chris", 75.0), 25.0)];
      && NewBalanceFor(Account("Riya", 100.0), transactions).balance == 200.0
      && NewBalanceFor(Account("Chris", 75.0), transactions).balance == 0.0
      && NewBalanceFor(Account("Adil", 200.0), transactions).balance == 175.0
  {
    var transactions := [Transaction("Chris", "Riya", 100.0), Transaction("Adil", "Chris", 25.0)];
    assert transactions[1..] == [Transaction("Adil", "Chris", 25.0)];
  }
}
