/** A last-in-first-out stack over a backing sequence. The int, string and `interface{}`
    stacks are this one class at those element types. */
module Generics {

  class StackGeneric<T> {
    /** The backing slice; its last element is the top of the stack. */
    var values: seq<T>
    /** The zero value of T, which Pop returns when the stack is empty. */
    const zero: T

    constructor (zero: T)
      ensures values == [] && this.zero == zero
    {
      values := [];
      this.zero := zero;
    }

    /** Puts `value` on top, keeping everything below it in order. */
    method Push(value: T)
      modifies this
      ensures values == old(values) + [value]
    {
      values := values + [value];
    }

    /** Whether the backing slice is empty. */
    method IsEmpty() returns (empty: bool)
      ensures empty <==> |values| == 0
    {
      return |values| == 0;
    }

    /** Removes and returns the top element; on an empty stack returns the zero value and
        false and changes nothing. */
    method Pop() returns (el: T, ok: bool)
      modifies this
      ensures old(values) == [] ==> !ok && el == zero && values == old(values)
      ensures old(values) != [] ==> ok && el == old(values)[|old(values)| - 1] &&
                                    values == old(values)[..|old(values)| - 1]
      ensures old(values) == values + (if ok then [el] else [])
    {
      var empty := IsEmpty();
      if empty {
        return zero, false;
      }
      var index := |values| - 1;
      el := values[index];
      values := values[..index];
      return el, true;
    }
  }

  /** Pushing a value and popping it straight back returns that value and restores the stack. */
  method PushThenPop<T>(s: StackGeneric<T>, v: T) returns (el: T, ok: bool)
    modifies s
    ensures el == v && ok && s.values == old(s.values)
  {
    s.Push(v);
    el, ok := s.Pop();
    assert (old(s.values) + [v])[..|old(s.values)|] == old(s.values);
  }

  /** The stack of ints, whose zero value is 0. */
  type StacksOfInts = StackGeneric<int>

  /** The stack of strings, whose zero value is "". */
  type StacksOfStrings = StackGeneric<string>

  /** What an `interface{}` slot holds in the tests: nil, an int or a string. */
  datatype Any = Nil | Int(i: int) | Str(s: string)

  /** The stack of `interface{}` values, whose zero value is nil. */
  type Stack = StackGeneric<Any>

  method NewStacksOfInts() returns (s: StacksOfInts)
    ensures fresh(s) && s.values == [] && s.zero == 0
  {
    s := new StackGeneric(0);
  }

  method NewStacksOfStrings() returns (s: StacksOfStrings)
    ensures fresh(s) && s.values == [] && s.zero == ""
  {
    s := new StackGeneric("");
  }

  method NewStack() returns (s: Stack)
    ensures fresh(s) && s.values == [] && s.zero == Nil
  {
    s := new StackGeneric(Nil);
  }

  /** The integer stack test: empty, push 1, not empty, push 2, pop 2, pop 1, empty again;
      then push 1 and 2 and pop two numbers that add up to 3. */
  method IntStackScenario() returns (emptyAtStart: bool, emptyAfterPush: bool, first: int,
                                     second: int, emptyAtEnd: bool, sum: int)
    ensures emptyAtStart && !emptyAfterPush && emptyAtEnd
    ensures first == 2 && second == 1 && sum == 3
  {
    var s := NewStacksOfInts();
    emptyAtStart := s.IsEmpty();
    s.Push(1);
    emptyAfterPush := s.IsEmpty();
    s.Push(2);
    var firstOk;
    first, firstOk := s.Pop();
    var secondOk;
    second, secondOk := s.Pop();
    emptyAtEnd := s.IsEmpty();
    s.Push(1);
    s.Push(2);
    var a, _ := s.Pop();
    var b, _ := s.Pop();
    sum := a + b;
  }

  /** The string stack test: push "a" then "b", pop "b" then "a". */
  method StringStackScenario() returns (first: string, second: string)
    ensures first == "b" && second == "a"
  {
    var s := NewStacksOfStrings();
    s.Push("a");
    s.Push("b");
    var firstOk;
    first, firstOk := s.Pop();
    var secondOk;
    second, secondOk := s.Pop();
  }

  /** The `interface{}` stack test: push 1 and 2; both popped values hold ints adding up to 3. */
  method InterfaceStackScenario() returns (value1: Any, value2: Any)
    ensures value1.Int? && value2.Int? && value1.i + value2.i == 3
  {
    var s := NewStack();
    s.Push(Int(1));
    s.Push(Int(2));
    var value1Ok;
    value1, value1Ok := s.Pop();
    var value2Ok;
    value2, value2Ok := s.Pop();
  }

  /** Popping an empty stack of each kind gives that kind's zero value and false. */
  method PopEmptyScenario() returns (i: int, iOk: bool, str: string, sOk: bool, a: Any, aOk: bool)
    ensures i == 0 && !iOk && str == "" && !sOk && a == Nil && !aOk
  {
    var ints := NewStacksOfInts();
    i, iOk := ints.Pop();
    var strings := NewStacksOfStrings();
    str, sOk := strings.Pop();
    var any := NewStack();
    a, aOk := any.Pop();
  }
}
