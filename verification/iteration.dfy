/** Repeating a string a given number of times. */
module Iteration {
  /** `character` written `repeat` times in a row; empty when `repeat` is not positive. */
  function Repeated(character: string, repeat: int): string
    decreases repeat
  {
    if repeat <= 0 then "" else Repeated(character, repeat - 1) + character
  }

  /** Appends `character` to an initially empty result once per iteration. */
  method Repeat(character: string, repeat: int) returns (result: string)
    ensures result == Repeated(character, repeat)
  {
    result := "";
    var i := 0;
    while i < repeat
      invariant repeat <= 0 ==> i == 0
      invariant repeat > 0 ==> 0 <= i <= repeat
      invariant result == Repeated(character, i)
    {
      result := result + character;
      i := i + 1;
    }
  }

  /** The result is `repeat` copies long, and nothing for a non-positive count. */
  lemma {:induction false} RepeatedLength(character: string, repeat: int)
    decreases repeat
    ensures |Repeated(character, repeat)| == if repeat <= 0 then 0 else repeat * |character|
  {
    if repeat > 0 {
      RepeatedLength(character, repeat - 1);
    }
  }

  /** Every position holds the letter of `character` at the same offset modulo its length,
      which is what the standard library's strings.Repeat produces. */
  lemma {:induction false} RepeatedLetters(character: string, repeat: int, k: int)
    decreases repeat
    requires 0 <= k < |Repeated(character, repeat)|
    ensures |character| > 0
    ensures Repeated(character, repeat)[k] == character[k % |character|]
  {
    RepeatedLength(character, repeat);
    var before := Repeated(character, repeat - 1);
    RepeatedLength(character, repeat - 1);
    if k < |before| {
      RepeatedLetters(character, repeat - 1, k);
    } else {
      var n := repeat - 1;
      assert |before| == n * |character|;
      var j := k - n * |character|;
      assert 0 <= j < |character|;
      ModOffset(j, n, |character|);
    }
  }

  lemma {:induction false} ModOffset(j: int, n: nat, len: int)
    requires 0 <= j < len
    ensures (n * len + j) % len == j
  {
    if n > 0 {
      var m := (n - 1) * len + j;
      assert n * len == (n - 1) * len + len;
      ModOffset(j, n - 1, len);
      ModShift(m, len);
    }
  }

  lemma ModShift(m: int, len: int)
    requires 0 <= m && 0 < len
    ensures (m + len) % len == m % len
  {
    var a, b := (m + len) / len, m / len;
    var r1, r2 := (m + len) % len, m % len;
    assert len * a + r1 == len * b + r2 + len;
    var x := a - b - 1;
    assert len * x == r2 - r1 by {
      assert len * x == len * a - len * b - len;
    }
    if x >= 1 {
      NonNegativeProduct(len, x - 1);
    } else if x <= -1 {
      NonNegativeProduct(len, -x - 1);
    }
  }

  lemma NonNegativeProduct(a: int, b: int)
    requires 0 <= a && 0 <= b
    ensures 0 <= a * b
  {
  }

  /** The iteration tests: "a" five times, and the empty string five times. */
  method RepeatScenario() returns (letters: string, nothing: string)
    ensures letters == "aaaaa"
    ensures nothing == ""
  {
    letters := Repeat("a", 5);
    nothing := Repeat("", 5);
  }
}
