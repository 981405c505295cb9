/** Roman numerals: a greedy encoder over a descending value/symbol table and a
    left-to-right decoder that reads subtractive pairs. */
module Roman {

  /** One row of the conversion table: a value and the numeral that spells it. */
  datatype RomanNumeral = RomanNumeral(value: int, symbol: string)

  /** The conversion table, in strictly descending order of value. */
  const AllRomanNumerals: seq<RomanNumeral> := [
    RomanNumeral(1000, "M"),
    RomanNumeral(900, "CM"),
    RomanNumeral(500, "D"),
    RomanNumeral(400, "CD"),
    RomanNumeral(100, "C"),
    RomanNumeral(90, "XC"),
    RomanNumeral(50, "L"),
    RomanNumeral(40, "XL"),
    RomanNumeral(10, "X"),
    RomanNumeral(9, "IX"),
    RomanNumeral(5, "V"),
    RomanNumeral(4, "IV"),
    RomanNumeral(1, "I")
  ]

  /** The value of the first row of `table` spelled `symbol`, and 0 when no row is. */
  function ValueIn(table: seq<RomanNumeral>, symbol: string): (v: int)
    ensures (forall i :: 0 <= i < |table| ==> table[i].symbol != symbol) ==> v == 0
    ensures forall i :: (0 <= i < |table| && table[i].symbol == symbol &&
                         forall j :: 0 <= j < i ==> table[j].symbol != symbol) ==> v == table[i].value
  {
    if table == [] then 0
    else if table[0].symbol == symbol then table[0].value
    else ValueIn(table[1..], symbol)
  }

  /** A linear search of the table that returns at the first row spelled `symbols`. */
  method ValueOf(r: seq<RomanNumeral>, symbols: string) returns (v: int)
    ensures v == ValueIn(r, symbols)
  {
    var i := 0;
    while i < |r|
      invariant 0 <= i <= |r|
      invariant ValueIn(r[i..], symbols) == ValueIn(r, symbols)
    {
      if symbols == r[i].symbol {
        return r[i].value;
      }
      assert r[i..][1..] == r[i + 1..];
      i := i + 1;
    }
    return 0;
  }

  /** Whether `c` is the first letter of some two-letter (subtractive) row of the table. */
  ghost predicate LeadsPair(c: char) {
    exists k :: 0 <= k < |AllRomanNumerals| && |AllRomanNumerals[k].symbol| == 2 &&
                AllRomanNumerals[k].symbol[0] == c
  }

  /** Whether the numeral at `index` may open a two-letter subtractive numeral: it is the
      first letter of some two-letter row of the table, and a letter follows it. */
  function CouldBeSubstractive(index: int, currentSymbol: char, roman: string): (b: bool)
    ensures b <==> index + 1 < |roman| && LeadsPair(currentSymbol)
  {
    SubtractiveLeaders(currentSymbol);
    var isSubstractiveSymbol := currentSymbol == 'I' || currentSymbol == 'X' || currentSymbol == 'C';
    index + 1 < |roman| && isSubstractiveSymbol
  }

  /** The leading letters of the two-letter rows are exactly I, X and C. */
  lemma SubtractiveLeaders(c: char)
    ensures LeadsPair(c) <==> c == 'I' || c == 'X' || c == 'C'
  {
    if c == 'I' {
      assert |AllRomanNumerals[11].symbol| == 2 && AllRomanNumerals[11].symbol[0] == 'I';
    } else if c == 'X' {
      assert |AllRomanNumerals[5].symbol| == 2 && AllRomanNumerals[5].symbol[0] == 'X';
    } else if c == 'C' {
      assert |AllRomanNumerals[1].symbol| == 2 && AllRomanNumerals[1].symbol[0] == 'C';
    }
  }

  /** No two rows of the table are spelled alike. */
  lemma DistinctSymbols(i: int, j: int)
    requires 0 <= i < j < |AllRomanNumerals|
    ensures AllRomanNumerals[i].symbol != AllRomanNumerals[j].symbol
  {
  }

  /** Looking up a row's own spelling finds that row. */
  lemma LookupOwnRow(k: int)
    requires 0 <= k < |AllRomanNumerals|
    ensures ValueIn(AllRomanNumerals, AllRomanNumerals[k].symbol) == AllRomanNumerals[k].value
  {
    forall j | 0 <= j < k
      ensures AllRomanNumerals[j].symbol != AllRomanNumerals[k].symbol
    {
      DistinctSymbols(j, k);
    }
  }

  /** A one-letter numeral followed by the first letter of a numeral no larger than it is
      never a row of the table, so the decoder reads it as one letter. */
  lemma NoPairAfter(k: int, j: int)
    requires 0 <= k <= j < |AllRomanNumerals| && |AllRomanNumerals[k].symbol| == 1
    ensures ValueIn(AllRomanNumerals, [AllRomanNumerals[k].symbol[0], AllRomanNumerals[j].symbol[0]]) == 0
  {
    var pair := [AllRomanNumerals[k].symbol[0], AllRomanNumerals[j].symbol[0]];
    forall i | 0 <= i < |AllRomanNumerals|
      ensures AllRomanNumerals[i].symbol != pair
    {
    }
  }

  /** What ConvertToArabic adds up for `roman`, read from its first letter on: a
      two-letter row when the first letter may open one and the pair is in the table,
      otherwise the first letter's own value (0 for a letter outside the table). */
  function Decode(roman: string): int
    decreases |roman|
  {
    if roman == [] then 0
    else if CouldBeSubstractive(0, roman[0], roman) && ValueIn(AllRomanNumerals, roman[..2]) != 0 then
      ValueIn(AllRomanNumerals, roman[..2]) + Decode(roman[2..])
    else
      ValueIn(AllRomanNumerals, roman[..1]) + Decode(roman[1..])
  }

  /** Left-to-right decoding that skips the second letter of a subtractive pair. */
  method ConvertToArabic(roman: string) returns (total: int)
    ensures total == Decode(roman)
  {
    total := 0;
    var i := 0;
    while i < |roman|
      invariant 0 <= i <= |roman|
      invariant total + Decode(roman[i..]) == Decode(roman)
    {
      var symbol := roman[i];
      DecodeAt(roman, i);
      if CouldBeSubstractive(i, symbol, roman) {
        var value := ValueOf(AllRomanNumerals, [symbol, roman[i + 1]]);
        if value != 0 {
          total := total + value;
          i := i + 1;
        } else {
          var single := ValueOf(AllRomanNumerals, [symbol]);
          total := total + single;
        }
      } else {
        var single := ValueOf(AllRomanNumerals, [symbol]);
        total := total + single;
      }
      i := i + 1;
    }
  }

  /** Decode read from position `i`: the step ConvertToArabic takes there. */
  lemma DecodeAt(roman: string, i: int)
    requires 0 <= i < |roman|
    ensures CouldBeSubstractive(i, roman[i], roman) ==> i + 1 < |roman|
    ensures Decode(roman[i..]) ==
      if CouldBeSubstractive(i, roman[i], roman) && ValueIn(AllRomanNumerals, [roman[i], roman[i + 1]]) != 0
      then ValueIn(AllRomanNumerals, [roman[i], roman[i + 1]]) + Decode(roman[i + 2..])
      else ValueIn(AllRomanNumerals, [roman[i]]) + Decode(roman[i + 1..])
  {
    var rest := roman[i..];
    assert rest[0] == roman[i];
    assert CouldBeSubstractive(i, roman[i], roman) == CouldBeSubstractive(0, rest[0], rest);
    assert rest[..1] == [roman[i]];
    assert rest[1..] == roman[i + 1..];
    if i + 1 < |roman| {
      assert rest[..2] == [roman[i], roman[i + 1]];
      assert rest[2..] == roman[i + 2..];
    }
  }

  /** A letter that spells no numeral and opens no pair contributes nothing. */
  lemma DecodeSkipsUnknown(roman: string)
    requires roman != [] && roman[0] !in "MDCLXVI"
    ensures Decode(roman) == Decode(roman[1..])
  {
    SubtractiveLeaders(roman[0]);
    forall i | 0 <= i < |AllRomanNumerals|
      ensures AllRomanNumerals[i].symbol != roman[..1]
    {
      assert AllRomanNumerals[i].symbol[0] in "MDCLXVI";
    }
  }

  /** The numerals the greedy encoder emits from table row `k` on with `arabic` left:
      as many copies of a row as fit, then the next row. */
  function Greedy(k: nat, arabic: int): seq<RomanNumeral>
    requires k <= |AllRomanNumerals|
    decreases |AllRomanNumerals| - k, arabic
  {
    if k == |AllRomanNumerals| then []
    else if arabic >= AllRomanNumerals[k].value then
      [AllRomanNumerals[k]] + Greedy(k, arabic - AllRomanNumerals[k].value)
    else
      Greedy(k + 1, arabic)
  }

  /** The numerals written one after the other. */
  function Spell(numerals: seq<RomanNumeral>): string {
    if numerals == [] then "" else numerals[0].symbol + Spell(numerals[1..])
  }

  /** The sum of the numerals' values. */
  function TotalValue(numerals: seq<RomanNumeral>): int {
    if numerals == [] then 0 else numerals[0].value + TotalValue(numerals[1..])
  }

  /** Greedy encoding: for each row in descending order, write it while it still fits. */
  method ConvertToRoman(arabic: int) returns (result: string)
    ensures result == Spell(Greedy(0, arabic))
  {
    result := "";
    var n := arabic;
    for k := 0 to |AllRomanNumerals|
      invariant result + Spell(Greedy(k, n)) == Spell(Greedy(0, arabic))
    {
      var numeral := AllRomanNumerals[k];
      while n >= numeral.value
        invariant result + Spell(Greedy(k, n)) == Spell(Greedy(0, arabic))
        decreases n
      {
        ghost var emitted := Greedy(k, n - numeral.value);
        assert Greedy(k, n) == [numeral] + emitted;
        assert Spell(Greedy(k, n)) == numeral.symbol + Spell(emitted) by {
          assert ([numeral] + emitted)[1..] == emitted;
        }
        result := result + numeral.symbol;
        n := n - numeral.value;
      }
    }
  }

  /** `numeral` is a row of the table at or after row `k`. */
  ghost predicate RowFrom(k: nat, numeral: RomanNumeral) {
    exists j :: k <= j < |AllRomanNumerals| && numeral == AllRomanNumerals[j]
  }

  /** The encoder emits only rows of the table at or after row `k`. */
  lemma {:induction false} GreedyRows(k: nat, arabic: int)
    requires k <= |AllRomanNumerals|
    ensures forall i :: 0 <= i < |Greedy(k, arabic)| ==> RowFrom(k, Greedy(k, arabic)[i])
    decreases |AllRomanNumerals| - k, arabic
  {
    if k < |AllRomanNumerals| {
      var v := AllRomanNumerals[k].value;
      if arabic >= v {
        var rest := Greedy(k, arabic - v);
        GreedyRows(k, arabic - v);
        var g := [AllRomanNumerals[k]] + rest;
        assert Greedy(k, arabic) == g;
        assert RowFrom(k, g[0]);
        forall i | 0 < i < |g|
          ensures RowFrom(k, g[i])
        {
          assert g[i] == rest[i - 1];
        }
      } else {
        var g := Greedy(k + 1, arabic);
        assert Greedy(k, arabic) == g;
        GreedyRows(k + 1, arabic);
        forall i | 0 <= i < |g|
          ensures RowFrom(k, g[i])
        {
          assert RowFrom(k + 1, g[i]);
          var j :| k + 1 <= j < |AllRomanNumerals| && g[i] == AllRomanNumerals[j];
        }
      }
    }
  }

  /** The table lists its rows in strictly decreasing order of value. */
  lemma TableDescending(k: int, j: int)
    requires 0 <= k < j < |AllRomanNumerals|
    ensures AllRomanNumerals[k].value > AllRomanNumerals[j].value
  {
  }

  lemma RowFromBounded(k: nat, numeral: RomanNumeral)
    requires k < |AllRomanNumerals| && RowFrom(k, numeral)
    ensures numeral.value <= AllRomanNumerals[k].value
  {
    var j :| k <= j < |AllRomanNumerals| && numeral == AllRomanNumerals[j];
    if k < j {
      TableDescending(k, j);
    }
  }

  /** The encoder emits numerals in non-increasing order of value. */
  lemma {:induction false} GreedyDescending(k: nat, arabic: int)
    requires k <= |AllRomanNumerals|
    ensures forall i, i' :: 0 <= i < i' < |Greedy(k, arabic)| ==>
      Greedy(k, arabic)[i].value >= Greedy(k, arabic)[i'].value
    decreases |AllRomanNumerals| - k, arabic
  {
    if k < |AllRomanNumerals| {
      var v := AllRomanNumerals[k].value;
      if arabic >= v {
        var rest := Greedy(k, arabic - v);
        GreedyDescending(k, arabic - v);
        GreedyRows(k, arabic - v);
        var g := [AllRomanNumerals[k]] + rest;
        assert Greedy(k, arabic) == g;
        forall i, i' | 0 <= i < i' < |g|
          ensures g[i].value >= g[i'].value
        {
          assert g[i'] == rest[i' - 1];
          if i > 0 {
            assert g[i] == rest[i - 1];
          } else {
            RowFromBounded(k, rest[i' - 1]);
          }
        }
      } else {
        assert Greedy(k, arabic) == Greedy(k + 1, arabic);
        GreedyDescending(k + 1, arabic);
      }
    }
  }

  /** The emitted numerals add up to the input, when the input is within reach of row `k`. */
  lemma {:induction false} GreedySum(k: nat, arabic: int)
    requires k <= |AllRomanNumerals| && 0 <= arabic
    requires k == 0 || arabic < AllRomanNumerals[k - 1].value
    ensures TotalValue(Greedy(k, arabic)) == arabic
    decreases |AllRomanNumerals| - k, arabic
  {
    if k < |AllRomanNumerals| {
      var v := AllRomanNumerals[k].value;
      if arabic >= v {
        GreedySum(k, arabic - v);
        assert ([AllRomanNumerals[k]] + Greedy(k, arabic - v))[1..] == Greedy(k, arabic - v);
      } else {
        GreedySum(k + 1, arabic);
      }
    }
  }

  /** Nothing is emitted for zero or a negative number. */
  lemma {:induction false} GreedyNonPositive(k: nat, arabic: int)
    requires k <= |AllRomanNumerals| && arabic <= 0
    ensures Greedy(k, arabic) == []
    decreases |AllRomanNumerals| - k
  {
    if k < |AllRomanNumerals| {
      GreedyNonPositive(k + 1, arabic);
    }
  }

  /** Decoding a numeral followed by what the encoder writes next adds that numeral's value:
      the letters never pair up across the boundary in a way the decoder misreads. */
  lemma DecodeStep(k: nat, arabic: int)
    requires k < |AllRomanNumerals|
    ensures Decode(AllRomanNumerals[k].symbol + Spell(Greedy(k, arabic)))
         == AllRomanNumerals[k].value + Decode(Spell(Greedy(k, arabic)))
  {
    var rest := Spell(Greedy(k, arabic));
    if |AllRomanNumerals[k].symbol| == 2 {
      PairRowDecodes(k, rest);
    } else {
      NoPairWithNext(k, arabic);
      SingleRowDecodes(k, rest);
    }
  }

  /** A two-letter row at the front is read as that row. */
  lemma PairRowDecodes(k: nat, rest: string)
    requires k < |AllRomanNumerals| && |AllRomanNumerals[k].symbol| == 2
    ensures Decode(AllRomanNumerals[k].symbol + rest) == AllRomanNumerals[k].value + Decode(rest)
  {
    var symbol := AllRomanNumerals[k].symbol;
    LookupOwnRow(k);
    assert LeadsPair(symbol[0]) by {
      assert 0 <= k < |AllRomanNumerals| && |AllRomanNumerals[k].symbol| == 2 && AllRomanNumerals[k].symbol[0] == symbol[0];
    }
    DecodePair(symbol, rest);
  }

  /** A one-letter row at the front is read alone when the next letter does not pair with it. */
  lemma SingleRowDecodes(k: nat, rest: string)
    requires k < |AllRomanNumerals| && |AllRomanNumerals[k].symbol| == 1
    requires rest != [] ==> ValueIn(AllRomanNumerals, [AllRomanNumerals[k].symbol[0], rest[0]]) == 0
    ensures Decode(AllRomanNumerals[k].symbol + rest) == AllRomanNumerals[k].value + Decode(rest)
  {
    LookupOwnRow(k);
    DecodeSingle(AllRomanNumerals[k].symbol, rest);
  }

  /** After a one-letter row the encoder never writes a letter that pairs with it. */
  lemma NoPairWithNext(k: nat, arabic: int)
    requires k < |AllRomanNumerals| && |AllRomanNumerals[k].symbol| == 1
    ensures var rest := Spell(Greedy(k, arabic));
      rest != [] ==> ValueIn(AllRomanNumerals, [AllRomanNumerals[k].symbol[0], rest[0]]) == 0
  {
    var rest := Spell(Greedy(k, arabic));
    if rest != [] {
      GreedyRows(k, arabic);
      var g := Greedy(k, arabic);
      assert RowFrom(k, g[0]);
      var j :| k <= j < |AllRomanNumerals| && g[0] == AllRomanNumerals[j];
      assert rest[0] == AllRomanNumerals[j].symbol[0] by {
        assert rest == g[0].symbol + Spell(g[1..]);
        assert |g[0].symbol| >= 1;
      }
      NoPairAfter(k, j);
    }
  }

  /** A two-letter row at the front is read as one numeral. */
  lemma DecodePair(sym: string, rest: string)
    requires |sym| == 2 && LeadsPair(sym[0]) && ValueIn(AllRomanNumerals, sym) != 0
    ensures Decode(sym + rest) == ValueIn(AllRomanNumerals, sym) + Decode(rest)
  {
    var s := sym + rest;
    assert s[0] == sym[0];
    assert s[..2] == sym && s[2..] == rest;
  }

  /** A one-letter numeral at the front is read alone when it does not pair with the next letter. */
  lemma DecodeSingle(sym: string, rest: string)
    requires |sym| == 1
    requires rest != [] ==> ValueIn(AllRomanNumerals, [sym[0], rest[0]]) == 0
    ensures Decode(sym + rest) == ValueIn(AllRomanNumerals, sym) + Decode(rest)
  {
    var s := sym + rest;
    assert s[0] == sym[0];
    assert s[..1] == sym && s[1..] == rest;
    if rest != [] {
      assert s[..2] == [sym[0], rest[0]];
    }
  }

  /** Decoding what the encoder writes from row `k` on gives back the number encoded. */
  lemma {:induction false} DecodeGreedy(k: nat, arabic: int)
    requires k <= |AllRomanNumerals| && 0 <= arabic
    requires k == 0 || arabic < AllRomanNumerals[k - 1].value
    ensures Decode(Spell(Greedy(k, arabic))) == arabic
    decreases |AllRomanNumerals| - k, arabic
  {
    if k < |AllRomanNumerals| {
      var v := AllRomanNumerals[k].value;
      if arabic >= v {
        var g := Greedy(k, arabic - v);
        DecodeGreedy(k, arabic - v);
        DecodeStep(k, arabic - v);
        assert Greedy(k, arabic) == [AllRomanNumerals[k]] + g;
        assert ([AllRomanNumerals[k]] + g)[1..] == g;
        assert Spell(Greedy(k, arabic)) == AllRomanNumerals[k].symbol + Spell(g);
      } else {
        DecodeGreedy(k + 1, arabic);
      }
    }
  }

  /** ConvertToArabic undoes ConvertToRoman on every number it can encode. */
  lemma RoundTrip(arabic: int)
    requires 0 <= arabic
    ensures Decode(Spell(Greedy(0, arabic))) == arabic
  {
    DecodeGreedy(0, arabic);
  }

  /** The encoder's loop ends with nothing left: the emitted numerals sum to the input. */
  lemma EmittedSumToInput(arabic: int)
    requires 0 <= arabic
    ensures TotalValue(Greedy(0, arabic)) == arabic
  {
    GreedySum(0, arabic);
  }

  /** Zero and every negative number encode as the empty string. */
  lemma NonPositiveIsEmpty(arabic: int)
    requires arabic <= 0
    ensures Spell(Greedy(0, arabic)) == ""
  {
    GreedyNonPositive(0, arabic);
  }

  /** One copy of row `k` is written while it still fits. */
  lemma Emits(k: nat, arabic: int)
    requires k < |AllRomanNumerals| && arabic >= AllRomanNumerals[k].value
    ensures Spell(Greedy(k, arabic))
         == AllRomanNumerals[k].symbol + Spell(Greedy(k, arabic - AllRomanNumerals[k].value))
  {
    var rest := Greedy(k, arabic - AllRomanNumerals[k].value);
    assert ([AllRomanNumerals[k]] + rest)[1..] == rest;
  }

  /** Rows larger than what is left are passed over. */
  lemma {:induction false} Skips(k: nat, j: nat, arabic: int)
    requires k <= j <= |AllRomanNumerals| && 0 < j && arabic < AllRomanNumerals[j - 1].value
    ensures Greedy(k, arabic) == Greedy(j, arabic)
    decreases j - k
  {
    if k < j {
      Skips(k + 1, j, arabic);
    }
  }

  /** Row `j` is the next one written from row `k`: the rows in between are passed over and
      row `j` fits. */
  lemma Step(k: nat, j: nat, arabic: int)
    requires k <= j < |AllRomanNumerals| && arabic >= AllRomanNumerals[j].value
    requires k == j || arabic < AllRomanNumerals[j - 1].value
    ensures Spell(Greedy(k, arabic))
         == AllRomanNumerals[j].symbol + Spell(Greedy(j, arabic - AllRomanNumerals[j].value))
  {
    if k < j {
      Skips(k, j, arabic);
    }
    Emits(j, arabic);
  }

  /** Nothing follows once the whole number has been written. */
  lemma Done(k: nat)
    requires k <= |AllRomanNumerals|
    ensures Spell(Greedy(k, 0)) == ""
  {
    GreedyNonPositive(k, 0);
  }

  /* The encodings of the test table, one numeral per lemma: each lemma writes the next
     numeral and leaves the rest to the lemma for what is left. */

  lemma Encodes1()
    ensures Spell(Greedy(0, 1)) == "I"
  {
    Step(0, 12, 1);
    Done(12);
  }

  lemma Encodes2()
    ensures Spell(Greedy(0, 2)) == "II"
  {
    Step(0, 12, 2);
    Writes1FromRow12();
  }

  lemma Writes1FromRow12()
    ensures Spell(Greedy(12, 1)) == "I"
  {
    Step(12, 12, 1);
    Done(12);
  }

  lemma Encodes3()
    ensures Spell(Greedy(0, 3)) == "III"
  {
    Step(0, 12, 3);
    Writes2FromRow12();
  }

  lemma Writes2FromRow12()
    ensures Spell(Greedy(12, 2)) == "II"
  {
    Step(12, 12, 2);
    Writes1FromRow12();
  }

  lemma Encodes4()
    ensures Spell(Greedy(0, 4)) == "IV"
  {
    Step(0, 11, 4);
    Done(11);
  }

  lemma Encodes5()
    ensures Spell(Greedy(0, 5)) == "V"
  {
    Step(0, 10, 5);
    Done(10);
  }

  lemma Encodes6()
    ensures Spell(Greedy(0, 6)) == "VI"
  {
    Step(0, 10, 6);
    Writes1FromRow10();
  }

  lemma Writes1FromRow10()
    ensures Spell(Greedy(10, 1)) == "I"
  {
    Step(10, 12, 1);
    Done(12);
  }

  lemma Encodes7()
    ensures Spell(Greedy(0, 7)) == "VII"
  {
    Step(0, 10, 7);
    Writes2FromRow10();
  }

  lemma Writes2FromRow10()
    ensures Spell(Greedy(10, 2)) == "II"
  {
    Step(10, 12, 2);
    Writes1FromRow12();
  }

  lemma Encodes8()
    ensures Spell(Greedy(0, 8)) == "VIII"
  {
    Step(0, 10, 8);
    Writes3FromRow10();
  }

  lemma Writes3FromRow10()
    ensures Spell(Greedy(10, 3)) == "III"
  {
    Step(10, 12, 3);
    Writes2FromRow12();
  }

  lemma Encodes9()
    ensures Spell(Greedy(0, 9)) == "IX"
  {
    Step(0, 9, 9);
    Done(9);
  }

  lemma Encodes10()
    ensures Spell(Greedy(0, 10)) == "X"
  {
    Step(0, 8, 10);
    Done(8);
  }

  lemma Encodes14()
    ensures Spell(Greedy(0, 14)) == "XIV"
  {
    Step(0, 8, 14);
    Writes4FromRow8();
  }

  lemma Writes4FromRow8()
    ensures Spell(Greedy(8, 4)) == "IV"
  {
    Step(8, 11, 4);
    Done(11);
  }

  lemma Encodes18()
    ensures Spell(Greedy(0, 18)) == "XVIII"
  {
    Step(0, 8, 18);
    Writes8FromRow8();
  }

  lemma Writes8FromRow8()
    ensures Spell(Greedy(8, 8)) == "VIII"
  {
    Step(8, 10, 8);
    Writes3FromRow10();
  }

  lemma Encodes20()
    ensures Spell(Greedy(0, 20)) == "XX"
  {
    Step(0, 8, 20);
    Writes10FromRow8();
  }

  lemma Writes10FromRow8()
    ensures Spell(Greedy(8, 10)) == "X"
  {
    Step(8, 8, 10);
    Done(8);
  }

  lemma Encodes39()
    ensures Spell(Greedy(0, 39)) == "XXXIX"
  {
    Step(0, 8, 39);
    Writes29FromRow8();
  }

  lemma Writes29FromRow8()
    ensures Spell(Greedy(8, 29)) == "XXIX"
  {
    Step(8, 8, 29);
    Writes19FromRow8();
  }

  lemma Writes19FromRow8()
    ensures Spell(Greedy(8, 19)) == "XIX"
  {
    Step(8, 8, 19);
    Writes9FromRow8();
  }

  lemma Writes9FromRow8()
    ensures Spell(Greedy(8, 9)) == "IX"
  {
    Step(8, 9, 9);
    Done(9);
  }

  lemma Encodes40()
    ensures Spell(Greedy(0, 40)) == "XL"
  {
    Step(0, 7, 40);
    Done(7);
  }

  lemma Encodes47()
    ensures Spell(Greedy(0, 47)) == "XLVII"
  {
    Step(0, 7, 47);
    Writes7FromRow7();
  }

  lemma Writes7FromRow7()
    ensures Spell(Greedy(7, 7)) == "VII"
  {
    Step(7, 10, 7);
    Writes2FromRow10();
  }

  lemma Encodes49()
    ensures Spell(Greedy(0, 49)) == "XLIX"
  {
    Step(0, 7, 49);
    Writes9FromRow7();
  }

  lemma Writes9FromRow7()
    ensures Spell(Greedy(7, 9)) == "IX"
  {
    Step(7, 9, 9);
    Done(9);
  }

  lemma Encodes50()
    ensures Spell(Greedy(0, 50)) == "L"
  {
    Step(0, 6, 50);
    Done(6);
  }

  lemma Encodes100()
    ensures Spell(Greedy(0, 100)) == "C"
  {
    Step(0, 4, 100);
    Done(4);
  }

  lemma Encodes90()
    ensures Spell(Greedy(0, 90)) == "XC"
  {
    Step(0, 5, 90);
    Done(5);
  }

  lemma Encodes400()
    ensures Spell(Greedy(0, 400)) == "CD"
  {
    Step(0, 3, 400);
    Done(3);
  }

  lemma Encodes500()
    ensures Spell(Greedy(0, 500)) == "D"
  {
    Step(0, 2, 500);
    Done(2);
  }

  lemma Encodes900()
    ensures Spell(Greedy(0, 900)) == "CM"
  {
    Step(0, 1, 900);
    Done(1);
  }

  lemma Encodes1000()
    ensures Spell(Greedy(0, 1000)) == "M"
  {
    Step(0, 0, 1000);
    Done(0);
  }

  lemma Encodes1984()
    ensures Spell(Greedy(0, 1984)) == "MCMLXXXIV"
  {
    Step(0, 0, 1984);
    Writes984FromRow0();
  }

  lemma Writes984FromRow0()
    ensures Spell(Greedy(0, 984)) == "CMLXXXIV"
  {
    Step(0, 1, 984);
    Writes84FromRow1();
  }

  lemma Writes84FromRow1()
    ensures Spell(Greedy(1, 84)) == "LXXXIV"
  {
    Step(1, 6, 84);
    Writes34FromRow6();
  }

  lemma Writes34FromRow6()
    ensures Spell(Greedy(6, 34)) == "XXXIV"
  {
    Step(6, 8, 34);
    Writes24FromRow8();
  }

  lemma Writes24FromRow8()
    ensures Spell(Greedy(8, 24)) == "XXIV"
  {
    Step(8, 8, 24);
    Writes14FromRow8();
  }

  lemma Writes14FromRow8()
    ensures Spell(Greedy(8, 14)) == "XIV"
  {
    Step(8, 8, 14);
    Writes4FromRow8();
  }

  lemma Encodes3999()
    ensures Spell(Greedy(0, 3999)) == "MMMCMXCIX"
  {
    Step(0, 0, 3999);
    Writes2999FromRow0();
  }

  lemma Writes2999FromRow0()
    ensures Spell(Greedy(0, 2999)) == "MMCMXCIX"
  {
    Step(0, 0, 2999);
    Writes1999FromRow0();
  }

  lemma Writes1999FromRow0()
    ensures Spell(Greedy(0, 1999)) == "MCMXCIX"
  {
    Step(0, 0, 1999);
    Writes999FromRow0();
  }

  lemma Writes999FromRow0()
    ensures Spell(Greedy(0, 999)) == "CMXCIX"
  {
    Step(0, 1, 999);
    Writes99FromRow1();
  }

  lemma Writes99FromRow1()
    ensures Spell(Greedy(1, 99)) == "XCIX"
  {
    Step(1, 5, 99);
    Writes9FromRow5();
  }

  lemma Writes9FromRow5()
    ensures Spell(Greedy(5, 9)) == "IX"
  {
    Step(5, 9, 9);
    Done(9);
  }

  lemma Encodes2014()
    ensures Spell(Greedy(0, 2014)) == "MMXIV"
  {
    Step(0, 0, 2014);
    Writes1014FromRow0();
  }

  lemma Writes1014FromRow0()
    ensures Spell(Greedy(0, 1014)) == "MXIV"
  {
    Step(0, 0, 1014);
    Encodes14();
  }

  lemma Encodes1006()
    ensures Spell(Greedy(0, 1006)) == "MVI"
  {
    Step(0, 0, 1006);
    Encodes6();
  }

  lemma Encodes798()
    ensures Spell(Greedy(0, 798)) == "DCCXCVIII"
  {
    Step(0, 2, 798);
    Writes298FromRow2();
  }

  lemma Writes298FromRow2()
    ensures Spell(Greedy(2, 298)) == "CCXCVIII"
  {
    Step(2, 4, 298);
    Writes198FromRow4();
  }

  lemma Writes198FromRow4()
    ensures Spell(Greedy(4, 198)) == "CXCVIII"
  {
    Step(4, 4, 198);
    Writes98FromRow4();
  }

  lemma Writes98FromRow4()
    ensures Spell(Greedy(4, 98)) == "XCVIII"
  {
    Step(4, 5, 98);
    Writes8FromRow5();
  }

  lemma Writes8FromRow5()
    ensures Spell(Greedy(5, 8)) == "VIII"
  {
    Step(5, 10, 8);
    Writes3FromRow10();
  }

  /** ConvertToRoman spells every number of the test table as the table says. */
  lemma EncodesTestTable()
    ensures Spell(Greedy(0, 1)) == "I" &&
            Spell(Greedy(0, 2)) == "II" &&
            Spell(Greedy(0, 3)) == "III" &&
            Spell(Greedy(0, 4)) == "IV" &&
            Spell(Greedy(0, 5)) == "V" &&
            Spell(Greedy(0, 6)) == "VI" &&
            Spell(Greedy(0, 7)) == "VII" &&
            Spell(Greedy(0, 8)) == "VIII" &&
            Spell(Greedy(0, 9)) == "IX" &&
            Spell(Greedy(0, 10)) == "X" &&
            Spell(Greedy(0, 14)) == "XIV" &&
            Spell(Greedy(0, 18)) == "XVIII" &&
            Spell(Greedy(0, 20)) == "XX" &&
            Spell(Greedy(0, 39)) == "XXXIX" &&
            Spell(Greedy(0, 40)) == "XL" &&
            Spell(Greedy(0, 47)) == "XLVII" &&
            Spell(Greedy(0, 49)) == "XLIX" &&
            Spell(Greedy(0, 50)) == "L" &&
            Spell(Greedy(0, 100)) == "C" &&
            Spell(Greedy(0, 90)) == "XC" &&
            Spell(Greedy(0, 400)) == "CD" &&
            Spell(Greedy(0, 500)) == "D" &&
            Spell(Greedy(0, 900)) == "CM" &&
            Spell(Greedy(0, 1000)) == "M" &&
            Spell(Greedy(0, 1984)) == "MCMLXXXIV" &&
            Spell(Greedy(0, 3999)) == "MMMCMXCIX" &&
            Spell(Greedy(0, 2014)) == "MMXIV" &&
            Spell(Greedy(0, 1006)) == "MVI" &&
            Spell(Greedy(0, 798)) == "DCCXCVIII"
  {
    Encodes1();
    Encodes2();
    Encodes3();
    Encodes4();
    Encodes5();
    Encodes6();
    Encodes7();
    Encodes8();
    Encodes9();
    Encodes10();
    Encodes14();
    Encodes18();
    Encodes20();
    Encodes39();
    Encodes40();
    Encodes47();
    Encodes49();
    Encodes50();
    Encodes100();
    Encodes90();
    Encodes400();
    Encodes500();
    Encodes900();
    Encodes1000();
    Encodes1984();
    Encodes3999();
    Encodes2014();
    Encodes1006();
    Encodes798();
  }

  /** ConvertToArabic reads back the first twenty numerals of the test table, the ones its
      test checks, by the round trip. */
  lemma DecodesTestTable()
    ensures Decode("I") == 1 &&
            Decode("II") == 2 &&
            Decode("III") == 3 &&
            Decode("IV") == 4 &&
            Decode("V") == 5 &&
            Decode("VI") == 6 &&
            Decode("VII") == 7 &&
            Decode("VIII") == 8 &&
            Decode("IX") == 9 &&
            Decode("X") == 10 &&
            Decode("XIV") == 14 &&
            Decode("XVIII") == 18 &&
            Decode("XX") == 20 &&
            Decode("XXXIX") == 39 &&
            Decode("XL") == 40 &&
            Decode("XLVII") == 47 &&
            Decode("XLIX") == 49 &&
            Decode("L") == 50 &&
            Decode("C") == 100 &&
            Decode("XC") == 90
  {
    Encodes1();
    RoundTrip(1);
    Encodes2();
    RoundTrip(2);
    Encodes3();
    RoundTrip(3);
    Encodes4();
    RoundTrip(4);
    Encodes5();
    RoundTrip(5);
    Encodes6();
    RoundTrip(6);
    Encodes7();
    RoundTrip(7);
    Encodes8();
    RoundTrip(8);
    Encodes9();
    RoundTrip(9);
    Encodes10();
    RoundTrip(10);
    Encodes14();
    RoundTrip(14);
    Encodes18();
    RoundTrip(18);
    Encodes20();
    RoundTrip(20);
    Encodes39();
    RoundTrip(39);
    Encodes40();
    RoundTrip(40);
    Encodes47();
    RoundTrip(47);
    Encodes49();
    RoundTrip(49);
    Encodes50();
    RoundTrip(50);
    Encodes100();
    RoundTrip(100);
    Encodes90();
    RoundTrip(90);
  }
}
