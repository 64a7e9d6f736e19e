/**
 * `process_line` of nuclear_aux.py: classifies one record of a network file as a bare
 * symbol (`neut`), a symbol with a mass number (`fe54`) or a symbol with an inclusive
 * range of mass numbers (`fe 52 54`); anything else yields the empty symbol.
 */
module LineClassifier {
  import opened Text

  /** An element symbol with the mass numbers listed for it. */
  datatype Record = Record(symbol: string, masses: seq<int>)

  function Last(s: string): char
    requires s != []
  {
    s[|s| - 1]
  }

  /** `list(range(a, b + 1))`: the integers from `a` to `b`, both included. */
  function Range(a: int, b: int): (r: seq<int>)
    ensures |r| == if a <= b then b - a + 1 else 0
    ensures forall i :: 0 <= i < |r| ==> r[i] == a + i
    decreases b + 1 - a
  {
    if a > b then [] else [a] + Range(a + 1, b)
  }

  /** The three-token shape `symbol start end`. */
  predicate IsRangeShape(parts: seq<string>) {
    |parts| == 3 && IsAlpha(parts[0]) && IsDecimal(parts[1]) && IsDecimal(parts[2])
  }

  /** The inputs on which `process_line` raises IndexError: a single token that does not
      end in a letter and holds no letter or no digit (`54`, `fe-`, `+`). */
  predicate ClassifyFails(text: string) {
    var parts := Words(text);
    && |parts| == 1
    && !IsLetter(Last(parts[0]))
    && (FirstRun(parts[0], Letters) == [] || FirstRun(parts[0], Digits) == [])
  }

  /** `process_line(text)`. The symbol is empty exactly when the text has neither one
      token nor the range shape, and then no mass number is produced either. */
  function Classify(text: string): (r: Record)
    requires !ClassifyFails(text)
    ensures r.symbol == [] <==> !(|Words(text)| == 1 || IsRangeShape(Words(text)))
    ensures r.symbol == [] ==> r.masses == []
    ensures NoSpaces(r.symbol)
    ensures forall i :: 0 <= i < |r.masses| ==> r.masses[i] >= 0
  {
    var parts := Words(text);
    if |parts| == 1 && IsLetter(Last(parts[0])) then
      Record(parts[0], [])
    else if |parts| == 1 then
      Record(FirstRun(parts[0], Letters), [NatOf(FirstRun(parts[0], Digits))])
    else if IsRangeShape(parts) then
      Record(parts[0], Range(NatOf(parts[1]), NatOf(parts[2])))
    else
      Record([], [])
  }

  /** Blanks around a single token leave just that token. */
  lemma OneToken(before: string, token: string, after: string)
    requires AllSpaces(before) && AllSpaces(after)
    requires token != [] && NoSpaces(token)
    ensures Words(before + token + after) == [token]
  {
    assert before + token + after == before + (token + after);
    WordsSkipSpaces(before, token + after);
    WordsTrailing(token, after);
  }

  /** A single token ending in a letter, with any surrounding whitespace, is returned
      unchanged with no mass number (`neut`, and also `12fe34bar`). */
  lemma BareSymbol(before: string, token: string, after: string)
    requires AllSpaces(before) && AllSpaces(after)
    requires token != [] && NoSpaces(token) && IsLetter(Last(token))
    ensures !ClassifyFails(before + token + after)
    ensures Classify(before + token + after) == Record(token, [])
  {
    OneToken(before, token, after);
  }

  /** Any other single token gives its first run of letters with the number its first run
      of digits spells (`fe54` gives (`fe`, [54]), `12fe34` gives (`fe`, [12])); it
      raises exactly when it holds no letter or no digit. */
  lemma OtherToken(before: string, token: string, after: string)
    requires AllSpaces(before) && AllSpaces(after)
    requires token != [] && NoSpaces(token) && !IsLetter(Last(token))
    ensures ClassifyFails(before + token + after) <==> FirstRun(token, Letters) == [] || FirstRun(token, Digits) == []
    ensures !ClassifyFails(before + token + after) ==>
      Classify(before + token + after) == Record(FirstRun(token, Letters), [NatOf(FirstRun(token, Digits))])
  {
    OneToken(before, token, after);
  }

  lemma NoSpacesOfClass(s: string, k: CharClass)
    requires forall i :: 0 <= i < |s| ==> InClass(s[i], k)
    ensures NoSpaces(s)
  {
    forall i | 0 <= i < |s| ensures !IsSpace(s[i]) {
      assert InClass(s[i], k);
    }
  }

  /** A symbol written with its mass number, inside any whitespace, reads back as that
      symbol and the number its digits spell: `fe54` and ` fe54\n` give (`fe`, [54]). */
  lemma SymbolWithMass(before: string, symbol: string, digits: string, after: string)
    requires AllSpaces(before) && AllSpaces(after)
    requires IsAlpha(symbol) && IsDecimal(digits)
    ensures !ClassifyFails(before + symbol + digits + after)
    ensures Classify(before + symbol + digits + after) == Record(symbol, [NatOf(digits)])
  {
    var token := symbol + digits;
    assert forall i :: 0 <= i < |symbol| ==> InClass(symbol[i], Letters);
    assert forall i :: 0 <= i < |digits| ==> InClass(digits[i], Digits);
    NoSpacesOfClass(symbol, Letters);
    NoSpacesOfClass(digits, Digits);
    assert NoSpaces(token) by {
      forall i | 0 <= i < |token| ensures !IsSpace(token[i]) {
        if i < |symbol| { assert token[i] == symbol[i]; } else { assert token[i] == digits[i - |symbol|]; }
      }
    }
    assert before + symbol + digits + after == before + token + after;
    OneToken(before, token, after);
    assert Last(token) == digits[|digits| - 1];
    assert FirstRun(token, Letters) == symbol by {
      ClassPrefixOf(symbol, digits, Letters);
    }
    assert FirstRun(token, Digits) == digits by {
      FirstRunSkip(symbol, digits, Digits);
      ClassPrefixOf(digits, [], Digits);
      assert digits + [] == digits;
    }
  }

  /** Regrouping a record of three tokens to the right. */
  lemma Regroup(before: string, x: string, sep1: string, y: string, sep2: string, z: string, after: string)
    ensures before + x + sep1 + y + sep2 + z + after == before + (x + (sep1 + (y + (sep2 + (z + after)))))
  {
  }

  /** Three tokens separated by whitespace, with any whitespace around them, split into
      exactly those tokens. */
  lemma ThreeTokens(before: string, x: string, sep1: string, y: string, sep2: string, z: string, after: string)
    requires AllSpaces(before) && AllSpaces(after)
    requires sep1 != [] && AllSpaces(sep1) && sep2 != [] && AllSpaces(sep2)
    requires x != [] && NoSpaces(x) && y != [] && NoSpaces(y) && z != [] && NoSpaces(z)
    ensures Words(before + x + sep1 + y + sep2 + z + after) == [x, y, z]
  {
    var last := sep2 + (z + after);
    assert Words(last) == [z] by {
      WordsSkipSpaces(sep2, z + after);
      WordsTrailing(z, after);
    }
    var middle := sep1 + (y + last);
    assert Words(middle) == [y, z] by {
      assert IsSpace(last[0]);
      WordsSpaced(sep1, y, last);
    }
    assert Words(before + (x + middle)) == [x, y, z] by {
      assert IsSpace(middle[0]);
      WordsSpaced(before, x, middle);
    }
    Regroup(before, x, sep1, y, sep2, z, after);
  }

  /** A symbol followed by two digit strings, separated and surrounded by any whitespace,
      reads back as that symbol with the inclusive range between the numbers they spell:
      `fe 52 54` gives (`fe`, [52, 53, 54]); empty when start > end. */
  lemma SymbolWithRange(before: string, symbol: string, sep1: string, start: string, sep2: string, end: string, after: string)
    requires AllSpaces(before) && AllSpaces(after)
    requires sep1 != [] && AllSpaces(sep1) && sep2 != [] && AllSpaces(sep2)
    requires IsAlpha(symbol) && IsDecimal(start) && IsDecimal(end)
    ensures !ClassifyFails(before + symbol + sep1 + start + sep2 + end + after)
    ensures Classify(before + symbol + sep1 + start + sep2 + end + after) == Record(symbol, Range(NatOf(start), NatOf(end)))
  {
    assert forall i :: 0 <= i < |symbol| ==> InClass(symbol[i], Letters);
    assert forall i :: 0 <= i < |start| ==> InClass(start[i], Digits);
    assert forall i :: 0 <= i < |end| ==> InClass(end[i], Digits);
    NoSpacesOfClass(symbol, Letters);
    NoSpacesOfClass(start, Digits);
    NoSpacesOfClass(end, Digits);
    ThreeTokens(before, symbol, sep1, start, sep2, end, after);
    assert IsRangeShape([symbol, start, end]);
  }
}
