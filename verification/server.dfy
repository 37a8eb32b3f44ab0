/**
 * processData from server.js, step by step as the source runs it: one pass
 * over the tokens pushing into four buckets, a running sum and a letter
 * buffer; an in-place reversal of the buffer; a second pass building
 * concatString. Each step is proved to compute the Classification.Process
 * specification.
 */
module Server {
  import opened JsText
  import opened Classification

  /** alphabetChars.reverse(): swaps the two ends inwards. */
  method ReverseInPlace(a: array<char>)
    modifies a
    ensures a[..] == Reverse(old(a[..]))
  {
    var n := a.Length;
    var lower := 0;
    while lower < n / 2
      invariant 0 <= lower <= n / 2
      invariant forall k :: 0 <= k < lower ==> a[k] == old(a[n - 1 - k]) && a[n - 1 - k] == old(a[k])
      invariant forall k :: lower <= k < n - lower ==> a[k] == old(a[k])
    {
      var upper := n - 1 - lower;
      a[lower], a[upper] := a[upper], a[lower];
      lower := lower + 1;
    }
  }

  /** What one turn of the forEach does to each part of the specification, for a token of category c. */
  lemma Advance(data: seq<string>, i: nat, c: Category)
    requires i < |data| && Classify(data[i]) == c
    ensures Bucket(data[..i + 1], Classify, Odd) ==
      Bucket(data[..i], Classify, Odd) + (if c == Odd then [data[i]] else [])
    ensures Bucket(data[..i + 1], Classify, Even) ==
      Bucket(data[..i], Classify, Even) + (if c == Even then [data[i]] else [])
    ensures Bucket(data[..i + 1], Classify, Special) ==
      Bucket(data[..i], Classify, Special) + (if c == Special then [data[i]] else [])
    ensures Uppercased(Bucket(data[..i + 1], Classify, Alphabetic)) ==
      Uppercased(Bucket(data[..i], Classify, Alphabetic)) + (if c == Alphabetic then [UpperStr(data[i])] else [])
    ensures AlphabetChars(data[..i + 1]) ==
      AlphabetChars(data[..i]) + (if c == Alphabetic then data[i] else [])
    ensures TokenSum(data[..i + 1]) == TokenSum(data[..i]) + Contribution(data[i])
  {
    var s := data[..i + 1];
    assert s[..i] == data[..i];
    var b := Bucket(data[..i], Classify, Alphabetic);
    if c == Alphabetic {
      assert Bucket(s, Classify, Alphabetic) == b + [data[i]];
      assert Uppercased(b + [data[i]]) == Uppercased(b) + [UpperStr(data[i])];
    } else {
      assert Bucket(s, Classify, Alphabetic) == b;
    }
  }

  /** The numeric test of the classification loop: !isNaN(s) && !isNaN(parseFloat(s)) && s.trim() !== ''. */
  method IsNumber(s: string) returns (b: bool)
    ensures b == IsNumericToken(s)
  {
    b := NumericTest(s);
    NumericTokenIsLiteral(s);
  }

  /** The second forEach: even positions lower-cased, odd positions upper-cased, appended with +=. */
  method AlternateCaseOf(buffer: array<char>) returns (concatString: string)
    ensures concatString == AlternateCase(buffer[..])
  {
    concatString := "";
    for index := 0 to buffer.Length
      invariant |concatString| == index
      invariant forall k :: 0 <= k < index ==> concatString[k] == AlternateAt(buffer[k], k)
    {
      if index % 2 == 0 {
        concatString := concatString + [ToLower(buffer[index])];
      } else {
        concatString := concatString + [ToUpper(buffer[index])];
      }
    }
  }

  /**
   * The forEach callback for one item: pushes itemStr onto the bucket of its
   * category, adds a number to the sum and copies a word's letters into the
   * buffer, leaving everything else as it was.
   */
  method VisitItem(itemStr: string, oddIn: seq<string>, evenIn: seq<string>, alphabetsIn: seq<string>,
                   specialIn: seq<string>, sumIn: int, charsIn: string)
    returns (oddNumbers: seq<string>, evenNumbers: seq<string>, alphabets: seq<string>,
             specialCharacters: seq<string>, sum: int, alphabetChars: string)
    ensures oddNumbers == oddIn + (if Classify(itemStr) == Odd then [itemStr] else [])
    ensures evenNumbers == evenIn + (if Classify(itemStr) == Even then [itemStr] else [])
    ensures alphabets == alphabetsIn + (if Classify(itemStr) == Alphabetic then [UpperStr(itemStr)] else [])
    ensures specialCharacters == specialIn + (if Classify(itemStr) == Special then [itemStr] else [])
    ensures sum == sumIn + Contribution(itemStr)
    ensures alphabetChars == charsIn + (if Classify(itemStr) == Alphabetic then itemStr else [])
  {
    oddNumbers, evenNumbers, alphabets, specialCharacters, sum, alphabetChars :=
      oddIn, evenIn, alphabetsIn, specialIn, sumIn, charsIn;
    var isNumber := IsNumber(itemStr);
    if isNumber {
      NumericBranch(itemStr);
      var num := ParseInt(itemStr).value;
      sum := sum + num;
      if num % 2 == 0 {
        evenNumbers := evenNumbers + [itemStr];
      } else {
        oddNumbers := oddNumbers + [itemStr];
      }
    } else if IsAlphabeticToken(itemStr) {
      AlphabeticBranch(itemStr);
      alphabets := alphabets + [UpperStr(itemStr)];
      for j := 0 to |itemStr|
        invariant alphabetChars == charsIn + itemStr[..j]
      {
        assert itemStr[..j + 1] == itemStr[..j] + [itemStr[j]];
        alphabetChars := alphabetChars + [itemStr[j]];
      }
      assert itemStr[..|itemStr|] == itemStr;
    } else {
      SpecialBranch(itemStr);
      specialCharacters := specialCharacters + [itemStr];
    }
  }

  /** The first forEach of processData: every token goes to exactly one bucket, numbers add to the sum, letters go to the buffer. */
  method ClassifyAll(data: seq<string>)
    returns (oddNumbers: seq<string>, evenNumbers: seq<string>, alphabets: seq<string>,
             specialCharacters: seq<string>, sum: int, alphabetChars: string)
    ensures oddNumbers == Bucket(data, Classify, Odd)
    ensures evenNumbers == Bucket(data, Classify, Even)
    ensures alphabets == Uppercased(Bucket(data, Classify, Alphabetic))
    ensures specialCharacters == Bucket(data, Classify, Special)
    ensures sum == TokenSum(data)
    ensures alphabetChars == AlphabetChars(data)
  {
    oddNumbers, evenNumbers, alphabets, specialCharacters, sum, alphabetChars := [], [], [], [], 0, [];
    for i := 0 to |data|
      invariant oddNumbers == Bucket(data[..i], Classify, Odd)
      invariant evenNumbers == Bucket(data[..i], Classify, Even)
      invariant alphabets == Uppercased(Bucket(data[..i], Classify, Alphabetic))
      invariant specialCharacters == Bucket(data[..i], Classify, Special)
      invariant sum == TokenSum(data[..i])
      invariant alphabetChars == AlphabetChars(data[..i])
    {
      Advance(data, i, Classify(data[i]));
      oddNumbers, evenNumbers, alphabets, specialCharacters, sum, alphabetChars :=
        VisitItem(data[i], oddNumbers, evenNumbers, alphabets, specialCharacters, sum, alphabetChars);
    }
    assert data[..|data|] == data;
  }

  /** processData(data), with data the tokens after String(item). */
  method ProcessData(data: seq<string>) returns (r: Output)
    ensures r == Process(data)
  {
    var oddNumbers, evenNumbers, alphabets, specialCharacters, sum, alphabetChars := ClassifyAll(data);
    var buffer := new char[|alphabetChars|](k requires 0 <= k < |alphabetChars| => alphabetChars[k]);
    assert buffer[..] == alphabetChars;
    ReverseInPlace(buffer);
    assert buffer[..] == Reverse(alphabetChars);
    var concatString := AlternateCaseOf(buffer);
    r := Output(oddNumbers, evenNumbers, alphabets, specialCharacters, IntToString(sum), concatString);
  }
}
