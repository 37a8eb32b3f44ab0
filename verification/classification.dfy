/**
 * What processData (server.js) computes, stated as pure functions of the
 * input tokens, and the properties of that result: the four buckets
 * partition the input and keep its order, the sum is the sum of the numeric
 * tokens' integer parts, and concatString is the reversed letter buffer in
 * alternating case.
 *
 * Tokens are the strings String(item) produces; the conversion itself
 * belongs to the caller.
 */
module Classification {
  import opened JsText

  /** The bucket a token is pushed into. */
  datatype Category = Odd | Even | Alphabetic | Special

  /** The object processData returns. */
  datatype Output = Output(
    oddNumbers: seq<string>,
    evenNumbers: seq<string>,
    alphabets: seq<string>,
    specialCharacters: seq<string>,
    sum: string,
    concatString: string)

  /** The test /^[a-zA-Z]+$/. */
  predicate IsAlphabeticToken(s: string) {
    |s| > 0 && AllLetters(s)
  }

  predicate AllLetters(s: string) {
    s == [] || (IsAsciiLetter(s[0]) && AllLetters(s[1..]))
  }

  /** AllLetters, character by character. */
  lemma {:induction false} AllLettersAt(s: string)
    ensures AllLetters(s) <==> forall i :: 0 <= i < |s| ==> IsAsciiLetter(s[i])
  {
    if s != [] {
      AllLettersAt(s[1..]);
      assert forall i :: 1 <= i < |s| ==> s[i] == s[1..][i - 1];
    }
  }

  /** The if / else if / else chain of the classification loop: the numeric test comes first. */
  function Classify(t: string): Category {
    if IsNumericToken(t) then
      (if IntValue(t) % 2 == 0 then Even else Odd)
    else if IsAlphabeticToken(t) then Alphabetic
    else Special
  }

  /** The numeric branch: the token is pushed by the parity of parseInt and added to the sum. */
  lemma NumericBranch(t: string)
    requires IsNumericToken(t)
    ensures ParseInt(t).Some?
    ensures Classify(t) == if ParseInt(t).value % 2 == 0 then Even else Odd
    ensures Contribution(t) == ParseInt(t).value
  {
    NumericTokenParses(t);
  }

  /**
   * The alphabetic branch, taken only when the numeric test fails. This only
   * unfolds Classify; VisitItem calls it to name the branch it is in.
   */
  lemma AlphabeticBranch(t: string)
    requires !IsNumericToken(t) && IsAlphabeticToken(t)
    ensures Classify(t) == Alphabetic && Contribution(t) == 0
  {
  }

  /** The fallback branch, taken when both tests fail; like AlphabeticBranch, an unfolding of Classify. */
  lemma SpecialBranch(t: string)
    requires !IsNumericToken(t) && !IsAlphabeticToken(t)
    ensures Classify(t) == Special && Contribution(t) == 0
  {
  }

  /** The elements of s whose key is c, in their original order. */
  function Bucket<T>(s: seq<T>, key: T -> Category, c: Category): (b: seq<T>)
    ensures |b| <= |s|
    ensures forall k :: 0 <= k < |b| ==> key(b[k]) == c
  {
    if s == [] then []
    else Bucket(s[..|s| - 1], key, c) + (if key(s[|s| - 1]) == c then [s[|s| - 1]] else [])
  }

  /** alphabets: each alphabetic token upper-cased. */
  function Uppercased(ts: seq<string>): (r: seq<string>)
    ensures |r| == |ts|
  {
    seq(|ts|, k requires 0 <= k < |ts| => UpperStr(ts[k]))
  }

  /** What a token adds to the sum: parseInt of a numeric token, nothing otherwise. */
  function Contribution(t: string): int {
    if IsNumericToken(t) then IntValue(t) else 0
  }

  /** The values of the elements of s, added up in order. */
  function SumOf<T>(s: seq<T>, value: T -> int): int {
    if s == [] then 0 else SumOf(s[..|s| - 1], value) + value(s[|s| - 1])
  }

  /** The running sum at the end of the classification loop. */
  function TokenSum(ts: seq<string>): int {
    SumOf(ts, Contribution)
  }

  /** The strings of ss joined end to end. */
  function Flatten(ss: seq<string>): (r: string)
    ensures ss == [] ==> r == []
  {
    if ss == [] then [] else Flatten(ss[..|ss| - 1]) + ss[|ss| - 1]
  }

  /** alphabetChars before the reversal: every letter of every alphabetic token, in order. */
  function AlphabetChars(ts: seq<string>): string {
    Flatten(Bucket(ts, Classify, Alphabetic))
  }

  function Reverse(s: string): (r: string)
    ensures |r| == |s|
    ensures forall i :: 0 <= i < |s| ==> r[i] == s[|s| - 1 - i]
  {
    if s == [] then [] else Reverse(s[1..]) + [s[0]]
  }

  /** The case a character of concatString gets at position i. */
  function AlternateAt(c: char, i: nat): char {
    if i % 2 == 0 then ToLower(c) else ToUpper(c)
  }

  function AlternateCase(s: string): (r: string)
    ensures |r| == |s|
  {
    seq(|s|, i requires 0 <= i < |s| => AlternateAt(s[i], i))
  }

  /** The specification of processData. */
  function Process(ts: seq<string>): Output {
    Output(
      Bucket(ts, Classify, Odd),
      Bucket(ts, Classify, Even),
      Uppercased(Bucket(ts, Classify, Alphabetic)),
      Bucket(ts, Classify, Special),
      IntToString(TokenSum(ts)),
      AlternateCase(Reverse(AlphabetChars(ts))))
  }

  // ---------------------------------------------------------------------
  // Buckets in general: partition, membership, order

  lemma BucketSnoc<T>(s: seq<T>, key: T -> Category, c: Category)
    requires s != []
    ensures multiset(Bucket(s, key, c)) == multiset(Bucket(s[..|s| - 1], key, c)) +
      (if key(s[|s| - 1]) == c then multiset{s[|s| - 1]} else multiset{})
  {
  }

  /** Adding x to the bucket of its category adds it once to the union of the four. */
  lemma AddToOneBucket<T>(odd: multiset<T>, even: multiset<T>, alpha: multiset<T>, special: multiset<T>, x: T, c: Category)
    ensures (odd + (if c == Odd then multiset{x} else multiset{})) +
            (even + (if c == Even then multiset{x} else multiset{})) +
            (alpha + (if c == Alphabetic then multiset{x} else multiset{})) +
            (special + (if c == Special then multiset{x} else multiset{}))
            == odd + even + alpha + special + multiset{x}
  {
  }

  /** The four buckets together are s, as a multiset: nothing dropped, nothing counted twice. */
  lemma {:induction false} BucketsPartition<T>(s: seq<T>, key: T -> Category)
    ensures multiset(Bucket(s, key, Odd)) + multiset(Bucket(s, key, Even)) +
            multiset(Bucket(s, key, Alphabetic)) + multiset(Bucket(s, key, Special)) == multiset(s)
  {
    if s != [] {
      var init, last := s[..|s| - 1], s[|s| - 1];
      assert s == init + [last];
      BucketsPartition(init, key);
      BucketSnoc(s, key, Odd);
      BucketSnoc(s, key, Even);
      BucketSnoc(s, key, Alphabetic);
      BucketSnoc(s, key, Special);
      AddToOneBucket(multiset(Bucket(init, key, Odd)), multiset(Bucket(init, key, Even)),
                     multiset(Bucket(init, key, Alphabetic)), multiset(Bucket(init, key, Special)),
                     last, key(last));
    }
  }

  /** An element is in bucket c exactly when it is an element of s whose key is c. */
  lemma {:induction false} BucketMembership<T>(s: seq<T>, key: T -> Category, c: Category, x: T)
    ensures x in Bucket(s, key, c) <==> x in s && key(x) == c
  {
    if s != [] {
      var init, last := s[..|s| - 1], s[|s| - 1];
      assert s == init + [last];
      BucketMembership(init, key, c, x);
    }
  }

  /**
   * Where each element of bucket c sits in s. The positions increase, so the
   * bucket keeps the order of s, and every element whose key is c has one.
   */
  function Positions<T>(s: seq<T>, key: T -> Category, c: Category): (idx: seq<nat>)
    ensures |idx| == |Bucket(s, key, c)|
    ensures forall k :: 0 <= k < |idx| ==> idx[k] < |s| && Bucket(s, key, c)[k] == s[idx[k]]
    ensures forall k, l :: 0 <= k < l < |idx| ==> idx[k] < idx[l]
    ensures forall i :: 0 <= i < |s| && key(s[i]) == c ==> i in idx
  {
    if s == [] then []
    else
      var init, last := s[..|s| - 1], s[|s| - 1];
      var prev := Positions(init, key, c);
      assert s == init + [last];
      PositionsSnoc(init, last, key, c, prev);
      prev + (if key(last) == c then [|s| - 1] else [])
  }

  /** One step of Positions: the positions in init, plus the last index when its key is c. */
  lemma PositionsSnoc<T>(init: seq<T>, last: T, key: T -> Category, c: Category, prev: seq<nat>)
    requires |prev| == |Bucket(init, key, c)|
    requires forall k :: 0 <= k < |prev| ==> prev[k] < |init| && Bucket(init, key, c)[k] == init[prev[k]]
    requires forall k, l :: 0 <= k < l < |prev| ==> prev[k] < prev[l]
    requires forall i :: 0 <= i < |init| && key(init[i]) == c ==> i in prev
    ensures var s, idx := init + [last], prev + (if key(last) == c then [|init|] else []);
      && |idx| == |Bucket(s, key, c)|
      && (forall k :: 0 <= k < |idx| ==> idx[k] < |s| && Bucket(s, key, c)[k] == s[idx[k]])
      && (forall k, l :: 0 <= k < l < |idx| ==> idx[k] < idx[l])
      && (forall i :: 0 <= i < |s| && key(s[i]) == c ==> i in idx)
  {
    var s := init + [last];
    assert s[..|init|] == init;
    assert forall i :: 0 <= i < |init| ==> init[i] == s[i];
  }

  // ---------------------------------------------------------------------
  // The buckets of processData

  /** Every input token lands in exactly one of the four buckets. */
  lemma Partition(ts: seq<string>)
    ensures multiset(Process(ts).oddNumbers) + multiset(Process(ts).evenNumbers) +
            multiset(Bucket(ts, Classify, Alphabetic)) + multiset(Process(ts).specialCharacters) == multiset(ts)
    ensures |Process(ts).oddNumbers| + |Process(ts).evenNumbers| +
            |Process(ts).alphabets| + |Process(ts).specialCharacters| == |ts|
  {
    BucketsPartition(ts, Classify);
    var whole := multiset(Bucket(ts, Classify, Odd)) + multiset(Bucket(ts, Classify, Even)) +
                 multiset(Bucket(ts, Classify, Alphabetic)) + multiset(Bucket(ts, Classify, Special));
    assert |whole| == |multiset(ts)|;
  }

  /**
   * The branches of the loop body, in the source's own tests: a numeric token
   * goes to evenNumbers or oddNumbers by the parity of its integer part;
   * anything that is neither numeric nor all letters goes to
   * specialCharacters verbatim.
   */
  lemma Branches(ts: seq<string>, t: string)
    ensures t in Process(ts).evenNumbers <==> t in ts && IsNumericToken(t) && IntValue(t) % 2 == 0
    ensures t in Process(ts).oddNumbers <==> t in ts && IsNumericToken(t) && IntValue(t) % 2 == 1
    ensures t in Process(ts).specialCharacters <==> t in ts && !IsNumericToken(t) && !IsAlphabeticToken(t)
  {
    BucketMembership(ts, Classify, Even, t);
    BucketMembership(ts, Classify, Odd, t);
    BucketMembership(ts, Classify, Special, t);
  }

  /**
   * alphabets holds exactly the upper-cased forms of the input tokens that
   * fail the numeric test and are all letters.
   */
  lemma AlphabetsMembership(ts: seq<string>, t: string)
    ensures t in ts && !IsNumericToken(t) && IsAlphabeticToken(t) ==> UpperStr(t) in Process(ts).alphabets
    ensures t in Process(ts).alphabets ==>
      exists w :: w in ts && !IsNumericToken(w) && IsAlphabeticToken(w) && t == UpperStr(w)
  {
    var b := Bucket(ts, Classify, Alphabetic);
    if t in ts && !IsNumericToken(t) && IsAlphabeticToken(t) {
      BucketMembership(ts, Classify, Alphabetic, t);
      var k :| 0 <= k < |b| && b[k] == t;
      assert Process(ts).alphabets[k] == UpperStr(t);
    }
    if t in Process(ts).alphabets {
      var k :| 0 <= k < |b| && Process(ts).alphabets[k] == t;
      var w := b[k];
      BucketMembership(ts, Classify, Alphabetic, w);
      assert Classify(w) == Alphabetic;
      assert w in ts && !IsNumericToken(w) && IsAlphabeticToken(w) && t == UpperStr(w);
    }
  }

  /** Every entry of alphabets is a non-empty run of upper-case letters. */
  lemma AlphabetsAreUpperCase(ts: seq<string>)
    ensures forall k :: 0 <= k < |Process(ts).alphabets| ==>
      |Process(ts).alphabets[k]| > 0 &&
      forall j :: 0 <= j < |Process(ts).alphabets[k]| ==> IsUpper(Process(ts).alphabets[k][j])
  {
    var b := Bucket(ts, Classify, Alphabetic);
    forall k | 0 <= k < |b|
      ensures |b[k]| > 0 && forall j :: 0 <= j < |b[k]| ==> IsAsciiLetter(b[k][j])
    {
      assert Classify(b[k]) == Alphabetic;
      AllLettersAt(b[k]);
    }
  }

  /**
   * Within the numeric grammar of this model no token passes both tests, so
   * the numeric test's priority never takes a token away from alphabets.
   */
  lemma NumericIsNotAlphabetic(t: string)
    requires IsNumericToken(t)
    ensures !IsAlphabeticToken(t)
  {
    var s := TrimStart(t);
    var b := Trim(t);
    TrimStartFacts(t);
    TrimIsPrefixOfTrimStart(t);
    var sl := SignLength(b);
    assert DigitRun(b[sl..]) > 0;
    assert IsDigit(b[sl]) by { assert b[sl..][..1][0] == b[sl]; }
    assert b[sl] == s[sl];
    assert s[sl] == t[|t| - |s| + sl];
  }

  // ---------------------------------------------------------------------
  // The sum

  /** Splitting a sum by bucket: when only Odd and Even elements have a value, the sum is theirs. */
  lemma {:induction false} SumOfBuckets<T>(s: seq<T>, key: T -> Category, value: T -> int)
    requires forall x :: key(x) == Alphabetic || key(x) == Special ==> value(x) == 0
    ensures SumOf(s, value) == SumOf(Bucket(s, key, Odd), value) + SumOf(Bucket(s, key, Even), value)
  {
    if s != [] {
      var init, last := s[..|s| - 1], s[|s| - 1];
      SumOfBuckets(init, key, value);
      assert SumOf(s, value) == SumOf(init, value) + value(last);
      if key(last) == Odd {
        assert Bucket(s, key, Odd) == Bucket(init, key, Odd) + [last];
        assert Bucket(s, key, Even) == Bucket(init, key, Even);
        SumOfSnoc(Bucket(init, key, Odd), last, value);
      } else if key(last) == Even {
        assert Bucket(s, key, Odd) == Bucket(init, key, Odd);
        assert Bucket(s, key, Even) == Bucket(init, key, Even) + [last];
        SumOfSnoc(Bucket(init, key, Even), last, value);
      } else {
        assert Bucket(s, key, Odd) == Bucket(init, key, Odd);
        assert Bucket(s, key, Even) == Bucket(init, key, Even);
      }
    }
  }

  lemma SumOfSnoc<T>(s: seq<T>, x: T, value: T -> int)
    ensures SumOf(s + [x], value) == SumOf(s, value) + value(x)
  {
    assert (s + [x])[..|s|] == s;
  }

  /** A sum of values whose parity is fixed by the key is odd exactly when the Odd bucket has odd size. */
  lemma {:induction false} SumParityOf<T>(s: seq<T>, key: T -> Category, value: T -> int)
    requires forall x :: key(x) == Odd ==> value(x) % 2 == 1
    requires forall x :: key(x) != Odd ==> value(x) % 2 == 0
    ensures SumOf(s, value) % 2 == |Bucket(s, key, Odd)| % 2
  {
    if s != [] {
      SumParityOf(s[..|s| - 1], key, value);
    }
  }

  /** The sum is the sum over oddNumbers plus the sum over evenNumbers. */
  lemma SumSplitsByParity(ts: seq<string>)
    ensures TokenSum(ts) ==
      SumOf(Process(ts).oddNumbers, Contribution) + SumOf(Process(ts).evenNumbers, Contribution)
  {
    forall x | Classify(x) == Alphabetic || Classify(x) == Special ensures Contribution(x) == 0 {
    }
    SumOfBuckets(ts, Classify, Contribution);
  }

  /** The sum is odd exactly when oddNumbers has an odd number of entries. */
  lemma SumParity(ts: seq<string>)
    ensures TokenSum(ts) % 2 == |Process(ts).oddNumbers| % 2
  {
    forall x | Classify(x) == Odd ensures Contribution(x) % 2 == 1 {
    }
    forall x | Classify(x) != Odd ensures Contribution(x) % 2 == 0 {
    }
    SumParityOf(ts, Classify, Contribution);
  }

  /** The sum string is the decimal form of TokenSum: it reads back as that integer. */
  lemma SumString(ts: seq<string>)
    ensures IsNumericToken(Process(ts).sum)
    ensures IntValue(Process(ts).sum) == TokenSum(ts)
    ensures TokenSum(ts) >= 0 ==> AllDigits(Process(ts).sum)
  {
    IntToStringRoundTrip(TokenSum(ts));
  }

  // ---------------------------------------------------------------------
  // concatString

  lemma {:induction false} FlattenLetters(ss: seq<string>)
    requires forall k :: 0 <= k < |ss| ==> IsAlphabeticToken(ss[k])
    ensures forall i :: 0 <= i < |Flatten(ss)| ==> IsAsciiLetter(Flatten(ss)[i])
  {
    if ss != [] {
      FlattenLetters(ss[..|ss| - 1]);
      AllLettersAt(ss[|ss| - 1]);
    }
  }

  lemma {:induction false} UpperFlatten(ss: seq<string>)
    ensures UpperStr(Flatten(ss)) == Flatten(Uppercased(ss))
  {
    if ss != [] {
      var init := ss[..|ss| - 1];
      UpperFlatten(init);
      assert Uppercased(ss)[..|ss| - 1] == Uppercased(init);
      assert UpperStr(Flatten(init) + ss[|ss| - 1]) == UpperStr(Flatten(init)) + UpperStr(ss[|ss| - 1]);
    }
  }

  /** The alphabetic bucket holds only all-letter tokens, so the buffer holds only letters. */
  lemma BufferIsLetters(ts: seq<string>)
    ensures forall i :: 0 <= i < |AlphabetChars(ts)| ==> IsAsciiLetter(AlphabetChars(ts)[i])
  {
    var b := Bucket(ts, Classify, Alphabetic);
    forall k | 0 <= k < |b|
      ensures |b[k]| > 0 && forall j :: 0 <= j < |b[k]| ==> IsAsciiLetter(b[k][j])
    {
      assert Classify(b[k]) == Alphabetic;
      AllLettersAt(b[k]);
    }
    FlattenLetters(b);
  }

  /**
   * The reversed, alternating-case form of a run of letters: character i is
   * letter n-1-i, lower-cased at even i and upper-cased at odd i.
   */
  lemma AlternateReverseShape(letters: string)
    requires forall i :: 0 <= i < |letters| ==> IsAsciiLetter(letters[i])
    ensures |AlternateCase(Reverse(letters))| == |letters|
    ensures forall i :: 0 <= i < |letters| ==>
      AlternateCase(Reverse(letters))[i] ==
        (var c := letters[|letters| - 1 - i];
         if i % 2 == 0 then ToLower(c) else ToUpper(c))
    ensures forall i :: 0 <= i < |letters| ==>
      (i % 2 == 0 ==> IsLower(AlternateCase(Reverse(letters))[i])) &&
      (i % 2 == 1 ==> IsUpper(AlternateCase(Reverse(letters))[i]))
    ensures UpperStr(AlternateCase(Reverse(letters))) == Reverse(UpperStr(letters))
  {
    var r := AlternateCase(Reverse(letters));
    var up := UpperStr(r);
    var want := Reverse(UpperStr(letters));
    forall i | 0 <= i < |letters| ensures up[i] == want[i] {
      UpperLowerAgree(letters[|letters| - 1 - i]);
    }
  }

  /**
   * concatString has one character per letter of the alphabetic tokens;
   * character i is letter n-1-i of the buffer, lower-cased at even i and
   * upper-cased at odd i.
   */
  lemma ConcatShape(ts: seq<string>)
    ensures |Process(ts).concatString| == |AlphabetChars(ts)|
    ensures forall i :: 0 <= i < |AlphabetChars(ts)| ==>
      Process(ts).concatString[i] ==
        (var c := AlphabetChars(ts)[|AlphabetChars(ts)| - 1 - i];
         if i % 2 == 0 then ToLower(c) else ToUpper(c))
    ensures forall i :: 0 <= i < |Process(ts).concatString| ==>
      (i % 2 == 0 ==> IsLower(Process(ts).concatString[i])) &&
      (i % 2 == 1 ==> IsUpper(Process(ts).concatString[i]))
  {
    BufferIsLetters(ts);
    AlternateReverseShape(AlphabetChars(ts));
  }

  /**
   * Ignoring case, concatString is the letters of alphabets joined and read
   * backwards.
   */
  lemma ConcatIgnoringCase(ts: seq<string>)
    ensures UpperStr(Process(ts).concatString) == Reverse(Flatten(Process(ts).alphabets))
  {
    BufferIsLetters(ts);
    AlternateReverseShape(AlphabetChars(ts));
    UpperFlatten(Bucket(ts, Classify, Alphabetic));
  }

  // ---------------------------------------------------------------------
  // Examples

  /** An empty data array gives empty buckets, sum "0" and an empty concatString. */
  lemma EmptyInput()
    ensures Process([]) == Output([], [], [], [], "0", "")
  {
  }

  /** A word of letters is never numeric, so it always reaches alphabets. */
  lemma WordToken(w: string)
    requires IsAlphabeticToken(w)
    ensures Classify(w) == Alphabetic && Contribution(w) == 0
  {
    if IsNumericToken(w) {
      NumericIsNotAlphabetic(w);
    }
  }

  /**
   * The decimal form of any integer, negative ones included ("-5"), is
   * numeric, lands in the bucket of its parity and adds itself to the sum.
   */
  lemma IntegerToken(n: int)
    ensures Classify(IntToString(n)) == (if n % 2 == 0 then Even else Odd)
    ensures Contribution(IntToString(n)) == n
  {
    IntToStringRoundTrip(n);
  }

  /** Input made only of words: all of it goes to alphabets, in order, and the sum is "0". */
  lemma WordsOnly(ts: seq<string>)
    requires forall k :: 0 <= k < |ts| ==> IsAlphabeticToken(ts[k])
    ensures Process(ts) == Output([], [], Uppercased(ts), [], "0", AlternateCase(Reverse(Flatten(ts))))
  {
    WordBuckets(ts);
  }

  lemma WordBuckets(ts: seq<string>)
    requires forall k :: 0 <= k < |ts| ==> IsAlphabeticToken(ts[k])
    ensures Bucket(ts, Classify, Alphabetic) == ts
    ensures Bucket(ts, Classify, Odd) == [] && Bucket(ts, Classify, Even) == [] && Bucket(ts, Classify, Special) == []
    ensures TokenSum(ts) == 0
  {
    forall k | 0 <= k < |ts| ensures Classify(ts[k]) == Alphabetic && Contribution(ts[k]) == 0 {
      WordToken(ts[k]);
    }
    SingleCategory(ts, Classify, Contribution, Alphabetic);
    assert Bucket(ts, Classify, Odd) == [];
    assert Bucket(ts, Classify, Even) == [];
    assert Bucket(ts, Classify, Special) == [];
  }

  /** When every element has key c and value 0, bucket c is everything, the others are empty and the sum is 0. */
  lemma {:induction false} SingleCategory<T>(s: seq<T>, key: T -> Category, value: T -> int, c: Category)
    requires forall k :: 0 <= k < |s| ==> key(s[k]) == c && value(s[k]) == 0
    ensures Bucket(s, key, c) == s
    ensures forall d | d != c :: Bucket(s, key, d) == []
    ensures SumOf(s, value) == 0
  {
    if s != [] {
      var init := s[..|s| - 1];
      SingleCategory(init, key, value, c);
      assert init + [s[|s| - 1]] == s;
    }
  }

  /** The string-level facts behind SingleWordExample. */
  lemma AbcLetters()
    ensures forall k :: 0 <= k < |["abc"]| ==> IsAlphabeticToken(["abc"][k])
    ensures Uppercased(["abc"]) == ["ABC"] && AlternateCase(Reverse(Flatten(["abc"]))) == "cBa"
  {
    AllLettersAt("abc");
    AbcText();
    assert ["abc"][..0] == [];
  }

  /** "abc" joined, reversed, case-alternated and upper-cased. */
  lemma AbcText()
    ensures Flatten(["abc"]) == "abc" && AlternateCase(Reverse("abc")) == "cBa" && UpperStr("abc") == "ABC"
  {
    assert ["abc"][..0] == [];
    assert Reverse("bc") == "cb";
    assert Reverse("abc") == "cba";
  }

  /** The string-level facts behind TwoWordsExample. */
  lemma ARLetters()
    ensures forall k :: 0 <= k < |["a", "R"]| ==> IsAlphabeticToken(["a", "R"][k])
    ensures Uppercased(["a", "R"]) == ["A", "R"] && AlternateCase(Reverse(Flatten(["a", "R"]))) == "rA"
  {
    AllLettersAt("a");
    AllLettersAt("R");
    assert ["a", "R"][..1] == ["a"];
    assert Flatten(["a", "R"]) == "aR";
    assert Reverse("aR") == "Ra";
    assert UpperStr("a") == "A" && UpperStr("R") == "R";
  }

  /** processData(["abc"]): alphabets ["ABC"], sum "0", concatString "cBa". */
  lemma SingleWordExample()
    ensures Process(["abc"]) == Output([], [], ["ABC"], [], "0", "cBa")
  {
    AbcLetters();
    WordsOnly(["abc"]);
  }

  /** processData(["a", "R"]): alphabets ["A", "R"], sum "0", concatString "rA". */
  lemma TwoWordsExample()
    ensures Process(["a", "R"]) == Output([], [], ["A", "R"], [], "0", "rA")
  {
    ARLetters();
    WordsOnly(["a", "R"]);
  }

  // The mixed example ["a", "1", "334", "4", "R", "$"], one token at a time.

  /** Appending one element extends bucket c by it when its key is c, and adds its value to the sum. */
  lemma Step<T>(p: seq<T>, x: T, key: T -> Category, value: T -> int)
    ensures forall c :: Bucket(p + [x], key, c) == Bucket(p, key, c) + (if key(x) == c then [x] else [])
    ensures SumOf(p + [x], value) == SumOf(p, value) + value(x)
  {
    assert (p + [x])[..|p|] == p;
  }

  /** "$" is neither numeric nor a word. */
  lemma DollarToken()
    ensures Classify("$") == Special && Contribution("$") == 0
  {
    TrimStartFacts("$");
    TrimEndFacts("$");
    assert Trim("$") == "$";
    assert SignLength("$") == 0;
    assert DigitRun("$") == 0;
    assert !IsDecimalLiteral("$");
    assert !AllLetters("$");
  }

  /** A literal written as the decimal form of n behaves as IntegerToken says. */
  lemma Numeral(t: string, n: int)
    requires t == IntToString(n)
    ensures Classify(t) == (if n % 2 == 0 then Even else Odd) && Contribution(t) == n
  {
    IntegerToken(n);
  }

  /** The buckets and sum of six elements with the categories of the mixed example. */
  lemma SixSteps<T>(x0: T, x1: T, x2: T, x3: T, x4: T, x5: T, key: T -> Category, value: T -> int)
    requires key(x0) == Alphabetic && key(x1) == Odd && key(x2) == Even
    requires key(x3) == Even && key(x4) == Alphabetic && key(x5) == Special
    ensures Bucket([x0, x1, x2, x3, x4, x5], key, Odd) == [x1]
    ensures Bucket([x0, x1, x2, x3, x4, x5], key, Even) == [x2, x3]
    ensures Bucket([x0, x1, x2, x3, x4, x5], key, Alphabetic) == [x0, x4]
    ensures Bucket([x0, x1, x2, x3, x4, x5], key, Special) == [x5]
    ensures SumOf([x0, x1, x2, x3, x4, x5], value) ==
      value(x0) + value(x1) + value(x2) + value(x3) + value(x4) + value(x5)
  {
    Step([], x0, key, value);
    assert [] + [x0] == [x0];
    Step([x0], x1, key, value);
    assert [x0] + [x1] == [x0, x1];
    Step([x0, x1], x2, key, value);
    assert [x0, x1] + [x2] == [x0, x1, x2];
    Step([x0, x1, x2], x3, key, value);
    assert [x0, x1, x2] + [x3] == [x0, x1, x2, x3];
    Step([x0, x1, x2, x3], x4, key, value);
    assert [x0, x1, x2, x3] + [x4] == [x0, x1, x2, x3, x4];
    Step([x0, x1, x2, x3, x4], x5, key, value);
    assert [x0, x1, x2, x3, x4] + [x5] == [x0, x1, x2, x3, x4, x5];
  }

  /** "1" is odd and adds 1. */
  lemma Token1()
    ensures Classify("1") == Odd && Contribution("1") == 1
  {
    Numeral("1", 1);
  }

  /** "334" is even and adds 334. */
  lemma Token334()
    ensures Classify("334") == Even && Contribution("334") == 334
  {
    assert NatToString(3) == "3";
    assert NatToString(33) == "33";
    assert NatToString(334) == "334";
    Numeral("334", 334);
  }

  /** "4" is even and adds 4. */
  lemma Token4()
    ensures Classify("4") == Even && Contribution("4") == 4
  {
    Numeral("4", 4);
  }

  /** "a" and "R" are words and add nothing. */
  lemma LetterTokens()
    ensures Classify("a") == Alphabetic && Contribution("a") == 0
    ensures Classify("R") == Alphabetic && Contribution("R") == 0
  {
    ARLetters();
    assert ["a", "R"][0] == "a" && ["a", "R"][1] == "R";
    WordToken("a");
    WordToken("R");
  }

  /** The buckets and sum of the mixed example. */
  lemma MixedBuckets()
    ensures Bucket(["a", "1", "334", "4", "R", "$"], Classify, Odd) == ["1"]
    ensures Bucket(["a", "1", "334", "4", "R", "$"], Classify, Even) == ["334", "4"]
    ensures Bucket(["a", "1", "334", "4", "R", "$"], Classify, Alphabetic) == ["a", "R"]
    ensures Bucket(["a", "1", "334", "4", "R", "$"], Classify, Special) == ["$"]
    ensures TokenSum(["a", "1", "334", "4", "R", "$"]) == 339
  {
    LetterTokens();
    Token1();
    Token334();
    Token4();
    DollarToken();
    SixSteps("a", "1", "334", "4", "R", "$", Classify, Contribution);
  }

  /** processData(["a", "1", "334", "4", "R", "$"]), the whole result. */
  lemma MixedExample()
    ensures Process(["a", "1", "334", "4", "R", "$"]) == Output(["1"], ["334", "4"], ["A", "R"], ["$"], "339", "rA")
  {
    MixedBuckets();
    ARLetters();
    MixedSumText();
  }

  /** sum.toString() for the mixed example. */
  lemma MixedSumText()
    ensures IntToString(339) == "339"
  {
    assert NatToString(3) == "3";
    assert NatToString(33) == "33";
  }
}
