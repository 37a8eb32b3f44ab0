# bfhl-api: processData in Dafny

The bfhl-api service has one endpoint, `POST /bfhl`. It takes an array `data`
and hands it to `processData` (server.js). That function walks the tokens once
and sorts each one into exactly one of four buckets:

- a token that passes JavaScript's numeric test goes to `oddNumbers` or
  `evenNumbers`, by the parity of `parseInt`, and is added to `sum`;
- a token that is all ASCII letters goes to `alphabets`, upper-cased, and its
  letters are appended to a buffer `alphabetChars`;
- anything else goes to `specialCharacters`, verbatim.

After the walk, `processData` reverses the letter buffer in place. It then
builds `concatString` from it: characters at even positions are lower-cased,
characters at odd positions are upper-cased. It returns the four buckets,
`sum.toString()` and `concatString`.

The project has three modules:

- `JsText` (jstext.dfy) holds the JavaScript built-ins that a token reaches:
  - `trim`;
  - `isNaN(s)`, `parseFloat` and `parseInt`, over a decimal grammar: optional
    whitespace, an optional sign, digits, and an optional `.` with digits;
  - `toUpperCase` and `toLowerCase` on ASCII letters;
  - `toString` on an integer.
- `Classification` (classification.dfy) holds `Process`, the specification of
  `processData` as pure functions, and the lemmas about it:
  - the buckets partition the input and keep its order;
  - the bucket tests and the order they run in;
  - the sum and its parity;
  - the shape of `concatString`, and that ignoring case it is the letters of
    `alphabets` read backwards.
- `Server` (server.dfy) holds `processData` as the source runs it:
  - a `for` loop whose body is the forEach callback;
  - an in-place reversal of a `char` array;
  - a second loop that builds `concatString`.

  Each method is proved to compute its part of `Process`; `ProcessData`
  computes all of it.

Every integer's decimal form is classified by its parity alone
(`Classification.IntegerToken`). So for `["abc", "123", "45"]` both `"123"`
and `"45"` go to `oddNumbers`.

## Model

| member | source | states |
|---|---|---|
| `Server.ProcessData` | server.js:24-78 | The returned object equals `Process(data)`: the four buckets, the sum string and `concatString` of the specification. |
| `Server.ClassifyAll` | server.js:25-57 | After the first forEach, each bucket is the in-order subsequence of `data` of its category. `alphabets` is the alphabetic subsequence upper-cased, `sum` is the sum of `parseInt` over numeric tokens, and the buffer holds every letter of every alphabetic token in order. |
| `Server.VisitItem` | server.js:32-56 | One callback pushes `itemStr` onto the bucket of its category and onto no other. It adds the token's `parseInt` to the sum when numeric and 0 otherwise, and appends a word's letters to the buffer. |
| `Server.Advance` | server.js:32-57 | For a prefix extended by one token of category c, every part of the specification grows exactly as one callback changes the corresponding variable. |
| `Server.IsNumber` | server.js:36 | The three-part test `!isNaN(s) && !isNaN(parseFloat(s)) && s.trim() !== ''` is true exactly for numeric tokens. |
| `Server.ReverseInPlace` | server.js:60 | After `reverse()` the array holds the reverse of its old contents. |
| `Server.AlternateCaseOf` | server.js:61-68 | `concatString` is the buffer with even positions lower-cased and odd positions upper-cased, one character per buffer entry. |
| `Classification.NumericBranch` | server.js:36-43 | A numeric token has a `parseInt` value. It goes to Even when that value is even and to Odd otherwise, and adds exactly that value to the sum. |
| `Classification.AlphabeticBranch` | server.js:46-51 | A token that fails the numeric test and is all letters goes to alphabets and adds nothing to the sum. |
| `Classification.SpecialBranch` | server.js:54-56 | A token that fails both tests goes to specialCharacters and adds nothing to the sum. |
| `Classification.Bucket` | server.js:40-55 | A bucket is no longer than the input, and every element in it has the bucket's category. |
| `Classification.AllLettersAt` | server.js:46 | The recursive letter test holds exactly when every character is an ASCII letter, as `/^[a-zA-Z]+$/` requires. |
| `Classification.Process` | server.js:24-78 | The specification of `processData`: the four buckets of `Classify` in input order, alphabets upper-cased, `sum.toString()` of `TokenSum`, and the alternating-case reverse of `AlphabetChars`. It has no contract of its own; the lemmas below and `Server.ProcessData` state what it guarantees. |
| `Classification.Classify` | server.js:36-56 | The if / else if / else chain: the numeric test first (Even or Odd by the parity of `parseInt`), then the letter test (Alphabetic), otherwise Special. No contract of its own; `NumericBranch`, `AlphabeticBranch`, `SpecialBranch` and `Branches` state its cases. |
| `Classification.IsAlphabeticToken` | server.js:46 | `/^[a-zA-Z]+$/`: the token is non-empty and made of ASCII letters only. No contract of its own; `AllLettersAt` states the character-by-character form. |
| `Classification.Uppercased` | server.js:47 | `alphabets.push(itemStr.toUpperCase())` over the whole loop: the list keeps its length and entry k is `toUpperCase` of token k. `AlphabetsMembership` and `UpperFlatten` state its properties. |
| `Classification.Contribution` | server.js:37-38 | What one callback adds to `sum`: `parseInt` of a numeric token, 0 otherwise. No contract of its own; `NumericBranch` and `WordToken` state its cases. |
| `Classification.TokenSum` | server.js:29-38 | `sum` after the classification loop: the contributions added up in input order. No contract of its own; `SumSplitsByParity` and `SumParity` state its properties. |
| `Classification.AlphabetChars` | server.js:30-51 | `alphabetChars` before the reversal: the letters of the alphabetic tokens joined in input order. No contract of its own; `BufferIsLetters` and `ConcatIgnoringCase` state its properties. |
| `Classification.Reverse` | server.js:60 | `Array.prototype.reverse`: the result has the same length and position i holds the character at n-1-i. |
| `Classification.AlternateCase` | server.js:61-68 | The second forEach: one character per buffer entry, so the length is kept. `ConcatShape` states the case of each position. |
| `Classification.BucketsPartition` | server.js:36-56 | For any keying, the four buckets together equal the input as a multiset: nothing is dropped and nothing is duplicated. |
| `Classification.BucketMembership` | server.js:36-56 | An element is in bucket c exactly when it occurs in the input and its category is c. |
| `Classification.Positions` | server.js:32-57 | Every bucket entry k is the input element at a position idx[k]. The positions strictly increase, so input order is kept, and every input position of that category is among them. |
| `Classification.PositionsSnoc` | server.js:32-57 | One more element keeps the positions of the shorter input valid and increasing, and adds the new last index exactly when that element has category c. |
| `Classification.Partition` | server.js:32-57 | The odd, even, alphabetic (before upper-casing) and special buckets together are the input as a multiset. The four output lists' lengths add up to the input length. |
| `Classification.Branches` | server.js:36-56 | A token is in evenNumbers, or oddNumbers, exactly when it is an input token that is numeric with an even, or odd, `parseInt`. It is in specialCharacters exactly when it is an input token that is neither numeric nor all letters. |
| `Classification.AlphabetsMembership` | server.js:46-47 | alphabets holds exactly the upper-cased forms of the input tokens that fail the numeric test and are all letters. |
| `Classification.AlphabetsAreUpperCase` | server.js:46-47 | Every entry of alphabets is non-empty and entirely upper-case. |
| `Classification.NumericIsNotAlphabetic` | server.js:36-46 | No numeric token is all letters, so the priority of the numeric test never takes a token away from alphabets. |
| `Classification.SumOfBuckets` | server.js:37-43 | When only Odd and Even elements carry a value, the total equals the sum over the Odd bucket plus the sum over the Even bucket. |
| `Classification.SumParityOf` | server.js:37-43 | When the values of Odd elements are odd and all others are even, the total is odd exactly when the Odd bucket has odd length. |
| `Classification.SumSplitsByParity` | server.js:37-43 | `sum` is the sum of `parseInt` over oddNumbers plus the sum over evenNumbers. |
| `Classification.SumParity` | server.js:37-43 | `sum` is odd exactly when oddNumbers has an odd number of entries. |
| `Classification.SumString` | server.js:75 | The sum string is numeric and reads back through `parseInt` as the sum. A non-negative sum is written in digits only. |
| `Classification.FlattenLetters` | server.js:49-51 | Joining all-letter tokens gives a string of letters only. |
| `Classification.UpperFlatten` | server.js:47-51 | Upper-casing the joined tokens equals joining the upper-cased tokens. |
| `Classification.BufferIsLetters` | server.js:46-51 | The letter buffer contains only ASCII letters. |
| `Classification.AlternateReverseShape` | server.js:60-68 | For a string of letters, the reversed alternating-case string has the same length. Position i holds letter n-1-i, lower-case at even i and upper-case at odd i. Upper-cased, it is the reverse of the upper-cased letters. |
| `Classification.ConcatShape` | server.js:59-68 | concatString has one character per buffered letter. Character i is buffer letter n-1-i, lower-case at even i and upper-case at odd i. |
| `Classification.ConcatIgnoringCase` | server.js:47-68 | Upper-cased, concatString is the concatenation of alphabets read backwards. |
| `Classification.EmptyInput` | server.js:24-78 | An empty array gives four empty buckets, sum `"0"` and an empty concatString. |
| `Classification.WordToken` | server.js:36-47 | Every all-letter token is classified Alphabetic and adds 0 to the sum. |
| `Classification.IntegerToken` | server.js:36-43 | The decimal form of any integer, negative ones included (`"-5"`), is classified by its parity and adds its own value to the sum. |
| `Classification.WordsOnly` | server.js:24-78 | For input made only of words, the result has empty number and special buckets, alphabets upper-cased in order, sum `"0"`, and concatString equal to the alternating-case reverse of the joined words. |
| `Classification.WordBuckets` | server.js:32-57 | For input made only of words, the alphabetic bucket is the whole input, the other buckets are empty and the sum is 0. |
| `Classification.SingleCategory` | server.js:32-57 | When every element has category c and value 0, bucket c is the whole input, every other bucket is empty and the sum is 0. |
| `Classification.AbcLetters` | server.js:46-68 | `"abc"` passes the letter test, upper-cases to `"ABC"`, and its reversed, alternating-case buffer is `"cBa"`. |
| `Classification.AbcText` | server.js:49-68 | The buffer of `["abc"]` is `"abc"`; reversed and case-alternated it is `"cBa"`; upper-cased it is `"ABC"`. |
| `Classification.ARLetters` | server.js:46-68 | `"a"` and `"R"` pass the letter test, upper-case to `"A"` and `"R"`, and their reversed, alternating-case buffer is `"rA"`. |
| `Classification.SingleWordExample` | server.js:24-78 | `processData(["abc"])` returns empty number and special buckets, alphabets `["ABC"]`, sum `"0"` and concatString `"cBa"`. |
| `Classification.TwoWordsExample` | server.js:24-78 | `processData(["a", "R"])` returns empty number and special buckets, alphabets `["A", "R"]`, sum `"0"` and concatString `"rA"`. |
| `Classification.Step` | server.js:32-57 | One more element extends only the bucket of its own key, by that element, and adds its value to the total. |
| `Classification.SixSteps` | server.js:32-57 | Six elements keyed Alphabetic, Odd, Even, Even, Alphabetic, Special land in buckets `[x1]`, `[x2, x3]`, `[x0, x4]`, `[x5]`, in order, and their values add up. |
| `Classification.DollarToken` | server.js:36-56 | `"$"` fails both tests, goes to specialCharacters and adds nothing. |
| `Classification.Numeral` | server.js:36-43 | A token written as the decimal form of n goes to Even or Odd by the parity of n and adds n. |
| `Classification.Token1` | server.js:36-43 | `"1"` goes to oddNumbers and adds 1. |
| `Classification.Token334` | server.js:36-43 | `"334"` goes to evenNumbers and adds 334. |
| `Classification.Token4` | server.js:36-43 | `"4"` goes to evenNumbers and adds 4. |
| `Classification.LetterTokens` | server.js:36-47 | `"a"` and `"R"` go to alphabets and add nothing. |
| `Classification.MixedBuckets` | server.js:32-57 | For `["a", "1", "334", "4", "R", "$"]` the buckets are `["1"]`, `["334", "4"]`, `["a", "R"]` (before upper-casing) and `["$"]`, and the sum is 339. |
| `Classification.MixedSumText` | server.js:75 | `(339).toString()` is `"339"`. |
| `Classification.MixedExample` | server.js:24-78 | `processData(["a", "1", "334", "4", "R", "$"])` returns oddNumbers `["1"]`, evenNumbers `["334", "4"]`, alphabets `["A", "R"]`, specialCharacters `["$"]`, sum `"339"` and concatString `"rA"`. |
| `JsText.UpperStr` | server.js:47 | `toUpperCase` on a string: same length, each character mapped by `ToUpper`. |
| `JsText.Trim` | server.js:36 | `trim()`: leading and trailing whitespace removed. No contract of its own; `TrimStartFacts` and `TrimEndFacts` state what each half removes. |
| `JsText.IsDecimalLiteral` | server.js:36 | The number grammar behind the numeric test: an optional sign, at least one digit, and optionally `.` with digits, with nothing else around it. No contract of its own; `NumericTokenIsLiteral` ties the three-part test to it. |
| `JsText.IsNumericToken` | server.js:36 | The numeric test as `Classify` branches on it: the trimmed token is a decimal literal. No contract of its own; `NumericTokenIsLiteral` proves it equal to the three-part test as written, and `Branches` and `AlphabetsMembership` are stated in its terms. |
| `JsText.IntValue` | server.js:37 | `const num = parseInt(itemStr)` for a numeric token, which is never NaN. No contract of its own; `NumericTokenParses` and `ParseFloatAndParseIntAgree` state its properties. |
| `JsText.NumberIsNaN` | server.js:36 | `isNaN(s)`: after trimming, the text is neither empty nor a decimal literal. No contract of its own; `NumericTokenIsLiteral` relates it to the model's numeric test. |
| `JsText.ParseFloat` | server.js:36 | `parseFloat(s)`: the longest decimal prefix after leading whitespace, or NaN. No contract of its own; `ParseFloatAndParseIntAgree` relates it to `ParseInt`. |
| `JsText.ParseInt` | server.js:37 | `parseInt(s)` in base 10: the sign and leading digits after leading whitespace, or NaN. No contract of its own; `NumericTokenParses` and `ParseFloatAndParseIntAgree` state its properties. |
| `JsText.NumericTest` | server.js:36 | The three-part test `!isNaN(s) && !isNaN(parseFloat(s)) && s.trim() !== ''` as written. No contract of its own; `NumericTokenIsLiteral` proves it equivalent to `IsNumericToken`. |
| `JsText.IntToString` | server.js:75 | `Number.prototype.toString` on an integer: a `-` for negatives, then the decimal digits. No contract of its own; `IntToStringRoundTrip` states the round trip. |
| `JsText.ToUpper` | server.js:47 | An ASCII letter becomes upper-case with the same alphabet position. Any other character is unchanged. |
| `JsText.ToLower` | server.js:64 | An ASCII letter becomes lower-case with the same alphabet position. Any other character is unchanged. |
| `JsText.TrimStartFacts` | server.js:36 | Trimming the start removes exactly a prefix of whitespace and leaves a string that does not start with whitespace. |
| `JsText.TrimEndFacts` | server.js:36 | Trimming the end removes exactly a suffix of whitespace and leaves a string that does not end with whitespace. |
| `JsText.NumericTokenIsLiteral` | server.js:36 | The three-part numeric test holds exactly when the trimmed token is a decimal literal, and then `parseInt` is not NaN. |
| `JsText.NumericTokenParses` | server.js:36-37 | `parseInt` reads a number from every numeric token. |
| `JsText.ParseFloatAndParseIntAgree` | server.js:36-37 | `parseInt` is NaN exactly when `parseFloat` is. Otherwise it is `parseFloat` truncated toward zero, so `"3.7"` adds 3 and `"-1.5"` adds -1. |
| `JsText.DigitsOfNat` | server.js:75 | The digits that `toString` writes for a natural number read back as that number. |
| `JsText.IntToStringRoundTrip` | server.js:75 | `sum.toString()` is already trimmed, is a numeric token, and reads back through `parseInt` as the sum. |

## Left out

- The HTTP layer is not modelled (server.js:1-13, 80-174): Express, helmet, cors, morgan, the routes, the 404 handler and the server start-up.
- The request handler's checks and error paths are not modelled: the 400 response for a missing or non-array `data` (server.js:86-91) and the 500 responses (server.js:113-119, 151-157).
- `USER_DETAILS` and `user_id` are not modelled (server.js:16-21, 96-110). They are constants copied into the response.
- `String(item)` (server.js:33) is not modelled. `data` is taken to be the sequence of strings it produces, so the model has no JSON numbers, booleans, nulls or nested values.
- The numeric test covers only decimal literals, with optional surrounding whitespace and an optional sign. JavaScript also accepts other forms:
  - `"Infinity"` is numeric in JavaScript. `parseInt` gives NaN, and `NaN % 2 === 0` is false, so it goes to `oddNumbers` and the sum becomes NaN. In the model it is a word in `alphabets`.
  - `".5"` is numeric in JavaScript and behaves like `"Infinity"`: `parseInt` gives NaN, it goes to `oddNumbers`, and the sum becomes NaN. In the model it is special.
  - `"5e3"` is numeric in JavaScript and adds 5 (odd); in the model it is special.
  - Hexadecimal, octal and binary prefixes (`"0x10"`) are numeric in JavaScript; in the model they are special.
- Numbers are exact integers and reals rather than IEEE doubles. The model does not capture precision loss past 2^53, or the sum becoming NaN or Infinity. The buckets differ accordingly:
  - An integer token of magnitude 2^53 or more parses in JavaScript to a double, and every such double is even, so the token goes to `evenNumbers`. For example, `"9007199254740993"` parses to 9007199254740992.
  - A digit string beyond about 1.8e308 parses to `Infinity`. `Infinity % 2` is NaN, so `num % 2 === 0` is false and the token goes to `oddNumbers`.
  - The model sorts all of these by the exact parity of the integer written (`Classification.IntegerToken`).
- `toUpperCase` and `toLowerCase` are modelled on ASCII letters only. Only letters reach them, because the alphabetic test admits `[a-zA-Z]` alone.
- `alphabetChars` is modelled as a sequence while it is filled. It is copied into a `char` array for the in-place `reverse()`, so the model does not capture sharing of the original JavaScript array.
- `sum.toString()` is modelled as plain decimal digits. JavaScript writes numbers of magnitude 1e21 and above in exponent form (`"1e+21"`), which the model does not produce.
