# hello-server, modelled in Dafny

hello-server is a small Go HTTP server. Most of it wires handlers into a
web framework. The model covers the part that computes something:

- `NumCheck`, the scan for an ASCII digit;
- the `/fizzbuzz` handler: validating `count` and building the
  FizzBuzz text line by line;
- the package-level counter `i`. `/incremental` increments it.
  `/fizzbuzz` overwrites it, because the parse result is assigned to
  `i` itself;
- the `/add` sum and the `/hello/:name` greeting.

Files:

- `strconv.dfy` (module `Strconv`): the parts of Go's `strconv.Atoi`,
  `strconv.Itoa` and `fmt.Sprint` that the handlers use. The string
  conversions are proved to round-trip.
- `fizzbuzz.dfy` (module `FizzBuzz`): `NumCheck` as a scanning loop,
  the handler's guard, and the rule for one line. It also holds the
  generation loop, proved against the recursive `FizzBuzzText`, and
  `Split`, which cuts a body at its newlines the way Go's
  `strings.Split` does.
- `hello_server.dfy` (module `HelloServer`): responses as status plus
  body, and the greeting and the sum.
  - `Handle` states what each counter request does to the counter and
    what it answers; `Responses` runs a sequence of such requests.
  - The class `Server` holds the counter. Its handler methods are
    proved equal to `Handle`.

Integers are mathematical. Nothing in the model performs I/O.

`NumCheck("12abc")` is true, so the digit scan alone would let
`count=12abc` through. But `strconv.Atoi("12abc")` fails and returns 0.
The `i < 1` test therefore rejects the request with 400 `BadRequest`,
and the counter becomes 0 (`HelloServer.FizzBuzzRejectsTrailingLetters`).

## Model

| member | source | states |
|---|---|---|
| `Strconv.Itoa` | hello-server/main.go:95 | the decimal form of a natural number is non-empty and all digits; it starts with '0' only for 0 itself ("0") |
| `Strconv.FormatInt` | hello-server/main.go:75 | the decimal form of an int is non-empty; it is all digits exactly when the value is non-negative and starts with '-' exactly when it is negative |
| `Strconv.ParseInt` | hello-server/main.go:80 | the syntax `strconv.Atoi` accepts: an optional '+' or '-' followed by one or more ASCII digits, with that value, and None for anything else; an accepted string always ends in a digit |
| `Strconv.Atoi` | hello-server/main.go:80 | `strconv.Atoi` with its error discarded: a syntax error gives 0, a well-formed string gives its value, and a non-zero result always comes from a well-formed string; its partners are `ParseFormatInt` (round trip) and `AtoiPositiveHasDigit` |
| `Strconv.DigitsValueItoa` | hello-server/main.go:95 | reading back the digits `Itoa` writes gives the number again |
| `Strconv.ParseFormatInt` | hello-server/main.go:75 | `Atoi` accepts every string `FormatInt` produces and returns the original value, negative ones included |
| `Strconv.AtoiPositiveHasDigit` | hello-server/main.go:80-82 | any string that `Atoi` reads as a value >= 1 contains an ASCII digit |
| `Strconv.AtoiExamples` | hello-server/main.go:80 | `Atoi` gives 0 for "", "abc", "12abc", "+", "-", " 7" and "0"; it gives -3 for "-3" and 15 for "+15" |
| `FizzBuzz.NumCheck` | hello-server/main.go:121-128 | answers true exactly when some character of the string is in '0'..'9', so false for the empty string; the loop returns at the first digit |
| `FizzBuzz.Rejected` | hello-server/main.go:79-84 | the handler's guard (no digit, or `Atoi(count) < 1`) holds exactly when `Atoi(count) < 1`, so the digit scan never decides alone |
| `FizzBuzz.RejectedExamples` | hello-server/main.go:79-84 | "", "abc", "0", "-3" and "12abc" are rejected; "15" and "+15" are accepted |
| `FizzBuzz.Line` | hello-server/main.go:88-95 | every line is non-empty and contains no newline, so the newlines in the body are exactly the line ends |
| `FizzBuzz.LineIsNumber` | hello-server/main.go:94-95 | a line for x that is a multiple of neither 3 nor 5 reads back through `Atoi` as x |
| `FizzBuzz.FizzBuzzText` | hello-server/main.go:86-97 | the body for count n: lines 1..n, each followed by "\n"; it is empty exactly when n < 1; its partners are `Generate`, `FizzBuzzPrefix` and `SplitFizzBuzzText` |
| `FizzBuzz.Generate` | hello-server/main.go:86-97 | the loop's result equals `FizzBuzzText(n)`; the loop invariant says that after the iteration for x the text holds lines 1..x; the result is empty for n < 1 |
| `FizzBuzz.FizzBuzzPrefix` | hello-server/main.go:87-96 | for m <= n, the body for count m is a prefix of the body for count n |
| `FizzBuzz.SplitFizzBuzzText` | hello-server/main.go:86-98 | the body for n splits at newlines into exactly n lines plus an empty tail after the last newline; line x (1-based) is `Line(x)` |
| `FizzBuzz.SplitAppendPiece` | hello-server/main.go:89-95 | appending newline-free text to a string extends its last newline-separated piece and leaves the earlier pieces unchanged |
| `FizzBuzz.SplitAppendLine` | hello-server/main.go:89-95 | appending a newline-free line plus "\n" to text that ends in a newline adds exactly that line as one more piece |
| `FizzBuzz.OneDigitLines` | hello-server/main.go:94-95 | lines 1, 2, 4, 7 and 8 are "1", "2", "4", "7" and "8" |
| `FizzBuzz.TwoDigitLines` | hello-server/main.go:94-95 | lines 11, 13 and 14 are "11", "13" and "14" |
| `FizzBuzz.FizzBuzzFifteen` | hello-server/main.go:88-95 | lines 1..15 are 1, 2, Fizz, 4, Buzz, Fizz, 7, 8, Fizz, Buzz, 11, Fizz, 13, 14, FizzBuzz |
| `HelloServer.HelloBody` | hello-server/main.go:62-65 | the greeting is "Hello, " then the name unchanged then ".\n", and is 9 characters longer than the name |
| `HelloServer.HelloBodyInjective` | hello-server/main.go:63-64 | two names with the same greeting are equal, so the name can be recovered from the greeting |
| `HelloServer.Add` | hello-server/main.go:115-116 | the answer minus `left` is `right`: the answer is the sum of the two operands and nothing else |
| `HelloServer.Handle` | hello-server/main.go:71-99 | one counter request. /incremental raises the counter by exactly 1 and answers 200 with a body that `Atoi` reads as the new value. /fizzbuzz sets the counter to `Atoi(count)`. Every answer is 200 or 400 |
| `HelloServer.Responses` | hello-server/main.go:71-99 | requests handled one after another, each starting from the counter the previous one left; one response per request |
| `HelloServer.IncrementalFirst` | hello-server/main.go:73-76 | a run starting with /incremental answers the decimal form of c+1 first, then continues from counter c+1 |
| `HelloServer.IncrementalRun` | hello-server/main.go:71-76 | n successive /incremental calls from counter c answer 200 with the decimal forms of c+1, ..., c+n |
| `HelloServer.IncrementalFromZero` | hello-server/main.go:71-76 | from the initial counter 0, the k-th /incremental call answers 200 with a body that `Atoi` reads as k |
| `HelloServer.FizzBuzzResponse` | hello-server/main.go:78-99 | /fizzbuzz answers 400 exactly when `Atoi(count) < 1`, with body "BadRequest"; otherwise it answers 200 with a body of exactly `Atoi(count)` newline-terminated lines, line x being `Line(x)` |
| `HelloServer.FizzBuzzResetsCounter` | hello-server/main.go:71-84 | /fizzbuzz leaves `Atoi(count)` in the shared counter, whatever the counter held and whether or not it rejects; the next /incremental then answers `Atoi(count) + 1` |
| `HelloServer.FizzBuzzRejectsTrailingLetters` | hello-server/main.go:79-84 | count "12abc" is answered 400 "BadRequest" and resets the counter to 0, from any counter value |
| `HelloServer.Server.constructor` | hello-server/main.go:71 | the counter starts at 0 |
| `HelloServer.Server.IncrementalHandler` | hello-server/main.go:73-76 | matches `Handle`: the counter goes up by exactly 1 and the body is the new value, which `Atoi` reads back |
| `HelloServer.Server.FizzBuzzHandler` | hello-server/main.go:78-99 | matches `Handle`: the counter is set to `Atoi(count)` before validation; it then runs `NumCheck` and the `< 1` test, and answers 400 or runs the generation loop |

## Left out

- Server start-up, routing, middleware and the listener on port 8080
  (hello-server/main.go:18-42): these are framework code and network
  I/O.
- The fixed-text handlers: `GET /hello`, `GET /ping` and `GET /json`.
  Each returns a constant with no logic.
- `c.Bind` and `c.JSON` in `/post` and `/add`. JSON decoding and
  encoding happen in library code that is not part of this model. So
  are the 400 answer on a bad body and `omitempty`. `HelloServer.Add`
  models only the sum computed after a successful bind.
- `HelloServer.Add`: does not model Go's 64-bit wrap-around of
  `Left + Right`. The answer is the mathematical sum.
- `Strconv.ParseInt`: does not model `strconv.Atoi`'s range error. Out
  of range, Go clamps the result to the largest or smallest int;
  here, any run of digits gives its mathematical value. Go's overflow
  test returns as soon as the digits read so far exceed
  18446744073709551615, the largest uint64, without reading the rest of
  the string. A count whose leading digits exceed that value, such as
  `"99999999999999999999abc"`, therefore gets the largest int whatever
  follows, or the smallest int after a '-'. Without a sign such a count
  is accepted, and the loop `x <= i` never ends because `x` wraps
  around; the model gives 0 and rejects it. A count whose leading digits
  stay within that value, such as `"10000000000000000000abc"`, fails
  with a syntax error and gets 0 in Go, as in the model.
- The counter is not synchronised. Concurrent requests can race on it.
  The model is sequential: requests are handled one after another
  (`HelloServer.Responses`).
- `NumCheck` iterates over Unicode code points (runes). The model
  treats strings as sequences of characters. This changes nothing,
  because only ASCII digits count.
- The loop in `fizzbuzzHandler` re-reads the package variable `i` on
  every iteration. `HelloServer.Server.FizzBuzzHandler` passes the value
  once to `FizzBuzz.Generate`. In a sequential run nothing changes `i`
  while the loop runs, so both give the same result.
