/** The validation and text generation behind POST /fizzbuzz: the digit
    scan NumCheck, the rule for one line, and the loop that appends the
    lines for 1..n. */
module FizzBuzz {
  import opened Strconv

  ghost predicate ContainsDigit(s: string) {
    exists k :: 0 <= k < |s| && IsDigit(s[k])
  }

  predicate NoNewline(s: string) {
    forall k :: 0 <= k < |s| ==> s[k] != '\n'
  }

  /** NumCheck: scans the string from the left and answers true at the
      first ASCII digit, false when the scan ends without one. */
  method NumCheck(s: string) returns (found: bool)
    ensures found <==> ContainsDigit(s)
  {
    var k := 0;
    while k < |s|
      invariant 0 <= k <= |s|
      invariant forall j :: 0 <= j < k ==> !IsDigit(s[j])
    {
      if '0' <= s[k] <= '9' {
        return true;
      }
      k := k + 1;
    }
    return false;
  }

  /** The guard of the handler: no digit anywhere, or Atoi below 1. The
      digit scan adds nothing to it: a count is rejected exactly when Atoi
      does not read it as a positive number. */
  ghost predicate Rejected(count: string): (b: bool)
    ensures b <==> Atoi(count) < 1
  {
    AtoiPositiveHasDigit(count);
    !ContainsDigit(count) || Atoi(count) < 1
  }

  /** Counts that the handler refuses, "12abc" among them, because Atoi
      gives 0 on anything that is not a signed run of digits. */
  lemma RejectedExamples()
    ensures Rejected("") && Rejected("abc") && Rejected("0")
    ensures Rejected("-3") && Rejected("12abc")
    ensures !Rejected("15") && !Rejected("+15")
  {
    AtoiExamples();
    assert IsDigit("15"[0]);
    assert IsDigit("+15"[1]);
  }

  /** Line x of the body, without its newline. */
  function Line(x: int): (r: string)
    ensures r != [] && NoNewline(r)
  {
    if x % 15 == 0 then "FizzBuzz"
    else if x % 5 == 0 then "Buzz"
    else if x % 3 == 0 then "Fizz"
    else
      var r := FormatInt(x);
      assert x < 0 ==> r[1..] == Itoa(-x) && AllDigits(r[1..]);
      r
  }

  /** A line that is not Fizz, Buzz or FizzBuzz reads back as its number. */
  lemma LineIsNumber(x: int)
    requires x % 3 != 0 && x % 5 != 0
    ensures Atoi(Line(x)) == x
  {
    ParseFormatInt(x);
  }

  /** The body for count n: lines 1..n, each followed by a newline. */
  function FizzBuzzText(n: int): (r: string)
    ensures n < 1 <==> r == []
    decreases n
  {
    if n < 1 then "" else FizzBuzzText(n - 1) + Line(n) + "\n"
  }

  /** The loop of the handler: after the iteration for x the text holds
      lines 1..x. */
  method Generate(n: int) returns (str: string)
    ensures str == FizzBuzzText(n)
  {
    str := "";
    var x := 1;
    while x <= n
      invariant 1 <= x <= if n < 1 then 1 else n + 1
      invariant str == FizzBuzzText(x - 1)
    {
      if x % 15 == 0 {
        str := str + "FizzBuzz\n";
      } else if x % 5 == 0 {
        str := str + "Buzz\n";
      } else if x % 3 == 0 {
        str := str + "Fizz\n";
      } else {
        str := str + FormatInt(x) + "\n";
      }
      x := x + 1;
    }
  }

  /** A longer count only appends lines: the body for m is a prefix of
      the body for any n >= m. */
  lemma {:induction false} FizzBuzzPrefix(m: int, n: int)
    requires m <= n
    ensures FizzBuzzText(m) <= FizzBuzzText(n)
    decreases n - m
  {
    if m < n {
      FizzBuzzPrefix(m, n - 1);
    }
  }

  /** The pieces of s between newline characters, as a reader of the
      response splits it; a body ending in a newline has a last piece "". */
  function Split(s: string): (r: seq<string>)
    ensures |r| >= 1
  {
    if s == [] then [""]
    else
      var front := Split(s[..|s| - 1]);
      if s[|s| - 1] == '\n' then front + [""]
      else front[..|front| - 1] + [front[|front| - 1] + [s[|s| - 1]]]
  }

  /** One more character that is not a newline extends the last piece. */
  lemma SplitSnoc(s: string, c: char)
    requires c != '\n'
    ensures var sp := Split(s);
      Split(s + [c]) == sp[..|sp| - 1] + [sp[|sp| - 1] + [c]]
  {
    assert (s + [c])[..|s + [c]| - 1] == s;
  }

  /** Appending text without a newline extends the last piece. */
  lemma {:induction false} SplitAppendPiece(p: string, l: string)
    requires NoNewline(l)
    ensures var sp := Split(p);
      Split(p + l) == sp[..|sp| - 1] + [sp[|sp| - 1] + l]
    decreases |l|
  {
    if l == [] {
      var sp := Split(p);
      assert p + l == p;
      assert sp[|sp| - 1] + l == sp[|sp| - 1];
      assert sp[..|sp| - 1] + [sp[|sp| - 1]] == sp;
    } else {
      var l' := l[..|l| - 1];
      assert NoNewline(l') by {
        forall k | 0 <= k < |l'| ensures l'[k] != '\n' {
          assert l'[k] == l[k];
        }
      }
      SplitAppendPiece(p, l');
      assert l == l' + [l[|l| - 1]];
      SplitAppendChar(p, l', l[|l| - 1]);
    }
  }

  /** The inductive step of SplitAppendPiece: one more character. */
  lemma SplitAppendChar(p: string, l: string, c: char)
    requires c != '\n'
    requires var sp := Split(p);
      Split(p + l) == sp[..|sp| - 1] + [sp[|sp| - 1] + l]
    ensures var sp := Split(p);
      Split(p + (l + [c])) == sp[..|sp| - 1] + [sp[|sp| - 1] + (l + [c])]
  {
    var sp := Split(p);
    var last := sp[|sp| - 1];
    var init := sp[..|sp| - 1];
    var pl := p + l;
    var front := Split(pl);
    assert front == init + [last + l];
    SplitSnoc(pl, c);
    assert pl + [c] == p + (l + [c]);
    assert front[..|front| - 1] == init;
    assert front[|front| - 1] == last + l;
    assert last + l + [c] == last + (l + [c]);
    assert Split(p + (l + [c])) == init + [last + (l + [c])];
  }

  /** Appending a line and its newline to text that ends with a newline
      adds that line as one more piece. */
  lemma SplitAppendLine(p: string, l: string)
    requires NoNewline(l)
    requires var sp := Split(p); sp[|sp| - 1] == ""
    ensures var sp := Split(p);
      Split(p + l + "\n") == sp[..|sp| - 1] + [l] + [""]
  {
    var sp := Split(p);
    var q := p + l + "\n";
    assert q[..|q| - 1] == p + l;
    SplitAppendPiece(p, l);
    assert sp[|sp| - 1] + l == l;
  }

  /** The body for a count n splits into exactly n lines, line x being
      Line(x), with nothing after the final newline. */
  lemma {:induction false} SplitFizzBuzzText(n: nat)
    ensures var lines := Split(FizzBuzzText(n));
      |lines| == n + 1 && lines[n] == "" &&
      forall k :: 0 <= k < n ==> lines[k] == Line(k + 1)
    decreases n
  {
    if n > 0 {
      SplitFizzBuzzText(n - 1);
      SplitFizzBuzzStep(n);
    }
  }

  /** The inductive step of SplitFizzBuzzText. */
  lemma SplitFizzBuzzStep(n: nat)
    requires n > 0
    requires var lines := Split(FizzBuzzText(n - 1));
      |lines| == n && lines[n - 1] == "" &&
      forall k :: 0 <= k < n - 1 ==> lines[k] == Line(k + 1)
    ensures var lines := Split(FizzBuzzText(n));
      |lines| == n + 1 && lines[n] == "" &&
      forall k :: 0 <= k < n ==> lines[k] == Line(k + 1)
  {
    var t := FizzBuzzText(n - 1);
    var st := Split(t);
    var l := Line(n);
    assert FizzBuzzText(n) == t + l + "\n";
    SplitAppendLine(t, l);
    var lines := st[..n - 1] + [l] + [""];
    assert Split(FizzBuzzText(n)) == lines;
    forall k | 0 <= k < n
      ensures lines[k] == Line(k + 1)
    {
      if k < n - 1 {
        assert lines[k] == st[k];
      }
    }
  }

  /** The numbered lines among the first fifteen, one digit each. */
  lemma OneDigitLines()
    ensures Line(1) == "1" && Line(2) == "2" && Line(4) == "4"
    ensures Line(7) == "7" && Line(8) == "8"
  {
  }

  /** The numbered lines among the first fifteen, two digits each. */
  lemma TwoDigitLines()
    ensures Line(11) == "11" && Line(13) == "13" && Line(14) == "14"
  {
  }

  /** The first fifteen lines, written out; with SplitFizzBuzzText they
      are the lines of the body for count 15. */
  lemma FizzBuzzFifteen()
    ensures seq(15, k => Line(k + 1)) == ["1", "2", "Fizz", "4", "Buzz", "Fizz",
      "7", "8", "Fizz", "Buzz", "11", "Fizz", "13", "14", "FizzBuzz"]
  {
    OneDigitLines();
    TwoDigitLines();
  }
}
