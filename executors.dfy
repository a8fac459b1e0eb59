/** The deterministic tool implementations of backend/app.py. Each returns
    the uniform envelope the chat controller passes on; bad input gives
    `success == false` and an explanatory output instead of an exception. */
module Executors {

  import opened Wrappers
  import opened Text
  import Utf8
  import Base64

  /** The `{tool, input, output, success}` dictionary every tool returns. */
  datatype ToolResult = ToolResult(tool: string, input: string, output: string, success: bool)

  const PrimeTool: string := "Prime Checker \U{1F522}"
  const FactorialTool: string := "Factorial \U{2757}"
  const FibonacciTool: string := "Fibonacci \U{1F522}"
  const WeatherTool: string := "Weather Service \U{1F324}\U{FE0F}"
  const WordCounterTool: string := "Word Counter \U{1F4DD}"
  const ReverserTool: string := "Text Reverser \U{1F504}"
  const EncoderTool: string := "Base64 Encoder \U{1F510}"
  const DecoderTool: string := "Base64 Decoder \U{1F513}"

  // ---------------------------------------------------------------------------
  // is_prime
  // ---------------------------------------------------------------------------

  /** Primality in the textbook sense: at least 2, no divisor strictly
      between 1 and n. */
  predicate IsPrimeNumber(n: int)
  {
    n >= 2 && forall d :: 1 < d < n ==> n % d != 0
  }

  /** What is_prime answers: "Yes" exactly when n >= 2 and no i in
      range(2, isqrt(n) + 1) divides n. The bound i <= isqrt(n) is written
      as i * i <= n, its integer equivalent. */
  predicate PrimeVerdict(n: int)
  {
    n >= 2 && !exists i :: 2 <= i <= n && i * i <= n && n % i == 0
  }

  function PrimeResult(n: int): (r: ToolResult)
    ensures r.success && r.tool == PrimeTool && r.input == IntToString(n)
    ensures r.output == IntToString(n) + " is prime: " + (if PrimeVerdict(n) then "Yes" else "No")
  {
    ToolResult(PrimeTool, IntToString(n), IntToString(n) + " is prime: " + (if PrimeVerdict(n) then "Yes" else "No"), true)
  }

  lemma MulMono(a: int, b: int, c: int)
    requires 0 <= a <= b && 0 <= c
    ensures a * c <= b * c
  {
  }

  /** A multiple of k leaves no remainder. */
  lemma MultipleMod(k: int, m: int)
    requires k > 0
    ensures (k * m) % k == 0
  {
    var q, r := (k * m) / k, (k * m) % k;
    assert k * m == k * q + r;
    assert k * (m - q) == r;
    if m - q >= 1 { MulMono(1, m - q, k); }
    else if m - q <= -1 { MulMono(1, q - m, k); }
  }

  /** No remainder means a multiple. */
  lemma ModMultiple(n: int, k: int)
    requires k > 0 && n % k == 0
    ensures n == k * (n / k)
  {
  }

  /** A proper divisor d of n, or its cofactor n / d, is at most the square
      root of n. */
  lemma SmallDivisor(n: int, d: int) returns (i: int)
    requires 1 < d < n && n % d == 0
    ensures 2 <= i <= n && i * i <= n && n % i == 0
  {
    ModMultiple(n, d);
    var q := n / d;
    assert n == d * q;
    if q <= 1 {
      if q >= 0 { MulMono(q, 1, d); } else { MulMono(1, -q, d); }
      assert false;
    }
    if d <= q {
      MulMono(d, q, d);
      i := d;
    } else {
      MulMono(q, d, q);
      MultipleMod(q, d);
      i := q;
    }
  }

  /** Trial division up to the square root decides primality: every number
      with a proper divisor has one no larger than its square root. */
  lemma PrimeVerdictIsPrimality(n: int)
    ensures PrimeVerdict(n) <==> IsPrimeNumber(n)
  {
    if n >= 2 {
      if !IsPrimeNumber(n) {
        var d :| 1 < d < n && n % d == 0;
        var i := SmallDivisor(n, d);
      }
      if !PrimeVerdict(n) {
        var i :| 2 <= i <= n && i * i <= n && n % i == 0;
        if i == n { MulMono(2, n, n); }
        assert 1 < i < n && n % i == 0;
      }
    }
  }

  /** is_prime(number): trial division with the loop's `break`. */
  method IsPrime(number: int) returns (r: ToolResult)
    ensures r == PrimeResult(number)
  {
    var answer: string;
    if number < 2 {
      answer := "No";
    } else {
      var i := 2;
      var composite := false;
      while i * i <= number && !composite
        invariant 2 <= i <= number + 1
        invariant composite ==> i * i <= number && number % i == 0
        invariant !composite ==> forall d :: 2 <= d < i ==> number % d != 0
        decreases number + 1 - i, !composite
      {
        if number % i == 0 {
          composite := true;
        } else {
          MulMono(2, i, i);
          i := i + 1;
        }
      }
      if composite {
        MulMono(2, i, i);
        answer := "No";
      } else {
        assert forall d :: 2 <= d <= number && d * d <= number ==> d < i by {
          forall d | 2 <= d <= number && d * d <= number
            ensures d < i
          {
            if d >= i { MulMono(i, d, i); MulMono(i, d, d); }
          }
        }
        answer := "Yes";
      }
    }
    r := ToolResult(PrimeTool, IntToString(number), IntToString(number) + " is prime: " + answer, true);
  }

  // ---------------------------------------------------------------------------
  // factorial
  // ---------------------------------------------------------------------------

  /** n! with 0! == 1. */
  function Fact(n: nat): (r: nat)
    ensures r >= 1
  {
    if n == 0 then 1 else n * Fact(n - 1)
  }

  /** n! is a multiple of every k in 1..n. */
  lemma {:induction false} FactDivisible(n: nat, k: nat)
    requires 1 <= k <= n
    ensures Fact(n) % k == 0
  {
    if k == n {
      MultipleMod(k, Fact(n - 1));
    } else {
      FactDivisible(n - 1, k);
      ModMultiple(Fact(n - 1), k);
      var m := Fact(n - 1) / k;
      assert Fact(n) == n * (k * m) == k * (n * m);
      MultipleMod(k, n * m);
    }
  }

  function FactorialResult(n: int): (r: ToolResult)
    ensures r.tool == FactorialTool && r.input == IntToString(n)
    ensures r.success <==> n >= 0
    ensures n < 0 ==> r.output == "Error: Negative number"
    ensures n >= 0 ==> r.output == IntToString(n) + "! = " + NatToString(Fact(n))
  {
    if n < 0 then ToolResult(FactorialTool, IntToString(n), "Error: Negative number", false)
    else ToolResult(FactorialTool, IntToString(n), IntToString(n) + "! = " + NatToString(Fact(n)), true)
  }

  /** factorial(number): the product 1 * 2 * ... * number, accumulated. */
  method Factorial(number: int) returns (r: ToolResult)
    ensures r == FactorialResult(number)
  {
    if number < 0 {
      return ToolResult(FactorialTool, IntToString(number), "Error: Negative number", false);
    }
    var result := 1;
    var i := 1;
    while i <= number
      invariant 1 <= i <= number + 1
      invariant result == Fact(i - 1)
    {
      result := result * i;
      i := i + 1;
    }
    r := ToolResult(FactorialTool, IntToString(number), IntToString(number) + "! = " + NatToString(result), true);
  }

  // ---------------------------------------------------------------------------
  // fibonacci
  // ---------------------------------------------------------------------------

  function Fib(n: nat): nat
  {
    if n < 2 then n else Fib(n - 1) + Fib(n - 2)
  }

  function Min(a: int, b: int): int { if a <= b then a else b }

  /** `fib[:count]` for a positive count: the list the loop has built,
      cut to at most count terms. */
  function FibonacciTerms(count: int): (t: seq<nat>)
    requires count > 0
    ensures |t| == Min(count, 20)
    ensures t[0] == 0 && (|t| > 1 ==> t[1] == 1)
    ensures forall i :: 2 <= i < |t| ==> t[i] == t[i - 1] + t[i - 2]
  {
    seq(Min(count, 20), i requires 0 <= i => Fib(i))
  }

  /** Python's str() of a list of integers: "[0, 1, 1, 2]". */
  function ListRepr(xs: seq<nat>): string
  {
    "[" + Join(xs) + "]"
  }

  function Join(xs: seq<nat>): string
  {
    if xs == [] then [] else if |xs| == 1 then NatToString(xs[0]) else NatToString(xs[0]) + ", " + Join(xs[1..])
  }

  function FibonacciResult(count: int): (r: ToolResult)
    ensures r.tool == FibonacciTool && r.input == IntToString(count)
    ensures r.success <==> count > 0
    ensures count <= 0 ==> r.output == "Count must be positive"
    ensures count > 0 ==> r.output == ListRepr(FibonacciTerms(count))
  {
    if count <= 0 then ToolResult(FibonacciTool, IntToString(count), "Count must be positive", false)
    else ToolResult(FibonacciTool, IntToString(count), ListRepr(FibonacciTerms(count)), true)
  }

  /** fibonacci(count): starts from [0, 1] and appends the sum of the last
      two terms until the list has min(count, 20) of them. */
  method Fibonacci(count: int) returns (r: ToolResult)
    ensures r == FibonacciResult(count)
  {
    if count <= 0 {
      return ToolResult(FibonacciTool, IntToString(count), "Count must be positive", false);
    }
    var fib: seq<nat> := [0, 1];
    var i := 2;
    var limit := Min(count, 20);
    while i < limit
      invariant 2 <= i && |fib| == i
      invariant i <= limit || limit < 2
      invariant forall k :: 0 <= k < i ==> fib[k] == Fib(k)
    {
      fib := fib + [fib[|fib| - 1] + fib[|fib| - 2]];
      i := i + 1;
    }
    var terms := if count < |fib| then fib[..count] else fib;
    assert terms == FibonacciTerms(count);
    r := ToolResult(FibonacciTool, IntToString(count), ListRepr(terms), true);
  }

  // ---------------------------------------------------------------------------
  // get_weather
  // ---------------------------------------------------------------------------

  datatype Weather = Weather(temp: string, condition: string, humidity: string)

  /** The fixed weather table, keyed by title-cased city name. */
  const WeatherTable: map<string, Weather> := map[
    "Chennai" := Weather("32\U{B0}C", "Sunny \U{2600}\U{FE0F}", "70%"),
    "Mumbai" := Weather("28\U{B0}C", "Cloudy \U{2601}\U{FE0F}", "80%"),
    "Delhi" := Weather("25\U{B0}C", "Clear \U{1F324}\U{FE0F}", "45%"),
    "Bangalore" := Weather("26\U{B0}C", "Partly Cloudy \U{26C5}", "60%"),
    "New York" := Weather("15\U{B0}C", "Rainy \U{1F327}\U{FE0F}", "65%"),
    "London" := Weather("12\U{B0}C", "Foggy \U{1F32B}\U{FE0F}", "85%"),
    "Tokyo" := Weather("20\U{B0}C", "Clear \U{1F324}\U{FE0F}", "55%")
  ]

  /** The record for cities the table does not hold. */
  const UnknownWeather: Weather := Weather("25\U{B0}C", "Unknown \U{2753}", "60%")

  function WeatherFor(title: string): (w: Weather)
    ensures title in WeatherTable ==> w == WeatherTable[title]
    ensures title !in WeatherTable ==> w == UnknownWeather
  {
    if title in WeatherTable then WeatherTable[title] else UnknownWeather
  }

  function WeatherLine(title: string, w: Weather): string
  {
    title + ": " + w.temp + ", " + w.condition + ", Humidity: " + w.humidity
  }

  /** get_weather(city): the table entry for `city.title()`, or the unknown
      record; always successful. */
  function GetWeather(city: string): (r: ToolResult)
    ensures r.success && r.tool == WeatherTool && r.input == city
    ensures r.output == WeatherLine(Title(city), WeatherFor(Title(city)))
  {
    var title := Title(city);
    ToolResult(WeatherTool, city, WeatherLine(title, WeatherFor(title)), true)
  }

  /** The lookup ignores case: "LONDON", "london" and "London" report the
      same weather. */
  lemma WeatherIgnoresCase(city: string)
    ensures GetWeather(Lower(city)).output == GetWeather(city).output
  {
    TitleIgnoresCase(city);
  }

  // ---------------------------------------------------------------------------
  // Text tools
  // ---------------------------------------------------------------------------

  /** reverse_text(text) */
  function ReverseText(text: string): (r: ToolResult)
    ensures r.success && r.tool == ReverserTool && r.input == text
    ensures |r.output| == |text| && forall i :: 0 <= i < |text| ==> r.output[i] == text[|text| - 1 - i]
  {
    ToolResult(ReverserTool, text, Reverse(text), true)
  }

  /** Reversing the reversed text gives the text back. */
  lemma ReverseTextTwice(text: string)
    ensures ReverseText(ReverseText(text).output).output == text
  {
    ReverseInvolution(text);
  }

  /** count_words(text): the number of whitespace-separated words and the
      number of characters; the echoed input is cut to 50 characters. */
  function CountWords(text: string): (r: ToolResult)
    ensures r.success && r.tool == WordCounterTool && r.input == Prefix(text, 50)
    ensures r.output == "Words: " + NatToString(|Words(text)|) + ", Characters: " + NatToString(|text|)
  {
    ToolResult(WordCounterTool, Prefix(text, 50), "Words: " + NatToString(|Words(text)|) + ", Characters: " + NatToString(|text|), true)
  }

  /** The words counted are exactly the non-space characters of the text,
      cut at whitespace, and there is one per place where a non-space
      character starts the text or follows whitespace. */
  lemma CountWordsCounts(text: string)
    ensures Concat(Words(text)) == Keep(NonSpace, text)
    ensures CountWords(text).output ==
      "Words: " + NatToString(RunStarts(NonSpace, text, false)) + ", Characters: " + NatToString(|text|)
  {
    RunsPartition(NonSpace, text);
  }

  // ---------------------------------------------------------------------------
  // Base64 tools
  // ---------------------------------------------------------------------------

  /** encode_base64(text): Base64 of the UTF-8 bytes. */
  function EncodeBase64(text: string): (r: ToolResult)
    ensures r.success && r.tool == EncoderTool && r.input == text
    ensures |r.output| == 4 * ((|Utf8.Encode(text)| + 2) / 3)
  {
    ToolResult(EncoderTool, text, Base64.Encode(Utf8.Encode(text)), true)
  }

  /** decode_base64(encoded): fails with "Invalid Base64" when the Base64
      decoder raises or the bytes are not UTF-8. */
  function DecodeBase64(encoded: string): (r: ToolResult)
    ensures r.tool == DecoderTool && r.input == encoded
    ensures r.success <==>
      Base64.Decode(encoded).Some? && Utf8.Decode(Base64.Decode(encoded).value).Some?
    ensures r.success ==> Utf8.Decode(Base64.Decode(encoded).value) == Some(r.output)
    ensures !r.success ==> r.output == "Invalid Base64"
  {
    match Base64.Decode(encoded)
    case None => ToolResult(DecoderTool, encoded, "Invalid Base64", false)
    case Some(bs) =>
      match Utf8.Decode(bs)
      case None => ToolResult(DecoderTool, encoded, "Invalid Base64", false)
      case Some(text) => ToolResult(DecoderTool, encoded, text, true)
  }

  /** What the encoder writes the decoder reads back. */
  lemma Base64ToolRoundTrip(text: string)
    ensures DecodeBase64(EncodeBase64(text).output) == ToolResult(DecoderTool, EncodeBase64(text).output, text, true)
  {
    Base64.DecodeEncode(Utf8.Encode(text));
    Utf8.DecodeEncode(text);
  }

  /** Alphabet characters that end inside a group of four are rejected. */
  lemma Base64ToolRejectsTruncated(encoded: string)
    requires forall i :: 0 <= i < |encoded| ==> Base64.SextetValue(encoded[i]).Some?
    requires |encoded| % 4 != 0
    ensures DecodeBase64(encoded) == ToolResult(DecoderTool, encoded, "Invalid Base64", false)
  {
    Base64.DecodeRejectsTruncated(encoded);
  }
}
