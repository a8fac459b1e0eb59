/** The fallback intent detector `detect_and_execute_tool`: an ordered
    chain of rules over the message, each a lower-case substring test with
    argument extraction, the first rule that fires deciding the tool and its
    arguments. Execution is kept apart: the chat controller passes the
    intent to the registry. */
module Detector {

  import opened Wrappers
  import opened Text
  import opened Registry

  /** A tool name and the arguments the detector calls it with. */
  datatype Intent = Intent(tool: string, args: Args)

  /** `any(word in s for word in words)` */
  predicate ContainsAny(s: string, words: seq<string>)
  {
    exists k :: 0 <= k < |words| && Contains(s, words[k])
  }

  // ---------------------------------------------------------------------------
  // Wikipedia (backend/app.py, first rule)
  // ---------------------------------------------------------------------------

  const WikiTriggers: seq<string> := ["who is", "what is", "tell me about", "search for", "wikipedia", "who are"]

  /** The alternatives of the pattern the query is cleaned with, in the
      pattern's order. */
  const StripWords: seq<string> := ["who is", "who are", "what is", "what are", "tell me about",
                                    "search for", "search", "wikipedia", "on wikipedia", "?"]

  /** A word of lower-case letters, spaces and question marks, as all the
      pattern's alternatives are. */
  predicate Plain(w: string)
  {
    forall i :: 0 <= i < |w| ==> IsLower(w[i]) || w[i] == ' ' || w[i] == '?'
  }

  lemma StripWordsPlain(k: nat)
    requires k < |StripWords|
    ensures StripWords[k] != [] && Plain(StripWords[k])
  {
  }

  /** `w` matches at the start of s, ignoring case. */
  predicate MatchesAt(s: string, w: string)
  {
    |w| <= |s| && Lower(s[..|w|]) == w
  }

  /** The index of the first alternative that matches at the start of s. */
  function FirstMatching(s: string, words: seq<string>): (r: Option<nat>)
    ensures r.Some? ==> r.value < |words| && MatchesAt(s, words[r.value])
    ensures r.Some? ==> forall k :: 0 <= k < r.value ==> !MatchesAt(s, words[k])
    ensures r.None? ==> forall k :: 0 <= k < |words| ==> !MatchesAt(s, words[k])
  {
    if words == [] then None
    else if MatchesAt(s, words[0]) then Some(0)
    else
      match FirstMatching(s, words[1..])
      case Some(k) =>
        assert forall j :: 1 <= j <= k ==> words[j] == words[1..][j - 1];
        Some(k + 1)
      case None =>
        assert forall k :: 1 <= k < |words| ==> words[k] == words[1..][k - 1];
        None
  }

  /** `re.sub(pattern, '', s, flags=re.IGNORECASE)` for the alternation of
      StripWords: scanning left to right, the first alternative that matches
      at a position is removed and the scan resumes after it; characters
      where nothing matches are kept. */
  function StripTriggers(s: string): (r: string)
    ensures |r| <= |s|
    decreases |s|
  {
    if s == [] then []
    else
      match FirstMatching(s, StripWords)
      case Some(k) => StripTriggers(s[|StripWords[k]|..])
      case None => [s[0]] + StripTriggers(s[1..])
  }

  /** A character matched by an alternative is a letter, a space or '?'. */
  lemma MatchedCharacters(s: string, w: string, i: nat)
    requires MatchesAt(s, w) && i < |w|
    requires IsLower(w[i]) || w[i] == ' ' || w[i] == '?'
    ensures IsLetter(s[i]) || s[i] == ' ' || s[i] == '?'
  {
    assert Lower(s[..|w|])[i] == ToLower(s[i]);
  }

  /** A plain word that matches at the start of s ends before any other
      character of s. */
  lemma PlainMatchEndsBefore(s: string, w: string, i: nat)
    requires MatchesAt(s, w) && Plain(w)
    requires i < |s| && !IsLetter(s[i]) && s[i] != ' ' && s[i] != '?'
    ensures |w| <= i
  {
    if i < |w| {
      MatchedCharacters(s, w, i);
    }
  }

  /** Removing the pattern never removes anything but letters, spaces and
      question marks: the digits and operators of "what is 12*4" survive. */
  lemma {:induction false} StripTriggersKeeps(s: string, c: char)
    requires c in s && !IsLetter(c) && c != ' ' && c != '?'
    ensures c in StripTriggers(s)
    decreases |s|
  {
    var i :| 0 <= i < |s| && s[i] == c;
    match FirstMatching(s, StripWords) {
      case Some(k) =>
        StripWordsPlain(k);
        PlainMatchEndsBefore(s, StripWords[k], i);
        var n := |StripWords[k]|;
        assert s[n..][i - n] == c;
        StripTriggersKeeps(s[n..], c);
      case None =>
        if i > 0 {
          assert s[1..][i - 1] == c;
          StripTriggersKeeps(s[1..], c);
        }
    }
  }

  /** Every '?' is removed: "?" is the last alternative, so it matches
      wherever no other alternative does. */
  lemma {:induction false} StripTriggersNoQuestion(s: string)
    ensures forall i :: 0 <= i < |StripTriggers(s)| ==> StripTriggers(s)[i] != '?'
    decreases |s|
  {
    if s != [] {
      match FirstMatching(s, StripWords) {
        case Some(k) =>
          StripWordsPlain(k);
          StripTriggersNoQuestion(s[|StripWords[k]|..]);
        case None =>
          assert !MatchesAt(s, StripWords[9]);
          assert Lower(s[..1])[0] == ToLower(s[0]);
          StripTriggersNoQuestion(s[1..]);
      }
    }
  }

  /** The search query: the message with the pattern removed, stripped. */
  function WikiQuery(m: string): string
  {
    Strip(StripTriggers(m))
  }

  /** The query has no '?' and no whitespace at either end. */
  lemma WikiQueryShape(m: string)
    ensures var q := WikiQuery(m); q == [] || (!IsSpace(q[0]) && !IsSpace(q[|q| - 1]))
    ensures forall i :: 0 <= i < |WikiQuery(m)| ==> WikiQuery(m)[i] != '?'
  {
    var t := StripTriggers(m);
    var q := WikiQuery(m);
    StripTriggersNoQuestion(m);
    forall i | 0 <= i < |q|
      ensures q[i] != '?'
    {
      StripMember(t, q[i]);
    }
  }

  /** A character that is not a letter, a space or '?' survives into the
      query: the digits and operators of "what is 12*4" do. */
  lemma WikiQueryKeeps(m: string, c: char)
    requires c in m && !IsLetter(c) && !IsSpace(c) && c != '?'
    ensures WikiQuery(m) != []
  {
    StripTriggersKeeps(m, c);
    var t := StripTriggers(m);
    var i :| 0 <= i < |t| && t[i] == c;
    assert !IsSpace(t[i]);
  }

  /** Fires on a Wikipedia trigger when the cleaned query is not empty. The
      detector passes WikiQuery(m) as the query. */
  function WikiRule(m: string, query: string): Option<Intent>
  {
    if ContainsAny(Lower(m), WikiTriggers) && query != [] then
      Some(Intent("search_wikipedia", map["query" := JStr(query)]))
    else None
  }

  // ---------------------------------------------------------------------------
  // Weather
  // ---------------------------------------------------------------------------

  const WeatherCities: seq<string> := ["chennai", "mumbai", "delhi", "bangalore", "kolkata", "hyderabad",
                                       "new york", "london", "tokyo", "paris"]

  /** The first of `words` that s contains. */
  function FirstContained(s: string, words: seq<string>): (r: Option<string>)
    ensures r.None? <==> forall k :: 0 <= k < |words| ==> !Contains(s, words[k])
    ensures r.Some? ==> exists k :: (0 <= k < |words| && words[k] == r.value && Contains(s, r.value) &&
      forall j :: 0 <= j < k ==> !Contains(s, words[j]))
  {
    if words == [] then None
    else if Contains(s, words[0]) then Some(words[0])
    else
      var r := FirstContained(s, words[1..]);
      assert forall k :: 1 <= k < |words| ==> words[k] == words[1..][k - 1];
      r
  }

  /** Fires on "weather" or "temperature": the first city of the list the
      message names, title-cased, or Chennai. */
  function WeatherRule(m: string): Option<Intent>
  {
    var msg := Lower(m);
    if Contains(msg, "weather") || Contains(msg, "temperature") then
      var city := match FirstContained(msg, WeatherCities)
        case Some(c) => Title(c)
        case None => "Chennai";
      Some(Intent("get_weather", map["city" := JStr(city)]))
    else None
  }

  // ---------------------------------------------------------------------------
  // Calculator
  // ---------------------------------------------------------------------------

  const CalcTriggers: seq<string> := ["calculate", "compute", "what is", "what's", "solve"]

  const Operators: seq<string> := ["+", "-", "*", "/"]

  /** The index `max(xs, key=len)` picks: a longest element, the first of
      them when several are equally long. */
  function LongestIndex(xs: seq<string>): (r: nat)
    requires xs != []
    ensures r < |xs|
    ensures forall k :: 0 <= k < |xs| ==> |xs[k]| <= |xs[r]|
    ensures forall k :: 0 <= k < r ==> |xs[k]| < |xs[r]|
  {
    if |xs| == 1 then 0
    else
      var j := LongestIndex(xs[..|xs| - 1]);
      assert forall k :: 0 <= k < |xs| - 1 ==> xs[..|xs| - 1][k] == xs[k];
      if |xs[|xs| - 1]| > |xs[j]| then |xs| - 1 else j
  }

  /** `max(re.findall(math_pattern, m), key=len).strip()`, or None when the
      message holds no character of the pattern's class and the source's
      `if matches` test fails. */
  function CalcExpression(m: string): Option<string>
  {
    var runs := Runs(MathChar, m);
    if runs == [] then None else Some(Strip(runs[LongestIndex(runs)]))
  }

  /** The expression is taken from the message: no characters are made up. */
  lemma CalcExpressionFromMessage(m: string)
    ensures CalcExpression(m).None? <==> Runs(MathChar, m) == []
    ensures CalcExpression(m).Some? ==> forall c :: c in CalcExpression(m).value ==> c in m
  {
    var runs := Runs(MathChar, m);
    if runs != [] {
      var k := LongestIndex(runs);
      forall c | c in CalcExpression(m).value
        ensures c in m
      {
        StripMember(runs[k], c);
        RunsMember(MathChar, m, k, c);
      }
    }
  }

  /** Fires on a calculator trigger when the expression holds an operator.
      The detector passes CalcExpression(m) as the expression. */
  function CalculatorRule(m: string, expression: Option<string>): Option<Intent>
  {
    if ContainsAny(Lower(m), CalcTriggers) then
      match expression
      case Some(e) =>
        if e != [] && ContainsAny(e, Operators) then Some(Intent("calculator", map["expression" := JStr(e)]))
        else None
      case None => None
    else None
  }

  // ---------------------------------------------------------------------------
  // The remaining rules
  // ---------------------------------------------------------------------------

  /** A rule that calls a tool without arguments when a trigger occurs. */
  function KeywordRule(m: string, words: seq<string>, tool: string): Option<Intent>
  {
    if ContainsAny(Lower(m), words) then Some(Intent(tool, map[])) else None
  }

  const TimeTriggers: seq<string> := ["time", "date", "today", "now", "hi", "hello", "hey"]
  const JokeTriggers: seq<string> := ["joke", "funny", "laugh", "humor"]
  const FactTriggers: seq<string> := ["fact", "interesting", "trivia"]
  const QuoteTriggers: seq<string> := ["quote", "inspire", "motivation", "motivate"]
  const CoinTriggers: seq<string> := ["coin", "flip", "heads", "tails"]
  const EightBallTriggers: seq<string> := ["8 ball", "magic 8", "8ball"]

  /** Dice: 20 sides when "20" occurs, else 12 when "12" occurs, else 6. */
  function DiceRule(m: string): Option<Intent>
  {
    var msg := Lower(m);
    if Contains(msg, "dice") || Contains(msg, "roll") then
      var sides := if Contains(msg, "20") then 20 else if Contains(msg, "12") then 12 else 6;
      Some(Intent("roll_dice", map["sides" := JInt(sides)]))
    else None
  }

  /** Password: the first number in the message is the length, else 12. */
  function PasswordRule(m: string): Option<Intent>
  {
    if Contains(Lower(m), "password") then
      Some(Intent("generate_password", map["length" := JInt(match FirstNumber(m) case Some(n) => n case None => 12)]))
    else None
  }

  /** A rule that needs a number: it fires on the trigger only when the
      message holds a digit, with the first number as the argument. */
  function NumberRule(m: string, trigger: string, tool: string): Option<Intent>
  {
    if Contains(Lower(m), trigger) then
      match FirstNumber(m)
      case Some(n) => Some(Intent(tool, map["number" := JInt(n)]))
      case None => None
    else None
  }

  /** Fibonacci: the first number in the message is the count, else 10. */
  function FibonacciRule(m: string): Option<Intent>
  {
    var msg := Lower(m);
    if Contains(msg, "fibonacci") || Contains(msg, "fib") then
      Some(Intent("fibonacci", map["count" := JInt(match FirstNumber(m) case Some(n) => n case None => 10)]))
    else None
  }

  /** Without a digit in the message the prime and factorial rules never
      fire, and the password and Fibonacci rules use their defaults. */
  lemma DefaultsWithoutDigits(m: string)
    requires forall i :: 0 <= i < |m| ==> !IsDigit(m[i])
    ensures NumberRule(m, "prime", "is_prime").None? && NumberRule(m, "factorial", "factorial").None?
    ensures PasswordRule(m).Some? ==> PasswordRule(m).value.args == map["length" := JInt(12)]
    ensures FibonacciRule(m).Some? ==> FibonacciRule(m).value.args == map["count" := JInt(10)]
  {
    FirstNumberIsFirstRun(m);
  }

  /** With a digit in the message the numeric rules take the first number
      in it: the prime and factorial rules fire exactly on their trigger. */
  lemma ArgumentsFromFirstNumber(m: string, i: nat, trigger: string, tool: string)
    requires i < |m| && IsDigit(m[i])
    ensures FirstNumber(m).Some?
    ensures NumberRule(m, trigger, tool) ==
      if Contains(Lower(m), trigger) then Some(Intent(tool, map["number" := JInt(FirstNumber(m).value)])) else None
    ensures PasswordRule(m).Some? ==> PasswordRule(m).value.args == map["length" := JInt(FirstNumber(m).value)]
    ensures FibonacciRule(m).Some? ==> FibonacciRule(m).value.args == map["count" := JInt(FirstNumber(m).value)]
  {
    DigitGivesNumber(m, i);
  }

  lemma DigitGivesNumber(m: string, i: nat)
    requires i < |m| && IsDigit(m[i])
    ensures FirstNumber(m).Some?
  {
    FirstNumberIsFirstRun(m);
  }

  // ---------------------------------------------------------------------------
  // The detector
  // ---------------------------------------------------------------------------

  /** The rules in the order the source tests them, the first that fires
      deciding, with the Wikipedia rule's cleaned query and the calculator's
      expression given. */
  function Chain(m: string, query: string, expression: Option<string>): Option<Intent>
  {
    if WikiRule(m, query).Some? then WikiRule(m, query)
    else if WeatherRule(m).Some? then WeatherRule(m)
    else if CalculatorRule(m, expression).Some? then CalculatorRule(m, expression)
    else if KeywordRule(m, TimeTriggers, "get_time").Some? then KeywordRule(m, TimeTriggers, "get_time")
    else if KeywordRule(m, JokeTriggers, "get_joke").Some? then KeywordRule(m, JokeTriggers, "get_joke")
    else if KeywordRule(m, FactTriggers, "get_random_fact").Some? then KeywordRule(m, FactTriggers, "get_random_fact")
    else if KeywordRule(m, QuoteTriggers, "get_quote").Some? then KeywordRule(m, QuoteTriggers, "get_quote")
    else if DiceRule(m).Some? then DiceRule(m)
    else if KeywordRule(m, CoinTriggers, "flip_coin").Some? then KeywordRule(m, CoinTriggers, "flip_coin")
    else if PasswordRule(m).Some? then PasswordRule(m)
    else if KeywordRule(m, EightBallTriggers, "magic_8ball").Some? then KeywordRule(m, EightBallTriggers, "magic_8ball")
    else if NumberRule(m, "prime", "is_prime").Some? then NumberRule(m, "prime", "is_prime")
    else if NumberRule(m, "factorial", "factorial").Some? then NumberRule(m, "factorial", "factorial")
    else FibonacciRule(m)
  }

  /** detect_and_execute_tool(m), without the execution: the intent of the
      first rule that fires, or None. */
  function Detect(m: string): Option<Intent>
  {
    Chain(m, WikiQuery(m), CalcExpression(m))
  }

  // ---------------------------------------------------------------------------
  // Properties of the rule order
  // ---------------------------------------------------------------------------

  /** A message that mentions the weather gets the weather tool unless the
      Wikipedia rule fires first; no later rule is reached, whatever the
      cleaned query and the expression. */
  lemma WeatherBeforeNumericRules(m: string, query: string, expression: Option<string>)
    requires WikiRule(m, query).None?
    requires Contains(Lower(m), "weather") || Contains(Lower(m), "temperature")
    ensures Chain(m, query, expression) == WeatherRule(m) && Chain(m, query, expression).Some?
    ensures Chain(m, query, expression).value.tool == "get_weather"
  {
  }

  /** The calculator only fires when the expression holds an operator, and
      the cleaning keeps every operator, so the Wikipedia query is not empty
      then. */
  lemma CalculatorKeepsQuery(m: string)
    requires CalculatorRule(m, CalcExpression(m)).Some?
    ensures WikiQuery(m) != []
  {
    var c := CalculatorOperator(m);
    OperatorKeepsQuery(m, c);
  }

  /** An operator in the message survives into the Wikipedia query. */
  lemma OperatorKeepsQuery(m: string, c: char)
    requires c in m && c in "+-*/"
    ensures WikiQuery(m) != []
  {
    WikiQueryKeeps(m, c);
  }

  /** The calculator fires only on a message holding an operator. */
  lemma CalculatorOperator(m: string) returns (c: char)
    requires CalculatorRule(m, CalcExpression(m)).Some?
    ensures c in m && c in "+-*/"
  {
    c := OperatorIn(CalcExpression(m).value);
    CalcExpressionFromMessage(m);
  }

  /** A string containing one of the operators holds an operator character. */
  lemma OperatorIn(e: string) returns (c: char)
    requires ContainsAny(e, Operators)
    ensures c in e && c in "+-*/"
  {
    var k :| 0 <= k < |Operators| && Contains(e, Operators[k]);
    var i := ContainsIndex(e, Operators[k]);
    assert [e[i]] == Operators[k];
    c := e[i];
  }

  /** "what is" is a Wikipedia trigger tested before the calculator, so a
      message with "what is" never reaches the calculator: "what is 12*4"
      searches Wikipedia. */
  lemma WhatIsNeverCalculates(m: string)
    requires Contains(Lower(m), "what is")
    ensures Detect(m).None? || Detect(m).value.tool != "calculator"
  {
    if CalculatorRule(m, CalcExpression(m)).Some? {
      CalculatorKeepsQuery(m);
    }
    WikiBeforeCalculator(m, WikiQuery(m), CalcExpression(m));
  }

  /** With "what is" in the message, the calculator is reached only when
      the cleaned query is empty and the calculator rule cannot fire. */
  lemma WikiBeforeCalculator(m: string, query: string, expression: Option<string>)
    requires Contains(Lower(m), "what is")
    requires CalculatorRule(m, expression).Some? ==> query != []
    ensures Chain(m, query, expression).None? || Chain(m, query, expression).value.tool != "calculator"
  {
    if query != [] {
      assert WikiTriggers[1] == "what is";
      assert Chain(m, query, expression) == WikiRule(m, query);
    } else {
      OnlyCalculatorRuleCalculates(m, query, expression);
    }
  }

  /** The calculator rule is the only one that picks the calculator. */
  lemma OnlyCalculatorRuleCalculates(m: string, query: string, expression: Option<string>)
    requires CalculatorRule(m, expression).None?
    ensures Chain(m, query, expression).None? || Chain(m, query, expression).value.tool != "calculator"
  {
  }

  /** Triggers are raw substrings: "hi" makes any message containing "this"
      (or "which", "history") a greeting once the first three rules pass. */
  lemma GreetingInsideWords(m: string, query: string, expression: Option<string>, word: string)
    requires WikiRule(m, query).None? && WeatherRule(m).None? && CalculatorRule(m, expression).None?
    requires Contains(Lower(m), word) && Contains(word, "hi")
    ensures Chain(m, query, expression) == Some(Intent("get_time", map[]))
  {
    ContainsTransitive(Lower(m), word, "hi");
    assert TimeTriggers[4] == "hi";
  }

  /** The factorial rule never fires: "factorial" contains "fact", so the
      fact rule, which comes earlier, has already fired on any message the
      factorial rule would match. */
  lemma FactorialNeverDetected(m: string, query: string, expression: Option<string>)
    ensures Chain(m, query, expression).None? || Chain(m, query, expression).value.tool != "factorial"
  {
    if Contains(Lower(m), "factorial") {
      assert "factorial"[0..4] == "fact";
      ContainsAt("factorial", "fact", 0);
      ContainsTransitive(Lower(m), "factorial", "fact");
      assert FactTriggers[0] == "fact";
      assert KeywordRule(m, FactTriggers, "get_random_fact").Some?;
    }
  }

  // ---------------------------------------------------------------------------
  // Detected intents call tools as the catalog describes them
  // ---------------------------------------------------------------------------

  predicate CatalogConforms(intent: Intent)
  {
    exists i :: 0 <= i < |Catalog| && Catalog[i].name == intent.tool && Conforms(Catalog[i], intent.args)
  }

  lemma NoArgsConform(i: nat, tool: string)
    requires i < |Catalog| && Catalog[i].name == tool
    requires forall j :: 0 <= j < |Catalog[i].params| ==> !Catalog[i].params[j].required
    ensures CatalogConforms(Intent(tool, map[]))
  {
  }

  lemma OneArgConforms(i: nat, tool: string, key: string, v: Json)
    requires i < |Catalog| && Catalog[i].name == tool
    requires |Catalog[i].params| == 1 && Catalog[i].params[0].name == key
    requires Fits(v, Catalog[i].params[0].kind)
    ensures CatalogConforms(Intent(tool, map[key := v]))
  {
    var spec := Catalog[i];
    var args := map[key := v];
    assert forall k :: k in args ==> k == spec.params[0].name;
    assert Conforms(spec, args);
  }

  /** A rule's intent, when it fires, names a registered tool and passes the
      parameters its catalog entry declares, with the declared types. */
  predicate Registered(r: Option<Intent>)
  {
    r.Some? ==> r.value.tool in AvailableFunctions && CatalogConforms(r.value)
  }

  lemma WikiRuleConforms(m: string, query: string)
    ensures Registered(WikiRule(m, query))
  {
    if WikiRule(m, query).Some? {
      assert AvailableFunctions[8] == "search_wikipedia";
      OneArgConforms(8, "search_wikipedia", "query", JStr(query));
    }
  }

  lemma WeatherRuleConforms(m: string)
    ensures Registered(WeatherRule(m))
  {
    if WeatherRule(m).Some? {
      var args := WeatherRule(m).value.args;
      assert args == map["city" := args["city"]];
      assert AvailableFunctions[7] == "get_weather";
      OneArgConforms(7, "get_weather", "city", args["city"]);
    }
  }

  lemma CalculatorRuleConforms(m: string, expression: Option<string>)
    ensures Registered(CalculatorRule(m, expression))
  {
    if CalculatorRule(m, expression).Some? {
      assert AvailableFunctions[3] == "calculator";
      OneArgConforms(3, "calculator", "expression", JStr(expression.value));
    }
  }

  lemma KeywordRuleConforms(m: string, words: seq<string>, i: nat)
    requires i < |Catalog| && Catalog[i].params == []
    ensures Registered(KeywordRule(m, words, Catalog[i].name))
  {
    CatalogMatchesRegistry();
    if KeywordRule(m, words, Catalog[i].name).Some? {
      NoArgsConform(i, Catalog[i].name);
    }
  }

  lemma DiceRuleConforms(m: string)
    ensures Registered(DiceRule(m))
  {
    if DiceRule(m).Some? {
      var args := DiceRule(m).value.args;
      assert args == map["sides" := args["sides"]];
      assert AvailableFunctions[20] == "roll_dice";
      OneArgConforms(20, "roll_dice", "sides", args["sides"]);
    }
  }

  lemma PasswordRuleConforms(m: string)
    ensures Registered(PasswordRule(m))
  {
    if PasswordRule(m).Some? {
      var args := PasswordRule(m).value.args;
      assert args == map["length" := args["length"]];
      assert AvailableFunctions[22] == "generate_password";
      OneArgConforms(22, "generate_password", "length", args["length"]);
    }
  }

  lemma NumberRuleConforms(m: string, trigger: string, i: nat)
    requires i < |Catalog| && Catalog[i].params == [Param("number", IntegerParam, true)]
    ensures Registered(NumberRule(m, trigger, Catalog[i].name))
  {
    CatalogMatchesRegistry();
    if NumberRule(m, trigger, Catalog[i].name).Some? {
      OneArgConforms(i, Catalog[i].name, "number", JInt(FirstNumber(m).value));
    }
  }

  lemma FibonacciRuleConforms(m: string)
    ensures Registered(FibonacciRule(m))
  {
    if FibonacciRule(m).Some? {
      var args := FibonacciRule(m).value.args;
      assert args == map["count" := args["count"]];
      assert AvailableFunctions[6] == "fibonacci";
      OneArgConforms(6, "fibonacci", "count", args["count"]);
    }
  }

  /** Every intent the detector produces names a registered tool and passes
      the parameters its catalog entry declares, with the declared types. */
  lemma DetectedIntentsConform(m: string, query: string, expression: Option<string>)
    ensures Registered(Chain(m, query, expression))
  {
    WikiRuleConforms(m, query);
    WeatherRuleConforms(m);
    CalculatorRuleConforms(m, expression);
    KeywordRuleConforms(m, TimeTriggers, 0);
    KeywordRuleConforms(m, JokeTriggers, 10);
    KeywordRuleConforms(m, FactTriggers, 9);
    KeywordRuleConforms(m, QuoteTriggers, 11);
    DiceRuleConforms(m);
    KeywordRuleConforms(m, CoinTriggers, 21);
    PasswordRuleConforms(m);
    KeywordRuleConforms(m, EightBallTriggers, 24);
    NumberRuleConforms(m, "prime", 4);
    NumberRuleConforms(m, "factorial", 5);
    FibonacciRuleConforms(m);
  }
}
