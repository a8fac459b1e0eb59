/** The tool registry of backend/app.py: the catalog of tools offered to the
    language model, the name-to-function table `available_functions`, and
    the Python call `available_functions[name](**args)` that binds the
    model's JSON arguments to keyword parameters. */
module Registry {

  import opened Wrappers
  import opened Text
  import opened Executors

  /** A JSON value as json.loads returns it. Integers and strings are the
      kinds the modelled tools take; floats, booleans, null, arrays and
      objects are JOther. */
  datatype Json = JInt(i: int) | JStr(s: string) | JOther

  type Args = map<string, Json>

  /** What calling a tool does: raise an exception, or return its envelope. */
  datatype Outcome = Raised | Returned(result: ToolResult)

  /** The behaviour of every tool the model leaves out (clock, randomness,
      the network, eval, floating point), and of modelled tools given JSON
      kinds the model does not cover. */
  type External = (string, Args) -> Outcome

  /** The keys of `available_functions`, in the source's order. */
  const AvailableFunctions: seq<string> := [
    "get_time", "calculate_age", "days_until", "calculator", "is_prime",
    "factorial", "fibonacci", "get_weather", "search_wikipedia", "get_random_fact",
    "get_joke", "get_quote", "count_words", "reverse_text", "text_to_uppercase",
    "text_to_lowercase", "convert_currency", "convert_temperature", "encode_base64", "decode_base64",
    "roll_dice", "flip_coin", "generate_password", "random_number", "magic_8ball"
  ]

  /** The JSON-schema types the catalog declares for parameters. */
  datatype ParamType = IntegerParam | StringParam | NumberParam

  datatype Param = Param(name: string, kind: ParamType, required: bool)

  datatype ToolSpec = ToolSpec(name: string, params: seq<Param>)

  /** The `tools` catalog sent with the primary request: names and
      parameters (the descriptions are prose for the model). */
  const Catalog: seq<ToolSpec> := [
    ToolSpec("get_time", []),
    ToolSpec("calculate_age", [Param("birth_date", StringParam, true)]),
    ToolSpec("days_until", [Param("date", StringParam, true)]),
    ToolSpec("calculator", [Param("expression", StringParam, true)]),
    ToolSpec("is_prime", [Param("number", IntegerParam, true)]),
    ToolSpec("factorial", [Param("number", IntegerParam, true)]),
    ToolSpec("fibonacci", [Param("count", IntegerParam, true)]),
    ToolSpec("get_weather", [Param("city", StringParam, true)]),
    ToolSpec("search_wikipedia", [Param("query", StringParam, true)]),
    ToolSpec("get_random_fact", []),
    ToolSpec("get_joke", []),
    ToolSpec("get_quote", []),
    ToolSpec("count_words", [Param("text", StringParam, true)]),
    ToolSpec("reverse_text", [Param("text", StringParam, true)]),
    ToolSpec("text_to_uppercase", [Param("text", StringParam, true)]),
    ToolSpec("text_to_lowercase", [Param("text", StringParam, true)]),
    ToolSpec("convert_currency", [Param("amount", NumberParam, true), Param("from_currency", StringParam, true),
                                  Param("to_currency", StringParam, true)]),
    ToolSpec("convert_temperature", [Param("value", NumberParam, true), Param("from_unit", StringParam, true),
                                     Param("to_unit", StringParam, true)]),
    ToolSpec("encode_base64", [Param("text", StringParam, true)]),
    ToolSpec("decode_base64", [Param("encoded", StringParam, true)]),
    ToolSpec("roll_dice", [Param("sides", IntegerParam, false)]),
    ToolSpec("flip_coin", []),
    ToolSpec("generate_password", [Param("length", IntegerParam, false)]),
    ToolSpec("random_number", [Param("min", IntegerParam, true), Param("max", IntegerParam, true)]),
    ToolSpec("magic_8ball", [])
  ]

  /** Every tool offered to the model can be executed, and every executable
      tool is offered, in the same order. */
  lemma CatalogMatchesRegistry()
    ensures |Catalog| == |AvailableFunctions| == 25
    ensures forall i :: 0 <= i < |Catalog| ==> Catalog[i].name == AvailableFunctions[i]
  {
  }

  /** Whether a JSON value has the type a catalog parameter declares (a
      JSON number may be an integer). */
  predicate Fits(v: Json, kind: ParamType)
  {
    match kind
    case IntegerParam => v.JInt?
    case StringParam => v.JStr?
    case NumberParam => v.JInt? || v.JOther?
  }

  /** The arguments conform to the tool's catalog entry: only declared
      parameters, every required one present, each of its declared type. */
  predicate Conforms(spec: ToolSpec, args: Args)
  {
    (forall k :: k in args ==> exists j :: 0 <= j < |spec.params| && spec.params[j].name == k) &&
    (forall j :: 0 <= j < |spec.params| && spec.params[j].required ==> spec.params[j].name in args) &&
    (forall j :: 0 <= j < |spec.params| && spec.params[j].name in args ==>
       Fits(args[spec.params[j].name], spec.params[j].kind))
  }

  /** The tools this model executes itself, each with its one keyword
      parameter and whether that parameter is an integer. */
  function ModelledParam(name: string): Option<(string, bool)>
  {
    if name == "is_prime" || name == "factorial" then Some(("number", true))
    else if name == "fibonacci" then Some(("count", true))
    else if name == "get_weather" then Some(("city", false))
    else if name == "count_words" || name == "reverse_text" || name == "encode_base64" then Some(("text", false))
    else if name == "decode_base64" then Some(("encoded", false))
    else None
  }

  /** The modelled tools' parameters are the ones their catalog entries
      declare: a single required parameter of the same type. */
  lemma ModelledParamsMatchCatalog(i: nat)
    requires i < |Catalog| && ModelledParam(Catalog[i].name).Some?
    ensures Catalog[i].params ==
      [Param(ModelledParam(Catalog[i].name).value.0,
             if ModelledParam(Catalog[i].name).value.1 then IntegerParam else StringParam, true)]
  {
    if i < 8 {
      assert i in {4, 5, 6, 7};
    } else if i < 16 {
      assert i in {12, 13};
    } else {
      assert i in {18, 19};
    }
  }

  function IntegerTool(name: string, n: int): ToolResult
  {
    if name == "is_prime" then PrimeResult(n)
    else if name == "factorial" then FactorialResult(n)
    else FibonacciResult(n)
  }

  function TextTool(name: string, s: string): ToolResult
  {
    if name == "get_weather" then GetWeather(s)
    else if name == "count_words" then CountWords(s)
    else if name == "reverse_text" then ReverseText(s)
    else if name == "encode_base64" then EncodeBase64(s)
    else DecodeBase64(s)
  }

  /** `available_functions[name](**args)`. A modelled tool raises TypeError
      for a missing or unexpected keyword, and TypeError or AttributeError
      when an integer tool gets a string or a text tool an integer, except
      decode_base64, whose own `except` turns that into its failure
      envelope. Everything else is the external behaviour. */
  function Invoke(name: string, args: Args, external: External): (o: Outcome)
    requires name in AvailableFunctions
    ensures ModelledParam(name).None? ==> o == external(name, args)
    ensures ModelledParam(name).Some? && args.Keys != {ModelledParam(name).value.0} ==> o == Raised
  {
    match ModelledParam(name)
    case None => external(name, args)
    case Some((param, integer)) =>
      if args.Keys != {param} then Raised
      else match args[param]
        case JOther => external(name, args)
        case JInt(n) =>
          if integer then Returned(IntegerTool(name, n))
          else if name == "decode_base64" then Returned(ToolResult(DecoderTool, IntToString(n), "Invalid Base64", false))
          else Raised
        case JStr(s) => if integer then Raised else Returned(TextTool(name, s))
  }

  /** A modelled tool called as its catalog entry describes never raises,
      returns its own envelope, and does not consult the external
      behaviour. */
  lemma ConformingCallsReturn(i: nat, args: Args, external: External, other: External)
    requires i < |Catalog| && ModelledParam(Catalog[i].name).Some? && Conforms(Catalog[i], args)
    ensures Catalog[i].name in AvailableFunctions
    ensures Invoke(Catalog[i].name, args, external).Returned?
    ensures Invoke(Catalog[i].name, args, external) == Invoke(Catalog[i].name, args, other)
  {
    CatalogMatchesRegistry();
    ModelledParamsMatchCatalog(i);
    var name := Catalog[i].name;
    var param := ModelledParam(name).value.0;
    var spec := Catalog[i];
    assert spec.params[0].name == param && param in args;
    forall k | k in args
      ensures k == param
    {
      var j :| 0 <= j < |spec.params| && spec.params[j].name == k;
    }
    assert args.Keys == {param};
  }

  /** A modelled tool whose argument has the wrong JSON type, other than
      decode_base64, raises: the exception that sends the chat controller
      to its fallback. */
  lemma IllTypedCallsRaise(name: string, args: Args, external: External)
    requires name in AvailableFunctions && ModelledParam(name).Some? && name != "decode_base64"
    requires args.Keys == {ModelledParam(name).value.0}
    requires var v := args[ModelledParam(name).value.0];
      (ModelledParam(name).value.1 && v.JStr?) || (!ModelledParam(name).value.1 && v.JInt?)
    ensures Invoke(name, args, external) == Raised
  {
  }

  /** Runs a registered tool: the integer tools by their loops, the others by
      their definitions. */
  method Execute(name: string, args: Args, external: External) returns (o: Outcome)
    requires name in AvailableFunctions
    ensures o == Invoke(name, args, external)
  {
    var modelled := ModelledParam(name);
    if modelled.None? {
      return external(name, args);
    }
    var param, integer := modelled.value.0, modelled.value.1;
    if args.Keys != {param} {
      return Raised;
    }
    match args[param] {
      case JOther =>
        o := external(name, args);
      case JInt(n) =>
        if integer {
          var r: ToolResult;
          if name == "is_prime" {
            r := IsPrime(n);
          } else if name == "factorial" {
            r := Factorial(n);
          } else {
            r := Fibonacci(n);
          }
          o := Returned(r);
        } else if name == "decode_base64" {
          o := Returned(ToolResult(DecoderTool, IntToString(n), "Invalid Base64", false));
        } else {
          o := Raised;
        }
      case JStr(s) =>
        o := if integer then Raised else Returned(TextTool(name, s));
    }
  }
}
