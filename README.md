# A verified model of the chatbot backend

The backend (`backend/app.py`) is a Flask service. Its `/chat` endpoint sends the user's message and a short slice of the conversation to a hosted language model. The model is offered a catalog of 25 tools. The endpoint runs any tool calls the model asks for and returns the model's reply together with the tool results and the extended history. If anything in that path raises, a keyword-based detector, `detect_and_execute_tool`, picks a tool from the message and runs it directly. The model service is then asked once more, only to phrase the result.

This project models that core in Dafny and proves properties of the model:

- **`Text`** (`text.dfy`): the Python string operations the core relies on, with their edge cases:
  - ASCII `lower`/`title`;
  - substring tests;
  - `strip` and `split()` over Python's whitespace set;
  - `s[::-1]`, `s[:50]`;
  - `str(int)`, `int(...)` of a digit run;
  - `re.findall` of a character class.
- **`Utf8`** and **`Base64`**: `str.encode()`/`bytes.decode()`, `base64.b64encode`, and `base64.b64decode` with its default non-validating behaviour. That decoder skips characters outside the alphabet, stops at the padding that completes a quantum, and fails on an incomplete final quantum.
- **`Executors`**: the tools whose output is deterministic. Each tool's result envelope is `{tool, input, output, success}`.
  - `is_prime`, `factorial` and `fibonacci` are loops in the source. Here they are methods with loop invariants, proved equal to reference functions. Lemmas about those functions cover primality, the factorial's divisibility and the Fibonacci recurrence.
  - `get_weather`, `count_words`, `reverse_text`, `encode_base64` and `decode_base64` are functions.
- **`Registry`**:
  - the `tools` catalog (names and parameter schemas) and the `available_functions` table;
  - the keyword-argument call `available_functions[name](**args)`, including the `TypeError`s it raises on wrong keywords and the wrong-typed arguments the Python code rejects.
- **`Detector`**: `detect_and_execute_tool` without the execution. It is an ordered chain of 14 rules, and the first rule that fires gives the tool name and arguments.
  - `Chain(m, query, expression)` takes the Wikipedia query and the calculator expression as parameters.
  - `Detect(m)` supplies them as `WikiQuery(m)` and `CalcExpression(m)`.
- **`Chat`**: the `/chat` controller.
  - `Converse` is the reference function for one turn. It takes the detector's answer as a parameter.
  - The method `Chat` runs the source's loops and is proved equal to `Converse(..., Detect(message))`.

Two kinds of behaviour are not computed by the model and are given as parameters instead:

- The language model client is a parameter `backend: Request -> Completion`. `Failed` stands for any exception the client raises.
- The tools whose behaviour depends on the clock, randomness, the network, `eval` or floating point form a parameter `external: (name, args) -> Outcome`. So do the modelled tools when given JSON values of a kind the model does not represent, such as floats.

Every property below holds for all choices of `backend` and `external`.

The rule order has two consequences that one might not expect from the rules taken one at a time:

- One might expect "what is 12*4" to reach the calculator. In the code the Wikipedia rule (`backend/app.py:733`) comes first and fires on "what is". The query left after cleaning still holds "12*4", so it is not empty. `Detector.WhatIsNeverCalculates` proves that no message containing "what is" (in any letter case) reaches the calculator.
- The factorial rule (`backend/app.py:802-806`) never fires. Every message containing "factorial" also contains "fact", and the fact rule (`backend/app.py:765-767`) comes earlier in the chain. `Detector.FactorialNeverDetected` proves that the detector never yields `factorial`.

## Model

| member | source | states |
|---|---|---|
| Text.Lower | backend/app.py:730 | `user_message.lower()`: same length, each character mapped to lower case |
| Text.Title | backend/app.py:447 | `str.title()`: a letter is made upper case when it is first or follows a non-letter, lower case otherwise; other characters are unchanged |
| Text.TitleIgnoresCase | backend/app.py:447 | title-casing ignores the input's letter case and is idempotent |
| Text.Reverse | backend/app.py:605 | `text[::-1]`: position i holds the input's character at the mirrored position |
| Text.ReverseInvolution | backend/app.py:605 | reversing twice gives back the text |
| Text.Prefix | backend/app.py:602 | `text[:50]`: the first min(n, length) characters |
| Text.Strip | backend/app.py:735 | `str.strip()`: the result is the infix of the text that follows its leading whitespace, with only whitespace before and after it; it neither starts nor ends with whitespace, and it is empty exactly when the text is all whitespace |
| Text.StripMember | backend/app.py:735 | stripping only removes characters |
| Text.LeadingSpaces | backend/app.py:735 | the length of the leading whitespace: every character before it is whitespace, and the next one, if any, is not |
| Text.TrailingSpaces | backend/app.py:735 | the length of the trailing whitespace: every character after it is whitespace, and the one before it, if any, is not |
| Text.Words | backend/app.py:600 | `str.split()`: non-empty words without whitespace |
| Text.WordsAreMaximalRuns | backend/app.py:600 | each word is a slice s[i..j] with whitespace or an end of the text on both sides, and the words appear left to right without overlapping |
| Text.Contains | backend/app.py:733 | `sub in s`; no contract of its own: Text.ContainsAt and Text.ContainsIndex state it |
| Text.ContainsAt | backend/app.py:733 | an occurrence of the substring at any position makes `sub in s` true |
| Text.ContainsIndex | backend/app.py:733 | `sub in s` is true only at an actual occurrence, whose position it returns |
| Text.ContainsTransitive | backend/app.py:733 | a substring of a substring is a substring |
| Text.Runs | backend/app.py:751 | `re.findall` of a one-class pattern: every match is non-empty and holds only characters of the class |
| Text.RunsAreMaximal | backend/app.py:751 | each match is a slice s[i..j] bounded on both sides by a character outside the class or an end of the text, and the matches appear left to right without overlapping |
| Text.RunsSkip | backend/app.py:751 | characters outside the class before the first match start no match |
| Text.RunsFront | backend/app.py:751 | the matches are the first maximal run after the leading characters outside the class, followed by the matches of the text after that run |
| Text.RunsPartition | backend/app.py:751 | `re.findall` of a one-class pattern: the matches, concatenated, are the message's characters of that class in order; the number of matches is the number of runs |
| Text.RunsFirst | backend/app.py:788 | there are no matches exactly when no character is in the class; the first match is the first maximal run |
| Text.RunsMember | backend/app.py:751 | a match only holds characters of the message |
| Text.FirstNumberIsFirstRun | backend/app.py:788-789 | `int(re.findall(r'\d+', m)[0])` when a digit occurs: the value of the first maximal digit run; None exactly when there is no digit |
| Text.FirstNumber | backend/app.py:788-789 | no contract of its own: Text.FirstNumberIsFirstRun states it |
| Text.ParseDigits | backend/app.py:789 | `int(s)` of a digit run; no contract of its own: Text.ParseNatToString states that it inverts `str` |
| Text.IntToString | backend/app.py:418 | `str(n)`; no contract of its own: Text.IntToStringInjective and Text.NatToString state it |
| Text.NatToString | backend/app.py:418 | `str(n)`: non-empty decimal digits with no leading zero |
| Text.ParseNatToString | backend/app.py:418 | parsing `str(n)` gives back n |
| Text.IntToStringInjective | backend/app.py:418 | distinct integers have distinct `str` forms |
| Utf8.Encode | backend/app.py:655 | `text.encode()`: between one and four bytes per character |
| Utf8.Decode | backend/app.py:660 | `bytes.decode()`: a successful decoding has at most one character per byte; Utf8.DecodeEncode, Utf8.EncodeDecode and Utf8.DecodeIsInverse state that it inverts `str.encode()` |
| Utf8.EncodeDecode | backend/app.py:660 | strict decoding: whatever decodes successfully is the encoding of the decoded text, so only well-formed UTF-8 is accepted |
| Utf8.DecodeIsInverse | backend/app.py:655-660 | `bs.decode()` gives s exactly when `bs == s.encode()` |
| Utf8.EncodeChar | backend/app.py:655 | a code point takes 1 to 4 bytes, and takes one byte exactly when it is ASCII |
| Utf8.DecodeFirstEncodeChar | backend/app.py:660 | decoding the bytes of one encoded character gives it back and consumes exactly its bytes |
| Utf8.DecodeEncode | backend/app.py:655-660 | `s.encode().decode() == s` for every string |
| Base64.SextetValue | backend/app.py:660 | a character's alphabet value is the inverse of the alphabet, and characters outside it have none |
| Base64.SextetRoundTrip | backend/app.py:655-660 | every sextet decodes back from its alphabet character |
| Base64.Encode | backend/app.py:655 | `b64encode`: 4·⌈n/3⌉ characters, all from the alphabet or '=', all ASCII |
| Base64.LenientGroup | backend/app.py:660 | a full group of four characters decodes to its three bytes ahead of what follows |
| Base64.LenientEncodeLast | backend/app.py:660 | a padded final group decodes to its one or two bytes and stops there |
| Base64.LenientEncode | backend/app.py:655-660 | the decoder, run on an encoding followed by anything, gives the encoded bytes, continuing into the rest only when no padding ended the group |
| Base64.DecodeEncode | backend/app.py:655-660 | `b64decode(b64encode(bs)) == bs` |
| Base64.Lenient | backend/app.py:660 | the non-validating decoder; no contract of its own: Base64.LenientGroup, Base64.LenientEncodeLast, Base64.LenientEncode, Base64.LenientSkipsForeign and Base64.LenientAlphabetOnly state it |
| Base64.Decode | backend/app.py:660 | `b64decode`; no contract of its own: Base64.DecodeEncode and Base64.DecodeRejectsTruncated state it |
| Base64.LenientAlphabetOnly | backend/app.py:660 | on alphabet characters alone the decoder fails exactly when the characters do not fill whole groups of four |
| Base64.DecodeRejectsTruncated | backend/app.py:660 | `b64decode` rejects every alphabet-only text whose length is not a multiple of four |
| Base64.LenientSkipsForeign | backend/app.py:660 | a character outside the alphabet, other than '=', is ignored by the decoder wherever it occurs |
| Executors.PrimeVerdictIsPrimality | backend/app.py:408-418 | the trial-division verdict up to the square root is "Yes" exactly when the number is prime |
| Executors.SmallDivisor | backend/app.py:412-414 | a composite number has a divisor no greater than its square root |
| Executors.IsPrime | backend/app.py:408-418 | the loop's result is the prime checker envelope with the trial-division verdict |
| Executors.PrimeResult | backend/app.py:418 | the prime checker envelope: always successful, with input `str(number)` and output "`n` is prime: Yes/No" |
| Executors.Fact | backend/app.py:423-425 | the product 1·…·n is at least 1 |
| Executors.FactDivisible | backend/app.py:423-425 | n! is divisible by every k in 1..n |
| Executors.Factorial | backend/app.py:420-426 | the loop's result is the factorial envelope of n! |
| Executors.FactorialResult | backend/app.py:420-426 | success exactly when n ≥ 0; the error text for a negative n; otherwise "`n`! = `n!`" |
| Executors.FibonacciTerms | backend/app.py:430-434 | min(count, 20) terms, starting 0, 1 and following the recurrence |
| Executors.Fibonacci | backend/app.py:428-434 | the loop's result is the Fibonacci envelope of those terms |
| Executors.FibonacciResult | backend/app.py:428-434 | success exactly when count > 0; "Count must be positive" otherwise; the list's repr otherwise |
| Executors.WeatherFor | backend/app.py:438-448 | the table entry for a listed city, the "Unknown" entry for any other |
| Executors.GetWeather | backend/app.py:437-454 | a successful envelope whose line names the title-cased city and its table entry |
| Executors.WeatherIgnoresCase | backend/app.py:447-448 | the weather line does not depend on the city's letter case |
| Executors.ReverseText | backend/app.py:604-605 | a successful envelope holding the reversed text |
| Executors.ReverseTextTwice | backend/app.py:604-605 | reversing the reversed output gives back the text |
| Executors.CountWords | backend/app.py:599-602 | input is the first 50 characters; output gives the number of words and the number of characters |
| Executors.CountWordsCounts | backend/app.py:600-601 | the words, concatenated, are exactly the non-whitespace characters |
| Executors.EncodeBase64 | backend/app.py:654-656 | a successful envelope whose output has length 4·⌈b/3⌉, b being the UTF-8 length |
| Executors.DecodeBase64 | backend/app.py:658-663 | success exactly when the text decodes as Base64 and the bytes as UTF-8, the output then being the decoded text; "Invalid Base64" otherwise |
| Executors.Base64ToolRoundTrip | backend/app.py:654-663 | decoding the encoder's output succeeds with the original text |
| Executors.Base64ToolRejectsTruncated | backend/app.py:658-663 | every alphabet-only input whose length is not a multiple of four gets the failed "Invalid Base64" envelope |
| Registry.CatalogMatchesRegistry | backend/app.py:25-356 | the catalog and `available_functions` name the same 25 tools in the same order |
| Registry.ModelledParamsMatchCatalog | backend/app.py:25-356 | each modelled tool's keyword parameter is the single required parameter its catalog entry declares |
| Registry.Invoke | backend/app.py:899 | an unmodelled tool behaves as the external behaviour; a modelled tool given any other set of keywords raises |
| Registry.ConformingCallsReturn | backend/app.py:899 | a modelled tool called as its catalog entry describes returns an envelope and does not depend on the external behaviour |
| Registry.IllTypedCallsRaise | backend/app.py:899 | a modelled tool other than decode_base64, given a wrong-typed argument, raises |
| Registry.Execute | backend/app.py:696-722 | running a tool through the table agrees with Invoke |
| Detector.StripTriggers | backend/app.py:734 | `re.sub` of the trigger pattern: the result is no longer than the message; Detector.StripTriggersKeeps and Detector.StripTriggersNoQuestion state what it keeps and removes |
| Detector.FirstMatching | backend/app.py:734 | the alternation matches the first alternative that matches at that point, no earlier one matching there; or no alternative matches there |
| Detector.StripTriggersKeeps | backend/app.py:734 | `re.sub` of the pattern keeps every character that is not a letter, a space or '?' |
| Detector.StripTriggersNoQuestion | backend/app.py:734 | `re.sub` of the pattern removes every '?' |
| Detector.WikiQuery | backend/app.py:734-735 | the cleaned Wikipedia query; no contract of its own: Detector.WikiQueryShape and Detector.WikiQueryKeeps state it |
| Detector.WikiQueryShape | backend/app.py:734-735 | the cleaned query has no '?' and no whitespace at either end |
| Detector.WikiQueryKeeps | backend/app.py:734-736 | a message holding a digit or an operator always leaves a non-empty query |
| Detector.FirstContained | backend/app.py:743-745 | the first city of the list that the message names, or none if it names none |
| Detector.LongestIndex | backend/app.py:753 | `max(matches, key=len)`: a longest match, the first of the longest ones |
| Detector.CalcExpression | backend/app.py:749-753 | the calculator's expression; no contract of its own: Detector.CalcExpressionFromMessage states it |
| Detector.CalcExpressionFromMessage | backend/app.py:751-753 | there is an expression exactly when there is a match; its characters come from the message |
| Detector.DefaultsWithoutDigits | backend/app.py:787-812 | without a digit the prime and factorial rules do not fire, and password and Fibonacci use 12 and 10 |
| Detector.ArgumentsFromFirstNumber | backend/app.py:787-812 | with a digit, the prime and factorial rules, each taken alone, fire exactly on their trigger, and all numeric rules use the first number |
| Detector.WeatherBeforeNumericRules | backend/app.py:740-746 | when the Wikipedia rule does not fire, "weather" or "temperature" always yields get_weather |
| Detector.WhatIsNeverCalculates | backend/app.py:733-755 | a message containing "what is" is never routed to the calculator |
| Detector.WikiBeforeCalculator | backend/app.py:733-755 | the same, for any query that is non-empty whenever the calculator rule fires |
| Detector.OnlyCalculatorRuleCalculates | backend/app.py:749-755 | the calculator is chosen only by its own rule |
| Detector.FactorialNeverDetected | backend/app.py:765-806 | the factorial rule is shadowed: a message containing "factorial" is taken by the earlier fact rule, so the chain never yields factorial |
| Detector.GreetingInsideWords | backend/app.py:758-759 | when the first three rules do not fire, any word containing "hi" (such as "this" or "which") selects get_time |
| Detector.WikiRule | backend/app.py:732-737 | no contract of its own: Detector.WikiRuleConforms states it |
| Detector.WeatherRule | backend/app.py:739-746 | no contract of its own: Detector.WeatherRuleConforms states it |
| Detector.CalculatorRule | backend/app.py:748-755 | no contract of its own: Detector.CalculatorRuleConforms states it |
| Detector.KeywordRule | backend/app.py:757-771 | the keyword rules; no contract of its own: Detector.KeywordRuleConforms states it |
| Detector.DiceRule | backend/app.py:773-779 | no contract of its own: Detector.DiceRuleConforms states it |
| Detector.PasswordRule | backend/app.py:785-789 | no contract of its own: Detector.PasswordRuleConforms states it |
| Detector.NumberRule | backend/app.py:795-806 | the prime and factorial rules; no contract of its own: Detector.NumberRuleConforms states it |
| Detector.FibonacciRule | backend/app.py:808-812 | no contract of its own: Detector.FibonacciRuleConforms states it |
| Detector.WikiRuleConforms | backend/app.py:732-737 | the Wikipedia intent names a registered tool, with arguments that fit its catalog entry |
| Detector.WeatherRuleConforms | backend/app.py:739-746 | the same for the weather intent |
| Detector.KeywordRuleConforms | backend/app.py:757-771 | the same for the keyword intents, whose tools take no arguments |
| Detector.DiceRuleConforms | backend/app.py:773-779 | the same for the dice intent |
| Detector.PasswordRuleConforms | backend/app.py:785-789 | the same for the password intent |
| Detector.NumberRuleConforms | backend/app.py:795-806 | the same for the prime and factorial intents |
| Detector.FibonacciRuleConforms | backend/app.py:808-812 | the same for the Fibonacci intent |
| Detector.CalculatorRuleConforms | backend/app.py:749-755 | the calculator intent names a registered tool, with arguments that fit its catalog entry |
| Detector.Chain | backend/app.py:728-814 | the rules in the source's order, the first that fires deciding; no contract of its own: Detector.DetectedIntentsConform, Detector.WhatIsNeverCalculates, Detector.WeatherBeforeNumericRules and Detector.FactorialNeverDetected state it |
| Detector.Detect | backend/app.py:728-814 | `detect_and_execute_tool` without the execution; no contract of its own: Chat.DetectRegistered states it |
| Detector.DetectedIntentsConform | backend/app.py:728-814 | every intent the chain yields names a registered tool, with arguments that fit its catalog entry |
| Chat.Kept | backend/app.py:855-857 | the history filter; Chat.KeptFromTurns, Chat.KeptAll, Chat.KeptAppend and Chat.KeptSingle state it |
| Chat.Context | backend/app.py:855-857 | the filtered last six entries; Chat.ContextShape, Chat.ContextIgnoresOlder and Chat.ContextOfWellFormedHistory state it |
| Chat.Opening | backend/app.py:846-859 | the system prompt, the context and the user's message; Chat.BuildOpening states it |
| Chat.KeptFromTurns | backend/app.py:855-857 | each context message is a user or assistant message, has non-empty content, and comes from a history entry |
| Chat.KeptAll | backend/app.py:855-857 | entries that pass the filter are all kept, in order |
| Chat.KeptAppend | backend/app.py:855-857 | the filter works entry by entry: two stretches of history give the first's messages followed by the second's |
| Chat.KeptSingle | backend/app.py:856-857 | one entry gives its role and content exactly when it passes the filter, and nothing otherwise |
| Chat.ContextShape | backend/app.py:855-857 | at most six context messages, none longer than the history, each from an entry of the history |
| Chat.ContextIgnoresOlder | backend/app.py:855 | entries older than the last six never reach the model |
| Chat.ContextOfWellFormedHistory | backend/app.py:855-857 | a history whose entries all pass the filter contributes exactly its last min(6, length) entries, in order, each as its role and content |
| Chat.CallStep | backend/app.py:893-899 | one call's fate: raise, skip, or a result; no contract of its own: Chat.DispatchSnoc, Chat.UnparsableCallRaises and Chat.UnknownCallDropped state it |
| Chat.Record | backend/app.py:892-908 | the loop over the calls' steps; Chat.RecordAppends, Chat.RecordStopsAtRaise, Chat.RecordSkips and Chat.RecordConcat state it |
| Chat.Dispatch | backend/app.py:892-908 | the tool-call loop; Chat.DispatchAppends, Chat.DispatchSnoc and Chat.UnknownCallDropped state it |
| Chat.RecordAppends | backend/app.py:892-908 | the tool-call loop only appends, one tool reply per recorded result and at most one per call |
| Chat.RecordStopsAtRaise | backend/app.py:892-899 | a call that raises ends the loop with an exception |
| Chat.RecordSkips | backend/app.py:898 | calls that are all skipped change nothing |
| Chat.RecordConcat | backend/app.py:892-908 | running two stretches of calls is running the first and then, unless it raised, the second from where the first left off |
| Chat.StepsAppend | backend/app.py:893-899 | each call's step depends on that call alone |
| Chat.DispatchSnoc | backend/app.py:892-908 | one more call after calls that did not raise either raises, is skipped, or appends exactly its tool reply (its id, its name and its result) and its result |
| Chat.UnknownCallDropped | backend/app.py:898 | a parsable call naming an unknown tool, wherever it stands among the calls, changes nothing |
| Chat.DispatchAppends | backend/app.py:892-908 | the loop's messages extend the request's, each new one carrying the corresponding result |
| Chat.UnparsableCallRaises | backend/app.py:894 | arguments that do not parse raise even for an unknown tool name |
| Chat.UnknownCallsSkipped | backend/app.py:898 | calls naming unknown tools are skipped without error |
| Chat.DetectRegistered | backend/app.py:728-814 | the detector's intent is always registered and conforms to the catalog |
| Chat.Converse | backend/app.py:837-973 | one turn as a reference function; Chat.ConverseOutcome, Chat.PlainAnswer, Chat.OfflineUsesDetector, Chat.RaisedCallsKeepEarlierResults and Chat.ModelledFallbackResponds state it |
| Chat.Fallback | backend/app.py:921-960 | the `except` branch; Chat.FallbackOutcome states it |
| Chat.ConverseOutcome | backend/app.py:837-973 | every response extends the history by the user's message and the reply; the only internal error is a detected fallback tool that raises |
| Chat.FallbackOutcome | backend/app.py:921-967 | the same, for the `except` branch alone |
| Chat.ModelledFallbackResponds | backend/app.py:921-930 | a detected tool that the model executes itself never causes an internal error (given the Executors.IsPrime simplification, see below) |
| Chat.PlainAnswer | backend/app.py:918-919 | an answer without tool calls is the model's content, or the default greeting when that content is null or empty |
| Chat.OfflineUsesDetector | backend/app.py:921-960 | with the service down, the reply is the "Here's what I found" template over the detected tool's result, or the canned reply when nothing is detected |
| Chat.RaisedCallsKeepEarlierResults | backend/app.py:892-930 | results of calls completed before an exception open the reply's tool results, followed by at most one more |
| Chat.BuildOpening | backend/app.py:846-859 | the loop over the last six entries builds the opening messages |
| Chat.RunCalls | backend/app.py:892-908 | the loop over the tool calls computes Dispatch |
| Chat.RunFallback | backend/app.py:921-960 | the `except` branch computes Fallback |
| Chat.Chat | backend/app.py:837-973 | the detector's answer is registered, and the turn's result is Converse with that answer |

## Left out

- Flask request parsing and `jsonify` are not modelled. The endpoint is a method over a message string and a history of role/content entries. A missing role is an empty string; a missing or null content is None.
- History entries that are not JSON objects are not modelled. In the source `msg.get` raises on them (`backend/app.py:855-856`), before the `try`.
- A message that is not a string is not modelled. The source forwards it to the service (`backend/app.py:857-859`). If the service call then fails, the fallback calls `detect_and_execute_tool` (`backend/app.py:926`), whose `.lower()` (`backend/app.py:730`) raises outside any `try`, so the request ends in a server error.
- History contents that are truthy but not strings, such as the number 5, are not modelled. They pass the filter at `backend/app.py:856` and are forwarded as they are. The model's content is a string or None.
- The language model client, `response.choices[0]`, the model name and the sampling temperatures are not modelled. The client is the `backend` parameter. A request records its messages, whether tools are offered, and its token limit.
- The tools `get_time`, `calculate_age`, `days_until`, `calculator` (`eval`), `search_wikipedia`, `get_random_fact`, `get_joke`, `get_quote`, `text_to_uppercase`, `text_to_lowercase`, `convert_currency`, `convert_temperature`, `roll_dice`, `flip_coin`, `generate_password`, `random_number` and `magic_8ball` are given by the `external` parameter. They depend on the clock, randomness, the network, `eval`, floating point or full Unicode case mapping.
- JSON floats, booleans, null, arrays and objects passed as tool arguments are a single `JOther` kind. The modelled tools hand them to `external`.
- The arguments' raw JSON text is not kept in the assistant's tool-call message. The model keeps the parsed form.
- The tool replies' `json.dumps` text is not modelled. A tool reply holds the result envelope itself.
- `parse_groq_function_syntax`, the `/health` and `/tools` routes, logging `print`s and the frontend are not modelled. The `print`s can affect `/chat`'s result only through text holding a lone surrogate, which the model cannot represent (see Executors.EncodeBase64):
  - These prints stand outside every `try`, so printing such text raises and the request ends in a server error:
    - the user's message (`backend/app.py:843`);
    - the exception text in the `except` handler (`backend/app.py:922`), which can carry an argument name taken from the model's JSON;
    - the fallback tool's output (`backend/app.py:930`);
    - the final reply (`backend/app.py:962`).
  - The prints of a tool call and of its output (`backend/app.py:896`, `backend/app.py:900`) stand inside the `try`. Printing such text there sends the turn to the fallback.
- Text.Lower: case mapping covers ASCII letters only. Python's `lower()` and `re.IGNORECASE` also map other Unicode letters, so a message spelling a trigger with non-ASCII letters is not covered.
- Text.Title: title-casing covers ASCII letters only, as for Lower.
- Text.FirstNumberIsFirstRun: `\d` is the ASCII digits. Python's pattern also matches other Unicode decimal digits.
- Detector.CalcExpression: the calculator's pattern `[\d+\-*/().\s]+` (`backend/app.py:751`, `Text.MathChar`) takes `\d` as the ASCII digits too, so a message with a non-ASCII decimal digit, such as "2 + ٣", yields a different expression in the source.
- Executors.IsPrime: `int(number ** 0.5)` is modelled as the exact integer square root. That is, the loop runs while `i * i <= number`. For integers too large to convert to a float, the source raises OverflowError; the model does not.
- Executors.Factorial: Python's limit on the digits `str` converts, 4300 by default, is not modelled. Nor is the time the loop takes on very large numbers.
- Registry.Invoke: calling decode_base64 with a JSON integer n is modelled as echoing `str(n)` in the envelope's input field. The source puts the integer itself there (`backend/app.py:663`); the model's envelope fields are strings.
- Executors.EncodeBase64: lone surrogates (U+D800 to U+DFFF) are not modelled, because a Dafny `char` cannot hold one. In the source `text.encode()` (`backend/app.py:655`) raises on them, and so does the `print` at `backend/app.py:843`.
- Chat.ModelledFallbackResponds: the lemma holds only under the Executors.IsPrime simplification. In the source `number ** 0.5` (`backend/app.py:412`) raises OverflowError for numbers of more than about 308 digits, and in the fallback branch that ends the request with an internal error.
- Detector.Detect: the detector's own exceptions are not modelled. One example is `int()` on a digit run over Python's digit limit, which the source does not catch.
