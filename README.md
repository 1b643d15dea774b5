# Agent samples: tool-call parsing, book lookup, agent loop, action extraction, schema conversion

This project models in Dafny the deterministic plumbing of three small
TypeScript agent samples. It proves properties of that model.

- **Book agent** (`book-ai-agent-sample/src/agent.ts`) has four parts.
  - `parseToolCall` finds a call such as `book_lookup(title="Dom Casmurro")` in a model reply. It uses a case-insensitive regular expression.
  - `bookLookupTool` looks a title up in a fixed catalog. It tries an exact key first, then a key equal up to case, then a key that overlaps the title up to case.
  - `executeTool` dispatches a call by tool name.
  - `runBookAgent` is the bounded Thought-Action-Observation loop. It calls the completion service, detects tool calls, appends the reply and the tool's result to the transcript, and stops on a final answer, an error or the iteration ceiling.
- **Action extractor** (`dummy-agent-library/src/agent.ts`) has two parts.
  - `parseAction` takes the first fenced block of a reply, strips the blanks and an optional `json` tag, and parses the body as JSON. Any failure gives `null`.
  - `getWeather` is a fixed sentence around a location.
- **Schema converter** (`ai-agent-tutorial/src/schemas.ts`).
  - `zodToOpenAI` turns the fields of an object schema into a tool-parameter description.
  - The calculator's input and output schemas are modelled as data.

The project has six modules.

- `TextUtil` (`text.dfy`) holds what JavaScript gives these programs:
  - the `\s` / `trim` whitespace set;
  - `includes`, `join` and `toLowerCase`;
  - the decimal rendering of integers.
- `ToolCallParser` (`tool_call_parser.dfy`) writes the regular expression as a token list.
  - It defines the language of that list (`Generates`) and a greedy scanner (`Scan`).
  - It proves the two agree on every pattern whose greedy choices are forced.
  - `ParseToolCall` therefore returns the capture of the leftmost match.
- `BookCatalog` (`book_catalog.dfy`) holds the catalog, the three-stage lookup, the two texts the lookup produces and the dispatch.
- `BookAgent` (`book_agent.dfy`) holds the loop.
  - `RunFrom` describes a run round by round over an environment: `callLLM` as the loop sees it (a reply or the message it threw), the call detector and the tool runner.
  - The imperative `AgentLoop`, a `while` loop over a growing transcript, is proved to compute `RunFrom`.
  - `RunBookAgent` runs it with `parseToolCall` and `executeTool` on the catalog.
- `ActionParser` (`action_parser.dfy`) computes the match of the fence expression by scanning. It proves where the block lies, that only the first block counts, and what `parseAction` returns.
- `SchemaConverter` (`schemas.dfy`) has a `for` loop method, `ZodToOpenAI`, proved equal to a fold over the fields, with lemmas about that fold.

The completion service and `JSON.parse` are parameters. The service is a function from the transcript sent to its outcome: a reply's content, or an error message. `JSON.parse` is a function that returns `None` where the real one throws.

## Model

Paths are relative to the repository root.

| member | source | states |
|---|---|---|
| TextUtil.SkipBlanks | 01-resource/units/unit-01/samples/book-ai-agent-sample/src/agent.ts:122 | a greedy `\s*` consumes exactly the run of blanks and stops before a non-blank or the end |
| TextUtil.Trim | 01-resource/units/unit-01/samples/book-ai-agent-sample/src/agent.ts:165 | `trim()` returns the slice of the text left once every leading and every trailing blank is cut off, and nothing more: only blanks lie outside it and it neither begins nor ends with a blank |
| TextUtil.ToLower | 01-resource/units/unit-01/samples/book-ai-agent-sample/src/agent.ts:86 | `toLowerCase()` keeps the length, maps each character on its own, and leaves no capital letter (ASCII or Latin-1) in the result |
| TextUtil.ToLowerKeeps | 01-resource/units/unit-01/samples/book-ai-agent-sample/src/agent.ts:86 | `toLowerCase()` leaves text without capitals unchanged |
| TextUtil.ToLowerIdempotent | 01-resource/units/unit-01/samples/book-ai-agent-sample/src/agent.ts:86 | lower-casing twice is lower-casing once, so comparing lower-cased keys with a lower-cased title is stable |
| TextUtil.JoinContainsEach | 01-resource/units/unit-01/samples/book-ai-agent-sample/src/agent.ts:108 | every element of an array occurs in its `join` |
| ToolCallParser.ToolCallPatternIsGreedy | 01-resource/units/unit-01/samples/book-ai-agent-sample/src/agent.ts:122 | the tool-call expression has exactly one group and never needs backtracking: each `\s*` is followed by a non-blank literal or a quote, and the group by a quote |
| ToolCallParser.ScanSound | 01-resource/units/unit-01/samples/book-ai-agent-sample/src/agent.ts:122 | whatever the greedy scanner finds is matched by the pattern, with the same capture |
| ToolCallParser.ScanComplete | 01-resource/units/unit-01/samples/book-ai-agent-sample/src/agent.ts:122 | for a pattern that needs no backtracking, every match at an index is what the scanner finds there, with the same end and capture |
| ToolCallParser.CaptureShape | 01-resource/units/unit-01/samples/book-ai-agent-sample/src/agent.ts:122 | the capture of `([^"']+)` is non-empty and quote-free |
| ToolCallParser.FirstMatch | 01-resource/units/unit-01/samples/book-ai-agent-sample/src/agent.ts:123 | `match` reports the leftmost start at which the scan succeeds; it reports nothing only when the scan fails everywhere |
| ToolCallParser.FirstMatchIsLeftmost | 01-resource/units/unit-01/samples/book-ai-agent-sample/src/agent.ts:122-123 | what `match` reports is the leftmost match of the pattern and the only one at that start |
| ToolCallParser.ParseToolCall | 01-resource/units/unit-01/samples/book-ai-agent-sample/src/agent.ts:120-131 | a detected call is always named `book_lookup` |
| ToolCallParser.ParseToolCallNoneIff | 01-resource/units/unit-01/samples/book-ai-agent-sample/src/agent.ts:122-125 | `null` exactly when the pattern matches nowhere in the text |
| ToolCallParser.ParseToolCallFound | 01-resource/units/unit-01/samples/book-ai-agent-sample/src/agent.ts:122-130 | on a match, the tool name is `book_lookup` and the title is the non-empty, quote-free capture of the leftmost match |
| BookCatalog.BooksDatabaseValid | 01-resource/units/unit-01/samples/book-ai-agent-sample/src/agent.ts:37-73 | the catalog's five keys are non-empty and distinct, and keys and entries agree |
| BookCatalog.FindFirst | 01-resource/units/unit-01/samples/book-ai-agent-sample/src/agent.ts:84-86 | `find` returns the first element satisfying the test, and nothing exactly when none does |
| BookCatalog.ResolveKey | 01-resource/units/unit-01/samples/book-ai-agent-sample/src/agent.ts:80-104 | an exact key wins; any other resolved key is a catalog key that overlaps the title up to case |
| BookCatalog.ResolveCaseInsensitive | 01-resource/units/unit-01/samples/book-ai-agent-sample/src/agent.ts:83-91 | with no exact key, the first key equal to the title up to case is chosen |
| BookCatalog.ResolvePartial | 01-resource/units/unit-01/samples/book-ai-agent-sample/src/agent.ts:94-104 | with no exact or case-insensitive key, the first key where either lower-cased text includes the other is chosen |
| BookCatalog.ResolveMissIff | 01-resource/units/unit-01/samples/book-ai-agent-sample/src/agent.ts:80-106 | a lookup misses exactly when the title is not a key and overlaps no key up to case |
| BookCatalog.LowerCaseTitleResolves | 01-resource/units/unit-01/samples/book-ai-agent-sample/src/agent.ts:83-91 | "dom casmurro" resolves to "Dom Casmurro" in the catalog |
| BookCatalog.BookLookupTool | 01-resource/units/unit-01/samples/book-ai-agent-sample/src/agent.ts:76-117 | a miss gives the not-found text; a hit gives the card of the resolved entry under the title as asked |
| BookCatalog.NotFoundText | 01-resource/units/unit-01/samples/book-ai-agent-sample/src/agent.ts:106-108 | the answer for a title that resolves to no key: the title, then every key joined by `, `; see `NotFoundTextNames` |
| BookCatalog.NotFoundTextNames | 01-resource/units/unit-01/samples/book-ai-agent-sample/src/agent.ts:106-108 | the not-found text names the title asked for and lists every catalog key |
| BookCatalog.BookCard | 01-resource/units/unit-01/samples/book-ai-agent-sample/src/agent.ts:111-116 | the card of a resolved book: the title as asked, then author, year, genre, pages and summary under their labels; see `BookCardShows` |
| BookCatalog.BookCardShows | 01-resource/units/unit-01/samples/book-ai-agent-sample/src/agent.ts:111-116 | the card begins with the title as asked and carries the author, year, genre, pages and summary |
| BookCatalog.ExecuteTool | 01-resource/units/unit-01/samples/book-ai-agent-sample/src/agent.ts:134-137 | a `book_lookup` call runs the lookup on its title |
| BookCatalog.UnknownToolText | 01-resource/units/unit-01/samples/book-ai-agent-sample/src/agent.ts:139 | the answer to a call of any tool other than `book_lookup`; see `ExecuteUnknownTool` |
| BookCatalog.ExecuteUnknownTool | 01-resource/units/unit-01/samples/book-ai-agent-sample/src/agent.ts:134-140 | any other tool name gives the not-found text, which names that tool |
| BookAgent.CallLLM | 01-resource/units/unit-01/samples/book-ai-agent-sample/src/agent.ts:143-170 | a failed request or empty content is an error prefixed `Erro interno: ` carrying the thrown message; otherwise the reply is exactly the trimmed content |
| BookAgent.MissingResponseEndsRun | 01-resource/units/unit-01/samples/book-ai-agent-sample/src/agent.ts:155-156 | a request that got no response ends the run with `❌ Erro durante o processamento: `, then `Erro interno: `, then the message thrown for it |
| BookAgent.RoundPair | 01-resource/units/unit-01/samples/book-ai-agent-sample/src/agent.ts:232-237 | a tool round appends the assistant's reply, then a function message named after the tool carrying its result |
| BookAgent.RunFrom | 01-resource/units/unit-01/samples/book-ai-agent-sample/src/agent.ts:215-252 | the run of the remaining rounds, as a recursion over the transcript; its properties are the `RunFrom…` lemmas and `RunFacts`, and `AgentLoop` is proved to compute it |
| BookAgent.RunFromToolRound | 01-resource/units/unit-01/samples/book-ai-agent-sample/src/agent.ts:228-237 | after a tool round the run goes on from the extended transcript |
| BookAgent.RunFromLastRound | 01-resource/units/unit-01/samples/book-ai-agent-sample/src/agent.ts:238-248 | a round without a tool call ends the run with the reply or the error text, and appends nothing |
| BookAgent.RunFromBudget | 01-resource/units/unit-01/samples/book-ai-agent-sample/src/agent.ts:215 | the calls made stay within the rounds left; a run not cut off made at least one call |
| BookAgent.RunFromGrowth | 01-resource/units/unit-01/samples/book-ai-agent-sample/src/agent.ts:236-237 | the transcript keeps every earlier message and grows by two messages per tool round |
| BookAgent.RunFromPrompts | 01-resource/units/unit-01/samples/book-ai-agent-sample/src/agent.ts:215-237 | call `k` sees exactly the first `2k` messages added after the opening, as a prefix of the final transcript |
| BookAgent.RunFromPairs | 01-resource/units/unit-01/samples/book-ai-agent-sample/src/agent.ts:226-237 | each tool round's pair sits right after what that round's call saw |
| BookAgent.RunFromEnd | 01-resource/units/unit-01/samples/book-ai-agent-sample/src/agent.ts:238-248 | a final answer is the last reply as it came and contains no tool call; a failure is the error prefix plus the last call's error |
| BookAgent.RunFromExhaustedIff | 01-resource/units/unit-01/samples/book-ai-agent-sample/src/agent.ts:215-252 | the iteration-limit text comes exactly when every allowed round found a tool call |
| BookAgent.Opening | 01-resource/units/unit-01/samples/book-ai-agent-sample/src/agent.ts:206-209 | the opening transcript: the system prompt, then the question as the user's message; see `RunFacts` |
| BookAgent.RunFacts | 01-resource/units/unit-01/samples/book-ai-agent-sample/src/agent.ts:205-215 | the transcript starts with the system prompt and the question; call `k` sees `2k + 2` messages; at most `maxIterations` calls; no calls when `maxIterations <= 0` |
| BookAgent.BookEnv | 01-resource/units/unit-01/samples/book-ai-agent-sample/src/agent.ts:221-232 | the book agent calls the service through `callLLM`, detects calls with `parseToolCall` and runs them with `executeTool` |
| BookAgent.BookRoundPair | 01-resource/units/unit-01/samples/book-ai-agent-sample/src/agent.ts:226-237 | in the book agent, the appended tool result is the lookup of the title asked for, named `book_lookup` |
| BookAgent.AgentLoop | 01-resource/units/unit-01/samples/book-ai-agent-sample/src/agent.ts:215-252 | the loop with its early returns and pushes computes exactly the run `RunFrom` describes |
| BookAgent.RunBookAgent | 01-resource/units/unit-01/samples/book-ai-agent-sample/src/agent.ts:205-253 | `runBookAgent` computes the run from the opening transcript, in the book agent's environment; the ceiling defaults to three rounds |
| ActionParser.FirstFence | 01-resource/units/unit-01/samples/dummy-agent-library/src/agent.ts:203 | the first fence at or after an index, or the fact that there is none |
| ActionParser.BodyStart | 01-resource/units/unit-01/samples/dummy-agent-library/src/agent.ts:203 | after the opening fence, `\s*(?:json)?\s*` consumes blanks with possibly the `json` tag among them, stops at a non-blank, holds no backtick, and takes the tag whenever it follows the leading blanks |
| ActionParser.BodyStartUnique | 01-resource/units/unit-01/samples/dummy-agent-library/src/agent.ts:203 | those conditions fix the body's start: any index meeting them is the one `BodyStart` returns |
| ActionParser.TaggedBlockExample | 01-resource/units/unit-01/samples/dummy-agent-library/src/agent.ts:203-205 | on a block tagged `json`, the tag is not part of the action |
| TextUtil.SkipBlanksBack | 01-resource/units/unit-01/samples/dummy-agent-library/src/agent.ts:203 | the lazy group leaves to `\s*` exactly the blanks before the closing fence, but never goes below the body's start |
| ActionParser.FindBlock | 01-resource/units/unit-01/samples/dummy-agent-library/src/agent.ts:203 | a block has its opening fence, body and closing fence in order, without overlap |
| ActionParser.FindBlockNoneIff | 01-resource/units/unit-01/samples/dummy-agent-library/src/agent.ts:203-208 | there is no match exactly when no two fences lie three or more characters apart |
| ActionParser.FindBlockLayout | 01-resource/units/unit-01/samples/dummy-agent-library/src/agent.ts:203-205 | the opening fence is the leftmost one; the closing fence is the first after the body's start; only blanks and the optional tag come before the body, the tag is taken whenever present, the body starts at a non-blank, and only blanks follow it |
| ActionParser.FencedBody | 01-resource/units/unit-01/samples/dummy-agent-library/src/agent.ts:203-205 | the text captured by the group of the first block, or nothing without a block; see `FindBlockLayout`, `FencedBodyIsTrimmed` and `FencedBodyIgnoresRest` |
| ActionParser.FencedBodyIsTrimmed | 01-resource/units/unit-01/samples/dummy-agent-library/src/agent.ts:203-205 | `trim()` leaves the captured body unchanged |
| ActionParser.FencedBodyIgnoresRest | 01-resource/units/unit-01/samples/dummy-agent-library/src/agent.ts:203 | whatever follows the first block's closing fence, later blocks included, does not change the result |
| ActionParser.ParseAction | 01-resource/units/unit-01/samples/dummy-agent-library/src/agent.ts:200-213 | text with no block gives `null` |
| ActionParser.ParseActionResult | 01-resource/units/unit-01/samples/dummy-agent-library/src/agent.ts:203-212 | no block gives `null`; otherwise the result is what `JSON.parse` makes of the body: `null` if it throws, else the parsed value unchanged |
| ActionParser.GetWeather | 01-resource/units/unit-01/samples/dummy-agent-library/src/agent.ts:83-85 | the weather sentence for a location; see `GetWeatherShape` |
| ActionParser.GetWeatherShape | 01-resource/units/unit-01/samples/dummy-agent-library/src/agent.ts:83-85 | the sentence contains the location and ends with a line break; different locations give different sentences |
| SchemaConverter.Keys | 01-resource/units/unit-01/samples/ai-agent-tutorial/src/schemas.ts:22-30 | the `required` list: every key of the shape in order; see `ZodToOpenAI` and `PropertiesAreRequired` |
| SchemaConverter.PropertiesOf | 01-resource/units/unit-01/samples/ai-agent-tutorial/src/schemas.ts:22-30 | the `properties` object after every field was seen; see `PropertiesOfKeys`, `PropertiesOfLast` and `PropertiesOfField` |
| SchemaConverter.AddProperty | 01-resource/units/unit-01/samples/ai-agent-tutorial/src/schemas.ts:23-26 | an optional field sets a number entry whatever it wraps; an enum sets a string entry with its options; any other kind writes nothing |
| SchemaConverter.ZodToOpenAI | 01-resource/units/unit-01/samples/ai-agent-tutorial/src/schemas.ts:17-33 | the result has type `object`, `required` lists every key in shape order, and `properties` is the fold of the per-field entries |
| SchemaConverter.PropertiesOfKeys | 01-resource/units/unit-01/samples/ai-agent-tutorial/src/schemas.ts:22-30 | a key has an entry exactly when some field with that key is optional or an enum |
| SchemaConverter.PropertiesOfLast | 01-resource/units/unit-01/samples/ai-agent-tutorial/src/schemas.ts:22-30 | the entry of a key is the one the last such field wrote |
| SchemaConverter.PropertiesAreRequired | 01-resource/units/unit-01/samples/ai-agent-tutorial/src/schemas.ts:22-32 | every key with an entry is also required |
| SchemaConverter.PropertiesOfField | 01-resource/units/unit-01/samples/ai-agent-tutorial/src/schemas.ts:22-30 | with distinct keys, an optional field is a number, an enum keeps its options in order, and any other field has no entry |
| SchemaConverter.CalculatorInputParameters | 01-resource/units/unit-01/samples/ai-agent-tutorial/src/schemas.ts:3-7 | the calculator input has only `operation` described, restricted to add, subtract, multiply and divide; `operation`, `a` and `b` are required |
| SchemaConverter.CalculatorOutputParameters | 01-resource/units/unit-01/samples/ai-agent-tutorial/src/schemas.ts:9-12 | the calculator output has no entries; `result` and `explanation` are required |

## Left out

- `hf-llm-example/index.ts`: left out. It is one network call plus reading environment variables.
- `ai-calculator-agent/src/tools.ts`: left out. Its results are floating-point numbers, and its validation is Zod's `parse`, which is not part of this model.
- The completion service is a parameter. The OpenAI client, its options, dotenv and token checks, and the demo and interactive functions are not modelled. `async`/`await` is not modelled either: each round makes one sequential call.
- Console output is not modelled; it affects no returned value.
- `createSystemPrompt` is not modelled. The system prompt is a parameter of `BookAgent.RunBookAgent`.
- `BookAgent.CallLLM`: the request itself is the completion service's outcome. A missing response is `Failure("Resposta do LLM não recebida.")`; an empty `choices` array raises a `TypeError`, which is a `Failure` with that error's message; a null or empty content is `Reply("")`. The text of a non-`Error` value thrown (`String(error)`) is not distinguished from an error's message.
- `BookAgent.RunFrom`: a run also records the transcript of each call (`prompts`) and how it ended (`exit`). These are for stating properties; the source returns only the text.
- `BookAgent.RunBookAgent`: `maxIterations` is an integer. A fractional or NaN `number` is not modelled.
- `BookAgent.RunBookAgent`: `maxIterations = Infinity` is not modelled. There the loop stops only on a final answer or an error, which a budget counted in integers cannot express.
- Strings are sequences of Unicode scalar values, while JavaScript strings are UTF-16 code units. A lone surrogate cannot occur in the model; on well-formed text the properties are unaffected.
- `BookAgent.RunFrom`: a final answer is returned without being appended to the transcript. This follows the code at lines 238-243 of `book-ai-agent-sample/src/agent.ts`.
- `BookCatalog.BookLookupTool` and `BookCatalog.ExecuteTool` require `Catalog.Valid()`: non-empty, distinct keys that agree with the entries. The catalog constant meets it (`BookCatalog.BooksDatabaseValid`). Because the keys are non-empty, the truthiness test on a found key never rejects one.
- `BookCatalog.ResolveKey`: the exact lookup `booksDatabase[title]` finds only own keys. The source would also find inherited properties such as `constructor`.
- `TextUtil.ToLower` lower-cases ASCII and Latin-1 capitals only. That covers every key of the catalog; the rest of Unicode's case mapping is not modelled.
- `TextUtil.IntToDecimal` renders integral numbers only. The catalog's years and page counts are integers.
- `ActionParser.ParseAction`: `JSON.parse` is a parameter, so JSON syntax is not modelled. The shape `{action, action_input}` is not checked, as in the source.
- `SchemaConverter.ZodToOpenAI`: the shape is the list of `Object.entries`, so integer-like keys moving to the front is not modelled. `properties` is a map, so the insertion order of its keys is not modelled.
