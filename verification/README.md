# Gemini tool-calling agent, modelled in Dafny

The agent is a command-line chat loop (`agent.js`). It sends each user line,
together with the whole conversation so far, to a hosted language model. When the
model answers with a function call, the agent runs one of three local tools
(`sum`, `prime`, `getCryptoPrice`) and records the result. When it answers with
text, the agent records the text.

This project models the pure parts of that loop:

- `ascii.dfy` (module `Ascii`): the ASCII part of `toLowerCase`. It also defines
  `CaseVariant`, an independent description of "the same word in any mixture of
  cases".
- `tools.dfy` (module `Tools`): the three tools and the `tools` registry. It also
  holds each tool's declared parameters. The agent sends those declarations to the
  remote model but never checks a call against them. Here they only define which
  argument records a tool uses as intended: `sum` and `prime` give the stand-in
  `IllTyped` for any other record, and `getCryptoPrice` throws. `prime` is proved to
  answer exactly `IsPrime`, the textbook definition. It appears twice: as the loop
  it is written as (`PrimeLoop`), and as a recursive function with one call per
  loop iteration (`Prime`), which the registry invokes.
- `agent.dfy` (module `Agent`): `runAgent` as a pure transition. It takes the old
  history and returns the new history plus an outcome tag standing for the
  console message. It also covers the request `callGemini` builds and the exit test
  of the interactive loop. A whole session is a fold over input lines that stops
  at the exit line or at a tool error nothing catches.
- `wrappers.dfy` (module `Wrappers`): the `Option` type.

Two parts of the agent become parameters:

- The remote model is `remote: seq<Turn> -> Option<Response>`. `None` is the
  `null` that `callGemini` returns when the call throws. A missing `candidates`
  list or `parts` list is modelled as an empty sequence.
- `JSON.stringify` is `serialize: Value -> string`.

The global mutable `history` array is modelled as a value threaded from turn to
turn.

## Model

| member | source | states |
|---|---|---|
| Ascii.ToLower | agent.js:23 | The result has the input's length and contains no upper-case ASCII letter. Each character is kept or replaced by its lower-case form. |
| Ascii.ToLowerIsWord | agent.js:138 | For a lower-case word `w`, lower-casing `s` gives `w` exactly when `s` spells `w` in any mixture of cases. |
| Tools.TrialDivision | agent.js:14-16 | Trial division from `i` returns true exactly when no `d >= i` with `d*d <= n` divides `n`. |
| Tools.TrialDivisionDecidesPrimality | agent.js:14-17 | For `n >= 2`, having no divisor up to the square root is equivalent to being prime. |
| Tools.Prime | agent.js:12-18 | `prime` returns true exactly for primes. In particular it returns false for every integer below 2. |
| Tools.PrimeLoop | agent.js:12-18 | The loop exits with true exactly for primes, and agrees with `Prime`. |
| Tools.PrimeExamples | agent.js:12-18 | 2, 3, 5, 7, 11 and 97 are accepted. 4, 6, 9, 100, 1, 0 and -7 are rejected. |
| Tools.CryptoPrice | agent.js:20-24 | Any case spelling of "bitcoin" gives 61000 and any case spelling of "ethereum" gives 3200. Any other name gives "Price not found". All three directions are both-way. |
| Tools.CryptoPriceIgnoresCase | agent.js:23 | Two names with the same lower-case form get the same answer. |
| Tools.CryptoPriceExamples | agent.js:20-24 | "bitcoin", "BITCOIN" and "Bitcoin" give 61000. "eThErEuM" gives 3200. "dogecoin" gives the sentinel. |
| Tools.Lookup | agent.js:26 | A tool's registered name finds that tool. Any name found belongs to the tool returned. |
| Tools.LookupName | agent.js:26 | Looking up the name of any tool returns that tool. |
| Tools.Sum | agent.js:8-10 | The result is `num1 + num2` for all integers, including negatives. |
| Tools.Declared | agent.js:33-68 | Each tool declares at least one parameter, with distinct names. Only `getCryptoPrice` declares a string parameter. |
| Tools.Invoke | agent.js:8-24 | The unchecked call `fn(fc.args)` of agent.js:110. A call throws exactly when it is `getCryptoPrice` without a string `coin`. A call to `sum` or `prime` with arguments that miss a declared parameter or give it the wrong type returns the stand-in `IllTyped`. Otherwise `sum` adds its two numbers, `prime` decides primality of `num`, and `getCryptoPrice` looks up `coin`. |
| Agent.Request | agent.js:77 | The request sent during a turn is the old history followed by the user turn twice. |
| Agent.Handle | agent.js:92-124 | The history only grows, by at most one turn. It grows exactly when a tool returned or a text reply came back. A tool result is appended as a function turn holding its serialization. A text is appended as a model turn and is never empty. A failed call or no candidates gives the no-response outcome, and an empty first candidate gives the no-parts outcome. A tool throws exactly when the first part asks for `getCryptoPrice` without a string `coin`. |
| Agent.RunAgent | agent.js:88-125 | The user turn is appended first and is never rolled back. At most one more turn follows, and it is never a user turn. |
| Agent.EmptyAnswerKeepsUserTurn | agent.js:89-101 | A failed call, an empty candidate list or a first candidate without parts leaves exactly the old history plus the user turn. |
| Agent.RemoteSeesOnlyRequest | agent.js:88-91 | The remote model is asked once, with `Request`. Two remote models that answer that request alike give the same turn. |
| Agent.OnlyFirstPartMatters | agent.js:97-103 | Two responses whose first candidates have the same first part give the same step. |
| Agent.CallTakesPrecedence | agent.js:105-119 | A part carrying both a function call and a text behaves as the call alone. |
| Agent.ToolCallAppendsResult | agent.js:105-118 | A call naming a registered tool that returns appends exactly one function turn holding the serialized result, and the outcome names the tool and the result. A tool that throws appends nothing. Any other name appends nothing and reports the name as not found. |
| Agent.TextPartAppendsText | agent.js:119-124 | A part without a call appends its text as a model turn exactly when the text is non-empty, and the outcome carries that text. Otherwise nothing is appended and the format is reported as unexpected. |
| Agent.IsExit | agent.js:138 | A line ends the loop exactly when it spells "exit" in any mixture of cases. |
| Agent.UntilExit | agent.js:136-140 | The lines dispatched are the prefix of the input before the first exit line. None of them is an exit line, and the line after them is one. |
| Agent.Session | agent.js:136-140 | The starting history stays a prefix. The lines handled are at most those before the first exit line, and all of them unless a tool threw, which ends the session. |
| Agent.RunAgentAddsOneUserText | agent.js:88-125 | One turn adds exactly its input line to the user turns of the history. |
| Agent.SessionExtendsHistory | agent.js:136-140 | Each line handed to `runAgent` adds one user turn and at most one other turn. |
| Agent.SessionRecordsInputs | agent.js:136-140 | The user turns a session adds are exactly the lines it handled, in order, with none lost or repeated. Those lines are a prefix of the lines before the first exit line. |
| Agent.SessionComposes | agent.js:136-140 | Running lines `a` (no exit line, no tool throwing) and then `b` leaves the same history as running `a + b`. So each reply stays right after the user turn it answers. |
| Agent.SessionCompletesWithoutThrow | agent.js:136-140 | When no answer of the remote model makes a tool throw, the session does not crash and handles every line before the first exit line. |
| Agent.ThrowEndsSession | agent.js:136-143 | A turn whose tool throws ends the session at once, since neither `runAgent`, `main` nor the call of `main` catches the error. Only that turn's user turn is added. |
| Agent.FailingRemoteKeepsOnlyUserTurns | agent.js:81-95 | When every remote call fails, the loop carries on without crashing. The history gains exactly one user turn per line before the exit line. |
| Agent.SumScenario | agent.js:105-115 | A `sum` call with 7 and 5 records the serialization of 12 as a function turn. |
| Agent.ExitScenario | agent.js:138 | "exit" and "EXIT" end the session with no turn run. |

## Left out

- The Gemini client, model selection and network call (agent.js:2, 29-30, 74-85): replaced by the abstract `remote` parameter, since the remote service's behaviour cannot be seen. Every thrown error collapses to `None`.
- `readline-sync` input, `dotenv` loading, the API-key check and the ready banner (agent.js:1-5, 128-135): I/O and environment plumbing. Only the exit test and the order of dispatched lines are modelled.
- Console output text: replaced by the `Outcome` tag, which carries the tool name and result, the missing name or the reply text.
- `JSON.stringify`: the abstract `serialize` parameter.
- The descriptions inside the tool declarations (agent.js:33-68), and sending the declarations to the remote model (agent.js:78): only parameter names and types are modelled. The agent never checks a call against them; the model uses them only to say when `IllTyped` applies and when `getCryptoPrice` throws.
- Tools.Invoke: for `sum` and `prime`, arguments that do not fit the declared parameters give the stand-in `IllTyped`. JavaScript's actual results are not modelled. For `sum`, a missing argument gives `NaN`. `null` and booleans are coerced to numbers (`null + 5` is 5, `true + 5` is 6). Strings, arrays and objects concatenate (`"7" + 5` is `"75"`). `prime(undefined)` returns true. `Arg` holds only integers and strings, so `null`, booleans, arrays and objects cannot be passed at all. Given as `coin` to `getCryptoPrice`, they would throw, as a number does. Arguments are always a record; a call with no `args` at all, whose destructuring throws in every tool, is not modelled.
- JavaScript number semantics: `sum` and `prime` are modelled over unbounded integers only. Non-integers, `NaN` and the floating-point `Math.sqrt` are left out. Over integers, `i <= Math.sqrt(num)` is taken as `i * i <= num`.
- Keys inherited from `Object.prototype`: in `prices` and `tools`, a name like `"constructor"` finds something instead of missing. Both tables are modelled as exactly their listed entries. In `tools`, some such names also crash the loop. `"__proto__"` finds `Object.prototype`, which is not a function. `"hasOwnProperty"` and `"valueOf"` throw when called unbound. Either way `fn(fc.args)` throws a `TypeError` that nothing catches, like the `getCryptoPrice` throw.
- Non-ASCII case mapping of `toLowerCase`: only `A`-`Z` are lower-cased.
- Tools.CryptoPrice keeps the `||` test, so a price of 0 would also give the sentinel. That branch is dead for the two fixed prices.
- The uncaught `TypeError` itself and the process exit it causes: the session simply ends with `crashed` set. The error message and the unhandled-rejection report are not modelled.
