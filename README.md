# BrowserRunner: completion watch, console forwarding and option rules

This project models the message-handling core of `BrowserRunner`, a runner that
serves a browser test page, drives a headless browser to it and waits for the
Mocha suite inside to report its end state on the browser console. Four parts
are modelled:

- **`waitForMessage`**: a one-shot console listener. For each message it tests
  the text against `ack`, then against `nak` when `nak` is truthy. On a match
  it removes itself from the page and settles the returned promise: resolve on
  `ack`, reject on `nak`. The module `Watch` holds the class `MessageWatcher`.
  Its fields are `listening` (the handler is attached) and `result` (the
  promise state). Its method `OnMessage` runs the handler body as written.
  The pure function `FirstSettle` gives the settlement over a sequence of
  messages in arrival order, and the class is proved to agree with it.
- **The console filter of `runTestSuite`**, in module `ConsoleFilter`. A
  message whose text matches an ignore entry is dropped. So is one with no
  arguments. Under `onlyMocha`, so is one whose first argument is not
  `'[MOCHA]'`. Otherwise a leading `'[MOCHA]'` is removed and the arguments
  go to `console[type]`, with `warning` renamed to `warn`. `Forward` is the
  policy as a function. `HandleConsole` is the listener as written: a loop
  over the ignore list and a shift of the tag. It is proved equal to
  `Forward`.
- **Option handling** of `runServerAndTestSuite` and `runTestSuite`, in module
  `Options`. A missing or `undefined` property takes its destructuring
  default. Each option is type-checked in source order, and the first
  ill-typed one raises a `TypeError` with the source's message. The default
  URL is `http://localhost:${port}/`. `ignoreConsole` is rebuilt as the
  (empty) default entries followed by the caller's array.
- **Run rules**, in module `Runner`. The console ignore list is the end-state
  pattern `/^\[MOCHA_END/` followed by the caller's entries.
  `PUPPETEER_HEADLESS` overrides the `headless` option. The run passes exactly
  when the first end-state message is `[MOCHA_END_PASSED]`.

`text.match(pattern)` is the parameter `matches: Matcher`, a function from a
text and a pattern to a truth value. No regular-expression engine is modelled.
The end-state pattern gets its meaning only from the hypothesis
`Runner.EndStateMatcher`: a text matches `/^\[MOCHA_END/` exactly when it
starts with `[MOCHA_END`. JavaScript values (option values, patterns and
console arguments) are the datatype `JsValues.JsValue`. It comes with
`typeof`, truthiness, `Array.isArray` and `Number.isInteger`.

Points where the code behaves differently from what a quick reading suggests; the model follows the code:

- A string pattern is not matched literally. `match` compiles it to a regular
  expression, so string and RegExp patterns both go through `matches`.
- `nak` is tested only when it is truthy (`if (nak)`), so an empty-string
  `nak` is never consulted.
- `runServerAndTestSuite` silently replaces a non-array `ignoreConsole` with
  the default entries. Only `runTestSuite` raises for it.
- `Object.assign` copies a caller's `url` even when it is `undefined`. Such a
  value hides the default URL, and `runTestSuite` then raises
  `'url' must be a string.`

## Model

| member | source | states |
|---|---|---|
| `Watch.MessageWatcher.constructor` | src/BrowserRunner.js:206-232 | registration: the handler is attached, the promise is pending and no message has been delivered |
| `Watch.MessageWatcher.OnMessage` | src/BrowserRunner.js:208-230 | while attached, the promise takes exactly the decision of this message (ack first, then a truthy nak); once detached, nothing changes; in every state `listening` is "not yet settled" and `result` equals `FirstSettle` of all delivered messages |
| `Watch.WaitForMessage` | src/BrowserRunner.js:204-234 | feeding a message stream in order to a fresh watcher yields exactly `FirstSettle` of that stream |
| `Watch.Decide` | src/BrowserRunner.js:212-228 | the attached handler's decision for one message: `ack` tested first, then a truthy `nak`; characterised by `Watch.AckPrecedence`, `Watch.NakRejects`, `Watch.WithoutNakOnlyResolves` and `Watch.MessageWatcher.OnMessage`; its own contract is empty |
| `Watch.FirstSettle` | src/BrowserRunner.js:208-230 | the settlement of a watch over a message stream in order; characterised by `Watch.FirstSettleAt` and `Watch.FirstSettleWitness` (the first deciding message settles it), `Watch.PendingIffNoMatch` (pending iff nothing decides) and `Watch.FirstSettleSnoc`; its own contract is empty |
| `Watch.FirstSettleAt` | src/BrowserRunner.js:208-230 | the first message that matches `ack` or a truthy `nak` settles the watch with its own decision |
| `Watch.FirstSettleWitness` | src/BrowserRunner.js:208-230 | conversely, every settlement comes from a message that is the first to match anything |
| `Watch.PendingIffNoMatch` | src/BrowserRunner.js:204-234 | the watch stays pending exactly when no message matches either pattern (there is no timeout) |
| `Watch.SettlementJustified` | src/BrowserRunner.js:212-228 | the settled text is a delivered message; a resolution's text matched `ack`; a rejection's text matched a truthy `nak` and not `ack` |
| `Watch.WithoutNakOnlyResolves` | src/BrowserRunner.js:220-228 | without a truthy `nak` the watch can only resolve |
| `Watch.AckPrecedence` | src/BrowserRunner.js:212-228 | a first deciding message that matches `ack` resolves with its text even if it also matches `nak` |
| `Watch.NakRejects` | src/BrowserRunner.js:220-228 | a first deciding message matching a truthy `nak` but not `ack` rejects with exactly its text |
| `Watch.LaterMessagesIgnored` | src/BrowserRunner.js:214-228 | once settled, further messages (matching or not) change nothing |
| `Watch.UnmatchedMessagesIgnored` | src/BrowserRunner.js:208-230 | messages matching neither pattern have no effect; the watch keeps waiting |
| `Watch.FirstSettleSnoc` | src/BrowserRunner.js:208-232 | one more message leaves a settled watch as it is and gives a pending one that message's decision |
| `ConsoleFilter.HandleConsole` | src/BrowserRunner.js:143-168 | the listener (ignore loop with early return, tag shift, sink choice) returns exactly what the policy `Forward` prescribes |
| `ConsoleFilter.Forward` | src/BrowserRunner.js:143-168 | the forwarding policy of the console listener; characterised by `ConsoleFilter.ForwardedExactly` (when) and `ConsoleFilter.ForwardedContent` (what), and implemented by `ConsoleFilter.HandleConsole`; its own contract is empty |
| `ConsoleFilter.IgnoredForwardsNothing` | src/BrowserRunner.js:147-150 | a text matched by any ignore entry forwards nothing, whatever its type and arguments |
| `ConsoleFilter.ForwardedExactly` | src/BrowserRunner.js:147-159 | a message is forwarded iff no ignore entry matches, it has an argument, and under `onlyMocha` its first argument is `'[MOCHA]'` |
| `ConsoleFilter.ForwardedContent` | src/BrowserRunner.js:161-166 | the sink is the type's (with `warning` as `warn`) and the original arguments are the forwarded ones, in order, preceded by the removed `'[MOCHA]'` tag when there was one |
| `ConsoleFilter.OnlyMochaNarrows` | src/BrowserRunner.js:158-162 | `onlyMocha` only suppresses output: what it lets through is forwarded identically without it and always lost its tag |
| `ConsoleFilter.MoreIgnoresNarrow` | src/BrowserRunner.js:147-150 | swapping two blocks of the ignore list changes nothing, and extra entries only suppress output |
| `ConsoleFilter.IgnoreOrderIrrelevant` | src/BrowserRunner.js:147-150 | two ignore lists holding the same patterns, in any order and with any repetition, forward exactly the same |
| `ConsoleFilter.SinkRenamesOnlyWarning` | src/BrowserRunner.js:166 | only the type `warning` is renamed, to `warn`; every other type names its own sink |
| `JsValues.TypeOf` | src/BrowserRunner.js:83-92 | `typeof` is `"object"` exactly for null, RegExp, arrays and plain objects, and `"string"`, `"boolean"`, `"function"` for those kinds of value |
| `Decimal.NatToString` | src/BrowserRunner.js:37 | the port's numeral is non-empty, all digits and without a leading zero unless the number is zero |
| `Decimal.IntToStringRoundTrip` | src/BrowserRunner.js:37 | reading back the decimal rendering of any integer gives that integer |
| `Decimal.IntToStringInjective` | src/BrowserRunner.js:37 | distinct integers render differently |
| `Decimal.IntToString` | src/BrowserRunner.js:37 | an integer renders as its canonical numeral: a minus sign exactly when negative, then digits with no leading zero, and zero as the unsigned `0` |
| `Decimal.CanonicalUnique` | src/BrowserRunner.js:37 | a canonical numeral that reads as `n` is the rendering of `n`, so the rendering is the only canonical numeral for each integer |
| `Options.DefaultUrl` | src/BrowserRunner.js:37 | the default URL is `http://localhost:`, the port's canonical numeral (no leading zeros, no `-0`), then `/`, and the port can be read back from it; with `Decimal.CanonicalUnique` this fixes the URL text for each port, which matches JavaScript's rendering for every port of magnitude up to 2^53 |
| `Options.DefaultUrlInjective` | src/BrowserRunner.js:37 | different ports give different default URLs |
| `Options.NoViolationIffAllSatisfied` | src/BrowserRunner.js:83-95 | no `TypeError` is raised exactly when every option passes its check |
| `Options.FirstViolationAt` | src/BrowserRunner.js:83-95 | the error raised is that of the first failing check in source order |
| `Options.ViolationIsReal` | src/BrowserRunner.js:83-95 | a raised error names an option that really fails its check |
| `Options.FirstViolation` | src/BrowserRunner.js:30-34 | the `TypeError` message of the first failing check, over the rule lists `ServerRules` and `SuiteRules`, which carry the source's check order, defaults and messages (also src/BrowserRunner.js:79-95); characterised by `Options.NoViolationIffAllSatisfied`, `Options.FirstViolationAt` and `Options.ViolationIsReal`; its own contract is empty |
| `Options.Param` | src/BrowserRunner.js:79-81 | a destructured parameter: the default replaces a missing property and one that is `undefined`, as in the parameter lists at src/BrowserRunner.js:30 and 79-81; used through `Value` in the contracts of `Options.ValidateSuite` and `Options.PrepareServer`; its own contract is empty |
| `Options.ValidateSuite` | src/BrowserRunner.js:79-95 | `runTestSuite` accepts exactly the bags whose ten options pass their checks; on failure the message is the first failing check's; on success each field is the caller's value or the documented default |
| `Options.SuiteRejectsFirstIllTyped` | src/BrowserRunner.js:83-95 | the first ill-typed option of `runTestSuite` decides the `TypeError` message |
| `Options.PrepareServer` | src/BrowserRunner.js:30-41 | `runServerAndTestSuite` accepts exactly a string `root`, boolean `exitOnFail` and integer `port` (after defaults) with the source's messages; it hands on the rewritten options |
| `Options.SuiteOptionsFor` | src/BrowserRunner.js:37-41 | the options handed from `runServerAndTestSuite` to `runTestSuite`; characterised by `Options.SuiteOptionsUrl`, `Options.SuiteOptionsIgnore` and `Options.SuiteOptionsRest`; its own contract is empty |
| `Options.SuiteOptionsUrl` | src/BrowserRunner.js:37 | the `url` handed on is the caller's whenever the bag has one, else `http://localhost:${port}/` |
| `Options.SuiteOptionsIgnore` | src/BrowserRunner.js:40-41 | `ignoreConsole` handed on is the default entries followed by the caller's array in order, or the defaults alone when it is not an array |
| `Options.SuiteOptionsRest` | src/BrowserRunner.js:30-37 | `root`, `exitOnFail` and `port` are not handed on; every other option is handed on unchanged |
| `Options.IgnoreCheckPasses` | src/BrowserRunner.js:88 | an array (or absent) `ignoreConsole` never yields the `ignoreConsole` error, whatever else fails |
| `Options.PreparedSuiteAcceptsDefaults` | src/BrowserRunner.js:37-41 | options prepared by `runServerAndTestSuite` never fail `runTestSuite`'s `ignoreConsole` check; without a caller `url` they pass the `url` check and target the default URL |
| `Runner.EndMarkersNeverForwarded` | src/BrowserRunner.js:138-150 | a message starting with `[MOCHA_END` is never forwarded, whatever the caller's ignore list, arguments or `onlyMocha` |
| `Runner.CallerIgnoresApply` | src/BrowserRunner.js:138-150 | each of the caller's ignore entries still silences the messages it matches behind the end-state pattern |
| `Runner.ConsoleIgnoreList` | src/BrowserRunner.js:138 | the listener's ignore list, the end-state pattern before the caller's entries; characterised by `Runner.EndMarkersNeverForwarded` and `Runner.CallerIgnoresApply`; its own contract is empty |
| `Runner.EffectiveHeadless` | src/BrowserRunner.js:126-127 | the headless value after the environment override; characterised by `Runner.HeadlessFromEnvironment`; its own contract is empty |
| `Runner.HeadlessFromEnvironment` | src/BrowserRunner.js:126-127 | a set `PUPPETEER_HEADLESS` decides headless mode regardless of the option, and only the exact text `true` turns it on; unset, the option decides |
| `Runner.SuiteVerdict` | src/BrowserRunner.js:170-189 | the run never finishes exactly when no message starts with `[MOCHA_END`; it passes exactly when the first such message is `[MOCHA_END_PASSED]` |
| `Runner.Passed` | src/BrowserRunner.js:189 | the pass verdict from the end-state text; characterised together with `Runner.SuiteOutcome` by `Runner.SuiteVerdict`; its own contract is empty |
| `Runner.SuiteOutcome` | src/BrowserRunner.js:170-175 | the completion wait over the console stream and its verdict; characterised by `Runner.SuiteVerdict` and `Runner.PassingRunExample`; its own contract is empty |
| `Runner.RunTestSuite` | src/BrowserRunner.js:79-189 | a run fails exactly when some option fails its check, with the first failing check's message; otherwise the headless value is the option, or with `PUPPETEER_HEADLESS` set exactly whether it is `true`, the ignore list is the end-state pattern then the caller's `ignoreConsole`, `onlyMocha` is the caller's, and the outcome is `Runner.SuiteOutcome` of the stream |
| `Runner.RunListener` | src/BrowserRunner.js:138-168 | the console listener of a validated run never forwards an end marker, and forwards any other message with arguments that no caller entry ignores, tag stripped, unless `onlyMocha` is set and the message is untagged |
| `Runner.OptionErrorsDependOnOptionsOnly` | src/BrowserRunner.js:83-97 | an option error depends on the options alone, not on the environment or the console stream, and its message is that of an option that really fails its check |
| `Runner.PassingRunExample` | src/BrowserRunner.js:170-175 | messages `hello`, `[MOCHA_END_PASSED]`, `world`: the watch resolves with the second and the run passes |

## Left out

- Browser and server work (src/BrowserRunner.js:52-61, 134-136, 173-187): launching the browser, opening the page, navigating, evaluating the coverage global, closing, and the polka/sirv static server. These are foreign calls and network I/O.
- Launch options (src/BrowserRunner.js:129-132): `Object.assign({ executablePath, headless }, puppeteerOptions)` is not modelled. A caller's `puppeteerOptions.headless` would override the headless value the model computes.
- Filesystem and environment loading (src/BrowserRunner.js:44-49, 97-124, 177-182): `path.resolve`, directory creation and emptying, coverage JSON writing, dotenv, and the `PUPPETEER_BIN` and existence checks. The environment enters only as the `PUPPETEER_HEADLESS` value.
- Argument resolution (src/BrowserRunner.js:153): `arg.jsonValue()` is not modelled. Arguments arrive already resolved. The interleaving of the async console listener with the watcher is not modelled either.
- The keep-alive stdin latch and `process.exit(1)` on failure (src/BrowserRunner.js:63, 185, 239-264). These are process and terminal state.
- The `pageConsole` passthrough (src/BrowserRunner.js:141). It is an opaque caller callback.
- The regular-expression engine. `matches` is a pure function of text and pattern, so a sticky RegExp whose `lastIndex` carries state between calls is not modelled. Every pattern is also taken to compile: in the source, `match` turns a non-RegExp pattern into `new RegExp(pattern)`, which throws a `SyntaxError` for an invalid string such as `(` or `*`. That error rejects the async console listener (src/BrowserRunner.js:149) and is thrown out of the watch handler (src/BrowserRunner.js:212 and 222). `ConsoleFilter.Forward`, `ConsoleFilter.HandleConsole` and `Watch.MessageWatcher.OnMessage` always return a decision instead.
- JavaScript numbers are finite reals here. NaN and the infinities are not represented; they would fail `Number.isInteger` like any other non-integer.
- Options.DefaultUrl: renders every integer port with its exact decimal digits. JavaScript renders a number with the shortest digits that read back to the same double. Above 2^53 that pads those digits with zeros (`${2**64}` is `18446744073709552000`), and from 10^21 on it uses exponent form. Neither is modelled. Such ports never reach a run: the server's `listen` (src/BrowserRunner.js:52, not modelled) refuses ports of 65536 and above.
- ConsoleFilter.HandleConsole: returns the sink name only. It does not model the `TypeError` that `console[type]` raises for a message type the local console has no method for.
- Calling `runServerAndTestSuite(null)` or `runTestSuite()` without an options object fails in parameter destructuring, which is not modelled.
- types/index.d.ts and the files under examples/polka-sirv are not part of this model. They hold type declarations, bundler configuration and demo fixtures.
