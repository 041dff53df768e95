# nodenative: verified models

nodenative is a C++ library in the style of Node.js on top of libuv. This project
models six of its parts in Dafny and proves what holds of them over all inputs, all runs
and all schedules. `dafny verify dfyconfig.toml` checks everything.

**Promises on the event loop** (`AsyncAction`, `PromiseMachine`, `PromiseInvariant`,
`PromiseSafety`, `PromiseEval`, `PromiseRuns`, `PromiseLaws`). A future is settled once and hands its
outcome to registered actions; each action owns a libuv async handle, runs later, is
closed, and settles a further future; a callback may return a future, which is adopted.
The machine takes the user's calls and the loop's steps (run any sent handle, end any
closing handle) in any order. It is compared with an evaluator that has no loop: the
drained loop has settled a future exactly with the outcome that the evaluator computes.
An outcome in the evaluator is found by looking at the plan and the user's calls alone.

**URI templates** (`RegexSyntax`, `RegexMatch`, `RegexGroups`, `RegexFill`,
`TemplateLexer`, `TemplateCompiler`, `TemplateMeaning`, `TemplateExtract`,
`TemplatePieces`, `TemplateAgreement`, `TemplateSkeleton`, `TemplateExamples`). The lexer
finds the parameters of a template, the compiler builds one pattern for matching and one
for extracting, and extraction reads the values, nested as the formats are, out of a flat
list of capturing groups. Patterns are parsed character by character. A regular expression engine is given
by what an atom matches and how often a quantifier repeats; a string is accepted if it
can be split in some way, so nothing depends on greediness. `Fits` is the meaning of a
template and mentions neither patterns nor groups. Parameters inside groups, such as
`(?:/{x})?`, are covered by parsing the template with a placeholder for each parameter.

**Percent-encoding** (`UrlCodec`), on byte strings (RFC 3986, section 2.1).

**HTTP headers** (`HeaderMap`, `IncomingHeaders`, `OutgoingMessages`): the
case-insensitive map (RFC 7230, section 3.2), the assembly of headers from fragments,
and the message writer that sends its header block once.

**Dispatch and timeouts** (`Dispatch`, `DispatchRuns`, `DispatchLaws`, `RequestValues`,
`DispatchValues`, `Deadlines`, `DeadlineLists`, `DeadlineLaws`): the chain of plugins and callbacks that a request reaches,
the template values that its targets extract into the request, and the lists of
connection deadlines that timers sweep.

**Reading a file** (`ReadFile`) through reads that may be short or fail.

Each part has a specification in functions; where the source updates objects or runs
loops, a class or a method does the same on fields and is proved equal to the functions.
What the functions compute is then said without them: in terms of the plan and the
outcomes, of the characters of a template, of the lists and the engine, of the calls that
set headers, and of the entries of a list before and after an event.

## What turned out not to hold

- The test for capturing groups misses some groups, such as `(a)` and `([)])`, and
  refuses escaped parentheses that open none. With the template `([)]){x}` the parameter
  `x` gets the text of the missed group (`MissedGroup`). The groups are exactly those
  that extraction reads if and only if the texts have no groups (`GroupsAreReadExactly`).
- A format with an alternative outside of parentheses can make the match pattern accept
  other URIs than the extract pattern (`AlternationSplits`), though not where the parameter
  is the whole template (`StandingAloneAcceptsTheSame`). Apart from capturing the two
  patterns are the same expression if and only if no format that the template reaches has
  such an alternative (`PatternsAgreeExactly`); the template itself may have some.
- Encoding in skip mode drops a percent sign that starts no valid triple, unless it is
  one of the last two characters; `SkipModeDecodes` says exactly which strings keep
  their decoding.
- For a string whose length has all ones in its lower 32 bits and which has a percent
  sign in the last place that is looked at, `i + 2` wraps to the first byte. The decoding
  loop ends if and only if the two bytes then read are not two digits (`EndsExactly`), and
  skip mode drops that percent sign instead of encoding it.
- A caller that sets Transfer-Encoding and then ends the message sends it together with
  the automatic Content-Length (`EndWithEncoding`). A kind of message that writes in
  pieces, which a subclass may be, carries both when its caller gives the length
  (`ChunkedWithLength`). The exact condition for carrying one of them is
  `ExactlyOneFraming`.
- A plugin that is the first target of a dispatch chain matches its own routes against
  the whole path, all others against what their match leaves of it
  (`FirstTargetGetsWholePath`).
- All targets of a chain extract their parameters into one object, where a name must not
  come twice. Two matching targets that share a parameter name fail an assertion, whatever
  is executed or sent (`TwoTargetsClash`), and so does a plugin in first place with a
  matching route that has a parameter of its mount (`MountClash`). `ValuesExactly` is the
  exact condition.
- Restarting a deadline loses the order of the list exactly when the new deadline is
  later than that of the next entry (`MovedSorted`, `RestartKeepsOrder`); the sweep then
  leaves an entry that is due (`RestartLosesOrder`).
- The loop that reads a file of a known size does not end when the file is shorter than
  reported, or when the size does not fit an unsigned int, because the buffer length is
  one (`ReadFile.EndsExactly`).

## Model

| member | source | states |
|---|---|---|
| `AsyncAction.ActionCallback.EnqueueHandle` | src/async/AsyncBase.cpp:27-51 | enqueue refuses a second job and otherwise sets data, self reference and counter together |
| `AsyncAction.ActionCallback.DecreaseInstance` | src/async/AsyncBase.cpp:71-80 | the self reference is dropped exactly when the counter reaches zero; at zero it throws and changes nothing |
| `AsyncAction.ActionCallback.AsyncClosed` | src/async/AsyncBase.cpp:82-100 | closing undoes what enqueue set and forgets the resolver |
| `AsyncAction.ActionCallback.SettleWith` | src/async/ActionCallback.cpp:30-40 | resolve and reject store the outcome and enqueue, once |
| `AsyncAction.FutureShared.SettleWith` | src/async/FutureShared.cpp:12-36 | the first settlement fixes the outcome and makes every registered action busy with it; a later one throws and changes nothing |
| `AsyncAction.FutureShared.Register` | include/native/async/FutureShared.ipp:74-100 | an action registered late is enqueued at once with the outcome, an early one stays idle |
| `PromiseSafety.StepKeepsInv` | src/async/ActionCallback.cpp:18-40 | no step fails; every step keeps handles, registrations and outcomes consistent and never changes an outcome |
| `PromiseSafety.RunChanges` | include/native/async/ActionCallback.ipp:231-292 | running a handle settles or registers exactly what the kind of its callback says, and touches nothing else |
| `PromiseEval.EvalIsUnique` | include/native/async/Future.hpp:45-85 | the sequential evaluator gives a future at most one outcome |
| `PromiseEval.DrainedAdoption` | src/async/FutureSharedResolver.cpp:15-34 | once the loop is drained, a future that adopted another has the same outcome, or both are pending |
| `PromiseRuns.NeverFaults` | src/async/ActionCallback.cpp:18-40 | over any run no assertion fails and no exception escapes into the loop |
| `PromiseRuns.DrainedIsEvaluated` | include/native/async/Future.hpp:45-85 | when the loop is drained, a future has an outcome if and only if the evaluator gives it that outcome |
| `PromiseRuns.SettledIsEvaluated` | include/native/async/Future.hpp:45-85 | at no time is a future settled with anything but its evaluated outcome |
| `PromiseRuns.ScheduleIndependence` | src/async/AsyncBase.cpp:53-63 | two drained loops after the same user calls agree on every future, whatever order they worked in |
| `PromiseRuns.OutcomesAreFinal` | src/async/FutureShared.cpp:12-36 | the first outcome of a future stays for ever |
| `PromiseRuns.HandleLife` | src/async/AsyncBase.cpp:27-100 | between steps data, self reference and resolver are present together, from enqueue to close; a handle is enqueued, executed and closed at most once, in that order, with its source's outcome |
| `PromiseRuns.SettlingOnlyEnqueues` | src/async/FutureShared.cpp:18-23 | settling runs no callback: it enqueues the registered actions once each, in order of registration, with that outcome |
| `PromiseRuns.AdoptionChainOutcome` | include/native/async/ActionCallback.ipp:241-281 | adoption to any depth ends with the outcome of the innermost future |
| `PromiseRuns.LoopDrains` | src/async/AsyncBase.cpp:53-63 | every run takes at most six loop steps per future, and steps taken plus work left is constant |
| `PromiseRuns.NotDrainedCanStep` | src/async/AsyncBase.cpp:53-63 | a loop that is not drained can take a step, so with LoopDrains it drains |
| `PromiseLaws.SettledIsDue` | src/async/FutureShared.cpp:12-36 | a derived future is settled only if its callback is registered and the future it waits for is settled |
| `PromiseLaws.ThenFollows` | include/native/async/ActionCallback.ipp:231-359 | a then callback gets the value, and its future takes what it returns or throws, or the outcome of the future it returns; an error passes by unchanged |
| `PromiseLaws.ErrorFollows` | include/native/async/Future.hpp:60-69 | an error callback gets the error, and its future takes what it returns or throws; a value passes by unchanged |
| `PromiseLaws.FinallyFollows` | include/native/async/Future.hpp:71-83 | a finally callback decides the outcome for a value and for an error |
| `PromiseLaws.ErrorTravels` | include/native/async/ActionCallback.ipp:329-359 | along any path of then callbacks from a rejected future every future is rejected with that same error |
| `PromiseLaws.ErrorIsCaught` | include/native/async/Future.hpp:60-69 | the first error callback behind such a path gets exactly that error |
| `PromiseLaws.ValueTravels` | include/native/async/Future.hpp:60-69 | along any path of error callbacks a value arrives unchanged |
| `PromiseLaws.RootsAndRegistrations` | src/async/FutureShared.cpp:12-36 | a root has the outcome of the first call that settled it, and a callback is registered exactly if a call registered it |
| `PromiseLaws.SameCallsSameOutcomes` | src/async/AsyncBase.cpp:53-63 | two drained loops whose users settled the same first and registered the same agree on every future |
| `PromiseLaws.RegistrationsStayInOrder` | include/native/async/FutureShared.ipp:74-100 | over any run the actions of a future keep their order, and new ones come behind them |
| `PromiseLaws.RegisteredBehind` | include/native/async/FutureShared.ipp:74-100 | a callback stands behind those registered before it, for ever |
| `RegexSyntax.JoinClosed` | src/UriTemplate.cpp:200-209 | patterns without top-level alternation or leading quantifier can be concatenated: the parse is the concatenation of the parses |
| `RegexSyntax.JoinCapture` | src/UriTemplateFormat.cpp:18-32 | a closed pattern in parentheses parses as one capturing group before what follows |
| `RegexMatch.CapturesGroup` | src/UriTemplate.cpp:89-115 | a group's text comes first, then those inside it, then those of the rest |
| `TemplateLexer.GetNextParameter` | src/UriTemplate.cpp:16-80 | the loop finds the leftmost parameter, returns the text before it, and moves exactly behind it; without a parameter it does not move |
| `TemplateLexer.Rest` | src/UriTemplate.cpp:74-77 | text, token and rest are the template again, and the rest is shorter |
| `TemplateLexer.LexIsLossless` | src/UriTemplate.cpp:188-209 | all texts, tokens and the remainder concatenate to the template; every parameter is well formed; none is left |
| `TemplateLexer.ColonParameter` | src/UriTemplate.cpp:46-57 | a colon at the beginning or after a slash takes the whole name up to the next slash or the end |
| `TemplateLexer.BraceParameter` | src/UriTemplate.cpp:58-72 | braces take the name between them |
| `TemplateLexer.BraceFormatParameter` | src/UriTemplate.cpp:58-72 | the first colon between braces separates the name from the format |
| `TemplateLexer.ColonEnds` | src/UriTemplate.cpp:26-57 | what is left behind any colon parameter is empty or starts with a slash |
| `TemplateLexer.NamelessColon` | src/UriTemplate.cpp:46-57 | a colon that could start a parameter and has no name ends the search, whatever follows |
| `TemplateLexer.NoParameter` | src/UriTemplate.cpp:46-72 | a colon inside of a text, and a brace without a name or an end, belong to the text |
| `TemplateLexer.ColonBehindSpecial` | src/UriTemplate.cpp:44-57 | straight behind a colon or a brace that starts nothing, a colon starts a parameter, although no slash is before it |
| `TemplateLexer.PrintReadsBack` | src/UriTemplate.cpp:16-80 | any list of parameters that can be told from their texts is read back from its printed form |
| `TemplateCompiler.FindCapturingGroup` | src/UriTemplate.cpp:144-150 | the search finds a match of the test's expression if and only if there is one; what that says about groups is `MissedGroup` and `EscapedParenthesesAreFlagged` |
| `TemplateCompiler.Parse` | src/UriTemplate.cpp:169-213 | the loop computes the recursive compilation, including every refusal |
| `TemplateCompiler.FlaggedExactly` | src/UriTemplate.cpp:144-150 | the test finds "(", a character that is no "?", at least one that is no ")", and ")" |
| `TemplateCompiler.CompilesExactly` | src/UriTemplate.cpp:169-203 | a template compiles if and only if the test finds nothing, no name comes twice and all formats are registered; names and formats are those of its parameters, in order |
| `TemplateCompiler.CacheStaysValid` | src/UriTemplateFormat.cpp:34-60 | while the registry grows, cached patterns equal what parsing again would give |
| `TemplateCompiler.FormatsBelow` | src/UriTemplate.cpp:200-203 | a template refers only to formats registered before it was compiled |
| `TemplateCompiler.RanksDecrease` | src/UriTemplateFormat.cpp:9-13 | formats refer to formats of smaller rank: no cycles |
| `TemplateCompiler.UriTemplateFormats.AddGlobalFormat` | src/UriTemplateFormat.cpp:48-60 | a free name with a template that compiles is appended, everything else refused without change; the registry stays built |
| `TemplateMeaning.PatternsClosed` | src/UriTemplateFormat.cpp:18-32 | if the texts of the template and of the formats it reaches are closed, both patterns are, through any nesting |
| `TemplateMeaning.MeaningMatches` | src/UriTemplate.cpp:188-209 | a URI that fits is accepted by both patterns; if no text has groups, the groups can hold the values in preorder |
| `TemplateMeaning.PatternMeans` | src/UriTemplate.cpp:188-209 | a URI that either pattern accepts fits the template |
| `TemplateMeaning.CapturesMean` | src/UriTemplate.cpp:89-115 | if no text has groups, whatever the groups hold after a match are the values of a fitting tree, in preorder |
| `TemplateExtract.SaveValues` | src/UriTemplate.cpp:89-115 | the loop with its moving position computes the recursive walk, including the failing assertions |
| `TemplateExtract.EveryGroupIsRead` | src/UriTemplate.cpp:94-114 | with one group for every parameter, nested ones included, no assertion fails, each group is read once and in order, and the tree has the parameters' names |
| `TemplateExtract.TreeIsUnique` | src/UriTemplate.cpp:96-114 | only one tree of the template's shape has given values |
| `TemplateExtract.EveryResultIsRead` | src/UriTemplate.cpp:117-142 | extraction ends behind the last result |
| `TemplateExtract.ReadingFailsExactly` | src/UriTemplate.cpp:94-114 | reading fails if and only if there are fewer results than groups |
| `TemplateExtract.PatternsAgree` | src/UriTemplate.cpp:200-209 | if the texts that the template reaches are closed, both patterns accept the same URIs, those that fit |
| `TemplateExtract.ExtractionFits` | src/UriTemplate.cpp:117-142 | if these texts have no groups either, after any match extraction succeeds, uses all groups, and gives a tree that fits the URI |
| `TemplateExtract.FittingTreeIsRead` | src/UriTemplate.cpp:117-142 | every fitting tree is what extraction gives for groups that hold its values |
| `TemplatePieces.PatternsDifferInParentheses` | src/UriTemplateFormat.cpp:18-32 | for all texts, the extract pattern is the match pattern with parentheses around each parameter at each level, one pair for every group that is read |
| `TemplatePieces.GroupsAreVisited` | src/UriTemplate.cpp:89-115 | for all texts, the added groups are exactly those that saveValues visits |
| `TemplatePieces.SpansNest` | src/UriTemplate.cpp:96-114 | the span of a value lies inside its parent's, after those of its elder siblings |
| `TemplateAgreement.GroupsCounted` | src/UriTemplate.cpp:200-203 | the extract pattern has one group for every parameter, nested ones included, and besides them those of the texts |
| `TemplateAgreement.GroupsAreReadExactly` | src/UriTemplate.cpp:144-150 | with one result for each group of the pattern, reading ends behind the last result if and only if the texts have no groups |
| `TemplateAgreement.PatternsAgreeExactly` | src/UriTemplate.cpp:200-209 | without capturing both patterns are the same expression if and only if no reachable format has an alternative outside of parentheses |
| `TemplateAgreement.ClosedTextsExactly` | src/UriTemplate.cpp:200-209 | texts are closed if and only if they are patterns on their own without an alternative outside of parentheses, in the template and in its formats |
| `TemplateAgreement.StandingAloneAcceptsTheSame` | src/UriTemplateFormat.cpp:18-32 | a format's body that is the whole of both patterns accepts the same with the parentheses and without, alternatives included |
| `TemplateAgreement.AgreeingPatternsAcceptTheSame` | src/UriTemplate.cpp:200-209 | patterns that agree accept the same URIs, for every engine |
| `RegexFill.AltFill` | src/UriTemplate.cpp:200-209 | where a pattern's parse shows each placeholder as a term, putting closed patterns in their places gives the parse with theirs put in, at any depth of groups |
| `TemplateSkeleton.PatternsAreFilled` | src/UriTemplate.cpp:188-209 | both compiled patterns are the template with the placeholders replaced, by the formats' match patterns or by their extract patterns in parentheses |
| `TemplateSkeleton.PlacedPatternsAgree` | src/UriTemplate.cpp:200-209 | if each parameter stands where a term stands, inside groups and repetitions too, both patterns are the same expression apart from capturing |
| `TemplateSkeleton.PlacedPatternsAcceptTheSame` | src/UriTemplate.cpp:200-209 | such patterns accept the same URIs, for every engine |
| `TemplateSkeleton.PlacedGroupsAreReadExactly` | src/UriTemplate.cpp:117-142 | for such templates one result for each group is read to the end if and only if the texts have no groups |
| `RegexGroups.EraseKeepsLanguage` | src/UriTemplateFormat.cpp:18-32 | capturing does not change what a pattern accepts |
| `TemplateExamples.MissedGroup` | src/UriTemplate.cpp:144-150 | two groups that pass the test, and that shift the values |
| `TemplateExamples.EscapedParenthesesAreFlagged` | src/UriTemplate.cpp:144-150 | escaped parentheses that open no group are refused |
| `TemplateExamples.UnbalancedFormatsCanAgree` | src/UriTemplate.cpp:200-209 | a compiled template whose texts and format are no patterns on their own, while both its patterns are the same expression |
| `TemplateExamples.OptionalParameter` | src/UriTemplate.cpp:188-209 | a parameter in an optional group is placed like that, and no group of the texts is counted |
| `TemplateExamples.AlternationSplits` | src/UriTemplate.cpp:200-209 | with a top-level alternation in a format the two patterns differ |
| `UrlCodec.HexPairIsTriple` | src/http.cpp:25-34 | the value of two digits, encoded, gives the same digits in upper case |
| `UrlCodec.HexDigits` | src/http.cpp:5-34 | the sixteen digits in both cases have their values, and no other character has one |
| `UrlCodec.EncodeTells` | src/http.cpp:52-68 | letters, digits and allowed characters stand for themselves, any other is a percent sign and its value in two upper-case digits |
| `UrlCodec.SkipTells` | src/http.cpp:57-68 | in skip mode a percent sign is kept with two digits behind it, encoded among the last two characters, and dropped elsewhere |
| `UrlCodec.DecodePlain` | src/http.cpp:80-103 | without percent signs only plus signs change, into spaces if they are read so |
| `UrlCodec.DecodePercent` | src/http.cpp:84-99 | a percent sign and two digits are one byte, any other percent sign is a question mark |
| `UrlCodec.EncodeUrl` | src/http.cpp:41-73 | for every string for which the loop ends, the recursive encoding of the part whose length the unsigned int holds, without the last percent sign where the index wraps |
| `UrlCodec.DecodeUrl` | src/http.cpp:75-106 | for every string for which the loop ends, the recursive decoding of the part whose length the unsigned int holds |
| `UrlCodec.EndsExactly` | src/http.cpp:75-106 | the loop runs for ever if and only if the index wraps and the bytes it then reads are two digits |
| `UrlCodec.EncodeLength` | src/http.cpp:41-73 | at most three output bytes for each input byte |
| `UrlCodec.OnlyNeededIsEncoded` | src/http.cpp:52-68 | a string is left unchanged if and only if all its characters are kept |
| `UrlCodec.RoundTrip` | src/http.cpp:41-106 | decoding undoes encoding of a string if and only if it has no percent sign or space-like plus that was left alone |
| `UrlCodec.RoundTripAlways` | src/http.cpp:41-106 | with allowed sets that lack both, the round trip holds for every string |
| `UrlCodec.MethodsRoundTrip` | src/http.cpp:41-106 | the round trip for what the two loops return: up to a third of the largest length nothing wraps and nothing is cut off |
| `UrlCodec.DefaultsRoundTrip` | include/native/http.hpp:25-36 | the default sets keep every string, for both readings of plus |
| `UrlCodec.FixedPoints` | src/http.cpp:50-70 | skip mode leaves a string unchanged if and only if it consists of kept characters and triples |
| `UrlCodec.SkipModeIsIdempotent` | src/http.cpp:50-70 | skip mode leaves any output of either mode unchanged |
| `UrlCodec.SkipModeDecodes` | src/http.cpp:57-63 | skip mode keeps the decoding if and only if no plus is encoded that reads as a space and, unless the percent sign is allowed, every one starts a triple |
| `UrlCodec.SkipModeChangesMalformed` | src/http.cpp:57-68 | a malformed percent sign is dropped, or encoded near the end |
| `HeaderMap.LessIsStrictWeakOrder` | include/native/text.hpp:9-20 | ci_less is a strict weak order |
| `HeaderMap.EquivalentIsSameLower` | include/native/text.hpp:9-20 | names are incomparable if and only if they are equal in lower case |
| `HeaderMap.NamesMatch` | include/native/text.hpp:9-20 | two names are one exactly when they have the same letters in the same places, in either case, and the same other characters |
| `HeaderMap.LessAtDifference` | include/native/text.hpp:9-20 | a name is less than another exactly when it is its beginning or smaller where they first differ |
| `HeaderMap.PutSorted` | src/http/OutgoingMessage.cpp:93 | storing keeps the map in order |
| `HeaderMap.PutIsUpdate` | src/http/OutgoingMessage.cpp:93 | storing overwrites under any casing, keeps the first casing, and touches no other name |
| `HeaderMap.PutPlaces` | src/http/OutgoingMessage.cpp:93 | a stored name keeps its place and its first casing; a new one goes between the smaller and the larger names |
| `HeaderMap.PutThenGet` | src/http/MessageBase.cpp:24-40 | a header is found under exactly the casings of its name |
| `HeaderMap.GetFinds` | src/http/MessageBase.cpp:24-40 | a lookup finds the value of the entry whose name is the asked one, and nothing if there is none |
| `HeaderMap.NoDuplicates` | src/http/MessageBase.cpp:24-40 | one entry for each name in lower case |
| `IncomingHeaders.IncomingMessage.OnHeaderField` | src/http/IncomingMessage.cpp:55-73 | the callback performs the step for a name fragment |
| `IncomingHeaders.IncomingMessage.OnHeaderValue` | src/http/IncomingMessage.cpp:74-87 | the callback performs the step for a value fragment |
| `IncomingHeaders.IncomingMessage.OnHeadersComplete` | src/http/IncomingMessage.cpp:88-95 | the last entry is stored |
| `IncomingHeaders.IncomingMessage.Receive` | src/http/IncomingMessage.cpp:55-95 | a whole run of callbacks computes the run of steps |
| `IncomingHeaders.AllHeaders` | src/http/IncomingMessage.cpp:55-95 | the fragments give the fold over the whole headers, on top of what was stored before |
| `IncomingHeaders.FragmentationDoesNotMatter` | src/http/IncomingMessage.cpp:55-95 | two deliveries of the same headers give the same map |
| `IncomingHeaders.EveryDeliveryIsOfHeaders` | src/http/IncomingMessage.cpp:55-87 | every sequence of callbacks from a name to a value is a delivery of some headers |
| `IncomingHeaders.LookupFindsLastValue` | src/http/IncomingMessage.cpp:55-95 | a lookup under any casing finds the last value sent under that name |
| `IncomingHeaders.NameWithoutValue` | src/http/IncomingMessage.cpp:68-71 | without a value fragment two names run together |
| `OutgoingMessages.OutgoingMessage.WriteData` | src/http/OutgoingMessage.cpp:38-79 | refused exactly when closed; otherwise the step on all fields and on what is sent |
| `OutgoingMessages.OutgoingMessage.EndData` | src/http/OutgoingMessage.cpp:81-91 | refused exactly when closed or ended; otherwise the step, after which the message is closed |
| `OutgoingMessages.NoContentCloses` | src/http/ServerResponse.cpp:25-39 | the block of a 204 or 304 response carries Connection: close, any other what the last keep-alive call says |
| `OutgoingMessages.MessageShape` | src/http/OutgoingMessage.cpp:38-91 | over any run of operations the bytes sent are nothing, or one header block and then all accepted bodies in order |
| `OutgoingMessages.BlockSaysLastSettings` | src/http/OutgoingMessage.cpp:38-67 | every header of the block by the calls before it: Connection by the last keep-alive call, the two framing headers where they are automatic, any other the last value set under that name in any casing, and text/html if no content type was set |
| `OutgoingMessages.PiecesSent` | src/http/OutgoingMessage.cpp:38-91 | which pieces of the body are sent, by the calls alone: those up to the end, or only the first if its length is taken for that of the body |
| `OutgoingMessages.LineIsPrinted` | src/http/OutgoingMessage.cpp:24-36 | every header has a line of its own between the first line and the empty one |
| `OutgoingMessages.ClosedIsFinal` | src/http/OutgoingMessage.cpp:38-39 | a closed message stays closed and sends nothing more |
| `OutgoingMessages.ExactlyOneFraming` | src/http/OutgoingMessage.cpp:42-67 | the block has exactly one of Content-Length and Transfer-Encoding if and only if the caller has not set the one that is not automatic |
| `OutgoingMessages.AutomaticLengthIsExact` | src/http/OutgoingMessage.cpp:48-55 | an automatic Content-Length, read as a number, is the length of all body bytes the run sends |
| `OutgoingMessages.DecimalDigits` | src/http/OutgoingMessage.cpp:49-51 | the length is written in base ten |
| `OutgoingMessages.EndWithEncoding` | src/http/OutgoingMessage.cpp:44-67 | a caller that sets Transfer-Encoding and ends the message sends both headers |
| `OutgoingMessages.ChunkedWithLength` | src/http/OutgoingMessage.cpp:48-67 | a message that is written in pieces with a given length carries both headers |
| `OutgoingMessages.BlockReadsBack` | src/http/OutgoingMessage.cpp:24-36 | the lines of a block followed by a body read back as the same headers and the same body, if names hold no colon and neither names nor values a carriage return |
| `OutgoingMessages.ReceivedAsSent` | src/http/OutgoingMessage.cpp:24-36 | a receiver of the block's headers, in any fragments, ends up with the same map |
| `DispatchRuns.LaterPathsStartWithSlash` | src/http/ServerPlugin.cpp:9-25 | what a match leaves of the path for a later target is empty or starts with a slash |
| `Dispatch.ServerPlugin.AddPlugin` | src/http/ServerPlugin.cpp:107-111 | the plugin goes to the end of the list |
| `Dispatch.ServerPlugin.AddMethod` | src/http/ServerPlugin.cpp:151-163 | the callback goes to the end of its method's list; an empty path is the root |
| `Dispatch.ServerPlugin.RemoveMethod` | src/http/ServerPlugin.cpp:165-179 | the callback is gone from every list, and the result says whether it was in one |
| `Dispatch.ServerPlugin.GetCallbacksByMethod` | src/http/ServerPlugin.cpp:39-58 | the matches of the method's callbacks are appended to the lists for their lengths |
| `Dispatch.ServerPlugin.Execute` | src/http/ServerPlugin.cpp:60-105 | the loops build the chain of the ordered matches, and each target's values are saved when its link is made, the first target being executed in between; a name that is there already fails |
| `Dispatch.OrderIsStableSort` | src/http/ServerPlugin.cpp:60-79 | shorter matches first; within a length plugins, then callbacks without a method, then those of the method, as registered |
| `Dispatch.StableSortIsUnique` | src/http/ServerPlugin.cpp:60-79 | no other order has these properties |
| `DispatchLaws.EveryMatchIsLinked` | src/http/ServerPlugin.cpp:9-101 | the chain by the engine and the lists alone: each entry that matches up to a slash or the end has one link, no other entry has any, shorter matches come first, equal ones as registered, and the first link gets the whole path, the others the rest |
| `DispatchLaws.PluginIsLinked` | src/http/ServerPlugin.cpp:67-72 | every mounted plugin that matches has a link |
| `DispatchLaws.CallbackIsLinked` | src/http/ServerPlugin.cpp:39-58 | every callback that is listed for the method or for all methods and matches has a link |
| `DispatchLaws.LinkedAsOften` | src/http/ServerPlugin.cpp:39-76 | a target has as many links as entries in the lists if it matches, and none if it does not |
| `DispatchLaws.CandidateTimes` | src/http/ServerPlugin.cpp:67-76 | the entries are those of the list of plugins, of the list for all methods and of the list of the method |
| `DispatchLaws.RemovedKeeps` | src/http/ServerPlugin.cpp:165-179 | removing a callback leaves the plugins and all other callbacks, in their order |
| `DispatchLaws.WithoutPluginKeeps` | src/http/ServerPlugin.cpp:125-137 | removing a plugin leaves the other plugins in their order |
| `DispatchRuns.PluginIsFlat` | src/http/ServerPlugin.cpp:27-33 | executing nested plugins is executing their callbacks one after the other |
| `DispatchRuns.ExecutedIsPrefix` | src/http/ServerPlugin.cpp:79-104 | the callbacks executed are those up to the first that sends or rejects, which is determined, and the result is what that one leaves |
| `DispatchRuns.DepthDoesNotMatter` | src/http/ServerPlugin.cpp:27-29 | following plugins deeper than they are nested changes nothing |
| `DispatchRuns.LeavesAreListed` | src/http/ServerPlugin.cpp:39-58 | through any nesting a request reaches only callbacks in a list of some plugin on the way |
| `DispatchLaws.MatchIsReached` | src/http/ServerPlugin.cpp:39-104 | a listed callback that matches is reached by the request |
| `DispatchLaws.MountedIsReached` | src/http/ServerPlugin.cpp:27-29 | so is a callback that a matching plugin reaches with the path it is executed with |
| `DispatchLaws.LeavesInOrder` | src/http/ServerPlugin.cpp:79-104 | what is reached comes in the order of the links, through plugins |
| `DispatchLaws.CallbacksOnly` | src/http/ServerPlugin.cpp:79-104 | without plugins, the callbacks reached are those of the links, one for one |
| `DispatchRuns.RemovedIsNotReached` | src/http/ServerPlugin.cpp:165-179 | a callback removed from a plugin is not reached through it, unless a plugin mounted in it lists the callback itself |
| `DispatchRuns.FirstTargetGetsWholePath` | src/http/ServerPlugin.cpp:79-101 | a plugin in first place matches its own routes against the whole path; all other targets get the rest |
| `DispatchRuns.WholePathMatches` | src/http/ServerPlugin.cpp:9-25 | if all matches are of the whole path, the order is that of registration and nothing is left of the path for a later target |
| `RequestValues.SaveAllExactly` | src/UriTemplateValue.cpp:26-44 | any number of extractions into one object succeeds if and only if all names are new and different, and then every value is found under its name and none is lost |
| `RequestValues.LastText` | src/UriTemplate.cpp:117-140 | the text of the values is that of the last template that matched |
| `RequestValues.ExtractedNames` | src/UriTemplate.cpp:94-114 | the names an extraction gives are those of the template's parameters, each once |
| `DispatchValues.ExtractedInOrder` | src/http/ServerPlugin.cpp:79-104 | the values after the chain is built: the first target's, those of its execution, then those of all others |
| `DispatchValues.VisitIsRun` | src/http/ServerPlugin.cpp:79-104 | through any nesting a dispatch with values is the dispatch without them, with the values of its extractions in order, unless one fails |
| `DispatchValues.ValuesExactly` | src/http/ServerPlugin.cpp:88 | a dispatch fails if and only if a name comes twice on its way; otherwise every value is found under its name |
| `DispatchValues.TwoTargetsClash` | src/http/ServerPlugin.cpp:88 | two targets of one chain with one parameter name fail the dispatch, whatever is executed or sent |
| `DispatchValues.MountClash` | src/http/ServerPlugin.cpp:88-101 | a plugin in first place whose mount and matching route share a parameter name fails the dispatch |
| `Deadlines.Place` | src/http/Server.cpp:28-30 | the scan stops at the first deadline that is not earlier |
| `Deadlines.InsertSorted` | src/http/Server.cpp:27-39 | inserting keeps a list sorted |
| `Deadlines.AddAddsOne` | src/http/Server.cpp:41-49 | adding a connection adds one entry to the list of its loop and changes no other list |
| `DeadlineLaws.AddInserts` | src/http/Server.cpp:27-49 | a new deadline goes in front of the first that is not earlier; in first place of a list that was not empty it starts the timer with the time that is left |
| `DeadlineLaws.AddCreates` | src/http/Server.cpp:85-128 | the first deadline of a loop makes a list, whose timer fires at once and then every second |
| `DeadlineLaws.RestartMoves` | src/http/Server.cpp:51-65 | a restart replaces the first entry of a living connection, wherever it stands, by one with the new deadline, moves it, and starts the timer exactly when it is then first |
| `DeadlineLaws.RestartIgnores` | src/http/Server.cpp:51-65 | a connection that is gone or has no entry changes nothing |
| `DeadlineLaws.RestartCreates` | src/http/Server.cpp:51-65 | a restart for a loop without a list makes an empty one |
| `DeadlineLaws.RemoveKeeps` | src/http/Server.cpp:67-78 | the entries of other connections that still exist stay, in their order; a list of which nothing is left is dropped |
| `DeadlineLaws.RemoveIgnores` | src/http/Server.cpp:67-78 | removing from a loop without a list leaves everything as it was |
| `DeadlineLaws.SweepDrops` | src/http/Server.cpp:99-120 | in any list a sweep drops the entries in front of the first that is alive and due later, and the timer repeats after the time left to it; an empty list is dropped |
| `DeadlineLaws.SweepIgnores` | src/http/Server.cpp:99-120 | a sweep of a loop without a list changes nothing |
| `Deadlines.SweepSorted` | src/http/Server.cpp:105-110 | a sweep of a sorted list drops a front of entries that are over and leaves only later ones |
| `Deadlines.MovedKeepsEntries` | src/http/Server.cpp:56-64 | restarting changes one entry, and only its deadline |
| `Deadlines.MovedSorted` | src/http/Server.cpp:51-65 | the order survives a restart if and only if the new deadline is not later than the next entry's |
| `Deadlines.RestartKeepsOrder` | src/http/Server.cpp:51-65 | the same for all lists together, with a connection that may have no entry |
| `Deadlines.RestartLosesOrder` | src/http/Server.cpp:51-65 | a restart after which the sweep leaves an entry that is due |
| `Deadlines.RunKeepsOnePerLoop` | src/http/Server.cpp:85-128 | over any run, at most one list for each loop |
| `Deadlines.RunKeepsOrder` | src/http/Server.cpp:27-78 | over any run, restarts included, all lists stay sorted if every restart is harmless when it happens |
| `Deadlines.RunLeavesNoneEmpty` | src/http/Server.cpp:67-128 | over any run whose restarts find a list for their loop, no list stays empty |
| `Deadlines.SweepLeavesLater` | src/http/Server.cpp:99-120 | after a sweep all entries are due strictly later and the timer repeats after the head's positive remaining time; other lists are unchanged |
| `DeadlineLists.LoopTimeoutEntries.InsertConnection` | src/http/Server.cpp:27-39 | the scan and the timer restart perform the specified insertion |
| `DeadlineLists.LoopTimeoutEntries.RestartTime` | src/http/Server.cpp:56-64 | change in place, insert a copy, erase: the specified restart |
| `DeadlineLists.TimeoutLists.FindOrCreateEntry` | src/http/Server.cpp:85-128 | the loop's list, a new one only if there is none |
| `DeadlineLists.TimeoutLists.AddConnection` | src/http/Server.cpp:41-49 | the specified step on the list of lists |
| `DeadlineLists.TimeoutLists.RemoveConnection` | src/http/Server.cpp:67-78 | the specified step; an empty list is dropped |
| `DeadlineLists.TimeoutLists.OnTimer` | src/http/Server.cpp:99-120 | the specified sweep; an empty list is dropped |
| `ReadFile.ReadExactly` | src/fs.cpp:415-425 | after any number of rounds and under any short reads: the reported number of bytes, the error of a read, or still running, exactly as the positions reached say |
| `ReadFile.ReadBlocks` | src/fs.cpp:426-451 | under any short reads the whole file, or the error of the first read that fails |
| `ReadFile.ReadFileSync` | src/fs.cpp:401-456 | for any size: the contents if no read fails and the loop ends, only an error that a read returned, and never an end for the other sizes |
| `ReadFile.EndsExactly` | src/fs.cpp:415-425 | the loop for a known size ends if and only if the file is long enough and the size fits an unsigned int |

## Left out

- The machine of many futures and actions is a value: objects are names in maps, so that aliasing and the freeing of objects are not described. The classes of AsyncAction do the operations of a single object in place.
- uv_async_init and uv_async_send succeed; when they fail the counter and the self reference disagree (src/async/AsyncBase.cpp:39-49).
- Callbacks throw only FutureError; another exception would leave the loop.
- Calls come from the loop's own thread; registration from another thread goes through `async` and arrives as a later registration.
- `async()` itself: it is a then on a resolved root. The worker threads, which settle through FutureSharedResolverFuture, use the pair of callbacks that adoption uses.
- All futures carry one type of value, since no step depends on it.
- Everything a program will register is named in a plan; user calls may come at any point of a run, but a callback's own calls are its reply alone.
- Anchors, look-ahead and back references in template texts, and the differences between engines in character classes.
- What a group under an alternation or a repetition holds: no pattern that is compiled from closed texts without groups has one.
- TemplateExtract.SaveValues: the tree is built as a value, not filled in place; a value owns its children in the source, too. Reading past the last group is a failure here, where some engines return an empty string.
- TemplateExtract.PatternsAgree: asks for closed texts, those of the formats that are reached included. For a template with alternatives of its own `PatternsAgreeExactly` applies, and for one with parameters inside groups `PlacedPatternsAcceptTheSame`; these say nothing of fitting trees, since a parameter that takes no part in a match has no value in the URI.
- TemplateExtract.ExtractionFits: asks for closed texts without groups; `GroupsAreReadExactly` says that with groups in the texts the reading never ends behind the last group, and `PlacedGroupsAreReadExactly` says the same for parameters inside groups.
- TemplateAgreement.PatternsAgreeExactly: asks for texts that are patterns on their own. For texts that are balanced only together `PlacedPatternsAgree` gives the agreement, without a converse; for texts such as those of `UnbalancedFormatsCanAgree` neither applies. It compares expressions and not accepted strings, for which there is no converse: "a|a" and "(a|a)" accept the same.
- UrlCodec.EncodeUrl: asks that the loop ends; `UrlCodec.EndsExactly` says when it does.
- UrlCodec.DecodeUrl: asks that the loop ends; `UrlCodec.EndsExactly` says when it does.
- Letters and digits are those of the C locale.
- The map of headers is its sequence of entries in order, not a search tree.
- Trailers after the header section, and the body of an incoming message, of which the source keeps only the last fragment.
- The text of the first line of a message, which is a parameter, and chunk framing, which the source does not write.
- The keep-alive reset of a response after its end: the sent flag of a request's response stays set once set.
- Dispatch.ServerPlugin.Execute: what a template extracts from a path is a parameter; `ExtractedNames` says which names it gives. What executing the first target makes of the values is a parameter, too, which `VisitIsRun` takes from the plugins inside.
- DispatchRuns.LaterPathsStartWithSlash: the end anchor of a path pattern is not in the grammar of patterns; `WholePathMatches` says what follows where it makes every match one of the whole path.
- Callbacks do not change the template values of a request.
- DispatchRuns.ExecutedIsPrefix: plugins are followed to a depth, which does not matter when it is at least that of the nesting; a plugin mounted inside itself is not described. Callbacks do not change the lists.
- Times do not reach 2^64, and closing a connection when its deadline passes: the sweep only drops entries.
- Deadlines.RunKeepsOrder: asks that each restart is harmless when it happens, which `RestartKeepsOrder` shows to be needed.
- Deadlines.RunLeavesNoneEmpty: a restart for a loop without a list leaves an empty list until the next sweep.
- ReadFile.ReadFileSync: a number of rounds bounds the loop for a known size, since it need not end; `ReadFile.EndsExactly` says when it does. The file does not change while it is read.
- Tcp, Pipe, Stream, Process, the rest of the file functions and the TLS code: thin wrappers or foreign code.
