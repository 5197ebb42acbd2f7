# WebReader session controller, modelled in Dafny

WebReader is a browser library that lets a user drive a web page by voice:
it speaks a "Ready" prompt, recognizes a spoken command, and routes it to an
operation. The operations read the page's headers or links one after another,
re-read, step back or forward through the last list read, follow the current
link, read the main content, the title or a summary. A Ctrl+Space shortcut
starts or stops an interaction.

This project models the session controller of `src/main.js` and the
main-content heuristic of `src/dom/main.js`:

- `Dom` holds page elements and the pure `GetMain` choice: `<main>`, then
  `[role="main"]`, then the unique heuristic match.
- `Session` holds the session state `{isInteracting, elements, currentIndex}`,
  the error kinds and the observable events. It also describes each cursor
  operation (`readCurrentElement`, `readPreviousElement`, `readNextElement`,
  `goToLink`, `readMain`) as a function from the state before the call to its
  `Effect`: the new state, the events it emits (highlight, speech, unhighlight,
  navigation) and how its promise settles.
- `Sweep` models the promise chain built by `reduce` in `readHeaders` and
  `readLinks` as a walk over the list. It proves that items are spoken,
  highlighted and unhighlighted in index order, up to the first rejected
  speech, and that the whole trace is each started item's events in turn. It
  also proves that a wait follows each resolved item exactly when the delay
  is positive, and where the cursor ends.
- `Messages` holds the title and summary prompts, including the decimal
  rendering of the counts. It proves that the summary prompt determines both
  counts.
- `Lifecycle` models one `receiveCommand` cycle: prompt, recognize,
  interpret, route, classify a failure three ways, and clean up
  unconditionally. It also models `stopCommand` and the keyboard toggle.
- `WebReader.Reader` is the controller as a class. Its fields are updated in
  place, and everything it does is appended to a `trace`. Each method is proved
  to produce exactly the effect the corresponding function gives for the state
  before the call. Each method also keeps the invariant that the cursor lies
  inside any non-empty list.

The model treats the browser's outside services as inputs:

- Speech outcomes are parameters: a `Status`, or `speak(i)` for the `i`-th
  speech of a walk.
- Recognition is a `Heard` value. The shipped recognizer never yields an
  engine error: every engine `error` event, including the one `abort()`
  raises, becomes the library error "An error has occurred while recognizing
  your speech", and its other failures are library errors too. So after a
  stop, the silent branch is reached only through a speech cancelled with
  `interrupted`; an aborted recognition is announced
  (`StopThenRecognizerError`).
- Command interpretation is a function from the transcript to an
  `Interpretation`.
- The DOM queries are fields of a `Page` value.

The model follows the code where the code and its documentation disagree:

- `readNextElement` before any list has been read fails with a `TypeError`
  (it reads `length` of `null`), not with the library's "no current element"
  error. A voice command routed there therefore takes the generic branch: the
  session is reset and the apology is spoken.
- `goToLink` reports a missing link through a rejected promise. The tests
  expect a synchronous throw.
- `readPreviousElement` on a fresh instance moves the cursor from -1 to -2
  before `readCurrentElement` rejects.
- `readMain` replaces the list with `[main]` and the cursor with 0 even when
  there is no main element. A later `readCurrentElement` then finds a null
  slot and fails with a `TypeError`.
- The tag name is announced in `readHeaders` whenever the level resolves to
  -1. This happens when no level is given, and also for level `0` (which is
  falsy) and for level `-1`.

## Model

| member | source | states |
|---|---|---|
| Dom.GetMain | src/dom/main.js:6-23 | `<main>` wins; `[role="main"]` only without it; a heuristic candidate iff exactly one matched; the result is always one of the query results |
| Dom.GetMainIsFirstPresent | src/dom/main.js:7-19 | the result equals the first present of `<main>`, `[role="main"]`, the unique candidate (the `||` chain) |
| Session.ReadCurrentContract | src/main.js:265-284 | no list: rejects with "There is not a current element to read" and emits nothing; a present element is highlighted, its text spoken, then unhighlighted whether speech resolves or rejects, settling as the speech did; state unchanged |
| Session.ReadCurrentTwiceSpeaksSameText | src/main.js:265-284 | reading twice in a row emits the same events and leaves the state as it was |
| Session.ReadPreviousContract | src/main.js:291-301 | at index 0 rejects with "The current element is the first" and changes nothing; otherwise the cursor moves back by one and the call behaves as reading the current element there |
| Session.ReadPreviousOnFreshInstance | src/main.js:291-301 | on the default state the cursor moves from -1 to -2 and the call rejects with the no-current-element error |
| Session.ReadNextContract | src/main.js:308-318 | with no list a `TypeError`; at the last index rejects with "The current element is the last"; otherwise moves forward by one and reads there |
| Session.GoToLinkContract | src/main.js:320-329 | navigates to `href` iff the current element exists and is an `A`; otherwise rejects with "There is not a current link to follow"; state unchanged |
| Session.ReadMainContract | src/main.js:363-375 | list becomes `[main]` and cursor 0 in every case; no main: rejects with "The main content of this page cannot be found" without speaking; else speaks its text once |
| Session.CursorOperationsKeepRange | src/main.js:265-375 | each cursor operation keeps the cursor inside any non-empty list |
| Sweep.AnnouncesTag | src/main.js:233-243 | the tag name is omitted iff a level other than 0 and -1 is given |
| Sweep.WalkStaysRejected | src/main.js:237-257 | once a speech is rejected, later items of the chain add no events and keep the rejection |
| Sweep.WalkSpeaksInOrder | src/main.js:237-257 | the texts spoken are exactly those of the items up to the first rejected one, in index order |
| Sweep.WalkHighlightsInOrder | src/main.js:237-257 | the same items are highlighted and unhighlighted, in index order |
| Sweep.WalkWaits | src/main.js:252-254 | with a positive delay there is one wait per resolved item, all of `delay` ms, and none otherwise (their position is stated by `WalkEvents`) |
| Sweep.WalkEvents | src/main.js:237-257 | the whole trace is the concatenation, in index order, of each started item's highlight, speech, unhighlight and optional wait; nothing of an item precedes the previous item's events, and nothing follows the first rejection |
| Sweep.ReadHeadersContract | src/main.js:231-258 | `elements` becomes the headers; the trace is exactly the started headers' events one after another (`WalkEvents`), so speech, highlight and waits are in index order; text with tag name iff `AnnouncesTag`; settles with the first rejection or resolves; cursor on the last item attempted, untouched for an empty list |
| Sweep.ReadLinksContract | src/main.js:338-356 | as for headers, including the whole trace, speaking link text only |
| Sweep.ReadHeadersScenario | test/spec/main.spec.js:193-212 | two headers, no filter: "Intro H1" then "Details H2" are spoken, the promise resolves, the cursor ends on the second |
| Sweep.WalksKeepCursorInRange | src/main.js:231-356 | `readHeaders` and `readLinks` leave the cursor inside any non-empty list |
| Messages.TitleMessageNamesTitle | src/main.js:406-414 | a missing or empty title gives "This page does not have a title"; any other title gives a different prompt from which the title is recovered |
| Messages.DecimalRoundTrip | src/main.js:423 | the decimal rendering of a count reads back to that count |
| Messages.SummaryDeterminesCounts | src/main.js:419-424 | equal summary prompts imply equal header counts and equal link counts |
| Lifecycle.Classify | src/main.js:191-203 | announce iff a library error, with its message; silent iff an `aborted`/`interrupted` engine error; reset iff anything else |
| Lifecycle.CompletionEffect | src/main.js:182-213 | every completion ends with the flag down, `interactionend` last, and a resolved promise |
| Lifecycle.CycleBracketsInteraction | src/main.js:176-214 | the flag is set before the first suspension; the cycle begins with the start event and "Ready" and ends with the flag down and the end event |
| Lifecycle.CompletionHandlesFailures | src/main.js:191-213 | success adds nothing; a library error has its message spoken; aborted/interrupted is silent; anything else resets the state to defaults and speaks the apology; the handler's own speech outcome changes nothing |
| Lifecycle.DispatchKeepsCursorInRange | src/main.js:190 | whatever command is routed, the cursor stays inside any non-empty list |
| Lifecycle.CycleKeepsCursorInRange | src/main.js:46-214 | a whole cycle and a key press keep the cursor inside any non-empty list |
| Lifecycle.NextWithoutElementsApologises | src/main.js:308-311 | "next" before any list: the `TypeError` resets the session, and the apology is the only speech after "Ready" |
| Lifecycle.StopThenInterruptedCycle | src/main.js:219-224 | stopping lowers the flag at once; an `interrupted` engine outcome (as the tests' recognizer stub gives) then ends the cycle silently with list and cursor unchanged |
| Lifecycle.StopThenRecognizerError | src/main.js:191-213 | with the shipped recognizer, whose abort rejects with "An error has occurred while recognizing your speech" (src/reader/recognizer.js:157-166), stopping still lowers the flag at once, and the cycle then speaks that message before the end event, list and cursor kept |
| Lifecycle.KeyDownToggles | src/main.js:46-63 | Ctrl+Space (by `code` or `which === 32`) stops a running interaction, emitting exactly the current element's unhighlight (when there is one) then the abort and the cancel, and starts one otherwise; any other key changes nothing |
| WebReader.Reader.constructor | src/main.js:80-96 | the delay is the option or 300; the state starts as `defaultState` |
| WebReader.Reader.ReadCurrentElement | src/main.js:265-284 | new state, events and outcome are those of `ReadCurrentEffect`; the cursor invariant is kept |
| WebReader.Reader.ReadPreviousElement | src/main.js:291-301 | as `ReadPreviousEffect`, invariant kept |
| WebReader.Reader.ReadNextElement | src/main.js:308-318 | as `ReadNextEffect`, invariant kept |
| WebReader.Reader.GoToLink | src/main.js:320-329 | as `GoToLinkEffect`, invariant kept |
| WebReader.Reader.ReadHeader | src/main.js:239-253 | one header: highlight, speech, unhighlight, then a wait iff the speech resolved and the delay is positive |
| WebReader.Reader.ReadHeaders | src/main.js:231-258 | the loop over the headers produces exactly `ReadHeadersEffect`, invariant kept |
| WebReader.Reader.ReadLinks | src/main.js:338-356 | the loop over the links produces exactly `ReadLinksEffect`, invariant kept |
| WebReader.Reader.ReadMain | src/main.js:363-375 | as `ReadMainEffect`, invariant kept |
| WebReader.Reader.ReadPageTitle | src/main.js:406-414 | speaks the title prompt once, settling as the speech does |
| WebReader.Reader.ReadPageSummary | src/main.js:419-424 | speaks the summary prompt with the two counts once |
| WebReader.Reader.Route | src/main.js:190 | runs the routed operation with exactly `DispatchEffect` |
| WebReader.Reader.StartCommand | src/main.js:176-183 | raises the flag and emits the start event and "Ready" |
| WebReader.Reader.RunPipeline | src/main.js:182-190 | prompt, recognize, interpret, route; the first rejection skips the rest |
| WebReader.Reader.HandleFailure | src/main.js:191-207 | the three-way `catch`, as `HandleEffect` |
| WebReader.Reader.CompleteCommand | src/main.js:182-213 | the continuation through the unconditional cleanup, as `CompletionEffect` |
| WebReader.Reader.ReceiveCommand | src/main.js:176-214 | a whole cycle, as `CycleEffect`, invariant kept |
| WebReader.Reader.StopCommand | src/main.js:219-224 | aborts recognition, cancels speech, lowers the flag; list and cursor unchanged |
| WebReader.Reader.OnKeyDown | src/main.js:46-63 | the shortcut listener, as `KeyDownEffect` |
| WebReader.ReadCurrentTwice | test/spec/main.spec.js:272-288 | re-reading twice emits the same events twice and leaves the session as it was |
| WebReader.ToggleTwice | test/spec/main.spec.js:625-687 | a press starts, a second press stops; the interrupted cycle then ends with the flag down and list and cursor unchanged |

## Left out

- Speech synthesis and recognition (`src/reader/speaker.js`, `src/reader/recognizer.js`) are not part of this model. Their outcomes are parameters.
- `Commands.recognizeCommand` and the translation tables are not part of this model. Interpretation is a parameter function.
- `Router.route` is reduced to a dispatch over the modelled operations. `searchMain`, `goToPreviousPage`, `goToNextPage` and `goToHomepage` appear only as an `Unmodelled` command carrying the outcome they settle with. They move focus or history, which this model does not track.
- `Dom.getHeaders`, `Dom.getLinks` and `Dom.getTitle` are DOM queries. Their results are fields of `Page`.
- `Dom.highlightElement` and `Dom.unhighlightElement` are recorded as events, not as style changes. A missing slot makes the read fail with a `TypeError` before any event.
- Session.ReadCurrentEffect: when the slot at the cursor is missing or null, the source throws a `TypeError` synchronously from `Dom.highlightElement` or `element.textContent`, before any promise exists. The model gives `Rejected(TypeError)` instead. Inside `receiveCommand`'s chain and `readLinks`' `.then` that throw becomes exactly this rejection. A direct caller of `readCurrentElement` or `readPreviousElement` gets an exception instead.
- Session.ReadNextEffect: with no list, `state.elements.length` throws a `TypeError` synchronously. The model gives `Rejected(TypeError)`, which is what a caller inside the promise chain sees.
- `OnKeyDown`: for a missing slot, the unhighlight before stopping is skipped.
- Downloading a translation in the constructor, `console.debug` and the `EventEmitter` DOM events are left out. They are I/O; the start and end events are kept as `InteractionStart` and `InteractionEnd`.
- `Timer.wait` is recorded as a `Wait(ms)` event. Clock time is not modelled.
- The constructor's settings merge keeps only `delay`. The recognizer and speaker settings only configure the engines, which are outside the model.
- `enableShortcuts` and `disableShortcuts` only register and remove the listener. `OnKeyDown` is the listener itself.
- Promise interleaving is not modelled. Each operation runs to completion in sequence. `receiveCommand` is split at its first suspension (`StartCommand`, then `CompleteCommand`), so that a stop between the two can be expressed. Other concurrent calls, for example a second `readHeaders` while one is running, are not.
- Levels are integers. A non-numeric truthy level also suppresses the tag name in the source, which the model does not represent.
