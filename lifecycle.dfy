/**
 * One voice-command cycle of `receiveCommand` (src/main.js:176-214): prompt
 * "Ready", recognize, interpret, route to an operation, classify any failure
 * three ways, and clean up on every path; `stopCommand` (src/main.js:219-224);
 * and the keyboard toggle of `listenShortcuts` (src/main.js:46-63).
 */
module Lifecycle {
  import opened Wrappers
  import opened Dom
  import opened Session
  import opened Sweep
  import opened Messages

  const ReadyPrompt := "Ready"
  const ApologyMessage := "Sorry, I could not recognize the command"
  /** The library error the recognizer rejects with on any engine `error` event, `abort()` included. */
  const RecognitionErrorMessage := "An error has occurred while recognizing your speech"

  /**
   * The operation a recognized command is routed to. Operations outside this
   * model (`searchMain`, history navigation, the homepage) are `Unmodelled`
   * and only contribute the outcome they settle with.
   */
  datatype Command =
    | ReadHeaders(level: Option<int>)
    | ReadLinks(ancestor: Option<Element>)
    | ReadCurrentElement
    | ReadPreviousElement
    | ReadNextElement
    | GoToLink
    | ReadMain
    | ReadPageTitle
    | ReadPageSummary
    | Unmodelled(outcome: Status)

  /** How `recognizer.recognize()` settles. */
  datatype Heard = Transcript(text: string) | NotHeard(error: Error)

  /** How `Commands.recognizeCommand` treats a transcript. */
  datatype Interpretation = Understood(command: Command) | NotUnderstood(error: Error)

  /**
   * `Router.route(this, command)`: the routed operation's effect, with
   * `speak(i)` the outcome of its `i`-th speech.
   */
  function DispatchEffect(st: State, command: Command, page: Page, speak: nat -> Status, delay: int): Effect
  {
    match command
    case ReadHeaders(level) => ReadHeadersEffect(st, level, page.headers(level), speak, delay)
    case ReadLinks(ancestor) => ReadLinksEffect(st, page.links(ancestor), speak, delay)
    case ReadCurrentElement => ReadCurrentEffect(st, speak(0))
    case ReadPreviousElement => ReadPreviousEffect(st, speak(0))
    case ReadNextElement => ReadNextEffect(st, speak(0))
    case GoToLink => GoToLinkEffect(st)
    case ReadMain => ReadMainEffect(st, MainOf(page), speak(0))
    case ReadPageTitle => Effect(st, [Speak(TitleMessage(page.title))], speak(0))
    case ReadPageSummary =>
      Effect(st, [Speak(SummaryMessage(|page.headers(None)|, |page.links(None)|))], speak(0))
    case Unmodelled(outcome) => Effect(st, [], outcome)
  }

  /** The three ways the `catch` of `receiveCommand` treats an error. */
  datatype Handling = Announce(message: string) | Silent | ResetAndApologize

  /**
   * The library's errors have their message spoken; an `aborted` or
   * `interrupted` engine error is swallowed; anything else resets the session.
   */
  function Classify(e: Error): (h: Handling)
    ensures h.Announce? <==> e.WebReaderError?
    ensures h.Announce? ==> h.message == e.message
    ensures h.Silent? <==> e.EngineError? && (e.code == "aborted" || e.code == "interrupted")
    ensures h.ResetAndApologize? <==> e == TypeError || (e.EngineError? && e.code != "aborted" && e.code != "interrupted")
  {
    match e
    case WebReaderError(message) => Announce(message)
    case EngineError(code) => if code == "aborted" || code == "interrupted" then Silent else ResetAndApologize
    case TypeError => ResetAndApologize
  }

  /** The synchronous start of `receiveCommand`: the flag is set before the first suspension. */
  function StartEffect(st: State): Effect
  {
    Effect(st.(isInteracting := true), [InteractionStart, Speak(ReadyPrompt)], Resolved)
  }

  /**
   * The promise chain up to the `catch`: the "Ready" prompt settles with
   * `ready`, recognition with `heard`, interpretation by `interpret`, then the
   * routed operation runs. The first rejection skips the rest.
   */
  function PipelineEffect(st: State, ready: Status, heard: Heard, interpret: string -> Interpretation,
                          page: Page, speak: nat -> Status, delay: int): Effect
  {
    if ready.Rejected? then Effect(st, [], ready)
    else match heard
      case NotHeard(e) => Effect(st, [Listen], Rejected(e))
      case Transcript(text) =>
        match interpret(text)
        case NotUnderstood(e) => Effect(st, [Listen], Rejected(e))
        case Understood(command) =>
          var d := DispatchEffect(st, command, page, speak, delay);
          Effect(d.state, [Listen] + d.events, d.status)
  }

  /** The `catch` handler; `reply` is how its own speech settles, which the following `then` swallows. */
  function HandleEffect(st: State, status: Status, reply: Status): Effect
  {
    if status.Resolved? then Effect(st, [], Resolved)
    else match Classify(status.error)
      case Announce(message) => Effect(st, [Speak(message)], Resolved)
      case Silent => Effect(st, [], Resolved)
      case ResetAndApologize => Effect(DefaultState, [Speak(ApologyMessage)], Resolved)
  }

  /** Everything of `receiveCommand` after its first suspension, through the unconditional cleanup. */
  function CompletionEffect(st: State, ready: Status, heard: Heard, interpret: string -> Interpretation,
                            page: Page, speak: nat -> Status, reply: Status, delay: int): (r: Effect)
    ensures !r.state.isInteracting
    ensures r.status == Resolved
    ensures r.events != [] && r.events[|r.events| - 1] == InteractionEnd
  {
    var p := PipelineEffect(st, ready, heard, interpret, page, speak, delay);
    var h := HandleEffect(p.state, p.status, reply);
    Effect(h.state.(isInteracting := false), p.events + h.events + [InteractionEnd], Resolved)
  }

  /** A whole `receiveCommand` cycle. */
  function CycleEffect(st: State, ready: Status, heard: Heard, interpret: string -> Interpretation,
                       page: Page, speak: nat -> Status, reply: Status, delay: int): Effect
  {
    var s := StartEffect(st);
    var c := CompletionEffect(s.state, ready, heard, interpret, page, speak, reply, delay);
    Effect(c.state, s.events + c.events, c.status)
  }

  /** `stopCommand`: abort recognition, cancel speech, clear the flag; nothing else changes. */
  function StopEffect(st: State): Effect
  {
    Effect(st.(isInteracting := false), [AbortRecognition, CancelSpeech], Resolved)
  }

  // ---------------------------------------------------------------------------
  // The keyboard toggle

  /** The fields of a `keydown` event that the listener reads. */
  datatype KeyEvent = KeyEvent(ctrlKey: bool, code: Option<string>, which: Option<int>)

  /** Ctrl together with the space bar, named by `code` or by `which`. */
  predicate IsToggleShortcut(ev: KeyEvent)
  {
    ev.ctrlKey && (ev.code == Some("Space") || ev.which == Some(32))
  }

  /**
   * `listenShortcuts`: on the shortcut, stop a running interaction (first
   * unhighlighting the current element when there is a list), or else start one.
   */
  function KeyDownEffect(st: State, ev: KeyEvent): Effect
  {
    if !IsToggleShortcut(ev) then Effect(st, [], Resolved)
    else if st.isInteracting then
      var current := if st.elements.Some? then ElementAt(st.elements.value, st.currentIndex) else None;
      var unhighlight := if current.Some? then [Unhighlight(current.value)] else [];
      var stop := StopEffect(st);
      Effect(stop.state, unhighlight + stop.events, Resolved)
    else StartEffect(st)
  }

  // ---------------------------------------------------------------------------
  // Properties of the cycle

  /**
   * `receiveCommand` raises the flag and announces the start before it first
   * waits; whatever happens, the cycle ends with the flag down, the end
   * announced, and the promise resolved.
   */
  lemma CycleBracketsInteraction(st: State, ready: Status, heard: Heard, interpret: string -> Interpretation,
                                 page: Page, speak: nat -> Status, reply: Status, delay: int)
    ensures StartEffect(st).state.isInteracting
    ensures var r := CycleEffect(st, ready, heard, interpret, page, speak, reply, delay);
      && r.events[..2] == [InteractionStart, Speak(ReadyPrompt)]
      && r.events[|r.events| - 1] == InteractionEnd
      && !r.state.isInteracting
      && r.status == Resolved
  {
  }

  /**
   * The three-way treatment of a failure of the chain: a library error has
   * its message spoken and keeps the session; an aborted or interrupted
   * engine error is swallowed silently and keeps the session; anything else
   * resets the whole session to its defaults and speaks the apology. A
   * success speaks nothing more. The outcome of that last speech changes nothing.
   */
  lemma CompletionHandlesFailures(st: State, ready: Status, heard: Heard, interpret: string -> Interpretation,
                                  page: Page, speak: nat -> Status, reply: Status, other: Status, delay: int)
    ensures var p := PipelineEffect(st, ready, heard, interpret, page, speak, delay);
      var r := CompletionEffect(st, ready, heard, interpret, page, speak, reply, delay);
      && r == CompletionEffect(st, ready, heard, interpret, page, speak, other, delay)
      && (p.status.Resolved? ==>
            r.state == p.state.(isInteracting := false) && r.events == p.events + [InteractionEnd])
      && (p.status.Rejected? && p.status.error.WebReaderError? ==>
            r.state == p.state.(isInteracting := false)
            && r.events == p.events + [Speak(p.status.error.message), InteractionEnd])
      && (p.status.Rejected? && p.status.error.EngineError?
          && (p.status.error.code == "aborted" || p.status.error.code == "interrupted") ==>
            r.state == p.state.(isInteracting := false) && r.events == p.events + [InteractionEnd])
      && (p.status.Rejected? && Classify(p.status.error).ResetAndApologize? ==>
            r.state == DefaultState && r.events == p.events + [Speak(ApologyMessage), InteractionEnd])
  {
  }

  /** Whatever command is routed, the cursor stays inside any non-empty list. */
  lemma DispatchKeepsCursorInRange(st: State, command: Command, page: Page, speak: nat -> Status, delay: int)
    requires CursorInRange(st)
    ensures CursorInRange(DispatchEffect(st, command, page, speak, delay).state)
  {
    match command
    case ReadHeaders(level) => WalksKeepCursorInRange(st, level, page.headers(level), speak, delay);
    case ReadLinks(ancestor) => WalksKeepCursorInRange(st, None, page.links(ancestor), speak, delay);
    case ReadMain => CursorOperationsKeepRange(st, MainOf(page), speak(0));
    case _ => CursorOperationsKeepRange(st, None, speak(0));
  }

  /** A whole cycle, and the shortcut, keep the cursor inside any non-empty list. */
  lemma CycleKeepsCursorInRange(st: State, ready: Status, heard: Heard, interpret: string -> Interpretation,
                                page: Page, speak: nat -> Status, reply: Status, delay: int, ev: KeyEvent)
    requires CursorInRange(st)
    ensures CursorInRange(CycleEffect(st, ready, heard, interpret, page, speak, reply, delay).state)
    ensures CursorInRange(KeyDownEffect(st, ev).state)
  {
    var s := StartEffect(st).state;
    if ready.Resolved? && heard.Transcript? && interpret(heard.text).Understood? {
      DispatchKeepsCursorInRange(s, interpret(heard.text).command, page, speak, delay);
    }
  }

  /**
   * The transcript "next" routed to `readNextElement` before any list was
   * read fails with a `TypeError` (reading `length` of `null`), so the cycle
   * takes the generic branch: the session is reset and the apology is the
   * one thing spoken after "Ready".
   */
  lemma NextWithoutElementsApologises(st: State, interpret: string -> Interpretation, page: Page,
                                      speak: nat -> Status, reply: Status, delay: int)
    requires st.elements.None?
    requires interpret("next") == Understood(ReadNextElement)
    ensures var r := CycleEffect(st, Resolved, Transcript("next"), interpret, page, speak, reply, delay);
      && r.state == DefaultState
      && r.events == [InteractionStart, Speak(ReadyPrompt), Listen, Speak(ApologyMessage), InteractionEnd]
  {
  }

  /**
   * Stopping a running cycle lowers the flag at once; when the pending
   * recognition then settles as interrupted, the cycle ends silently with the
   * flag down and the session's list and cursor as they were.
   */
  lemma StopThenInterruptedCycle(st: State, interpret: string -> Interpretation, page: Page,
                                 speak: nat -> Status, reply: Status, delay: int)
    ensures var started := StartEffect(st);
      var stopped := StopEffect(started.state);
      var done := CompletionEffect(stopped.state, Resolved, NotHeard(EngineError("interrupted")),
                                   interpret, page, speak, reply, delay);
      && !stopped.state.isInteracting
      && done.state == st.(isInteracting := false)
      && done.events == [Listen, InteractionEnd]
  {
  }

  /**
   * With the shipped recognizer, aborting it rejects recognition with the
   * library's own error rather than an engine error. Stopping a running
   * cycle then still lowers the flag at once, but the cycle ends by speaking
   * that error's message; the list and cursor are kept.
   */
  lemma StopThenRecognizerError(st: State, interpret: string -> Interpretation, page: Page,
                                speak: nat -> Status, reply: Status, delay: int)
    ensures var started := StartEffect(st);
      var stopped := StopEffect(started.state);
      var done := CompletionEffect(stopped.state, Resolved, NotHeard(WebReaderError(RecognitionErrorMessage)),
                                   interpret, page, speak, reply, delay);
      && !stopped.state.isInteracting
      && done.state == st.(isInteracting := false)
      && done.events == [Listen, Speak(RecognitionErrorMessage), InteractionEnd]
  {
  }

  /**
   * The shortcut is Ctrl with Space (by `code` or by `which === 32`). It stops
   * a running interaction, first unhighlighting the current element when there
   * is one, and starts an interaction otherwise; any other key changes nothing.
   */
  lemma KeyDownToggles(st: State, ev: KeyEvent)
    ensures IsToggleShortcut(KeyEvent(true, Some("Space"), None))
    ensures IsToggleShortcut(KeyEvent(true, None, Some(32)))
    ensures !IsToggleShortcut(KeyEvent(false, Some("Space"), Some(32)))
    ensures var r := KeyDownEffect(st, ev);
      && (!IsToggleShortcut(ev) ==> r == Effect(st, [], Resolved))
      && (IsToggleShortcut(ev) && st.isInteracting ==>
            var current := if st.elements.Some? then ElementAt(st.elements.value, st.currentIndex) else None;
            r.state == st.(isInteracting := false)
            && r.events == (if current.Some? then [Unhighlight(current.value)] else []) + [AbortRecognition, CancelSpeech])
      && (IsToggleShortcut(ev) && !st.isInteracting ==> r == StartEffect(st))
  {
  }
}
