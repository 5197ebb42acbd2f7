/**
 * The WebReader session controller of src/main.js as a class: the session
 * state lives in fields the methods update in place, and every observable
 * action is appended to `trace`. Each method is proved to produce exactly the
 * `Effect` that the corresponding function of Session, Sweep or Lifecycle
 * gives for the state before the call, and to keep the cursor invariant.
 */
module WebReader {
  import opened Wrappers
  import opened Dom
  import opened Session
  import opened Sweep
  import opened Messages
  import L = Lifecycle

  /** `defaults.delay` (src/main.js:14). */
  const DefaultDelay := 300

  class Reader {
    /** `settings.delay`: the pause after each item of `readHeaders` and `readLinks`. */
    const delay: int
    var isInteracting: bool
    var elements: Option<seq<Slot>>
    var currentIndex: int
    /** What the controller has done so far, oldest first. */
    var trace: seq<Event>

    /** The session state. */
    function State(): State
      reads this
    {
      Session.State(isInteracting, elements, currentIndex)
    }

    /** The cursor points into any non-empty list. */
    ghost predicate Valid()
      reads this
    {
      CursorInRange(State())
    }

    /** `new WebReader({delay})`: the settings are a shallow merge over the defaults; the state starts as `defaultState`. */
    constructor (delayOption: Option<int>)
      ensures Valid()
      ensures delay == delayOption.GetOr(DefaultDelay)
      ensures State() == DefaultState && trace == []
    {
      delay := delayOption.GetOr(DefaultDelay);
      isInteracting, elements, currentIndex := false, None, -1;
      trace := [];
    }

    /** `isInteracting()`. */
    function IsInteracting(): bool
      reads this
    {
      isInteracting
    }

    /** `speaker.speak(text)`, which settles as `outcome`. */
    method SpeakText(text: string, outcome: Status) returns (s: Status)
      modifies this`trace
      ensures trace == old(trace) + [Speak(text)] && s == outcome
    {
      trace := trace + [Speak(text)];
      s := outcome;
    }

    /** `readCurrentElement()`, its speech settling as `spoken`. */
    method ReadCurrentElement(spoken: Status) returns (s: Status)
      requires Valid()
      modifies this
      ensures Valid()
      ensures var e := ReadCurrentEffect(old(State()), spoken);
        State() == e.state && trace == old(trace) + e.events && s == e.status
    {
      if elements.None? {
        return Rejected(WebReaderError(NoCurrentElementMessage));
      }
      var element := ElementAt(elements.value, currentIndex);
      if element.None? {
        return Rejected(TypeError);
      }
      var e := element.value;
      trace := trace + [Highlight(e)];
      s := SpeakText(e.text, spoken);
      // unhighlighted after the speech resolves, and before its rejection is passed on
      trace := trace + [Unhighlight(e)];
    }

    /** `readPreviousElement()`. */
    method ReadPreviousElement(spoken: Status) returns (s: Status)
      requires Valid()
      modifies this
      ensures Valid()
      ensures var e := ReadPreviousEffect(old(State()), spoken);
        State() == e.state && trace == old(trace) + e.events && s == e.status
    {
      if currentIndex == 0 {
        return Rejected(WebReaderError(FirstElementMessage));
      }
      currentIndex := currentIndex - 1;
      s := ReadCurrentElement(spoken);
    }

    /** `readNextElement()`. */
    method ReadNextElement(spoken: Status) returns (s: Status)
      requires Valid()
      modifies this
      ensures Valid()
      ensures var e := ReadNextEffect(old(State()), spoken);
        State() == e.state && trace == old(trace) + e.events && s == e.status
    {
      if elements.None? {
        return Rejected(TypeError);  // `state.elements.length` of null
      }
      if currentIndex == |elements.value| - 1 {
        return Rejected(WebReaderError(LastElementMessage));
      }
      currentIndex := currentIndex + 1;
      s := ReadCurrentElement(spoken);
    }

    /** `goToLink()`. */
    method GoToLink() returns (s: Status)
      requires Valid()
      modifies this
      ensures Valid()
      ensures var e := GoToLinkEffect(old(State()));
        State() == e.state && trace == old(trace) + e.events && s == e.status
    {
      var current := if elements.Some? then ElementAt(elements.value, currentIndex) else None;
      if current.None? || current.value.nodeName != "A" {
        return Rejected(WebReaderError(NoCurrentLinkMessage));
      }
      trace := trace + [Navigate(current.value.href)];
      s := Resolved;
    }

    /**
     * One link of `readHeaders`' chain: highlight the header, speak it, remove
     * the highlight, then pause for `delay` ms once the speech resolved.
     */
    method ReadHeader(header: Element, withTag: bool, spoken: Status) returns (s: Status)
      modifies this`trace
      ensures trace == old(trace) + ItemEvents(header, withTag, spoken, delay) && s == spoken
    {
      trace := trace + [Highlight(header)];
      s := SpeakText(ItemText(header, withTag), spoken);
      trace := trace + [Unhighlight(header)];
      if s.Resolved? && delay > 0 {
        trace := trace + [Wait(delay)];
      }
    }

    /**
     * `readHeaders(filters)`, with `level` the filter's level, `headers` what
     * `Dom.getHeaders(filters)` returned and `speak(i)` the outcome of header `i`'s speech.
     */
    method ReadHeaders(level: Option<int>, headers: seq<Element>, speak: nat -> Status) returns (s: Status)
      requires Valid()
      modifies this
      ensures Valid()
      ensures var e := ReadHeadersEffect(old(State()), level, headers, speak, delay);
        State() == e.state && trace == old(trace) + e.events && s == e.status
    {
      var withTag := AnnouncesTag(level);
      elements := Some(Slots(headers));
      ghost var start := currentIndex;
      ghost var events: seq<Event> := [];
      ghost var list := elements;
      s := Resolved;
      var i := 0;
      while i < |headers| && s.Resolved?
        invariant 0 <= i <= |headers|
        invariant isInteracting == old(isInteracting) && elements == list
        invariant trace == old(trace) + events
        invariant Walk(headers, withTag, speak, delay, start, i) == Run(events, s, currentIndex)
      {
        WalkNext(headers, withTag, speak, delay, start, i);
        var header := headers[i];
        currentIndex := i;
        s := ReadHeader(header, withTag, speak(i));
        events := events + ItemEvents(header, withTag, speak(i), delay);
        i := i + 1;
      }
      if i < |headers| {
        WalkStaysRejected(headers, withTag, speak, delay, start, i, |headers|);
      }
      WalksKeepCursorInRange(old(State()), level, headers, speak, delay);
    }

    /** `readLinks(filters)`: each link is read by `readCurrentElement` once the cursor is on it. */
    method ReadLinks(links: seq<Element>, speak: nat -> Status) returns (s: Status)
      requires Valid()
      modifies this
      ensures Valid()
      ensures var e := ReadLinksEffect(old(State()), links, speak, delay);
        State() == e.state && trace == old(trace) + e.events && s == e.status
    {
      elements := Some(Slots(links));
      ghost var start := currentIndex;
      ghost var events: seq<Event> := [];
      s := Resolved;
      var i := 0;
      while i < |links| && s.Resolved?
        invariant 0 <= i <= |links|
        invariant isInteracting == old(isInteracting) && elements == Some(Slots(links))
        invariant trace == old(trace) + events
        invariant Walk(links, false, speak, delay, start, i) == Run(events, s, currentIndex)
      {
        WalkNext(links, false, speak, delay, start, i);
        currentIndex := i;
        s := ReadCurrentElement(speak(i));
        if s.Resolved? && delay > 0 {
          trace := trace + [Wait(delay)];
        }
        events := events + ItemEvents(links[i], false, speak(i), delay);
        i := i + 1;
      }
      if i < |links| {
        WalkStaysRejected(links, false, speak, delay, start, i, |links|);
      }
      WalksKeepCursorInRange(old(State()), None, links, speak, delay);
    }

    /** `readMain()`, with `main` what `Dom.getMain()` returned. */
    method ReadMain(main: Option<Element>, spoken: Status) returns (s: Status)
      requires Valid()
      modifies this
      ensures Valid()
      ensures var e := ReadMainEffect(old(State()), main, spoken);
        State() == e.state && trace == old(trace) + e.events && s == e.status
    {
      elements := Some([main]);
      currentIndex := 0;
      if main.None? {
        return Rejected(WebReaderError(MainNotFoundMessage));
      }
      s := SpeakText(main.value.text, spoken);
    }

    /** `readPageTitle()`, with `title` what `Dom.getTitle()` returned. */
    method ReadPageTitle(title: Option<string>, spoken: Status) returns (s: Status)
      modifies this`trace
      ensures trace == old(trace) + [Speak(TitleMessage(title))] && s == spoken
    {
      s := SpeakText(TitleMessage(title), spoken);
    }

    /** `readPageSummary()`, with the unfiltered header and link lists of the page. */
    method ReadPageSummary(headers: seq<Element>, links: seq<Element>, spoken: Status) returns (s: Status)
      modifies this`trace
      ensures trace == old(trace) + [Speak(SummaryMessage(|headers|, |links|))] && s == spoken
    {
      s := SpeakText(SummaryMessage(|headers|, |links|), spoken);
    }

    /** `Router.route(this, command)`: run the operation the command names. */
    method Route(command: L.Command, page: Page, speak: nat -> Status) returns (s: Status)
      requires Valid()
      modifies this
      ensures Valid()
      ensures var e := L.DispatchEffect(old(State()), command, page, speak, delay);
        State() == e.state && trace == old(trace) + e.events && s == e.status
    {
      match command
      case ReadHeaders(level) => s := ReadHeaders(level, page.headers(level), speak);
      case ReadLinks(ancestor) => s := ReadLinks(page.links(ancestor), speak);
      case ReadCurrentElement => s := ReadCurrentElement(speak(0));
      case ReadPreviousElement => s := ReadPreviousElement(speak(0));
      case ReadNextElement => s := ReadNextElement(speak(0));
      case GoToLink => s := GoToLink();
      case ReadMain => s := ReadMain(MainOf(page), speak(0));
      case ReadPageTitle => s := ReadPageTitle(page.title, speak(0));
      case ReadPageSummary => s := ReadPageSummary(page.headers(None), page.links(None), speak(0));
      case Unmodelled(outcome) => s := outcome;
    }

    /**
     * The synchronous part of `receiveCommand()`: raise the flag, announce the
     * start and ask for the "Ready" prompt, whose outcome arrives later.
     */
    method StartCommand()
      requires Valid()
      modifies this
      ensures Valid()
      ensures var e := L.StartEffect(old(State()));
        State() == e.state && trace == old(trace) + e.events
    {
      isInteracting := true;
      trace := trace + [InteractionStart, Speak(L.ReadyPrompt)];
    }

    /** The promise chain of `receiveCommand()` after the "Ready" prompt settles as `ready`, up to its `catch`. */
    method RunPipeline(ready: Status, heard: L.Heard, interpret: string -> L.Interpretation,
                       page: Page, speak: nat -> Status) returns (s: Status)
      requires Valid()
      modifies this
      ensures Valid()
      ensures var e := L.PipelineEffect(old(State()), ready, heard, interpret, page, speak, delay);
        State() == e.state && trace == old(trace) + e.events && s == e.status
    {
      s := ready;
      if s.Resolved? {
        trace := trace + [Listen];
        match heard
        case NotHeard(error) => s := Rejected(error);
        case Transcript(text) =>
          match interpret(text)
          case NotUnderstood(error) => s := Rejected(error);
          case Understood(command) => s := Route(command, page, speak);
      }
    }

    /** The `catch` of `receiveCommand()`; `reply` is how its own speech settles. */
    method HandleFailure(s: Status, reply: Status)
      requires Valid()
      modifies this
      ensures Valid()
      ensures var e := L.HandleEffect(old(State()), s, reply);
        State() == e.state && trace == old(trace) + e.events
    {
      if s.Rejected? {
        match L.Classify(s.error)
        case Announce(message) =>
          var replied := SpeakText(message, reply);
        case Silent =>
        case ResetAndApologize =>
          isInteracting, elements, currentIndex := DefaultState.isInteracting, DefaultState.elements, DefaultState.currentIndex;
          var replied := SpeakText(L.ApologyMessage, reply);
      }
    }

    /**
     * The rest of `receiveCommand()` once the "Ready" prompt settles as
     * `ready`: recognize, interpret, route, handle a failure, clean up.
     */
    method CompleteCommand(ready: Status, heard: L.Heard, interpret: string -> L.Interpretation,
                           page: Page, speak: nat -> Status, reply: Status)
      requires Valid()
      modifies this
      ensures Valid()
      ensures var e := L.CompletionEffect(old(State()), ready, heard, interpret, page, speak, reply, delay);
        State() == e.state && trace == old(trace) + e.events
    {
      var s := RunPipeline(ready, heard, interpret, page, speak);
      HandleFailure(s, reply);
      // runs on every path, like a `finally`
      isInteracting := false;
      trace := trace + [InteractionEnd];
    }

    /** `receiveCommand()` run to completion: the promise always resolves, so nothing is returned. */
    method ReceiveCommand(ready: Status, heard: L.Heard, interpret: string -> L.Interpretation,
                          page: Page, speak: nat -> Status, reply: Status)
      requires Valid()
      modifies this
      ensures Valid()
      ensures var e := L.CycleEffect(old(State()), ready, heard, interpret, page, speak, reply, delay);
        State() == e.state && trace == old(trace) + e.events
    {
      StartCommand();
      CompleteCommand(ready, heard, interpret, page, speak, reply);
    }

    /** `stopCommand()`: abort recognition and speech once each and lower the flag at once. */
    method StopCommand()
      requires Valid()
      modifies this
      ensures Valid()
      ensures var e := L.StopEffect(old(State()));
        State() == e.state && trace == old(trace) + e.events
    {
      trace := trace + [AbortRecognition, CancelSpeech];
      isInteracting := false;
    }

    /**
     * The `keydown` listener installed by `enableShortcuts()`. Starting an
     * interaction runs the synchronous part of `receiveCommand()`; its
     * continuation is `CompleteCommand`, run when the prompt settles.
     */
    method OnKeyDown(ev: L.KeyEvent)
      requires Valid()
      modifies this
      ensures Valid()
      ensures var e := L.KeyDownEffect(old(State()), ev);
        State() == e.state && trace == old(trace) + e.events
    {
      if L.IsToggleShortcut(ev) {
        if isInteracting {
          if elements.Some? {
            var current := ElementAt(elements.value, currentIndex);
            if current.Some? {
              trace := trace + [Unhighlight(current.value)];
            }
          }
          StopCommand();
        } else {
          StartCommand();
        }
      }
    }
  }

  /**
   * What a caller sees: reading the current element twice in a row speaks the
   * same text and leaves the session as it was.
   */
  method ReadCurrentTwice(r: Reader, first: Status, second: Status)
    requires r.Valid()
    modifies r
    ensures r.State() == old(r.State())
    ensures var once := ReadCurrentEffect(old(r.State()), first).events;
      r.trace == old(r.trace) + once + once
  {
    var s1 := r.ReadCurrentElement(first);
    var s2 := r.ReadCurrentElement(second);
  }

  /**
   * What a caller sees: a shortcut press starts an interaction and a second
   * press stops it at once; when the pending cycle then settles as interrupted
   * it ends silently, with the list and cursor untouched.
   */
  method ToggleTwice(r: Reader, ev: L.KeyEvent, interpret: string -> L.Interpretation, page: Page,
                     speak: nat -> Status, reply: Status)
    requires r.Valid() && !r.isInteracting && L.IsToggleShortcut(ev)
    modifies r
    ensures !r.isInteracting
    ensures r.elements == old(r.elements) && r.currentIndex == old(r.currentIndex)
    ensures |r.trace| >= 2 && r.trace[|r.trace| - 2..] == [Listen, InteractionEnd]
  {
    r.OnKeyDown(ev);
    assert r.isInteracting;
    r.OnKeyDown(ev);
    assert !r.isInteracting;
    r.CompleteCommand(Resolved, L.NotHeard(EngineError("interrupted")), interpret, page, speak, reply);
  }
}
