/**
 * The session state of a WebReader instance (src/main.js:25-29, one per
 * instance at src/main.js:96), the observable events its operations produce,
 * and the cursor operations over the last-fetched element list, each given as
 * a function from the state before to an `Effect`: the state after, the
 * events emitted in order, and how the returned promise settles.
 */
module Session {
  import opened Wrappers
  import opened Dom

  /** What a rejected promise carries. */
  datatype Error =
    | WebReaderError(message: string)  // the library's own user-facing error
    | EngineError(code: string)        // an object with an `error` field, as speech engines reject with
    | TypeError                        // a JavaScript error with no `error` field, such as reading a field of `undefined`

  /** How a promise settles. Also the oracle outcome of one `speaker.speak` call. */
  datatype Status = Resolved | Rejected(error: Error)

  /** Everything the controller does that the outside world can observe. */
  datatype Event =
    | InteractionStart             // the `interactionstart` notification
    | InteractionEnd               // the `interactionend` notification
    | Speak(text: string)          // a `speaker.speak(text)` call
    | Highlight(element: Element)  // `Dom.highlightElement`
    | Unhighlight(element: Element)// `Dom.unhighlightElement`
    | Wait(ms: int)                // `Timer.wait(ms)`
    | Navigate(href: string)       // `window.location.assign(href)`
    | Listen                       // a `recognizer.recognize()` call
    | AbortRecognition             // `recognizer.abort()`
    | CancelSpeech                 // `speaker.cancel()`

  /** One entry of `elements`: `readMain` may store `null` there. */
  type Slot = Option<Element>

  /** The per-instance state; `elements == None` is `null`. */
  datatype State = State(isInteracting: bool, elements: Option<seq<Slot>>, currentIndex: int)

  /** `defaultState` (src/main.js:25-29). */
  const DefaultState := State(false, None, -1)

  /** The outcome of one operation. */
  datatype Effect = Effect(state: State, events: seq<Event>, status: Status)

  const NoCurrentElementMessage := "There is not a current element to read"
  const FirstElementMessage := "The current element is the first"
  const LastElementMessage := "The current element is the last"
  const NoCurrentLinkMessage := "There is not a current link to follow"
  const MainNotFoundMessage := "The main content of this page cannot be found"

  /** `elements` as the list of slots of a fetched element list. */
  function Slots(items: seq<Element>): seq<Slot>
  {
    seq(|items|, i requires 0 <= i < |items| => Some(items[i]))
  }

  /**
   * `state.elements[state.currentIndex]` when `elements` is non-null: the
   * element, or None both for `undefined` (index out of range) and for a `null` slot.
   */
  function ElementAt(slots: seq<Slot>, index: int): Option<Element>
  {
    if 0 <= index < |slots| then slots[index] else None
  }

  /**
   * The invariant the cursor keeps: whenever `elements` is a non-empty list,
   * `currentIndex` points into it.
   */
  predicate CursorInRange(st: State)
  {
    st.elements.Some? && |st.elements.value| > 0 ==> 0 <= st.currentIndex < |st.elements.value|
  }

  /** The events of reading one element: highlight it, speak `text`, unhighlight it whatever the speech did. */
  function ReadEvents(e: Element, text: string): seq<Event>
  {
    [Highlight(e), Speak(text), Unhighlight(e)]
  }

  /** `readCurrentElement` (src/main.js:265-284), with `spoken` the outcome of its speak call. */
  function ReadCurrentEffect(st: State, spoken: Status): Effect
  {
    if st.elements.None? then
      Effect(st, [], Rejected(WebReaderError(NoCurrentElementMessage)))
    else match ElementAt(st.elements.value, st.currentIndex)
      case None => Effect(st, [], Rejected(TypeError))  // `element.textContent` of undefined or null
      case Some(e) => Effect(st, ReadEvents(e, e.text), spoken)
  }

  /** `readPreviousElement` (src/main.js:291-301): the cursor moves back before the current element is read. */
  function ReadPreviousEffect(st: State, spoken: Status): Effect
  {
    if st.currentIndex == 0 then
      Effect(st, [], Rejected(WebReaderError(FirstElementMessage)))
    else
      ReadCurrentEffect(st.(currentIndex := st.currentIndex - 1), spoken)
  }

  /** `readNextElement` (src/main.js:308-318): `elements.length` of a null list throws. */
  function ReadNextEffect(st: State, spoken: Status): Effect
  {
    if st.elements.None? then
      Effect(st, [], Rejected(TypeError))
    else if st.currentIndex == |st.elements.value| - 1 then
      Effect(st, [], Rejected(WebReaderError(LastElementMessage)))
    else
      ReadCurrentEffect(st.(currentIndex := st.currentIndex + 1), spoken)
  }

  /** `goToLink` (src/main.js:320-329). */
  function GoToLinkEffect(st: State): Effect
  {
    var current := if st.elements.Some? then ElementAt(st.elements.value, st.currentIndex) else None;
    if current.None? || current.value.nodeName != "A" then
      Effect(st, [], Rejected(WebReaderError(NoCurrentLinkMessage)))
    else
      Effect(st, [Navigate(current.value.href)], Resolved)
  }

  /** `readMain` (src/main.js:363-375), with `main` what `Dom.getMain()` returned. */
  function ReadMainEffect(st: State, main: Option<Element>, spoken: Status): Effect
  {
    var st' := st.(elements := Some([main]), currentIndex := 0);
    if main.None? then
      Effect(st', [], Rejected(WebReaderError(MainNotFoundMessage)))
    else
      Effect(st', [Speak(main.value.text)], spoken)
  }

  // ---------------------------------------------------------------------------
  // Properties of the cursor operations

  /**
   * With no element list, reading the current element rejects with the
   * library's error and neither highlights nor speaks anything; otherwise the
   * element under the cursor is highlighted, exactly its text is spoken, it is
   * unhighlighted on success and on failure alike, and the speech outcome is
   * what the call settles with. The state never changes.
   */
  lemma ReadCurrentContract(st: State, spoken: Status)
    ensures var r := ReadCurrentEffect(st, spoken);
      && r.state == st
      && (st.elements.None? ==> r.events == [] && r.status == Rejected(WebReaderError(NoCurrentElementMessage)))
      && (st.elements.Some? && ElementAt(st.elements.value, st.currentIndex).Some? ==>
            var e := ElementAt(st.elements.value, st.currentIndex).value;
            r.events == [Highlight(e), Speak(e.text), Unhighlight(e)] && r.status == spoken)
      && (r.events != [] <==> st.elements.Some? && ElementAt(st.elements.value, st.currentIndex).Some?)
  {
  }

  /** Reading twice with no cursor change speaks the same text, whatever the two speech outcomes. */
  lemma ReadCurrentTwiceSpeaksSameText(st: State, first: Status, second: Status)
    ensures var r1 := ReadCurrentEffect(st, first);
      var r2 := ReadCurrentEffect(r1.state, second);
      r2.state == st && r2.events == r1.events
  {
  }

  /**
   * At the first element `readPreviousElement` rejects and leaves the cursor
   * where it is; anywhere else it moves the cursor back by exactly one and
   * then behaves as `readCurrentElement` there.
   */
  lemma ReadPreviousContract(st: State, spoken: Status)
    ensures var r := ReadPreviousEffect(st, spoken);
      && (st.currentIndex == 0 ==>
            r == Effect(st, [], Rejected(WebReaderError(FirstElementMessage))))
      && (st.currentIndex != 0 ==>
            r.state == st.(currentIndex := st.currentIndex - 1)
            && r == ReadCurrentEffect(r.state, spoken))
  {
  }

  /**
   * At the last element `readNextElement` rejects and leaves the cursor where
   * it is; anywhere else on a list it moves the cursor forward by exactly one
   * and then behaves as `readCurrentElement` there. Without a list it fails
   * with a `TypeError`, not with the library's error.
   */
  lemma ReadNextContract(st: State, spoken: Status)
    ensures var r := ReadNextEffect(st, spoken);
      && (st.elements.None? ==> r == Effect(st, [], Rejected(TypeError)))
      && (st.elements.Some? && st.currentIndex == |st.elements.value| - 1 ==>
            r == Effect(st, [], Rejected(WebReaderError(LastElementMessage))))
      && (st.elements.Some? && st.currentIndex != |st.elements.value| - 1 ==>
            r.state == st.(currentIndex := st.currentIndex + 1)
            && r == ReadCurrentEffect(r.state, spoken))
  {
  }

  /**
   * On a fresh instance `readPreviousElement` still moves the cursor, from -1
   * to -2, before `readCurrentElement` rejects for want of a list.
   */
  lemma ReadPreviousOnFreshInstance(spoken: Status)
    ensures ReadPreviousEffect(DefaultState, spoken)
      == Effect(DefaultState.(currentIndex := -2), [], Rejected(WebReaderError(NoCurrentElementMessage)))
  {
  }

  /**
   * `goToLink` navigates exactly when there is a current element whose tag
   * name is `A`, and then to that element's `href`; it never changes the state.
   */
  lemma GoToLinkContract(st: State)
    ensures var r := GoToLinkEffect(st);
      var current := if st.elements.Some? then ElementAt(st.elements.value, st.currentIndex) else None;
      && r.state == st
      && (r.status.Resolved? <==> current.Some? && current.value.nodeName == "A")
      && (r.status.Resolved? ==> r.events == [Navigate(current.value.href)])
      && (r.status.Rejected? ==> r.events == [] && r.status.error == WebReaderError(NoCurrentLinkMessage))
  {
  }

  /**
   * `readMain` always leaves `elements == [main]` and the cursor at 0, even
   * when no main element exists; it then rejects without speaking. Otherwise
   * it speaks the main element's text exactly once, with no highlight.
   */
  lemma ReadMainContract(st: State, main: Option<Element>, spoken: Status)
    ensures var r := ReadMainEffect(st, main, spoken);
      && r.state == st.(elements := Some([main]), currentIndex := 0)
      && (main.None? ==> r.events == [] && r.status == Rejected(WebReaderError(MainNotFoundMessage)))
      && (main.Some? ==> r.events == [Speak(main.value.text)] && r.status == spoken)
  {
  }

  /** The cursor operations keep the cursor inside any non-empty list. */
  lemma {:induction false} CursorOperationsKeepRange(st: State, main: Option<Element>, spoken: Status)
    requires CursorInRange(st)
    ensures CursorInRange(ReadCurrentEffect(st, spoken).state)
    ensures CursorInRange(ReadPreviousEffect(st, spoken).state)
    ensures CursorInRange(ReadNextEffect(st, spoken).state)
    ensures CursorInRange(GoToLinkEffect(st).state)
    ensures CursorInRange(ReadMainEffect(st, main, spoken).state)
  {
  }
}
