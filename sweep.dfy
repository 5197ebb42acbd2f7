/**
 * The sequential walk of `readHeaders` (src/main.js:231-258) and `readLinks`
 * (src/main.js:338-356): a `reduce` over the fetched list chains, for each
 * item, "set the cursor, highlight, speak, unhighlight" and, when the delay
 * is positive, a wait. A rejected speech skips every later link of the chain.
 */
module Sweep {
  import opened Wrappers
  import opened Dom
  import opened Session

  /** The text spoken for one item: a header's tag name is appended unless a level filter was given. */
  function ItemText(e: Element, withTag: bool): string
  {
    if withTag then e.text + " " + e.nodeName else e.text
  }

  /** The events of one link of the chain, given how its speech settled. */
  function ItemEvents(e: Element, withTag: bool, spoken: Status, delay: int): seq<Event>
  {
    ReadEvents(e, ItemText(e, withTag)) + (if spoken.Resolved? && delay > 0 then [Wait(delay)] else [])
  }

  /** Where the chain stands: events so far, how it settled, and the cursor. */
  datatype Run = Run(events: seq<Event>, status: Status, index: int)

  /**
   * The chain over the first `n` items, with `speak(i)` the outcome of item
   * `i`'s speech and `start` the cursor before the walk.
   */
  function Walk(items: seq<Element>, withTag: bool, speak: nat -> Status, delay: int, start: int, n: nat): Run
    requires n <= |items|
  {
    if n == 0 then Run([], Resolved, start)
    else
      var r := Walk(items, withTag, speak, delay, start, n - 1);
      if r.status.Rejected? then r
      else Run(r.events + ItemEvents(items[n - 1], withTag, speak(n - 1), delay), speak(n - 1), n - 1)
  }

  /** The index of the first rejected speech among the first `n`, or `n` when all resolve. */
  function FirstRejection(speak: nat -> Status, n: nat): (k: nat)
    ensures k <= n
    ensures k < n ==> speak(k).Rejected?
    ensures forall j :: 0 <= j < k ==> speak(j).Resolved?
  {
    if n == 0 then 0
    else
      var k := FirstRejection(speak, n - 1);
      if k < n - 1 then k else if speak(n - 1).Rejected? then n - 1 else n
  }

  // ---------------------------------------------------------------------------
  // Projections of an event trace

  /** The values `pick` selects from a trace, in order. */
  function Collect<T>(es: seq<Event>, pick: Event -> Option<T>): seq<T>
  {
    if es == [] then []
    else Collect(es[..|es| - 1], pick) + (match pick(es[|es| - 1]) case Some(v) => [v] case None => [])
  }

  lemma {:induction false} CollectAppend<T>(a: seq<Event>, b: seq<Event>, pick: Event -> Option<T>)
    ensures Collect(a + b, pick) == Collect(a, pick) + Collect(b, pick)
    decreases |b|
  {
    if b == [] {
      assert a + b == a;
    } else {
      var b' := b[..|b| - 1];
      assert (a + b)[..|a + b| - 1] == a + b';
      CollectAppend(a, b', pick);
    }
  }

  function SpokenText(e: Event): Option<string> { if e.Speak? then Some(e.text) else None }
  function HighlightedElement(e: Event): Option<Element> { if e.Highlight? then Some(e.element) else None }
  function UnhighlightedElement(e: Event): Option<Element> { if e.Unhighlight? then Some(e.element) else None }
  function WaitTime(e: Event): Option<int> { if e.Wait? then Some(e.ms) else None }

  /** The texts spoken, in order. */
  function Spoken(es: seq<Event>): seq<string> { Collect(es, SpokenText) }
  /** The elements highlighted, in order. */
  function Highlighted(es: seq<Event>): seq<Element> { Collect(es, HighlightedElement) }
  /** The elements unhighlighted, in order. */
  function Unhighlighted(es: seq<Event>): seq<Element> { Collect(es, UnhighlightedElement) }
  /** The waits, in order. */
  function Waits(es: seq<Event>): seq<int> { Collect(es, WaitTime) }

  /** The texts of a list of items. */
  function Texts(items: seq<Element>, withTag: bool): seq<string>
  {
    seq(|items|, i requires 0 <= i < |items| => ItemText(items[i], withTag))
  }

  /** `n` waits of `ms` each. */
  function Repeat(ms: int, n: nat): seq<int>
  {
    seq(n, _ => ms)
  }

  lemma CollectSingle<T>(x: Event, pick: Event -> Option<T>)
    ensures Collect([x], pick) == match pick(x) case Some(v) => [v] case None => []
  {
    assert [x][..0] == [];
  }

  lemma ProjectItem<T>(h: Event, t: Event, u: Event, tail: seq<Event>, pick: Event -> Option<T>)
    ensures Collect([h] + [t] + [u] + tail, pick)
      == Collect([h], pick) + Collect([t], pick) + Collect([u], pick) + Collect(tail, pick)
  {
    CollectAppend([h] + [t] + [u], tail, pick);
    CollectAppend([h] + [t], [u], pick);
    CollectAppend([h], [t], pick);
  }

  /** Projecting one item's events: what `pick` keeps of its highlight, speech, unhighlight and wait. */
  lemma ItemCollect<T>(e: Element, withTag: bool, spoken: Status, delay: int, pick: Event -> Option<T>)
    ensures Collect(ItemEvents(e, withTag, spoken, delay), pick)
      == Collect([Highlight(e)], pick) + Collect([Speak(ItemText(e, withTag))], pick) + Collect([Unhighlight(e)], pick)
         + (if spoken.Resolved? && delay > 0 then Collect([Wait(delay)], pick) else [])
  {
    var h, t, u := Highlight(e), Speak(ItemText(e, withTag)), Unhighlight(e);
    var tail: seq<Event> := if spoken.Resolved? && delay > 0 then [Wait(delay)] else [];
    assert ItemEvents(e, withTag, spoken, delay) == [h] + [t] + [u] + tail;
    ProjectItem(h, t, u, tail, pick);
    assert Collect([], pick) == [];
  }

  lemma ItemProjections(e: Element, withTag: bool, spoken: Status, delay: int)
    ensures var es := ItemEvents(e, withTag, spoken, delay);
      && Spoken(es) == [ItemText(e, withTag)]
      && Highlighted(es) == [e]
      && Unhighlighted(es) == [e]
      && Waits(es) == if spoken.Resolved? && delay > 0 then [delay] else []
  {
    var h, t, u, w := Highlight(e), Speak(ItemText(e, withTag)), Unhighlight(e), Wait(delay);
    ItemCollect(e, withTag, spoken, delay, SpokenText);
    ItemCollect(e, withTag, spoken, delay, HighlightedElement);
    ItemCollect(e, withTag, spoken, delay, UnhighlightedElement);
    ItemCollect(e, withTag, spoken, delay, WaitTime);
    CollectSingle(h, SpokenText);
    CollectSingle(t, SpokenText);
    CollectSingle(u, SpokenText);
    CollectSingle(w, SpokenText);
    CollectSingle(h, HighlightedElement);
    CollectSingle(t, HighlightedElement);
    CollectSingle(u, HighlightedElement);
    CollectSingle(w, HighlightedElement);
    CollectSingle(h, UnhighlightedElement);
    CollectSingle(t, UnhighlightedElement);
    CollectSingle(u, UnhighlightedElement);
    CollectSingle(w, UnhighlightedElement);
    CollectSingle(h, WaitTime);
    CollectSingle(t, WaitTime);
    CollectSingle(u, WaitTime);
    CollectSingle(w, WaitTime);
  }

  // ---------------------------------------------------------------------------
  // Properties of the walk

  /** Once a speech has been rejected, the rest of the chain adds nothing. */
  lemma {:induction false} WalkStaysRejected(items: seq<Element>, withTag: bool, speak: nat -> Status, delay: int, start: int, n: nat, m: nat)
    requires n <= m <= |items|
    requires Walk(items, withTag, speak, delay, start, n).status.Rejected?
    ensures Walk(items, withTag, speak, delay, start, m) == Walk(items, withTag, speak, delay, start, n)
    decreases m
  {
    if m > n {
      WalkStaysRejected(items, withTag, speak, delay, start, n, m - 1);
    }
  }

  /** How many items the walk over the first `n` starts: up to and including the first rejected one. */
  function Attempted(speak: nat -> Status, n: nat): (a: nat)
    ensures a <= n
  {
    var k := FirstRejection(speak, n);
    if k < n then k + 1 else n
  }

  /**
   * The walk over the first `n` items settles with the first rejected
   * speech, or resolves when there is none, and leaves the cursor on the last
   * item it started (untouched when it started none).
   */
  lemma {:induction false} WalkSettles(items: seq<Element>, withTag: bool, speak: nat -> Status, delay: int, start: int, n: nat)
    requires n <= |items|
    ensures var r := Walk(items, withTag, speak, delay, start, n);
      var k := FirstRejection(speak, n);
      && r.status == (if k < n then speak(k) else Resolved)
      && r.index == (if n == 0 then start else Attempted(speak, n) - 1)
  {
    if n > 0 {
      WalkSettles(items, withTag, speak, delay, start, n - 1);
    }
  }

  /** The chain continues past a resolved item by that item's events. */
  lemma WalkNext(items: seq<Element>, withTag: bool, speak: nat -> Status, delay: int, start: int, i: nat)
    requires i < |items|
    requires Walk(items, withTag, speak, delay, start, i).status.Resolved?
    ensures Walk(items, withTag, speak, delay, start, i + 1)
      == Run(Walk(items, withTag, speak, delay, start, i).events + ItemEvents(items[i], withTag, speak(i), delay), speak(i), i)
  {
  }

  /** One more item: unless the chain has already been rejected, it appends that item's events. */
  lemma WalkStep(items: seq<Element>, withTag: bool, speak: nat -> Status, delay: int, start: int, n: nat)
    requires 0 < n <= |items|
    ensures var prev := Walk(items, withTag, speak, delay, start, n - 1);
      && (prev.status.Rejected? ==>
            Walk(items, withTag, speak, delay, start, n) == prev && Attempted(speak, n) == Attempted(speak, n - 1)
            && FirstRejection(speak, n) == FirstRejection(speak, n - 1))
      && (prev.status.Resolved? ==>
            Walk(items, withTag, speak, delay, start, n).events == prev.events + ItemEvents(items[n - 1], withTag, speak(n - 1), delay)
            && Attempted(speak, n) == n && Attempted(speak, n - 1) == n - 1
            && FirstRejection(speak, n) == (if speak(n - 1).Rejected? then n - 1 else n))
  {
    WalkSettles(items, withTag, speak, delay, start, n - 1);
  }

  lemma TextsSnoc(items: seq<Element>, withTag: bool, n: nat)
    requires 0 < n <= |items|
    ensures Texts(items[..n], withTag) == Texts(items[..n - 1], withTag) + [ItemText(items[n - 1], withTag)]
  {
    assert items[..n] == items[..n - 1] + [items[n - 1]];
  }

  /**
   * The items started by the walk are spoken strictly in index order, each
   * once, and nothing after the first rejected speech is spoken.
   */
  lemma {:induction false} WalkSpeaksInOrder(items: seq<Element>, withTag: bool, speak: nat -> Status, delay: int, start: int, n: nat)
    requires n <= |items|
    ensures Spoken(Walk(items, withTag, speak, delay, start, n).events) == Texts(items[..Attempted(speak, n)], withTag)
  {
    if n == 0 {
      assert items[..0] == [];
    } else {
      WalkSpeaksInOrder(items, withTag, speak, delay, start, n - 1);
      WalkStep(items, withTag, speak, delay, start, n);
      var prev := Walk(items, withTag, speak, delay, start, n - 1);
      if prev.status.Resolved? {
        var es := ItemEvents(items[n - 1], withTag, speak(n - 1), delay);
        assert Spoken(prev.events + es) == Spoken(prev.events) + [ItemText(items[n - 1], withTag)] by {
          ItemProjections(items[n - 1], withTag, speak(n - 1), delay);
          CollectAppend(prev.events, es, SpokenText);
        }
        TextsSnoc(items, withTag, n);
      }
    }
  }

  /**
   * The items started are highlighted in index order and unhighlighted in the
   * same order, whether their speech resolved or was rejected: no element is
   * highlighted after a rejection and none is left highlighted.
   */
  lemma {:induction false} WalkHighlightsInOrder(items: seq<Element>, withTag: bool, speak: nat -> Status, delay: int, start: int, n: nat)
    requires n <= |items|
    ensures var r := Walk(items, withTag, speak, delay, start, n);
      && Highlighted(r.events) == items[..Attempted(speak, n)]
      && Unhighlighted(r.events) == items[..Attempted(speak, n)]
  {
    if n == 0 {
      assert items[..0] == [];
    } else {
      WalkHighlightsInOrder(items, withTag, speak, delay, start, n - 1);
      WalkStep(items, withTag, speak, delay, start, n);
      var prev := Walk(items, withTag, speak, delay, start, n - 1);
      if prev.status.Resolved? {
        var es := ItemEvents(items[n - 1], withTag, speak(n - 1), delay);
        assert items[..n] == items[..n - 1] + [items[n - 1]];
        assert Highlighted(prev.events + es) == Highlighted(prev.events) + [items[n - 1]] by {
          ItemProjections(items[n - 1], withTag, speak(n - 1), delay);
          CollectAppend(prev.events, es, HighlightedElement);
        }
        assert Unhighlighted(prev.events + es) == Unhighlighted(prev.events) + [items[n - 1]] by {
          ItemProjections(items[n - 1], withTag, speak(n - 1), delay);
          CollectAppend(prev.events, es, UnhighlightedElement);
        }
      }
    }
  }

  /** The waits after one more item: its own wait, if its speech resolved and `delay > 0`. */
  lemma WaitsAfterItem(prefix: seq<Event>, e: Element, withTag: bool, spoken: Status, delay: int)
    ensures Waits(prefix + ItemEvents(e, withTag, spoken, delay))
      == Waits(prefix) + if spoken.Resolved? && delay > 0 then [delay] else []
  {
    ItemProjections(e, withTag, spoken, delay);
    CollectAppend(prefix, ItemEvents(e, withTag, spoken, delay), WaitTime);
  }

  /**
   * A wait of `delay` follows each item whose speech resolved if and only if
   * `delay > 0`: with `k` the first rejected speech, there are exactly `k`
   * waits when the delay is positive and none otherwise.
   */
  lemma {:induction false} WalkWaits(items: seq<Element>, withTag: bool, speak: nat -> Status, delay: int, start: int, n: nat)
    requires n <= |items|
    ensures Waits(Walk(items, withTag, speak, delay, start, n).events)
      == Repeat(delay, if delay > 0 then FirstRejection(speak, n) else 0)
  {
    if n > 0 {
      WalkWaits(items, withTag, speak, delay, start, n - 1);
      WalkStep(items, withTag, speak, delay, start, n);
      var prev := Walk(items, withTag, speak, delay, start, n - 1);
      if prev.status.Resolved? {
        WaitsAfterItem(prev.events, items[n - 1], withTag, speak(n - 1), delay);
        if speak(n - 1).Resolved? && delay > 0 {
          assert Repeat(delay, n) == Repeat(delay, n - 1) + [delay];
        }
      }
    }
  }

  /** The concatenation of a list of traces, in order. */
  function Flatten<T>(ss: seq<seq<T>>): seq<T>
  {
    if ss == [] then [] else Flatten(ss[..|ss| - 1]) + ss[|ss| - 1]
  }

  /** The events of each of the first `n` items, as if each were reached. */
  function Steps(items: seq<Element>, withTag: bool, speak: nat -> Status, delay: int, n: nat): seq<seq<Event>>
    requires n <= |items|
  {
    seq(n, i requires 0 <= i < n => ItemEvents(items[i], withTag, speak(i), delay))
  }

  /**
   * The whole trace of the walk: the complete events of each item started,
   * in index order, each item's highlight, speech, unhighlight and wait
   * before anything of the next item, and nothing after the first rejection.
   */
  lemma {:induction false} WalkEvents(items: seq<Element>, withTag: bool, speak: nat -> Status, delay: int, start: int, n: nat)
    requires n <= |items|
    ensures Walk(items, withTag, speak, delay, start, n).events
      == Flatten(Steps(items, withTag, speak, delay, Attempted(speak, n)))
  {
    if n > 0 {
      WalkEvents(items, withTag, speak, delay, start, n - 1);
      WalkStep(items, withTag, speak, delay, start, n);
      if Walk(items, withTag, speak, delay, start, n - 1).status.Resolved? {
        var steps := Steps(items, withTag, speak, delay, n);
        assert steps[..n - 1] == Steps(items, withTag, speak, delay, n - 1);
        assert steps[n - 1] == ItemEvents(items[n - 1], withTag, speak(n - 1), delay);
      }
    }
  }

  /** The walk over the whole list leaves the cursor inside it, when it is non-empty. */
  lemma WalkIndexInRange(items: seq<Element>, withTag: bool, speak: nat -> Status, delay: int, start: int)
    requires |items| > 0
    ensures 0 <= Walk(items, withTag, speak, delay, start, |items|).index < |items|
  {
    WalkSettles(items, withTag, speak, delay, start, |items|);
  }

  // ---------------------------------------------------------------------------
  // The two operations built on the walk

  /** `filters && filters.level ? filters.level : -1` is not -1: a truthy level other than -1 was given. */
  function AnnouncesTag(level: Option<int>): (withTag: bool)
    ensures !withTag <==> level.Some? && level.value != 0 && level.value != -1
  {
    var resolved := if level.Some? && level.value != 0 then level.value else -1;
    resolved == -1
  }

  /**
   * `readHeaders(filters)` with `level` the filter's `level` field and
   * `headers` what `Dom.getHeaders(filters)` returned: `elements` is replaced
   * before anything is spoken, then the walk runs.
   */
  function ReadHeadersEffect(st: State, level: Option<int>, headers: seq<Element>, speak: nat -> Status, delay: int): Effect
  {
    var r := Walk(headers, AnnouncesTag(level), speak, delay, st.currentIndex, |headers|);
    Effect(st.(elements := Some(Slots(headers)), currentIndex := r.index), r.events, r.status)
  }

  /** `readLinks(filters)` with `links` what `Dom.getLinks(filters)` returned; only link text is spoken. */
  function ReadLinksEffect(st: State, links: seq<Element>, speak: nat -> Status, delay: int): Effect
  {
    var r := Walk(links, false, speak, delay, st.currentIndex, |links|);
    Effect(st.(elements := Some(Slots(links)), currentIndex := r.index), r.events, r.status)
  }

  /**
   * `readHeaders` replaces `elements` with the fetched headers and speaks
   * them in index order up to the first rejected speech, `text + " " +
   * nodeName` without a level filter and `text` alone with one; it settles
   * with that rejection or resolves; an empty list speaks nothing and leaves
   * the cursor untouched; a wait follows each resolved item iff the delay is
   * positive; and the whole trace is the items' own events, one item after another.
   */
  lemma ReadHeadersContract(st: State, level: Option<int>, headers: seq<Element>, speak: nat -> Status, delay: int)
    ensures var r := ReadHeadersEffect(st, level, headers, speak, delay);
      var k := FirstRejection(speak, |headers|);
      var attempted := Attempted(speak, |headers|);
      && r.state.elements == Some(Slots(headers))
      && r.state.isInteracting == st.isInteracting
      && r.state.currentIndex == (if headers == [] then st.currentIndex else attempted - 1)
      && r.status == (if k < |headers| then speak(k) else Resolved)
      && Spoken(r.events) == Texts(headers[..attempted], AnnouncesTag(level))
      && (level.None? ==> AnnouncesTag(level))
      && Highlighted(r.events) == headers[..attempted]
      && Unhighlighted(r.events) == headers[..attempted]
      && Waits(r.events) == Repeat(delay, if delay > 0 then k else 0)
      && r.events == Flatten(Steps(headers, AnnouncesTag(level), speak, delay, attempted))
  {
    var withTag := AnnouncesTag(level);
    WalkEvents(headers, withTag, speak, delay, st.currentIndex, |headers|);
    WalkSettles(headers, withTag, speak, delay, st.currentIndex, |headers|);
    WalkSpeaksInOrder(headers, withTag, speak, delay, st.currentIndex, |headers|);
    WalkHighlightsInOrder(headers, withTag, speak, delay, st.currentIndex, |headers|);
    WalkWaits(headers, withTag, speak, delay, st.currentIndex, |headers|);
  }

  /**
   * `readLinks` speaks each link's text alone, in index order, up to the
   * first rejected speech, one link's events after another.
   */
  lemma ReadLinksContract(st: State, links: seq<Element>, speak: nat -> Status, delay: int)
    ensures var r := ReadLinksEffect(st, links, speak, delay);
      var k := FirstRejection(speak, |links|);
      var attempted := Attempted(speak, |links|);
      && r.state.elements == Some(Slots(links))
      && r.state.isInteracting == st.isInteracting
      && r.state.currentIndex == (if links == [] then st.currentIndex else attempted - 1)
      && r.status == (if k < |links| then speak(k) else Resolved)
      && Spoken(r.events) == Texts(links[..attempted], false)
      && Highlighted(r.events) == links[..attempted]
      && Unhighlighted(r.events) == links[..attempted]
      && Waits(r.events) == Repeat(delay, if delay > 0 then k else 0)
      && r.events == Flatten(Steps(links, false, speak, delay, attempted))
  {
    WalkEvents(links, false, speak, delay, st.currentIndex, |links|);
    WalkSettles(links, false, speak, delay, st.currentIndex, |links|);
    WalkSpeaksInOrder(links, false, speak, delay, st.currentIndex, |links|);
    WalkHighlightsInOrder(links, false, speak, delay, st.currentIndex, |links|);
    WalkWaits(links, false, speak, delay, st.currentIndex, |links|);
  }

  /** Every speech succeeds. */
  function AlwaysResolved(i: nat): Status { Resolved }

  /**
   * Given headers "Intro" (H1) and "Details" (H2), no filter, no delay and
   * speech that succeeds, `readHeaders` speaks "Intro H1" and then
   * "Details H2", waits nowhere, and resolves with the cursor on the second.
   */
  lemma ReadHeadersScenario(st: State)
    ensures var r := ReadHeadersEffect(st, None, [Element("Intro", "H1", ""), Element("Details", "H2", "")], AlwaysResolved, 0);
      && Spoken(r.events) == ["Intro H1", "Details H2"]
      && Waits(r.events) == []
      && r.status == Resolved
      && r.state.currentIndex == 1
  {
    var headers := [Element("Intro", "H1", ""), Element("Details", "H2", "")];
    assert FirstRejection(AlwaysResolved, 1) == 1;
    assert FirstRejection(AlwaysResolved, 2) == 2;
    ReadHeadersContract(st, None, headers, AlwaysResolved, 0);
    assert headers[..2] == headers;
    var texts := Texts(headers, true);
    assert texts[0] == "Intro" + " " + "H1" == "Intro H1";
    assert texts[1] == "Details" + " " + "H2" == "Details H2";
    assert texts == ["Intro H1", "Details H2"];
  }

  /** `readHeaders` and `readLinks` keep the cursor inside any non-empty list. */
  lemma WalksKeepCursorInRange(st: State, level: Option<int>, items: seq<Element>, speak: nat -> Status, delay: int)
    ensures CursorInRange(ReadHeadersEffect(st, level, items, speak, delay).state)
    ensures CursorInRange(ReadLinksEffect(st, items, speak, delay).state)
  {
    if |items| > 0 {
      WalkIndexInRange(items, AnnouncesTag(level), speak, delay, st.currentIndex);
      WalkIndexInRange(items, false, speak, delay, st.currentIndex);
    }
  }
}
