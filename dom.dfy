/**
 * The page as the controller sees it: elements are values handed out by DOM
 * queries, and `GetMain` (src/dom/main.js) picks the main content element from
 * the results of three such queries.
 */
module Dom {
  import opened Wrappers

  /** A page element as far as the controller uses it: its text content, tag name and link target. */
  datatype Element = Element(text: string, nodeName: string, href: string)

  /**
   * What the DOM queries return on the current page. `headers` is
   * `Dom.getHeaders(filters)` for a heading-level filter (None: no filter),
   * `links` is `Dom.getLinks(filters)` for an ancestor filter; `mainTag`,
   * `roleMain` and `mainCandidates` are the three queries `getMain` makes;
   * `title` is `Dom.getTitle()`.
   */
  datatype Page = Page(
    headers: Option<int> -> seq<Element>,
    links: Option<Element> -> seq<Element>,
    mainTag: Option<Element>,
    roleMain: Option<Element>,
    mainCandidates: seq<Element>,
    title: Option<string>)

  /**
   * The main content element: the `<main>` element if there is one, else the
   * `[role="main"]` element, else the single element matching the heuristic
   * selectors when exactly one matches, else none.
   */
  function GetMain(mainTag: Option<Element>, roleMain: Option<Element>, candidates: seq<Element>): (r: Option<Element>)
    // a <main> element wins whatever the other queries found
    ensures mainTag.Some? ==> r == mainTag
    // [role="main"] is consulted only when there is no <main>
    ensures mainTag.None? && roleMain.Some? ==> r == roleMain
    // the heuristic candidate is used only when it is the only one
    ensures mainTag.None? && roleMain.None? ==> (r.Some? <==> |candidates| == 1)
    ensures mainTag.None? && roleMain.None? && |candidates| == 1 ==> r == Some(candidates[0])
    // nothing is constructed: the result is one of the query results, or null
    ensures r.Some? ==> r == mainTag || r == roleMain || r.value in candidates
  {
    var main := if mainTag.Some? then mainTag else roleMain;
    if main.None? && |candidates| == 1 then Some(candidates[0]) else main
  }

  /** The first present value of a list, as a chain of JavaScript `||` picks it. */
  function FirstPresent(options: seq<Option<Element>>): Option<Element>
  {
    if options == [] then None
    else if options[0].Some? then options[0]
    else FirstPresent(options[1..])
  }

  /** The heuristic query's contribution: its match when it is unique. */
  function UniqueCandidate(candidates: seq<Element>): Option<Element>
  {
    if |candidates| == 1 then Some(candidates[0]) else None
  }

  /** `GetMain` is the first present of: `<main>`, `[role="main"]`, the unique heuristic match. */
  lemma GetMainIsFirstPresent(mainTag: Option<Element>, roleMain: Option<Element>, candidates: seq<Element>)
    ensures GetMain(mainTag, roleMain, candidates) == FirstPresent([mainTag, roleMain, UniqueCandidate(candidates)])
  {
    var options := [mainTag, roleMain, UniqueCandidate(candidates)];
    assert options[1..] == [roleMain, UniqueCandidate(candidates)];
    assert options[1..][1..] == [UniqueCandidate(candidates)];
    assert options[1..][1..][1..] == [];
    assert FirstPresent(options[1..][1..]) == UniqueCandidate(candidates);
  }

  /** The main element of a page, as `Dom.getMain()` returns it. */
  function MainOf(page: Page): Option<Element>
  {
    GetMain(page.mainTag, page.roleMain, page.mainCandidates)
  }
}
