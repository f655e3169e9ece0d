/**
 The view controller of the documentation page: the two pieces of UI state
 (active section and current page), the screen derived from them, and the
 clicks that change them.
 */
module View {
  import opened Catalog
  import opened Pager

  /** The two `useState` hooks of the page component. */
  datatype ViewState = ViewState(activeSection: string, currentPage: int)

  /** The state on load: the aura section, page one. */
  const Initial: ViewState := ViewState("aura", 1)

  /** `handleSectionChange`: make `key` active and go back to page one. */
  function SelectSection(s: ViewState, key: string): (r: ViewState)
    ensures r.activeSection == key
    ensures r.currentPage == 1
  {
    ViewState(key, 1)
  }

  /** `onPageChange`, which is `setCurrentPage` itself: the new page is taken
      as given, with no range check of its own. */
  function SetPage(s: ViewState, page: int): (r: ViewState)
    ensures r.activeSection == s.activeSection
    ensures r.currentPage == page
  {
    s.(currentPage := page)
  }

  /** What one render shows: the section heading, the visible commands and
      the pager with its two buttons. */
  datatype Screen = Screen(
    heading: string,
    visible: seq<Command>,
    currentPage: int,
    totalPages: nat,
    pagerShown: bool,
    prevDisabled: bool,
    nextDisabled: bool)

  /** Renders a state. `None` when the active key has no section: the lookup
      yields `undefined`, and reading `.title` of `undefined` throws. */
  function Render(c: Catalog, s: ViewState): (r: Option<Screen>)
    ensures r.Some? <==> s.activeSection in c.sections
    ensures r.Some? ==>
      var commands := c.sections[s.activeSection].commands;
      && r.value.heading == c.sections[s.activeSection].title
      && r.value.currentPage == s.currentPage
      && r.value.totalPages == TotalPages(commands)
      && r.value.visible == Window(commands, s.currentPage)
      && (r.value.pagerShown <==> r.value.totalPages > 1)
      && (r.value.prevDisabled <==> s.currentPage == 1)
      && (r.value.nextDisabled <==> s.currentPage == r.value.totalPages)
  {
    match Lookup(c, s.activeSection)
    case None => None
    case Some(section) =>
      var total := TotalPages(section.commands);
      Some(Screen(
        section.title,
        Window(section.commands, s.currentPage),
        s.currentPage,
        total,
        total > 1,
        s.currentPage == 1,
        s.currentPage == total))
  }

  /** A user action: a click on the sidebar button at position `index`, or
      on the pager's previous or next button. */
  datatype Event = SidebarClick(index: nat) | PrevClick | NextClick

  /** Whether the clicked control exists on the current screen and is not
      disabled. Nothing is clickable once the render has failed; the pager
      buttons exist only while the pager is shown. */
  predicate Enabled(c: Catalog, s: ViewState, e: Event)
    ensures Enabled(c, s, e) ==> s.activeSection in c.sections
    ensures e.SidebarClick? ==>
      (Enabled(c, s, e) <==> s.activeSection in c.sections && e.index < |c.keys|)
    ensures e.PrevClick? ==>
      (Enabled(c, s, e) <==>
        && s.activeSection in c.sections
        && TotalPages(c.sections[s.activeSection].commands) > 1
        && s.currentPage != 1)
    ensures e.NextClick? ==>
      (Enabled(c, s, e) <==>
        && s.activeSection in c.sections
        && TotalPages(c.sections[s.activeSection].commands) > 1
        && s.currentPage != TotalPages(c.sections[s.activeSection].commands))
  {
    match Render(c, s)
    case None => false
    case Some(screen) =>
      match e
      case SidebarClick(i) => i < |c.keys|
      case PrevClick => screen.pagerShown && !screen.prevDisabled
      case NextClick => screen.pagerShown && !screen.nextDisabled
  }

  /** The state after one click. A click on a missing or disabled control
      does nothing. */
  function Step(c: Catalog, s: ViewState, e: Event): (r: ViewState)
    ensures !Enabled(c, s, e) ==> r == s
    ensures Enabled(c, s, e) && e.SidebarClick? ==> r == ViewState(c.keys[e.index], 1)
    ensures Enabled(c, s, e) && e.PrevClick? ==>
      r.activeSection == s.activeSection && r.currentPage == s.currentPage - 1
    ensures Enabled(c, s, e) && e.NextClick? ==>
      r.activeSection == s.activeSection && r.currentPage == s.currentPage + 1
  {
    if !Enabled(c, s, e) then s
    else
      match e
      case SidebarClick(i) => SelectSection(s, c.keys[i])
      case PrevClick => SetPage(s, s.currentPage - 1)
      case NextClick => SetPage(s, s.currentPage + 1)
  }

  /** The state after a sequence of clicks. */
  function Run(c: Catalog, s: ViewState, events: seq<Event>): ViewState
    decreases |events|
  {
    if events == [] then s else Run(c, Step(c, s, events[0]), events[1..])
  }

  /** The active key names a section and the page lies in `[1, totalPages]`. */
  predicate Valid(c: Catalog, s: ViewState) {
    && s.activeSection in c.sections
    && 1 <= s.currentPage <= TotalPages(c.sections[s.activeSection].commands)
  }

  /** A valid state always renders, and shows between one and six commands. */
  lemma ValidRenders(c: Catalog, s: ViewState)
    requires Valid(c, s)
    ensures Render(c, s).Some?
    ensures 0 < |Render(c, s).value.visible| <= CommandsPerPage
  {
  }

  /** Choosing a section from the sidebar makes that section active and
      resets the page to one, whatever the page was before, and changes
      nothing else. */
  lemma SidebarClickResets(c: Catalog, s: ViewState, i: nat)
    requires s.activeSection in c.sections
    requires i < |c.keys|
    ensures Step(c, s, SidebarClick(i)) == ViewState(c.keys[i], 1)
  {
  }

  /** Paging never changes the active section. */
  lemma PagingKeepsSection(c: Catalog, s: ViewState, e: Event)
    requires e == PrevClick || e == NextClick
    ensures Step(c, s, e).activeSection == s.activeSection
  {
  }

  /** The pager on the screen and the clicks agree: on any screen that
      renders, the pager is shown exactly when the section has more than one
      page, "previous" is disabled exactly on page one and "next" exactly on
      the last page, and a pager button can be clicked exactly when the
      screen shows it enabled. */
  lemma ButtonEnabling(c: Catalog, s: ViewState)
    requires s.activeSection in c.sections
    ensures Render(c, s).Some?
    ensures var screen := Render(c, s).value;
      var total := TotalPages(c.sections[s.activeSection].commands);
      && (screen.pagerShown <==> total > 1)
      && (screen.prevDisabled <==> s.currentPage == 1)
      && (screen.nextDisabled <==> s.currentPage == total)
      && (Enabled(c, s, PrevClick) <==> screen.pagerShown && !screen.prevDisabled)
      && (Enabled(c, s, NextClick) <==> screen.pagerShown && !screen.nextDisabled)
  {
  }

  /** "Next" followed by "previous" returns to the starting state. */
  lemma NextThenPrev(c: Catalog, s: ViewState)
    requires Valid(c, s)
    requires Enabled(c, s, NextClick)
    ensures Enabled(c, Step(c, s, NextClick), PrevClick)
    ensures Step(c, Step(c, s, NextClick), PrevClick) == s
  {
  }

  /** "Previous" followed by "next" returns to the starting state. */
  lemma PrevThenNext(c: Catalog, s: ViewState)
    requires Valid(c, s)
    requires Enabled(c, s, PrevClick)
    ensures Enabled(c, Step(c, s, PrevClick), NextClick)
    ensures Step(c, Step(c, s, PrevClick), NextClick) == s
  {
  }

  /** Range invariant: in a catalog whose sidebar lists exactly its sections
      and whose sections are all non-empty, every click keeps the state
      valid. */
  lemma StepPreservesValid(c: Catalog, s: ViewState, e: Event)
    requires WellFormed(c) && NoEmptySection(c)
    requires Valid(c, s)
    ensures Valid(c, Step(c, s, e))
  {
  }

  /** The range invariant holds after any sequence of clicks. */
  lemma {:induction false} RunPreservesValid(c: Catalog, s: ViewState, events: seq<Event>)
    requires WellFormed(c) && NoEmptySection(c)
    requires Valid(c, s)
    ensures Valid(c, Run(c, s, events))
    decreases |events|
  {
    if events != [] {
      StepPreservesValid(c, s, events[0]);
      RunPreservesValid(c, Step(c, s, events[0]), events[1..]);
    }
  }
}
