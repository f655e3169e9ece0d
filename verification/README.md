# Jojo bot documentation page: the command-catalog pager

The documentation site of the Jojo Discord bot lists the bot's commands by
section. A sidebar offers one button per section; the main pane shows the
active section's commands six at a time, with a "previous"/"next" pager when
a section needs more than one page. This project models that logic in Dafny:

- `Pager` (`pager.dfy`): the page count (`calculateTotalPages`,
  `Math.ceil(length / 6)`) and the page window
  (`commands.slice((page - 1) * 6, (page - 1) * 6 + 6)`), with
  `Array.prototype.slice` modelled in full, negative bounds included, so the
  window is defined for every integer page.
- `Catalog` (`catalog.dfy`): commands, sections and the catalog, a key order
  (the sidebar's order) plus a key-to-section map, as the `sections` object
  literal is.
- `View` (`view.dfy`): the two-field UI state (active section, current page),
  what a render shows, the three kinds of click (sidebar button, previous,
  next), runs of clicks, and the range invariant
  `1 <= currentPage <= totalPages`.
- `JojoCatalog` (`jojo.dfy`): the eleven declared sections with their command
  names, and lemmas stating facts about them on the concrete data.

Points worth noting about the code's behaviour:

- The page count of an empty list is 0, not 1. The code does not clamp.
  The range invariant therefore needs every section to be non-empty. The
  declared catalog meets that (`JojoCatalog.JojoWellFormed`).
- A page change is `setCurrentPage` itself, with no range check. Only the
  disabled or hidden buttons keep the page in range. In the model, `View.SetPage`
  is unguarded, and `View.Step` ignores a click on a missing or disabled control.
- A page below 1 is never reached, but the window is still defined there.
  Page 0 shows nothing, because its end bound is 0. A page below 0 shows
  the run whose bounds count back from the end of the list. That run is
  empty when the list is too short. `Pager.Window` models all of this. Its
  contract states the empty window of page 0 and the six-command bound for
  every page.
- The fourth page of the fun section holds its last five commands, snuggle to
  wordle (23 commands: 18 on the first three pages).

## Model

| member | source | states |
|---|---|---|
| `Pager.TotalPages` | src/App.tsx:254-256 | the page count is the least number of six-command pages that holds the whole list; it is 0 for an empty list |
| `Pager.ResolveBound` | src/App.tsx:18 | a `slice` bound resolves into [0, length]: a non-negative bound is clipped to the length, a negative one counts back from the end |
| `Pager.Slice` | src/App.tsx:18 | for non-negative bounds, `slice` yields items in order from the start, and its length is the clipped distance from start to end (0 when the end does not lie after the start) |
| `Pager.Window` | src/App.tsx:15-18 | a page shows at most six commands; for page p of one or more it is exactly the run of the list from index (p-1)*6 to p*6, cut off at the end of the list; it is non-empty for pages 1..totalPages and empty past the last page |
| `Pager.PagesFromIsRun` | src/App.tsx:15-18 | paging forward through consecutive pages shows exactly the run of the list those pages span, in order and without repetition |
| `Pager.Coverage` | src/App.tsx:15-18 | with the page count of src/App.tsx:254-256, the windows of pages 1..totalPages concatenate to exactly the whole list, with nothing lost or repeated (`Pager.Window` states that each of them is non-empty) |
| `Pager.TotalPagesMonotonic` | src/App.tsx:254-256 | a longer list never has fewer pages |
| `Catalog.Lookup` | src/App.tsx:317-323 | `sections[key]` finds the section stored under the key, and nothing for a key the object does not have |
| `Catalog.SidebarKeysResolve` | src/App.tsx:295-300 | in a well-formed catalog a key looks up a section exactly when the sidebar offers it |
| `View.SelectSection` | src/App.tsx:249-252 | choosing a section makes it active and sets the page to 1 |
| `View.SetPage` | src/App.tsx:324 | a page change sets the page to the requested number, unchecked, and keeps the section |
| `View.Render` | src/App.tsx:317-323 | a state renders exactly when its key names a section; the heading is the section title, the page shown is the state's page, the page count is `TotalPages` of the section's commands, the visible commands are exactly that page's window, the pager is shown exactly when there is more than one page; "previous" is disabled exactly on page 1, "next" exactly on the last page |
| `View.Enabled` | src/App.tsx:24-42 | a sidebar button is clickable when the screen renders; "previous" exactly when the section has more than one page and the page is not 1; "next" exactly when there is more than one page and the page is not the last |
| `View.Step` | src/App.tsx:26-42 | a click on a missing or disabled control changes nothing; a sidebar click selects that key on page 1; "previous" and "next" move the page by one and keep the section |
| `View.ValidRenders` | src/App.tsx:319-325 | a state with a valid key and an in-range page renders and shows one to six commands |
| `View.SidebarClickResets` | src/App.tsx:249-252 | a sidebar click makes that section active and resets the page to 1 whatever the previous page was |
| `View.PagingKeepsSection` | src/App.tsx:324 | previous/next clicks never change the active section |
| `View.ButtonEnabling` | src/App.tsx:24-42 | on any screen that renders, the pager is shown exactly when there is more than one page, "previous" is disabled exactly on page 1 and "next" exactly on the last page, and each button can be clicked exactly when the screen shows it enabled |
| `View.NextThenPrev` | src/App.tsx:26-42 | after an enabled "next", "previous" is enabled and returns to the starting state |
| `View.PrevThenNext` | src/App.tsx:26-42 | after an enabled "previous", "next" is enabled and returns to the starting state |
| `View.StepPreservesValid` | src/App.tsx:26-42 | in a well-formed catalog with no empty section, every click keeps the key valid and the page within 1..totalPages |
| `View.RunPreservesValid` | src/App.tsx:26-42 | the range invariant survives any sequence of clicks: previous/next (here, via onPageChange at src/App.tsx:324) and section changes (src/App.tsx:249-252) |
| `JojoCatalog.JojoWellFormed` | src/App.tsx:79-247 | the declared catalog lists each of its eleven sections once in the sidebar and none is empty |
| `JojoCatalog.InitialValid` | src/App.tsx:62-63 | the initial state, aura on page 1, is valid; aura has one page |
| `JojoCatalog.ReachableStatesValid` | src/App.tsx:317-323 | every state reachable by clicks from the initial state is valid, so the lookup at render time always succeeds |
| `JojoCatalog.PageCounts` | src/App.tsx:79-181 | music has 12 commands and 2 pages, aura 4 and 1, shop 2 and 1, fun 23 and 4 |
| `JojoCatalog.FunPages` | src/App.tsx:149-173 | fun's page 1 is trivia to roast, page 4 is snuggle to wordle, and "next" is disabled on page 4 |
| `JojoCatalog.ShopHasNoPager` | src/App.tsx:175-182 | the shop section renders with the pager hidden and both buttons unclickable |
| `JojoCatalog.FunToMusic` | src/App.tsx:249-252 | from page 3 of fun, choosing music lands on page 1 of music |

## Left out

- Mouse-cursor tracking and its event listener (src/App.tsx:64-77): DOM event plumbing with no bearing on the pager.
- Routing and the about, privacy and terms pages (src/App.tsx:6, 351-353, 361-396): framework navigation over fixed text.
- Icons, syntax highlighting, CSS and all markup: rendering through external libraries. A section keeps only a symbolic icon tag.
- Command descriptions and usage strings: static text that no logic reads. A command keeps only its name.
- The stray code-fence fragments at src/App.tsx:286 and src/App.tsx:377-378: file corruption, not logic. The model follows the evident intent.
- React's state batching and render scheduling: the two state updates in `handleSectionChange` are modelled as one atomic transition, as React applies them in one render.
- JavaScript's floating-point numbers: page numbers and counts are integers. `Math.ceil` of an integer divided by 6 is exact at these sizes.
