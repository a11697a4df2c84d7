# MediaSlider: paged result aggregator

A Dafny model of the logic inside the `MediaSlider` component: a horizontal
slider of movies, tv shows and people fed from a paged listing endpoint.
The component asks the paged fetcher for pages `url?page=1`, `url?page=2`, …
until the server reports no more; concatenates the results of the pages
received; hides titles that are already available or requested when the
user's preferences say so; keeps asking for one more page (up to five) while
fewer than 24 titles are visible and the first page reports more than 20
results per page wanted;
and renders the first 20 titles as cards, plus a "show more" card with up to
four posters when a link is configured and more than 20 titles are visible.

Modules, in dependency order:

- `Wrappers` (wrappers.dfy): `Option`.
- `Media` (media.dfy): `MediaStatus`, `MediaInfo`, the tagged `Item`
  (`Movie | Tv | Person`), `Page`, and `Pages`, the non-empty list of pages.
- `PageKeys` (page_keys.dfy): the key rule, the decimal rendering of the page
  number, and `PageOf`, the endpoint's reading of a key, as its inverse.
- `Aggregate` (aggregate.dfy): flattening (the `reduce`, proved equal to the
  concatenation in page order) and the visibility filter with its lemmas.
- `AutoFill` (autofill.dfy): the effect's guard and step as functions,
  `Run` (the step applied over the renders of a session) and its bounds.
- `Display` (display.dfy): the cards, the "show more" card and the render.
- `MediaSlider` (slider.dfy): `Session`, the state the fetcher hands the
  component (`size`, `data`, `error`), with the auto-fill effect as a method
  that updates `size`.

The two preferences `hideAvailable` and `hideRequested` are parameters
(they come from the settings provider). The pages received and the error
flag are fields of `Session` written by the fetcher, which is not part of
this model. The effect is registered before the early return for an empty
first page, so it runs whether or not anything is rendered; `Session.AutoFill`
accordingly does not depend on the props.

The filter follows the code, not the reading its preference names suggest:
available and partially available titles are dropped whenever EITHER
preference is set, so `hideRequested` alone also hides available titles
(`Aggregate.RemovalRules`).

## Model

| member | source | states |
|---|---|---|
| Media.StatusOf | src/components/MediaSlider/index.tsx:65-69 | a person and a title without media info have no status; a movie or show with media info has exactly that info's status |
| PageKeys.PageKey | src/components/MediaSlider/index.tsx:41-47 | no address iff a previous page is known and reports fewer total pages than index+1; otherwise the address the endpoint reads as page index+1 |
| PageKeys.Decimal | src/components/MediaSlider/index.tsx:46 | the page number is written as a non-empty run of decimal digits without a leading zero |
| PageKeys.DecimalRoundTrip | src/components/MediaSlider/index.tsx:46 | the page number rendered into the key reads back as the same number |
| PageKeys.FirstPageRequested | src/components/MediaSlider/index.tsx:41-46 | index 0 with no previous page always yields `url?page=1` |
| PageKeys.PageKeysDistinct | src/components/MediaSlider/index.tsx:41-47 | two indices that both yield an address yield different addresses, so no page is requested twice |
| Aggregate.FoldResults | src/components/MediaSlider/index.tsx:53-56 | the fold keeps its accumulator as a prefix and adds exactly as many items as the pages hold |
| Aggregate.FoldResultsIsConcat | src/components/MediaSlider/index.tsx:53-56 | the left fold that appends page results equals the accumulator followed by the concatenation in page order |
| Aggregate.ConcatLength | src/components/MediaSlider/index.tsx:53-56 | the concatenation is as long as all pages' results together |
| Aggregate.FlattenPages | src/components/MediaSlider/index.tsx:53-56 | the flattened list is the concatenation of every page's results in page order, of length the sum of the page lengths |
| Aggregate.PageInPlace | src/components/MediaSlider/index.tsx:53-56 | page k's results appear unchanged and in their order at page k's offset in the flattened list |
| Aggregate.Keep | src/components/MediaSlider/index.tsx:63-69 | the callback keeps persons and titles without status or of unknown status, never available or partially available titles, and requested titles iff hideRequested is off |
| Aggregate.FilterKept | src/components/MediaSlider/index.tsx:62-70 | filtering never lengthens the list |
| Aggregate.FilterKeptCount | src/components/MediaSlider/index.tsx:62-70 | each item occurs in the output as often as in the input if the callback keeps it, otherwise not at all |
| Aggregate.FilterKeptMembers | src/components/MediaSlider/index.tsx:62-70 | an item is in the output iff it is in the input and the callback keeps it |
| Aggregate.FilterKeptSubsequence | src/components/MediaSlider/index.tsx:62-70 | the output is an order-preserving subsequence of the input |
| Aggregate.FilterKeptAllKept | src/components/MediaSlider/index.tsx:62-70 | filtering returns its input unchanged iff the callback keeps every item |
| Aggregate.FilterKeptOnlyKept | src/components/MediaSlider/index.tsx:62-70 | every item of the output is one the callback keeps |
| Aggregate.SubsequenceReflexive | src/components/MediaSlider/index.tsx:58-61 | a list is a subsequence of itself (the unfiltered case) |
| Aggregate.Visible | src/components/MediaSlider/index.tsx:58-71 | the visible list is no longer than its input, is the input itself with both preferences off, and holds exactly the input items the preferences show |
| Aggregate.Titles | src/components/MediaSlider/index.tsx:53-71 | no titles without data; otherwise the received results the preferences show, in page order (an order-preserving subsequence), each as often as received, as many as there are shown positions |
| Aggregate.CountShown | src/components/MediaSlider/index.tsx:58-71 | the reference count of shown positions never exceeds the number of items |
| Aggregate.VisibleLength | src/components/MediaSlider/index.tsx:58-71 | the visible list is exactly as long as the number of positions the preferences show |
| Aggregate.VisibleMultiset | src/components/MediaSlider/index.tsx:58-71 | every item occurs in the visible list as often as in the input if shown, otherwise not at all |
| Aggregate.VisibleCount | src/components/MediaSlider/index.tsx:58-71 | the visible list holds exactly the shown items, each as often as in the input; membership iff in input and shown |
| Aggregate.VisibleSubsequence | src/components/MediaSlider/index.tsx:58-71 | the visible list is an order-preserving subsequence of the flattened list |
| Aggregate.VisibleUnchanged | src/components/MediaSlider/index.tsx:58-71 | filtering changes nothing iff every item is shown; with both preferences off it is the identity |
| Aggregate.VisibleIdempotent | src/components/MediaSlider/index.tsx:58-71 | filtering twice gives the same list as filtering once |
| Aggregate.RemovalRules | src/components/MediaSlider/index.tsx:58-69 | persons, titles without media info and titles of unknown status are never removed; available or partially available titles are removed iff either preference is set; pending or processing titles iff hideRequested |
| AutoFill.ShouldGrow | src/components/MediaSlider/index.tsx:74-78 | the guard holds when fewer than 24 titles are visible, size is below 5 and the total exceeds 20 per wanted page; it never holds when the total is at most 20 per wanted page (so never with no results or no data), at the ceiling of 5, or with 24 or more titles visible |
| AutoFill.AllHiddenGrows | src/components/MediaSlider/index.tsx:58-79 | when the preferences hide every received result and the first page's total exceeds 20 per wanted page below the ceiling, the effect raises size by one |
| AutoFill.Step | src/components/MediaSlider/index.tsx:73-81 | one effect run raises size by one exactly when the guard holds, else leaves it; from at most 5 it never passes 5 |
| AutoFill.StepIdleWithoutNeed | src/components/MediaSlider/index.tsx:75-77 | a render whose first-page total is at most 20 per wanted page (including no results) or that sees 24 or more visible titles leaves the size unchanged |
| AutoFill.Run | src/components/MediaSlider/index.tsx:73-81 | over any sequence of renders the size never drops, grows at most one per render and, starting at most 5 (as from the initial 2), stays at most 5 |
| AutoFill.RunIdleWithoutNeed | src/components/MediaSlider/index.tsx:75-77 | renders that see a total of at most 20 per wanted page at the current size (including no results or no data) or at least 24 visible titles never change the size |
| AutoFill.SteadyDataSettles | src/components/MediaSlider/index.tsx:73-81 | with unchanged data, 5 - size renders reach a size at most 5 that the effect leaves unchanged |
| AutoFill.RunStable | src/components/MediaSlider/index.tsx:73-81 | once the guard fails on unchanged data, further renders change nothing |
| AutoFill.Repeat | src/components/MediaSlider/index.tsx:73 | n renders seeing the same state form n observations, each of them that state |
| Display.PosterOf | src/components/MediaSlider/index.tsx:134-136 | a person lends no poster to the "show more" card; a movie or show lends its poster path |
| Display.CardFor | src/components/MediaSlider/index.tsx:87-125 | movies get a title card with title and release date, shows with name and first air date, persons a person card with name and profile picture; in progress iff downloads are queued |
| Display.MapCards | src/components/MediaSlider/index.tsx:87-126 | one card per title, in order |
| Display.Posters | src/components/MediaSlider/index.tsx:132-136 | one poster slot per title, in order |
| Display.Cards | src/components/MediaSlider/index.tsx:87-139 | the cards of the first min(n,20) titles in order, plus one "show more" card, last, exactly when a link is set and n > 20, carrying the posters of titles 21 to min(n,24) |
| Display.Render | src/components/MediaSlider/index.tsx:83-164 | nothing iff hideWhenEmpty and the first page is missing or empty; else loading iff neither data nor error, never flagged empty, header linked to linkUrl iff it is set and non-empty, items the cards of the visible titles |
| Display.RenderedCardsAreShown | src/components/MediaSlider/index.tsx:53-126 | every title card rendered stands for a fetched result the preferences show |
| MediaSlider.Session.constructor | src/components/MediaSlider/index.tsx:40-51 | a new session wants 2 pages and has neither data nor error |
| MediaSlider.Session.Observe | src/components/MediaSlider/index.tsx:75-77 | without data the effect sees no titles and a total of 0; with both preferences off every received result counts as visible; the total is the first page's; never more visible than received; the visible count is the number of received results the preferences show |
| MediaSlider.Session.View | src/components/MediaSlider/index.tsx:83-163 | the render of the session's state renders nothing iff hideWhenEmpty and the first page is missing or empty; otherwise loading iff neither data nor error, never flagged empty, the props' slider key, the header with the title linked to linkUrl iff it is set and non-empty, and the cards of the session's visible titles, at most 20 plus the "show more" card |
| MediaSlider.Session.AutoFill | src/components/MediaSlider/index.tsx:73-81 | size becomes the step of the old size on the current render: up by one or unchanged, never past 5 when raised, and only when data is present |

## Left out

- The paged fetcher itself (`useSWRInfinite`): caching, asynchronous fetches, discarding stale responses and capturing errors. Its outputs `data` and `error` are fields of `Session`; only the key rule it calls and the `size` it is driven by are modelled.
- React's effect scheduling and render/commit cycle: the effect body is `Session.AutoFill`, and successive renders are a sequence of observations (`AutoFill.Run`).
- JSX layout and the collaborator components (title, person and "show more" cards, the container, the link and icon): only the props each is handed are modelled.
- The settings provider: the two preferences are parameters.
- The vote average (a floating-point score passed through to the title card): not modelled.
- An empty `data` array, on which `data?.[0].results` would throw: `data` is either absent or a non-empty list of pages.
- The numeric values of the status enum and any statuses beyond the five the filter distinguishes from: `MediaStatus` has the five named ones.
- Download queue entries carry only an id and a title; the slider only asks whether the queue is empty.
