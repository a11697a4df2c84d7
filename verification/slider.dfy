/**
 * One mounted slider: the state the paged fetcher hands back to the
 * component (`size`, `data`, `error`), the auto-fill effect that raises
 * `size`, and the render read off that state.
 */
module MediaSlider {
  import opened Wrappers
  import opened Media
  import opened Aggregate
  import opened AutoFill
  import opened Display

  class Session {
    /** Number of pages wanted. */
    var size: nat
    /** The pages received, in page order; absent until the first arrives. */
    var data: Option<Pages>
    /** Whether a fetch failed. */
    var error: bool

    /** A new session wants two pages and has neither data nor an error. */
    constructor ()
      ensures size == InitialSize && data == None && !error
    {
      size := InitialSize;
      data := None;
      error := false;
    }

    /**
     * What the effect sees on the current render: nothing without data; with
     * both preferences off, every received result counts as visible.
     */
    function Observe(hideAvailable: bool, hideRequested: bool): (o: Observation)
      reads this
      ensures data.None? ==> o == Observation(0, 0)
      ensures data.Some? && !hideAvailable && !hideRequested ==> o.visibleCount == ResultCount(data.value)
      ensures data.Some? ==> o.totalResults == data.value[0].totalResults
      ensures o.visibleCount <= ResultCount(if data.Some? then data.value else [])
      ensures o.visibleCount ==
                CountShown(FlattenPages(if data.Some? then data.value else []), hideAvailable, hideRequested)
    {
      Observation(|Titles(data, hideAvailable, hideRequested)|, FirstTotalResults(data))
    }

    /**
     * The render of the current state: nothing when hiding an empty first
     * page; otherwise loading iff neither data nor an error has arrived,
     * never flagged empty, and the cards of the session's visible titles,
     * never more than 20 plus the "show more" card.
     */
    function View(props: Props, hideAvailable: bool, hideRequested: bool): (v: Option<SliderView>)
      reads this
      ensures v.None? <==> props.hideWhenEmpty && FirstPageEmpty(data)
      ensures v.Some? ==>
                && (v.value.isLoading <==> data.None? && !error)
                && !v.value.isEmpty
                && v.value.sliderKey == props.sliderKey
                && v.value.header == Header(props.title, if Truthy(props.linkUrl) then props.linkUrl else None)
                && v.value.items == Cards(Titles(data, hideAvailable, hideRequested), props.linkUrl)
      ensures v.Some? ==> |v.value.items| <= DisplayLimit + 1
    {
      Render(props, hideAvailable, hideRequested, data, error)
    }

    /**
     * One run of the effect: the size grows by one when fewer than 24 titles are
     * visible, fewer than 5 pages are wanted and the first page reports more
     * than 20 results per wanted page; nothing else changes.
     */
    method AutoFill(hideAvailable: bool, hideRequested: bool)
      modifies this`size
      ensures size == Step(old(size), Observe(hideAvailable, hideRequested))
      ensures size == old(size) + 1 || size == old(size)
      ensures size > old(size) ==> size <= MaxSize && data.Some?
    {
      var titles := Titles(data, hideAvailable, hideRequested);
      var total := if data.Some? then data.value[0].totalResults else 0;
      if |titles| < TargetVisible && size < MaxSize && total > size * ResultsPerPage {
        size := size + 1;
      }
    }
  }
}
