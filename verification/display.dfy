/**
 * What the slider renders from the filtered titles (index.tsx:83-139, 141-163):
 * nothing at all when asked to hide an empty first page; otherwise a header,
 * the loading flag, one card per title for the first 20 titles, and a
 * "show more" card with up to four posters when a link is configured and
 * more than 20 titles are visible.
 */
module Display {
  import opened Wrappers
  import opened Media
  import opened Aggregate

  /** Titles rendered as cards. */
  const DisplayLimit: nat := 20
  /** Posters carried by the "show more" card, taken from the titles after the first 20. */
  const PosterLimit: nat := 4

  datatype TitleKind = MovieKind | TvKind

  /** The props handed to each kind of card. */
  datatype Card =
    | TitleCard(id: int, image: Option<string>, status: Option<MediaStatus>, summary: string,
                title: string, year: string, mediaType: TitleKind, inProgress: bool)
    | PersonCard(personId: int, name: string, profilePath: Option<string>)
    | ShowMoreCard(url: string, posters: seq<Option<string>>)

  /** The component's props; the title and slider key are passed through. */
  datatype Props = Props(title: string, url: string, linkUrl: Option<string>,
                         sliderKey: string, hideWhenEmpty: bool)

  /** The heading: the title, linked to linkUrl when one is configured. */
  datatype Header = Header(title: string, link: Option<string>)

  /** The props handed to the scrollable container, with the heading above it. */
  datatype SliderView = SliderView(header: Header, sliderKey: string, isLoading: bool,
                                   isEmpty: bool, items: seq<Card>)

  function Min(a: nat, b: nat): nat {
    if a <= b then a else b
  }

  /** JavaScript truthiness of an optional string: absent and "" are false. */
  predicate Truthy(link: Option<string>) {
    link.Some? && link.value != ""
  }

  /** A title whose media info lists at least one queued download. */
  predicate HasDownloads(item: Item) {
    !item.Person? && item.mediaInfo.Some? && item.mediaInfo.value.downloadStatus.Some? &&
    |item.mediaInfo.value.downloadStatus.value| > 0
  }

  /** The poster a title lends to the "show more" card; none for a person. */
  function PosterOf(item: Item): (poster: Option<string>)
    ensures item.Person? ==> poster.None?
    ensures !item.Person? ==> poster == item.posterPath
  {
    if item.Person? then None else item.posterPath
  }

  /**
   * The card for one title, chosen by its media type: movies pass their title
   * and release date, shows their name and first air date, persons their name
   * and profile picture; a title card is in progress iff downloads are queued.
   */
  function CardFor(item: Item): (card: Card)
    ensures !card.ShowMoreCard?
    ensures card.PersonCard? <==> item.Person?
    ensures card.TitleCard? ==>
              && card.id == item.id && card.image == item.posterPath
              && card.status == StatusOf(item) && card.summary == item.overview
              && (card.mediaType == MovieKind <==> item.Movie?)
              && card.title == (if item.Movie? then item.title else item.name)
              && card.year == (if item.Movie? then item.releaseDate else item.firstAirDate)
              && (card.inProgress <==> HasDownloads(item))
    ensures card.PersonCard? ==>
              card.personId == item.id && card.name == item.name && card.profilePath == item.profilePath
  {
    match item
    case Movie(id, title, releaseDate, overview, posterPath, mediaInfo) =>
      TitleCard(id, posterPath, StatusOf(item), overview, title, releaseDate, MovieKind, HasDownloads(item))
    case Tv(id, name, firstAirDate, overview, posterPath, mediaInfo) =>
      TitleCard(id, posterPath, StatusOf(item), overview, name, firstAirDate, TvKind, HasDownloads(item))
    case Person(id, name, profilePath) =>
      PersonCard(id, name, profilePath)
  }

  function MapCards(items: seq<Item>): (cards: seq<Card>)
    ensures |cards| == |items|
    ensures forall i :: 0 <= i < |items| ==> cards[i] == CardFor(items[i])
  {
    if items == [] then [] else [CardFor(items[0])] + MapCards(items[1..])
  }

  function Posters(items: seq<Item>): (posters: seq<Option<string>>)
    ensures |posters| == |items|
    ensures forall i :: 0 <= i < |items| ==> posters[i] == PosterOf(items[i])
  {
    if items == [] then [] else [PosterOf(items[0])] + Posters(items[1..])
  }

  /** Whether the "show more" card is appended. */
  predicate ShowsMore(titles: seq<Item>, linkUrl: Option<string>) {
    Truthy(linkUrl) && |titles| > DisplayLimit
  }

  /**
   * The card list: the cards of the first min(n, 20) titles in order, then,
   * exactly when a link is set and n > 20, one "show more" card to that link
   * carrying the posters of titles 21 to min(n, 24).
   */
  function Cards(titles: seq<Item>, linkUrl: Option<string>): (cards: seq<Card>)
    ensures |cards| == Min(|titles|, DisplayLimit) + (if ShowsMore(titles, linkUrl) then 1 else 0)
    ensures forall i :: 0 <= i < Min(|titles|, DisplayLimit) ==> cards[i] == CardFor(titles[i])
    ensures ShowsMore(titles, linkUrl) ==>
              var more := cards[|cards| - 1];
              && more.ShowMoreCard? && more.url == linkUrl.value
              && |more.posters| == Min(PosterLimit, |titles| - DisplayLimit)
              && forall j :: 0 <= j < |more.posters| ==> more.posters[j] == PosterOf(titles[DisplayLimit + j])
    ensures forall i :: 0 <= i < |cards| && cards[i].ShowMoreCard? ==> i == |cards| - 1 && ShowsMore(titles, linkUrl)
  {
    var shown := MapCards(titles[..Min(|titles|, DisplayLimit)]);
    if ShowsMore(titles, linkUrl) then
      var posters := Posters(titles[DisplayLimit .. Min(|titles|, DisplayLimit + PosterLimit)]);
      shown + [ShowMoreCard(linkUrl.value, posters)]
    else
      shown
  }

  /** No data yet, or a first page without results. */
  predicate FirstPageEmpty(data: Option<Pages>) {
    data.None? || data.value[0].results == []
  }

  /**
   * The whole render: nothing when hideWhenEmpty is set and the first page is
   * missing or empty; otherwise the header and the container, loading iff
   * there is neither data nor an error, never flagged empty, holding the cards
   * of the visible titles.
   */
  function Render(props: Props, hideAvailable: bool, hideRequested: bool,
                  data: Option<Pages>, error: bool): (view: Option<SliderView>)
    ensures view.None? <==> props.hideWhenEmpty && FirstPageEmpty(data)
    ensures view.Some? ==>
              && (view.value.isLoading <==> data.None? && !error)
              && !view.value.isEmpty
              && view.value.sliderKey == props.sliderKey
              && view.value.header.title == props.title
              && view.value.header.link == (if Truthy(props.linkUrl) then props.linkUrl else None)
              && view.value.items == Cards(Titles(data, hideAvailable, hideRequested), props.linkUrl)
  {
    if props.hideWhenEmpty && FirstPageEmpty(data) then None
    else
      var titles := Titles(data, hideAvailable, hideRequested);
      var header := Header(props.title, if Truthy(props.linkUrl) then props.linkUrl else None);
      Some(SliderView(header, props.sliderKey, data.None? && !error, false, Cards(titles, props.linkUrl)))
  }

  /**
   * Every title card on screen stands for a fetched result that the
   * preferences show: hidden items are never rendered.
   */
  lemma RenderedCardsAreShown(props: Props, hideAvailable: bool, hideRequested: bool,
                              data: Option<Pages>, error: bool, view: SliderView, i: nat)
    requires Render(props, hideAvailable, hideRequested, data, error) == Some(view)
    requires i < |view.items| && !view.items[i].ShowMoreCard?
    ensures exists x :: && x in FlattenPages(if data.Some? then data.value else [])
                        && Shown(x, hideAvailable, hideRequested)
                        && view.items[i] == CardFor(x)
  {
    var titles := Titles(data, hideAvailable, hideRequested);
    assert view.items == Cards(titles, props.linkUrl);
    assert i < Min(|titles|, DisplayLimit);
    var x := titles[i];
    assert view.items[i] == CardFor(x);
    assert x in titles;
  }
}
