/**
 * The values the slider works on: one search/listing result (movie, tv show
 * or person), the request state attached to movies and shows, and one page
 * of the listing endpoint's response.
 */
module Media {
  import opened Wrappers

  /** Request state of a title on the server. */
  datatype MediaStatus = Unknown | Pending | Processing | PartiallyAvailable | Available

  /** One entry of a title's download queue; the slider only asks whether there is any. */
  datatype DownloadItem = DownloadItem(externalId: int, title: string)

  /** What the server knows about a movie or show; both fields as the result carries them. */
  datatype MediaInfo = MediaInfo(status: MediaStatus, downloadStatus: Option<seq<DownloadItem>>)

  /**
   * One result, tagged by its `mediaType`. A person carries no media info.
   * The vote average is not modelled (see README).
   */
  datatype Item =
    | Movie(id: int, title: string, releaseDate: string, overview: string,
            posterPath: Option<string>, mediaInfo: Option<MediaInfo>)
    | Tv(id: int, name: string, firstAirDate: string, overview: string,
         posterPath: Option<string>, mediaInfo: Option<MediaInfo>)
    | Person(id: int, name: string, profilePath: Option<string>)

  /** The status of a title's media info; absent for persons and for titles without media info. */
  function StatusOf(item: Item): (s: Option<MediaStatus>)
    ensures item.Person? ==> s.None?
    ensures !item.Person? && item.mediaInfo.None? ==> s.None?
    ensures !item.Person? && item.mediaInfo.Some? ==> s == Some(item.mediaInfo.value.status)
  {
    match item
    case Person(_, _, _) => None
    case _ => if item.mediaInfo.Some? then Some(item.mediaInfo.value.status) else None
  }

  /** One response of the listing endpoint (`MixedResult`). */
  datatype Page = Page(page: nat, totalResults: nat, totalPages: nat, results: seq<Item>)

  /** The fetched pages once any have arrived: never an empty list. */
  type Pages = s: seq<Page> | |s| > 0 witness [Page(1, 0, 1, [])]
}
