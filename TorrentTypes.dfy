/** The records the providers package passes around. */
module TorrentTypes {
  import opened Wrappers

  /** Search filters.  An empty resolution or group means "not set"; the title,
      season and episode are always compared, so a zero season and episode
      drop every episode whose season and episode are both non-zero (see
      TorrentManager.Keep). */
  datatype ParamFilters = ParamFilters(
    title: string,
    group: string,
    resolution: string,
    season: int,
    episode: int)

  datatype SearchParams = SearchParams(query: string, filters: ParamFilters)

  /** The canonical record every provider produces; `kind` is Go's `Type` ("movie" or "serie"). */
  datatype Torrent = Torrent(
    provider: string,
    kind: string,
    title: string,
    originalTitle: string,
    year: int,
    group: string,
    resolution: string,
    codec: string,
    quality: string,
    seeds: int,
    peers: int,
    size: string,
    season: int,
    episode: int,
    magnet: string)

  /** One element of the flat JSON list (The Pirate Bay's API shape); every field is text. */
  datatype TPBItem = TPBItem(
    id: string,
    name: string,
    infoHash: string,
    seeds: string,
    peers: string,
    numFiles: string,
    size: string,
    username: string,
    status: string,
    category: string,
    imdb: string)

  /** The nested JSON catalogue (YTS's API shape). */
  datatype YtsPopularRootObject = YtsPopularRootObject(
    status: string,
    statusMessage: string,
    data: YtsPopularData,
    meta: YtsMeta)

  datatype YtsMeta = YtsMeta(
    serverTime: int,
    serverTimezone: string,
    apiVersion: int,
    executionTime: string)

  datatype YtsPopularData = YtsPopularData(
    movieCount: int,
    limit: int,
    pageNumber: int,
    movies: seq<YtsFilm>)

  datatype YtsFilm = YtsFilm(
    id: int,
    url: string,
    imdbCode: string,
    title: string,
    titleEnglish: string,
    titleLong: string,
    slug: string,
    year: int,
    rating: real,
    runtime: int,
    genres: seq<string>,
    summary: string,
    descriptionFull: string,
    synopsis: string,
    ytTrailerCode: string,
    language: string,
    mpaRating: string,
    backgroundImage: string,
    backgroundImageOriginal: string,
    smallCoverImage: string,
    mediumCoverImage: string,
    largeCoverImage: string,
    state: string,
    torrents: seq<YtsTorrent>,
    dateUploaded: string,
    dateUploadedUnix: int)

  /** One quality variant of a YTS film; `kind` is Go's `Type`. */
  datatype YtsTorrent = YtsTorrent(
    url: string,
    hash: string,
    quality: string,
    kind: string,
    isRepack: string,
    videoCodec: string,
    bitDepth: string,
    audioChannels: string,
    seeds: int,
    peers: int,
    size: string,
    sizeBytes: int,
    dateUploaded: string,
    dateUploadedUnix: int)

  /** The DOM selectors of a scraped provider. */
  datatype ItemSelectors = ItemSelectors(
    detailUrl: string,
    title: string,
    seeds: string,
    peers: string,
    size: string,
    magnetPrefixLink: string,
    magnetSelector: string)

  /** A provider descriptor; `kind` is Go's `Type` ("html" for scraping, anything else for an API). */
  datatype ProviderConfig = ProviderConfig(
    name: string,
    baseUrl: string,
    searchUrl: string,
    enabled: bool,
    kind: string,
    debug: bool,
    itemSelector: string,
    itemsSelector: ItemSelectors,
    trackers: seq<string>)

  /** What the release-name parser extracts from a raw title. */
  datatype TorrentInfo = TorrentInfo(
    title: string,
    season: int,
    episode: int,
    resolution: string,
    codec: string,
    quality: string,
    group: string,
    year: int)

  /** The release-name parser (parsetorrentname.Parse), a foreign library: any total function. */
  type Parser = string -> Result<TorrentInfo, string>
}
