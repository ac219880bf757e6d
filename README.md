# torrent-api-go providers, modelled in Dafny

This project models the `internal/providers` package of torrent-api-go.
That package is the torrent search service's pipeline from a provider
configuration to a filtered, sorted list of canonical `Torrent` records.

A provider is either scraped (type `"html"`) or asked as a JSON API. The
model covers:

- Scraping: the result rows of the search page are read by the release-name
  parser and turned into records. Rows whose detail URL holds the magnet
  prefix are scheduled for a detail-page visit. The magnet links found there
  are collected with a first-wins dedup on the raw title.
- The API: the response body is mapped from the flat TPB list shape if it
  decodes as one, else from the nested YTS catalogue shape, else it is the
  error "unable to cast type".
- The record builders: title clean-up, seed/peer parsing, formatSize,
  formatMagnet and the search URL template.
- The manager: the enabled-provider selection, the single-provider search,
  and postFilter. postFilter is a loop of per-item filter stages, then a sort
  by the byte size that sizeToBytes reads.

Modules:

- `Wrappers`: Option and Result.
- `GoStrings`, `GoStrconv`, `GoUrl`: the parts of Go's `strings`, `unicode`,
  `strconv` and `net/url` that the package relies on, on Dafny strings.
- `TorrentTypes`: the records.
- `Sizes`: sizeToBytes and formatSize.
- `TorrentProvider`: one provider client.
- `TorrentManager`: the manager.

Loops in the source are methods with loop invariants. Each is proved equal
to a function that specifies it, and the properties are lemmas about those
functions.

Inputs the model takes as given:

- The network: search-page rows, detail-page magnet hits in arrival order,
  and API bodies with how they decode.
- The release-name parser: any total function.
- Configuration loading: the loaded list, or a file-reading function.

Behaviours of the code that a reader may not expect are modelled as written:

- The title stage keeps an item only when its title equals the filter title
  ignoring case AND its original title does not. With the filter left empty,
  only items with an empty title survive (`TorrentManager.EmptyTitleFilter`).
- An episode is dropped only when BOTH its season and its episode number
  differ from the filter. Requiring both to match would be the stricter reading.
- The magnet link escapes the name and the trackers with url.PathEscape,
  which leaves '&', '+' and '=' as they are. A name or tracker holding '&'
  therefore breaks its dn or tr parameter for a reader that splits the query
  at '&' (`TorrentProvider.MagnetNameAmpersand`).

## Model

| member | source | states |
|---|---|---|
| `Sizes.SizeToBytesOf` | internal/providers/torrentManager.go:141-162 | "<sign><digits>[.<digits>] <unit>" (after TrimSpace) reads as the exact decimal times 1024^k, truncated toward zero, with k chosen by the upper-cased unit; any other unit is InvalidUnit |
| `Sizes.Shed10Quotient` | internal/providers/torrentManager.go:152-158 | the byte count drops the fraction: it is the quotient of the scaled mantissa by 10^scale, truncated and never rounded up |
| `Sizes.ScanDecimalOf` | internal/providers/torrentManager.go:146 | the `%f` verb reads an optional sign, digits and an optional fraction, and stops at the blank before the unit |
| `Sizes.ScanUnitOf` | internal/providers/torrentManager.go:146 | the ` %s` part reads the whole blank-free unit token after one blank |
| `Sizes.SizeUnitsOrdered` | internal/providers/torrentManager.go:150-158 | for x >= 0, "x GB" >= "x MB" >= "x KB" >= "x B" >= 0, all of them read, and all are strict once x >= 1 |
| `Sizes.ToBytesUnitOrder` | internal/providers/torrentManager.go:151-158 | a non-negative number in the next larger unit is at least as many bytes, and more once the number is at least 1 |
| `Sizes.SizeUnitCaseInsensitive` | internal/providers/torrentManager.go:150 | two units equal after upper-casing give the same reading |
| `Sizes.SizeWithoutNumber` | internal/providers/torrentManager.go:146-148 | text that does not start with a sign, digit or point after trimming is the no-number error |
| `Sizes.SizeExampleNoUnit` | internal/providers/torrentManager.go:146-148 | "5" has no unit and is an error |
| `Sizes.SizeExampleUnknownUnit` | internal/providers/torrentManager.go:159-160 | "12 TB" is InvalidUnit("TB"), not a number |
| `Sizes.SizeExampleFraction` | internal/providers/torrentManager.go:170 | "1.5 GB" reads as 1610612736 bytes |
| `Sizes.FormatSizeNotInteger` | internal/providers/torrentProvider.go:285-288 | a size that is not an integer is formatted as "0.00 MB" |
| `Sizes.FormatSizeAlwaysReadable` | internal/providers/torrentProvider.go:280-293 | sizeToBytes reads every formatSize text |
| `Sizes.FormatSizeRoundTrip` | internal/providers/torrentProvider.go:280-293 | for every 64-bit n, sizeToBytes(formatSize(n)) reads, lies between 0 and n, and is less than one unit (GiB from 2^30 on, MiB below) from n |
| `GoStrconv.AtoiIntToString` | internal/providers/torrentProvider.go:285 | strconv.Atoi reads back every rendered 64-bit integer |
| `GoStrconv.AtoiAcceptsOnlyIntegers` | internal/providers/torrentProvider.go:83-91 | strconv.Atoi accepts only an optionally signed run of digits, and reads it as the value of the digits, negated after a '-' |
| `GoStrings.Index` | internal/providers/torrentProvider.go:142 | strings.Replace looks for the first occurrence: Index gives an occurrence with none before it, and None exactly when there is none |
| `GoUrl.PathEscapeRoundTrip` | internal/providers/torrentProvider.go:273-276 | url.PathEscape is undone by unescaping, giving the UTF-8 bytes |
| `GoUrl.PathEscapeAlphabet` | internal/providers/torrentProvider.go:273-276 | an escaped name or tracker has no space, '/' or '?' and only characters PathEscape leaves alone, '%' and hex digits |
| `TorrentProvider.NormalizeTitleClean` | internal/providers/torrentProvider.go:93-95 | a cleaned title has no '-', '(' or '[' and no white space at either end |
| `TorrentProvider.NormalizeTitleIdempotent` | internal/providers/torrentProvider.go:212-214 | cleaning a cleaned title changes nothing |
| `TorrentProvider.SearchUrlWithoutPlaceholder` | internal/providers/torrentProvider.go:142 | a template without "{query}" gives base URL + template unchanged |
| `TorrentProvider.SearchUrlFillsFirst` | internal/providers/torrentProvider.go:162 | the query replaces only the first "{query}"; the rest of the template is kept |
| `TorrentProvider.FormatMagnet` | internal/providers/torrentProvider.go:270-278 | the loop escaping the trackers one by one builds the magnet URI |
| `TorrentProvider.MagnetLayout` | internal/providers/torrentProvider.go:270-278 | magnet = "magnet:?xt=urn:btih:" + hash + "&dn=" + esc(name), then one "&tr=" + esc(t) per tracker in order; with no tracker, a bare "&tr=" at the end |
| `TorrentProvider.MagnetNameDecodes` | internal/providers/torrentProvider.go:276 | the escaped name starts right after "&dn=" and, taken at its escaped length, decodes back to the name's UTF-8 bytes |
| `TorrentProvider.MagnetNameAmpersand` | internal/providers/torrentProvider.go:273-276 | a name holding '&' leaves an unescaped '&' inside the dn value, because url.PathEscape does not escape it |
| `TorrentProvider.ScrapedRecordFields` | internal/providers/torrentProvider.go:71-111 | type is "serie" iff the parsed episode is not 0; seeds and peers are Atoi's value, or 0 when Atoi rejects the text; the size is copied as is; the group is the parser's group lower-cased; the title is the parser's title normalised, with no '-', '(' or '['; no magnet yet |
| `TorrentProvider.ParsedRowsOutcome` | internal/providers/torrentProvider.go:71-79 | the page's rows parse iff every row's dashed title parses, and then each reading is that row's |
| `TorrentProvider.ParsedRowsErrorPersists` | internal/providers/torrentProvider.go:73-79 | a parser error on an early row decides the whole page |
| `TorrentProvider.ScheduleDetailFetches` | internal/providers/torrentProvider.go:64-134 | the row callback loop schedules one detail fetch (base URL + detail URL, record) per row whose detail URL contains the magnet prefix, in order |
| `TorrentProvider.PrefixedRowsFromRows` | internal/providers/torrentProvider.go:113-114 | every scheduled fetch comes from a row whose detail URL contains the magnet prefix |
| `TorrentProvider.PrefixedRowsComplete` | internal/providers/torrentProvider.go:113-114 | every row whose detail URL contains the magnet prefix is scheduled |
| `TorrentProvider.CollectMagnets` | internal/providers/torrentProvider.go:119-128 | the magnet callback with its itemSet, one hit at a time, emits the first-wins records |
| `TorrentProvider.FirstHitsDistinct` | internal/providers/torrentProvider.go:119-128 | the emitted raw titles are pairwise distinct and are exactly the titles marked in itemSet |
| `TorrentProvider.FirstHitsFirstWins` | internal/providers/torrentProvider.go:119-128 | every emitted record is the record of the first non-empty hit for its raw title, with that hit's href as magnet |
| `TorrentProvider.FirstHitsComplete` | internal/providers/torrentProvider.go:119-128 | every non-empty hit leaves a record with its raw title in the output |
| `TorrentProvider.TpbRecordFields` | internal/providers/torrentProvider.go:197-232 | type is "serie" iff the parsed season is not 0; size is formatSize(el.size) and reads; the magnet is built from hash and name; the raw title is the name; the title is the parser's title normalised; the group is the parser's group lower-cased; seeds and peers are Atoi's value or 0 |
| `TorrentProvider.TransformTpb` | internal/providers/torrentProvider.go:186-236 | the TPB loop gives one record per element with a non-empty parsed title, in order, or the first parser error |
| `TorrentProvider.TitledElementsShape` | internal/providers/torrentProvider.go:187-195 | on success the j-th reading belongs to the element at the j-th position whose parsed title is non-empty: the positions strictly increase, cover exactly those elements, and each reading is the parser's for that element |
| `TorrentProvider.TpbRecordsFails` | internal/providers/torrentProvider.go:188-191 | the TPB mapping fails iff the parser fails on some name |
| `TorrentProvider.TpbRecordsFirstError` | internal/providers/torrentProvider.go:188-191 | the error is the parser's error on the first name it cannot read |
| `TorrentProvider.TpbErrorPersists` | internal/providers/torrentProvider.go:188-191 | a parser error on an early element ends the whole mapping |
| `TorrentProvider.YtsRecordFields` | internal/providers/torrentProvider.go:246-260 | a YTS record is a movie of group "yts", with the English title, the film title as raw title, the variant's size, and the magnet MagnetUri(trackers, variant hash, film title) |
| `TorrentProvider.TransformYts` | internal/providers/torrentProvider.go:242-265 | the nested loops give the variants' records, films in order, variants in order |
| `TorrentProvider.YtsRecordsCount` | internal/providers/torrentProvider.go:243-263 | there are as many YTS records as quality variants over all films |
| `TorrentProvider.YtsRecordsSource` | internal/providers/torrentProvider.go:243-263 | each YTS record is the record of one variant of one film |
| `TorrentProvider.Transform2Item` | internal/providers/torrentProvider.go:182-268 | TPB shape first, YTS only when that decode fails, otherwise "unable to cast type" |
| `TorrentProvider.FetchByScrape` | internal/providers/torrentProvider.go:53-159 | scraping gives the first-wins records of the scheduled detail fetches, or the parser crash |
| `TorrentProvider.FetchByApi` | internal/providers/torrentProvider.go:161-180 | a transport error gives no records; otherwise the transform, whose error is the crash |
| `TorrentProvider.FetchAndParse` | internal/providers/torrentProvider.go:43-51 | providers of type "html" are scraped, all others asked as an API |
| `TorrentManager.GetActiveProviders` | internal/providers/torrentManager.go:95-107 | the loop keeps exactly the enabled configurations, in load order; a load error is returned as is |
| `TorrentManager.ActiveProvidersExactly` | internal/providers/torrentManager.go:101-105 | a configuration is active iff it was loaded and is enabled |
| `TorrentManager.ActiveProvidersInOrder` | internal/providers/torrentManager.go:101-105 | selection distributes over concatenation, so load order is kept |
| `TorrentManager.SizeExample700MB` | internal/providers/torrentManager.go:167 | "700 MB" reads as 734003200 bytes |
| `TorrentManager.SizeExample3GB` | internal/providers/torrentManager.go:168 | "3 GB" reads as 3221225472 bytes |
| `TorrentManager.SizeExample250MB` | internal/providers/torrentManager.go:169 | "250 MB" reads as 262144000 bytes |
| `TorrentManager.SizeBounds` | internal/providers/torrentManager.go:167-170 | the four window bounds read from their texts are 734003200, 3221225472, 262144000 and 1610612736 |
| `TorrentManager.PostFilter` | internal/providers/torrentManager.go:164-225 | the output is a permutation of the input items that pass every stage, non-decreasing in bytes, and the comparator finds no later item smaller than an earlier one |
| `TorrentManager.SortByKey` | internal/providers/torrentManager.go:214-221 | the in-place sort leaves the array ordered by the key, with the same elements |
| `TorrentManager.Insert` | internal/providers/torrentManager.go:214-221 | one insertion step extends the ordered prefix by one element, keeps the elements, and leaves a[i+1..] as it was, so the new prefix is a permutation of the old one |
| `TorrentManager.SortedNoInversion` | internal/providers/torrentManager.go:214-221 | on a list ordered by bytes the comparator never reports an inversion, including when a size does not read (it answers false) |
| `TorrentManager.KeptMembers` | internal/providers/torrentManager.go:173-211 | an item survives the loop iff it is in the input and passes every stage |
| `TorrentManager.PostFilterItem` | internal/providers/torrentManager.go:174-193 | every output item came from the input, its size reads, it matches a set resolution filter (ignoring case) and a set group filter (group or lower-cased raw title), its title equals the filter title ignoring case while its raw title does not, and its quality is not HDCAM in any case |
| `TorrentManager.EmptyTitleFilter` | internal/providers/torrentManager.go:187-189 | with an empty title filter only items with an empty title and a non-empty raw title survive |
| `TorrentManager.MovieWindow` | internal/providers/torrentManager.go:196-199 | a movie passing the other stages is kept iff sizeToBytes("700 MB") <= its bytes <= sizeToBytes("3 GB") |
| `TorrentManager.SerieWindow` | internal/providers/torrentManager.go:201-207 | an episode passing the other stages is kept iff sizeToBytes("250 MB") <= its bytes <= sizeToBytes("1.5 GB") and its season or its episode matches the filter |
| `TorrentManager.OtherKindsIgnoreSize` | internal/providers/torrentManager.go:195-208 | for any other type, changing one readable size for another does not change whether the item is kept |
| `TorrentManager.PostFilterStable` | internal/providers/torrentManager.go:164-221 | running postFilter on its own output with the same filters keeps every item |
| `TorrentManager.ConfigPathInjective` | internal/providers/torrentManager.go:59-60 | distinct provider names give distinct path strings |
| `TorrentManager.FetchByProvider` | internal/providers/torrentManager.go:129-139 | a configuration file that cannot be read is returned as the error; a provider crash is an error; otherwise the result is postFilter of the fetched records |

## Left out

- FetchAllActive (torrentManager.go:109-127) is not modelled. It fans out one goroutine per provider and appends to a shared slice without a lock. Its result is a nondeterministic interleaving that may lose items.
- ConfigPathInjective: the provider name is not sanitised, so path segments such as "." or ".." pass through. Distinct names give distinct path strings, but two of those strings may still name the same file ("x" and "./x"). File-system identity is not modelled.
- Configuration loading (torrentManager.go:47-93) is file I/O. GetActiveProviders takes the outcome of loading all files. FetchByProvider takes a function from a path to a decoded configuration or an open error. readConfigFile ignores decoding errors, so that function may return any configuration.
- The network is input: the colly and resty clients, DOM selection and the JSON decoding itself. It comes in as search-page rows, detail-page magnet hits and API bodies with their two decode outcomes.
- Concurrency in scraping is not modelled: the goroutines, the channel and the mutex. The magnet hits are processed one at a time in their arrival order, which is an input. The unlocked read of itemSet at torrentProvider.go:122 can let two hits for the same raw title through when they race; the model does not capture that.
- Crashes are Err results: logger.Panic after a transform error (torrentProvider.go:173), and the nil dereference after a parser error in the row callback (torrentProvider.go:73-79). FetchByProvider reports them as `Crashed`.
- Logging, the debug response printer (torrentProvider.go:136-140), the colly rate limit (torrentProvider.go:57) and the request context are not modelled.
- The release-name parser (parsetorrentname) is a foreign library and is a function parameter.
- Case mapping in ToLower, ToUpper and EqualFold is ASCII only. Unicode case folding is not modelled.
- SizeToBytesOf: `%f` is read as an exact decimal, and `size * 1024^k` is truncated toward zero exactly. Not modelled: float64 rounding, exponent, hex, infinity and NaN forms, `_` digit separators (Go reads "1_000 MB" as 1000 MB; the model stops the number at `_` and reports an error), and the int64 conversion of values beyond 64 bits.
- SizeWithoutNumber: Go's `%f` also reads "nan" and "inf" in any case (for example "NaN MB" and "Inf MB") as numbers, so for those texts sizeToBytes does not give the no-number error the lemma states; the model has no NaN or infinity.
- FormatSizeRoundTrip: `%.2f` is modelled on whole numbers, which float64 holds exactly below 2^53. Nothing larger arises from a 64-bit byte count divided by 2^20.
- SortByKey: sort.Slice's own algorithm is not modelled. Items of equal size may end up in a different order than Go's sort leaves them. The postcondition is what sort.Slice promises for a comparator that is a strict weak order. The comparator is one here because every item that reaches the sort has a readable size.
- `regexp.MustCompile("\(|\[")` is modelled as deleting the two characters.
