/**
 * One provider client: the search URL, title clean-up, magnet links, the
 * scraped-item builder with its first-wins magnet dedup, the two JSON schema
 * mappings (flat TPB list, nested YTS catalogue) and the dispatch between
 * scraping and the API.  The network and the release-name parser are inputs.
 */
module TorrentProvider {
  import opened Wrappers
  import opened GoStrings
  import opened GoStrconv
  import opened GoUrl
  import opened TorrentTypes
  import opened Sizes

  // ----- lists -----

  /** `f` applied to each element, in order. */
  function MapSeq<A, B>(f: A -> B, xs: seq<A>): (ys: seq<B>)
    ensures |ys| == |xs|
    ensures forall k :: 0 <= k < |xs| ==> ys[k] == f(xs[k])
  {
    seq(|xs|, k requires 0 <= k < |xs| => f(xs[k]))
  }

  lemma MapSeqAppend<A, B>(f: A -> B, xs: seq<A>, x: A)
    ensures MapSeq(f, xs + [x]) == MapSeq(f, xs) + [f(x)]
  {
  }

  // ----- title clean-up -----

  /** The characters the bracket regexp `\(|\[` deletes. */
  const Brackets: set<char> := {'(', '['}

  /** Dashes become spaces, spaces are trimmed, '(' and '[' are deleted, then
      white space is trimmed. */
  function NormalizeTitle(title: string): string {
    TrimSpace(RemoveChars(Trim(ReplaceChar(title, '-', ' '), {' '}), Brackets))
  }

  /** A normalised title has no dash, no '(' or '[', and no white space at either end. */
  lemma NormalizeTitleClean(title: string)
    ensures var r := NormalizeTitle(title);
      && '-' !in r && '(' !in r && '[' !in r
      && (r == [] || (!IsSpace(r[0]) && !IsSpace(r[|r| - 1])))
  {
    var dashed := ReplaceChar(title, '-', ' ');
    assert '-' !in dashed by {
      ReplaceCharRemoves(title, '-', ' ');
    }
    var trimmed := Trim(dashed, {' '});
    assert '-' !in trimmed by {
      TrimKeeps(dashed, {' '});
    }
    var removed := RemoveChars(trimmed, Brackets);
    assert '-' !in removed && '(' !in removed && '[' !in removed;
    var r := TrimSpace(removed);
    assert r == NormalizeTitle(title);
    TrimFuncBounds(removed, IsSpace);
  }

  /** A title with no dash, no '(' or '[' and no white space at either end is
      left as it is. */
  lemma CleanTitleFixed(r: string)
    requires '-' !in r && '(' !in r && '[' !in r
    requires r == [] || (!IsSpace(r[0]) && !IsSpace(r[|r| - 1]))
    ensures NormalizeTitle(r) == r
  {
    ReplaceCharAbsent(r, '-', ' ');
    TrimIdentity(r, {' '});
    RemoveCharsAbsent(r, Brackets);
    TrimFuncIdentity(r, IsSpace);
  }

  /** Cleaning a clean title changes nothing. */
  lemma NormalizeTitleIdempotent(title: string)
    ensures NormalizeTitle(NormalizeTitle(title)) == NormalizeTitle(title)
  {
    NormalizeTitleClean(title);
    CleanTitleFixed(NormalizeTitle(title));
  }

  // ----- URLs -----

  const QueryPlaceholder := "{query}"

  /** The page a provider is asked: the base URL, then the template with its
      first "{query}" replaced by the query. */
  function SearchUrl(cfg: ProviderConfig, query: string): string {
    cfg.baseUrl + ReplaceFirst(cfg.searchUrl, QueryPlaceholder, query)
  }

  /** A template without the placeholder is used as it is. */
  lemma SearchUrlWithoutPlaceholder(cfg: ProviderConfig, query: string)
    requires !Contains(cfg.searchUrl, QueryPlaceholder)
    ensures SearchUrl(cfg, query) == cfg.baseUrl + cfg.searchUrl
  {
    ReplaceFirstAbsent(cfg.searchUrl, QueryPlaceholder, query);
  }

  /** With the placeholder first at `j`, the query takes its place and the rest
      of the template, later placeholders included, is kept. */
  lemma SearchUrlFillsFirst(cfg: ProviderConfig, query: string, j: nat)
    requires OccursAt(cfg.searchUrl, QueryPlaceholder, j)
    requires forall i: nat :: i < j ==> !OccursAt(cfg.searchUrl, QueryPlaceholder, i)
    ensures SearchUrl(cfg, query)
         == cfg.baseUrl + cfg.searchUrl[..j] + query + cfg.searchUrl[j + |QueryPlaceholder|..]
  {
    ReplaceFirstPresent(cfg.searchUrl, QueryPlaceholder, query, j);
  }

  // ----- magnet links -----

  const MagnetScheme := "magnet:?xt=urn:btih:"
  const TrackerKey := "&tr="

  /** url.PathEscape of each tracker, in order. */
  function EscapeAll(trackers: seq<string>): seq<string> {
    MapSeq(PathEscape, trackers)
  }

  /** The magnet formatMagnet builds: hash, escaped name, then "&tr=" joined
      over the escaped trackers. */
  function MagnetUri(trackers: seq<string>, infoHash: string, name: string): string {
    MagnetScheme + infoHash + "&dn=" + PathEscape(name) + TrackerKey + Join(EscapeAll(trackers), TrackerKey)
  }

  /** One "&tr=<escaped tracker>" parameter per tracker, in order. */
  function TrackerParams(trackers: seq<string>): string {
    if trackers == [] then "" else TrackerKey + PathEscape(trackers[0]) + TrackerParams(trackers[1..])
  }

  lemma {:induction false} JoinTrackers(trackers: seq<string>)
    requires trackers != []
    ensures TrackerKey + Join(EscapeAll(trackers), TrackerKey) == TrackerParams(trackers)
  {
    var escaped := EscapeAll(trackers);
    if |trackers| == 1 {
      assert TrackerParams(trackers[1..]) == "";
    } else {
      JoinTrackers(trackers[1..]);
      assert escaped[1..] == EscapeAll(trackers[1..]);
      assert Join(escaped, TrackerKey) == escaped[0] + TrackerKey + Join(escaped[1..], TrackerKey);
    }
  }

  /** The magnet is the scheme, the hash, the escaped name and one tracker
      parameter per tracker; with no tracker a bare "&tr=" is left at the end. */
  lemma MagnetLayout(trackers: seq<string>, infoHash: string, name: string)
    ensures trackers != [] ==>
      MagnetUri(trackers, infoHash, name)
      == MagnetScheme + infoHash + "&dn=" + PathEscape(name) + TrackerParams(trackers)
    ensures trackers == [] ==>
      MagnetUri(trackers, infoHash, name) == MagnetScheme + infoHash + "&dn=" + PathEscape(name) + TrackerKey
  {
    var head := MagnetScheme + infoHash + "&dn=" + PathEscape(name);
    if trackers != [] {
      JoinTrackers(trackers);
      assert MagnetUri(trackers, infoHash, name) == head + (TrackerKey + Join(EscapeAll(trackers), TrackerKey));
    } else {
      assert Join(EscapeAll(trackers), TrackerKey) == "";
    }
  }

  /** The escaped name sits right after "&dn=" and, taken at its escaped
      length, decodes back to the name's UTF-8 bytes. */
  lemma MagnetNameDecodes(trackers: seq<string>, infoHash: string, name: string)
    ensures var m := MagnetUri(trackers, infoHash, name);
      var start := |MagnetScheme + infoHash + "&dn="|;
      && start + |PathEscape(name)| <= |m|
      && PathUnescape(m[start..start + |PathEscape(name)|]) == Some(Utf8Encode(name))
  {
    var head := MagnetScheme + infoHash + "&dn=";
    var m := MagnetUri(trackers, infoHash, name);
    var rest := TrackerKey + Join(EscapeAll(trackers), TrackerKey);
    assert m == head + PathEscape(name) + rest;
    assert m[|head|..|head| + |PathEscape(name)|] == PathEscape(name);
    PathEscapeRoundTrip(name);
  }

  /** PathEscape leaves '&' alone, so a name holding '&' puts an '&' inside
      the dn value: a reader that ends the parameter at the next '&' gets
      only part of the name. */
  lemma MagnetNameAmpersand(trackers: seq<string>, infoHash: string, name: string)
    requires '&' in name
    ensures var m := MagnetUri(trackers, infoHash, name);
      var start := |MagnetScheme + infoHash + "&dn="|;
      exists k :: start <= k < start + |PathEscape(name)| && k < |m| && m[k] == '&'
  {
    var head := MagnetScheme + infoHash + "&dn=";
    var m := MagnetUri(trackers, infoHash, name);
    var escaped := PathEscape(name);
    assert m == head + escaped + (TrackerKey + Join(EscapeAll(trackers), TrackerKey));
    PathEscapeKeepsAmpersand(name);
    var i :| 0 <= i < |escaped| && escaped[i] == '&';
    assert m[|head| + i] == escaped[i];
  }

  /** formatMagnet: escapes the trackers one by one into a list, then joins them. */
  method FormatMagnet(trackers: seq<string>, infoHash: string, name: string) returns (magnet: string)
    ensures magnet == MagnetUri(trackers, infoHash, name)
  {
    var escaped: seq<string> := [];
    for i := 0 to |trackers|
      invariant escaped == EscapeAll(trackers[..i])
    {
      MapSeqAppend(PathEscape, trackers[..i], trackers[i]);
      assert trackers[..i + 1] == trackers[..i] + [trackers[i]];
      escaped := escaped + [PathEscape(trackers[i])];
    }
    assert trackers[..|trackers|] == trackers;
    var trackerStr := TrackerKey + Join(escaped, TrackerKey);
    magnet := MagnetScheme + infoHash + "&dn=" + PathEscape(name) + trackerStr;
  }

  // ----- scraping: one record per result row -----

  /** What the item selectors extract from one result row of the search page. */
  datatype ScrapedRow = ScrapedRow(detailUrl: string, title: string, seeds: string, peers: string, size: string)

  /** The text the parser is given for a row: its title with spaces turned into dashes. */
  function ParserInput(row: ScrapedRow): string {
    ReplaceChar(row.title, ' ', '-')
  }

  /** The record built for one row the parser read as `info`, before its magnet is known. */
  function ScrapedRecord(cfg: ProviderConfig, row: ScrapedRow, info: TorrentInfo): Torrent {
    Torrent(cfg.name, if info.episode != 0 then "serie" else "movie",
            NormalizeTitle(info.title), row.title, 0, ToLower(info.group),
            info.resolution, info.codec, info.quality,
            AtoiOrZero(row.seeds), AtoiOrZero(row.peers), row.size,
            info.season, info.episode, "")
  }

  /** A scraped record is a "serie" exactly when the parser found an episode;
      counts that are not integers are 0; the size text is kept as it is; the
      group is the parser's group lower-cased, so it has no upper-case letter;
      the title is the parser's title normalised, so it is clean; the magnet
      is still empty. */
  lemma ScrapedRecordFields(cfg: ProviderConfig, row: ScrapedRow, info: TorrentInfo)
    ensures var t := ScrapedRecord(cfg, row, info);
      && (t.kind == "serie" <==> info.episode != 0)
      && (t.kind == "movie" <==> info.episode == 0)
      && (Atoi(row.seeds).Some? ==> t.seeds == Atoi(row.seeds).value)
      && (Atoi(row.seeds).None? ==> t.seeds == 0)
      && (Atoi(row.peers).Some? ==> t.peers == Atoi(row.peers).value)
      && (Atoi(row.peers).None? ==> t.peers == 0)
      && t.size == row.size && t.originalTitle == row.title
      && t.group == ToLower(info.group) && t.title == NormalizeTitle(info.title)
      && (forall i :: 0 <= i < |t.group| ==> !IsUpper(t.group[i]))
      && '-' !in t.title && '(' !in t.title && '[' !in t.title
      && t.magnet == "" && t.year == 0
  {
    NormalizeTitleClean(info.title);
  }

  /** The parser's reading of every row, in document order.  On a parser
      error the source goes on to read a field of the missing result and
      crashes; the first such error is the Err here. */
  function ParsedRows(parse: Parser, rows: seq<ScrapedRow>): (r: Result<seq<TorrentInfo>, string>)
    ensures r.Ok? ==> |r.value| == |rows|
  {
    if rows == [] then Ok([])
    else
      match ParsedRows(parse, rows[..|rows| - 1])
      case Err(e) => Err(e)
      case Ok(infos) =>
        match parse(ParserInput(rows[|rows| - 1]))
        case Err(e) => Err(e)
        case Ok(info) => Ok(infos + [info])
  }

  /** The rows parse exactly when every row's title parses, and then each
      reading is the parser's result for that row. */
  lemma {:induction false} ParsedRowsOutcome(parse: Parser, rows: seq<ScrapedRow>)
    ensures ParsedRows(parse, rows).Ok? <==> forall i :: 0 <= i < |rows| ==> parse(ParserInput(rows[i])).Ok?
    ensures ParsedRows(parse, rows).Ok? ==>
      forall i :: 0 <= i < |rows| ==> parse(ParserInput(rows[i])) == Ok(ParsedRows(parse, rows).value[i])
  {
    if rows != [] {
      var n := |rows| - 1;
      var front := rows[..n];
      ParsedRowsOutcome(parse, front);
      if ParsedRows(parse, front).Ok? {
        forall i | 0 <= i < n ensures parse(ParserInput(rows[i])) == Ok(ParsedRows(parse, front).value[i]) {
          assert rows[i] == front[i];
        }
      } else {
        var i :| 0 <= i < n && !parse(ParserInput(front[i])).Ok?;
        assert rows[i] == front[i];
      }
    }
  }

  /** A detail page to visit: its link and the record waiting for its magnet. */
  datatype DetailFetch = DetailFetch(link: string, item: Torrent)

  /** The rows whose detail URL contains the magnet prefix, each with its
      reading, in document order. */
  function PrefixedRows(cfg: ProviderConfig, rows: seq<ScrapedRow>, infos: seq<TorrentInfo>): seq<(ScrapedRow, TorrentInfo)>
    requires |infos| == |rows|
  {
    if rows == [] then []
    else
      var n := |rows| - 1;
      PrefixedRows(cfg, rows[..n], infos[..n])
        + (if Contains(rows[n].detailUrl, cfg.itemsSelector.magnetPrefixLink) then [(rows[n], infos[n])] else [])
  }

  /** The detail fetch of a row: base URL + detail URL, and the row's record. */
  function DetailFetchOf(cfg: ProviderConfig): ((ScrapedRow, TorrentInfo)) -> DetailFetch {
    (p: (ScrapedRow, TorrentInfo)) => DetailFetch(cfg.baseUrl + p.0.detailUrl, ScrapedRecord(cfg, p.0, p.1))
  }

  /** The detail fetches of a search page, or the crash of its first unparsable row. */
  function DetailFetches(cfg: ProviderConfig, parse: Parser, rows: seq<ScrapedRow>): Result<seq<DetailFetch>, string> {
    match ParsedRows(parse, rows)
    case Err(e) => Err(e)
    case Ok(infos) => Ok(MapSeq(DetailFetchOf(cfg), PrefixedRows(cfg, rows, infos)))
  }

  /** Every prefixed row is one of the rows, with that row's reading, and its
      detail URL holds the magnet prefix. */
  lemma {:induction false} PrefixedRowsFromRows(cfg: ProviderConfig, rows: seq<ScrapedRow>, infos: seq<TorrentInfo>)
    requires |infos| == |rows|
    ensures var ps := PrefixedRows(cfg, rows, infos);
      && |ps| <= |rows|
      && forall k :: 0 <= k < |ps| ==>
           Contains(ps[k].0.detailUrl, cfg.itemsSelector.magnetPrefixLink)
           && exists i :: 0 <= i < |rows| && ps[k] == (rows[i], infos[i])
  {
    if rows != [] {
      var n := |rows| - 1;
      PrefixedRowsFromRows(cfg, rows[..n], infos[..n]);
      var front := PrefixedRows(cfg, rows[..n], infos[..n]);
      var ps := PrefixedRows(cfg, rows, infos);
      forall k | 0 <= k < |ps|
        ensures Contains(ps[k].0.detailUrl, cfg.itemsSelector.magnetPrefixLink)
          && exists i :: 0 <= i < |rows| && ps[k] == (rows[i], infos[i])
      {
        if k < |front| {
          assert ps[k] == front[k];
          var i :| 0 <= i < n && front[k] == (rows[..n][i], infos[..n][i]);
          assert ps[k] == (rows[i], infos[i]);
        } else {
          assert ps[k] == (rows[n], infos[n]);
        }
      }
    }
  }

  /** Every row whose detail URL holds the magnet prefix is among the prefixed rows. */
  lemma {:induction false} PrefixedRowsComplete(cfg: ProviderConfig, rows: seq<ScrapedRow>, infos: seq<TorrentInfo>, i: nat)
    requires |infos| == |rows| && i < |rows|
    requires Contains(rows[i].detailUrl, cfg.itemsSelector.magnetPrefixLink)
    ensures (rows[i], infos[i]) in PrefixedRows(cfg, rows, infos)
  {
    var n := |rows| - 1;
    if i < n {
      PrefixedRowsComplete(cfg, rows[..n], infos[..n], i);
      assert rows[..n][i] == rows[i] && infos[..n][i] == infos[i];
    } else {
      assert PrefixedRows(cfg, rows, infos)[|PrefixedRows(cfg, rows[..n], infos[..n])|] == (rows[n], infos[n]);
    }
  }

  /** The loop over the result rows: parses each title, builds the record and
      schedules its detail fetch. */
  method ScheduleDetailFetches(cfg: ProviderConfig, parse: Parser, rows: seq<ScrapedRow>)
    returns (r: Result<seq<DetailFetch>, string>)
    ensures r == DetailFetches(cfg, parse, rows)
  {
    var fetches: seq<DetailFetch> := [];
    ghost var infos: seq<TorrentInfo> := [];
    for i := 0 to |rows|
      invariant ParsedRows(parse, rows[..i]) == Ok(infos)
      invariant fetches == MapSeq(DetailFetchOf(cfg), PrefixedRows(cfg, rows[..i], infos))
    {
      assert rows[..i + 1][..i] == rows[..i];
      var row := rows[i];
      var info := parse(ReplaceChar(row.title, ' ', '-'));
      if info.Err? {
        r := Err(info.error);
        ParsedRowsErrorPersists(parse, rows, i + 1);
        return;
      }
      var item := ScrapedRecord(cfg, row, info.value);
      ghost var pending := PrefixedRows(cfg, rows[..i], infos);
      ScheduleStep(cfg, parse, rows, i, infos, info.value);
      infos := infos + [info.value];
      if Contains(row.detailUrl, cfg.itemsSelector.magnetPrefixLink) {
        MapSeqAppend(DetailFetchOf(cfg), pending, (row, info.value));
        fetches := fetches + [DetailFetch(cfg.baseUrl + row.detailUrl, item)];
      }
    }
    assert rows[..|rows|] == rows;
    r := Ok(fetches);
  }

  /** One more parsed row extends the readings and, when its detail URL holds
      the prefix, the prefixed rows. */
  lemma ScheduleStep(cfg: ProviderConfig, parse: Parser, rows: seq<ScrapedRow>, i: nat, infos: seq<TorrentInfo>, info: TorrentInfo)
    requires i < |rows| && ParsedRows(parse, rows[..i]) == Ok(infos)
    requires parse(ReplaceChar(rows[i].title, ' ', '-')) == Ok(info)
    ensures ParsedRows(parse, rows[..i + 1]) == Ok(infos + [info])
    ensures PrefixedRows(cfg, rows[..i + 1], infos + [info])
      == PrefixedRows(cfg, rows[..i], infos)
         + (if Contains(rows[i].detailUrl, cfg.itemsSelector.magnetPrefixLink) then [(rows[i], info)] else [])
  {
    assert rows[..i + 1][..i] == rows[..i];
    assert (infos + [info])[..i] == infos;
  }

  /** Once a prefix of the rows fails to parse, the whole page fails the same way. */
  lemma {:induction false} ParsedRowsErrorPersists(parse: Parser, rows: seq<ScrapedRow>, n: nat)
    requires n <= |rows| && ParsedRows(parse, rows[..n]).Err?
    ensures ParsedRows(parse, rows) == ParsedRows(parse, rows[..n])
    decreases |rows| - n
  {
    if n < |rows| {
      assert rows[..n + 1][..n] == rows[..n];
      ParsedRowsErrorPersists(parse, rows, n + 1);
    } else {
      assert rows[..n] == rows;
    }
  }

  // ----- scraping: first-wins magnet dedup -----

  /** One magnet link found on a detail page: which fetch it came from and its href. */
  datatype MagnetHit = MagnetHit(fetch: nat, href: string)

  /** A hit that resolves a record: it names a scheduled fetch and its href is not empty. */
  predicate Resolves(fetches: seq<DetailFetch>, h: MagnetHit) {
    h.fetch < |fetches| && h.href != ""
  }

  /** The raw titles already emitted after the given hits. */
  function Emitted(fetches: seq<DetailFetch>, hits: seq<MagnetHit>): set<string> {
    if hits == [] then {}
    else
      var h := hits[|hits| - 1];
      Emitted(fetches, hits[..|hits| - 1])
        + (if Resolves(fetches, h) then {fetches[h.fetch].item.originalTitle} else {})
  }

  /** The hit at `i` is the first resolving hit for its record's raw title. */
  predicate IsFirst(fetches: seq<DetailFetch>, hits: seq<MagnetHit>, i: nat)
    requires i < |hits|
  {
    Resolves(fetches, hits[i])
    && fetches[hits[i].fetch].item.originalTitle !in Emitted(fetches, hits[..i])
  }

  /** The record a hit resolves, with its magnet set. */
  function Resolved(fetches: seq<DetailFetch>, h: MagnetHit): Torrent
    requires Resolves(fetches, h)
  {
    fetches[h.fetch].item.(magnet := h.href)
  }

  /** The records emitted for hits arriving in the given order. */
  function FirstHits(fetches: seq<DetailFetch>, hits: seq<MagnetHit>): seq<Torrent> {
    if hits == [] then []
    else
      var n := |hits| - 1;
      FirstHits(fetches, hits[..n]) + (if IsFirst(fetches, hits, n) then [Resolved(fetches, hits[n])] else [])
  }

  /** The raw titles of the emitted records are exactly the titles of the
      resolving hits, and no raw title is emitted twice. */
  lemma {:induction false} FirstHitsDistinct(fetches: seq<DetailFetch>, hits: seq<MagnetHit>)
    ensures var out := FirstHits(fetches, hits);
      && (forall t :: t in Emitted(fetches, hits) <==> (exists k :: 0 <= k < |out| && out[k].originalTitle == t))
      && (forall k, l :: 0 <= k < l < |out| ==> out[k].originalTitle != out[l].originalTitle)
  {
    if hits != [] {
      var n := |hits| - 1;
      FirstHitsDistinct(fetches, hits[..n]);
      var front := FirstHits(fetches, hits[..n]);
      var out := FirstHits(fetches, hits);
      var seen := Emitted(fetches, hits[..n]);
      if IsFirst(fetches, hits, n) {
        var t := fetches[hits[n].fetch].item.originalTitle;
        assert out == front + [Resolved(fetches, hits[n])];
        assert Emitted(fetches, hits) == seen + {t};
        assert out[|front|].originalTitle == t;
        forall u | u in Emitted(fetches, hits)
          ensures exists k :: 0 <= k < |out| && out[k].originalTitle == u
        {
          if u != t {
            var k :| 0 <= k < |front| && front[k].originalTitle == u;
            assert out[k] == front[k];
          }
        }
        forall k, l | 0 <= k < l < |out|
          ensures out[k].originalTitle != out[l].originalTitle
        {
          if l == |front| {
            assert out[k] == front[k];
            assert front[k].originalTitle in seen;
          } else {
            assert out[k] == front[k] && out[l] == front[l];
          }
        }
      } else {
        assert out == front;
        if Resolves(fetches, hits[n]) {
          assert Emitted(fetches, hits) == seen + {fetches[hits[n].fetch].item.originalTitle};
        } else {
          assert Emitted(fetches, hits) == seen;
        }
      }
    }
  }

  /** Every emitted record is the record of the first resolving hit for its
      raw title, with that hit's href as its magnet. */
  lemma {:induction false} FirstHitsFirstWins(fetches: seq<DetailFetch>, hits: seq<MagnetHit>, k: nat)
    requires k < |FirstHits(fetches, hits)|
    ensures exists i :: 0 <= i < |hits| && IsFirst(fetches, hits, i) && FirstHits(fetches, hits)[k] == Resolved(fetches, hits[i])
  {
    var n := |hits| - 1;
    var front := FirstHits(fetches, hits[..n]);
    var out := FirstHits(fetches, hits);
    if k < |front| {
      assert out[k] == front[k];
      FirstHitsFirstWins(fetches, hits[..n], k);
      var i :| 0 <= i < n && IsFirst(fetches, hits[..n], i) && front[k] == Resolved(fetches, hits[..n][i]);
      assert hits[..n][..i] == hits[..i];
      assert hits[..n][i] == hits[i];
      assert IsFirst(fetches, hits, i);
    } else {
      assert IsFirst(fetches, hits, n);
    }
  }

  /** Every resolving hit leaves a record with its raw title in the output. */
  lemma {:induction false} FirstHitsComplete(fetches: seq<DetailFetch>, hits: seq<MagnetHit>, i: nat)
    requires i < |hits| && Resolves(fetches, hits[i])
    ensures exists k :: (0 <= k < |FirstHits(fetches, hits)|
      && FirstHits(fetches, hits)[k].originalTitle == fetches[hits[i].fetch].item.originalTitle)
  {
    EmittedHas(fetches, hits, i);
    FirstHitsDistinct(fetches, hits);
  }

  lemma {:induction false} EmittedHas(fetches: seq<DetailFetch>, hits: seq<MagnetHit>, i: nat)
    requires i < |hits| && Resolves(fetches, hits[i])
    ensures fetches[hits[i].fetch].item.originalTitle in Emitted(fetches, hits)
  {
    var n := |hits| - 1;
    if i < n {
      assert hits[..n][i] == hits[i];
      EmittedHas(fetches, hits[..n], i);
    }
  }

  /** The magnet callback, one hit at a time in arrival order: a non-empty
      href whose raw title is not yet in the set marks the title, sets the
      record's magnet and emits it. */
  method CollectMagnets(fetches: seq<DetailFetch>, hits: seq<MagnetHit>) returns (emitted: seq<Torrent>)
    ensures emitted == FirstHits(fetches, hits)
  {
    var itemSet: set<string> := {};
    emitted := [];
    for i := 0 to |hits|
      invariant itemSet == Emitted(fetches, hits[..i])
      invariant emitted == FirstHits(fetches, hits[..i])
    {
      var h := hits[i];
      assert hits[..i + 1][..i] == hits[..i];
      assert IsFirst(fetches, hits[..i + 1], i) <==> IsFirst(fetches, hits, i);
      if h.fetch < |fetches| && h.href != "" {
        var item := fetches[h.fetch].item;
        if item.originalTitle !in itemSet {
          itemSet := itemSet + {item.originalTitle};
          item := item.(magnet := h.href);
          emitted := emitted + [item];
        }
      }
    }
    assert hits[..|hits|] == hits;
  }

  // ----- the flat TPB list -----

  /** The record for one TPB element the parser read as `info`. */
  function TpbRecord(cfg: ProviderConfig, el: TPBItem, info: TorrentInfo): Torrent {
    Torrent(cfg.name, if info.season != 0 then "serie" else "movie",
            NormalizeTitle(info.title), el.name, info.year, ToLower(info.group),
            info.resolution, info.codec, info.quality,
            AtoiOrZero(el.seeds), AtoiOrZero(el.peers), FormatSize(el.size),
            info.season, info.episode, MagnetUri(cfg.trackers, el.infoHash, el.name))
  }

  /** A TPB record is a "serie" exactly when the parser found a season; its
      size is formatSize's text, which sizeToBytes always reads; its magnet is
      built from the hash and the raw name; its raw title is the name. */
  lemma TpbRecordFields(cfg: ProviderConfig, el: TPBItem, info: TorrentInfo)
    ensures var t := TpbRecord(cfg, el, info);
      && (t.kind == "serie" <==> info.season != 0)
      && (t.kind == "movie" <==> info.season == 0)
      && t.size == FormatSize(el.size) && SizeToBytes(t.size).Ok?
      && t.magnet == MagnetUri(cfg.trackers, el.infoHash, el.name)
      && t.originalTitle == el.name && t.year == info.year
      && t.title == NormalizeTitle(info.title) && t.group == ToLower(info.group)
      && t.seeds == AtoiOrZero(el.seeds) && t.peers == AtoiOrZero(el.peers)
      && '-' !in t.title && '(' !in t.title && '[' !in t.title
  {
    FormatSizeAlwaysReadable(el.size);
    NormalizeTitleClean(info.title);
  }

  /** The elements whose name parses to a non-empty title, each with its
      reading, in order; the first parser error aborts the whole list. */
  function TitledElements(parse: Parser, els: seq<TPBItem>): Result<seq<(TPBItem, TorrentInfo)>, string> {
    if els == [] then Ok([])
    else
      match TitledElements(parse, els[..|els| - 1])
      case Err(e) => Err(e)
      case Ok(pairs) =>
        var el := els[|els| - 1];
        match parse(el.name)
        case Err(e) => Err(e)
        case Ok(info) => if info.title == "" then Ok(pairs) else Ok(pairs + [(el, info)])
  }

  /** The record builder for titled elements, as a function value. */
  function TpbRecordOf(cfg: ProviderConfig): ((TPBItem, TorrentInfo)) -> Torrent {
    (p: (TPBItem, TorrentInfo)) => TpbRecord(cfg, p.0, p.1)
  }

  /** The TPB mapping: one record per titled element, or the first parser error. */
  function TpbRecords(cfg: ProviderConfig, parse: Parser, els: seq<TPBItem>): Result<seq<Torrent>, string> {
    match TitledElements(parse, els)
    case Err(e) => Err(e)
    case Ok(pairs) => Ok(MapSeq(TpbRecordOf(cfg), pairs))
  }

  /** The TPB mapping fails exactly when the parser fails on some name. */
  lemma {:induction false} TpbRecordsFails(parse: Parser, els: seq<TPBItem>)
    ensures TitledElements(parse, els).Err? <==> exists i :: 0 <= i < |els| && parse(els[i].name).Err?
  {
    if els != [] {
      var n := |els| - 1;
      var front := els[..n];
      TpbRecordsFails(parse, front);
      if TitledElements(parse, front).Err? {
        var i :| 0 <= i < |front| && parse(front[i].name).Err?;
        assert els[i] == front[i];
      } else {
        forall i | 0 <= i < n ensures parse(els[i].name).Ok? {
          assert els[i] == front[i];
        }
      }
    }
  }

  /** When it fails, it fails with the parser's error on the first name it cannot parse. */
  lemma {:induction false} TpbRecordsFirstError(parse: Parser, els: seq<TPBItem>)
    requires TitledElements(parse, els).Err?
    ensures exists i :: (0 <= i < |els| && parse(els[i].name) == Err(TitledElements(parse, els).error)
      && (forall j :: 0 <= j < i ==> parse(els[j].name).Ok?))
  {
    var n := |els| - 1;
    var front := els[..n];
    if TitledElements(parse, front).Err? {
      TpbRecordsFirstError(parse, front);
      var i :| 0 <= i < n && parse(front[i].name) == Err(TitledElements(parse, front).error)
        && (forall j :: 0 <= j < i ==> parse(front[j].name).Ok?);
      assert forall j :: 0 <= j <= i ==> front[j] == els[j];
    } else {
      TpbRecordsFails(parse, front);
      forall j | 0 <= j < n ensures parse(els[j].name).Ok? {
        assert front[j] == els[j];
      }
    }
  }

  /** The positions of the elements whose name parses to a non-empty title, in order. */
  function TitledIndices(parse: Parser, els: seq<TPBItem>): seq<int> {
    if els == [] then []
    else
      var n := |els| - 1;
      var info := parse(els[n].name);
      TitledIndices(parse, els[..n]) + (if info.Ok? && info.value.title != "" then [n] else [])
  }

  /** `pairs` follows `idx` over `els`: the j-th pair is the element at
      position idx[j] with the parser's reading of it, whose title is not
      empty; the positions strictly increase and are exactly the elements
      whose parsed title is not empty. */
  predicate IndexedBy(parse: Parser, els: seq<TPBItem>, pairs: seq<(TPBItem, TorrentInfo)>, idx: seq<int>) {
    && |pairs| == |idx|
    && (forall j, k :: 0 <= j < k < |idx| ==> idx[j] < idx[k])
    && (forall j :: 0 <= j < |idx| ==>
          0 <= idx[j] < |els| && pairs[j].0 == els[idx[j]]
          && parse(els[idx[j]].name) == Ok(pairs[j].1) && pairs[j].1.title != "")
    && (forall i :: 0 <= i < |els| ==>
          (i in idx <==> parse(els[i].name).Ok? && parse(els[i].name).value.title != ""))
  }

  /** On success the readings correspond, one for one and in order, to the
      elements whose parsed title is not empty. */
  lemma {:induction false} TitledElementsShape(parse: Parser, els: seq<TPBItem>)
    requires TitledElements(parse, els).Ok?
    ensures IndexedBy(parse, els, TitledElements(parse, els).value, TitledIndices(parse, els))
  {
    if els != [] {
      var n := |els| - 1;
      assert TitledElements(parse, els[..n]).Ok?;
      TitledElementsShape(parse, els[..n]);
      var fp, fi := TitledElements(parse, els[..n]).value, TitledIndices(parse, els[..n]);
      var info := parse(els[n].name);
      assert info.Ok?;
      if info.value.title == "" {
        IndexedSkip(parse, els, fp, fi);
      } else {
        IndexedAppend(parse, els, fp, fi);
      }
    }
  }

  /** A last element without a titled reading adds no pair. */
  lemma IndexedSkip(parse: Parser, els: seq<TPBItem>, pairs: seq<(TPBItem, TorrentInfo)>, idx: seq<int>)
    requires |els| > 0 && IndexedBy(parse, els[..|els| - 1], pairs, idx)
    requires var r := parse(els[|els| - 1].name); r.Err? || r.value.title == ""
    ensures IndexedBy(parse, els, pairs, idx)
  {
    var n := |els| - 1;
    assert forall i :: 0 <= i < n ==> els[..n][i] == els[i];
    assert n !in idx;
  }

  /** A last element with a titled reading adds its pair at its position. */
  lemma IndexedAppend(parse: Parser, els: seq<TPBItem>, pairs: seq<(TPBItem, TorrentInfo)>, idx: seq<int>)
    requires |els| > 0 && IndexedBy(parse, els[..|els| - 1], pairs, idx)
    requires var r := parse(els[|els| - 1].name); r.Ok? && r.value.title != ""
    ensures var n := |els| - 1;
      IndexedBy(parse, els, pairs + [(els[n], parse(els[n].name).value)], idx + [n])
  {
    var n := |els| - 1;
    var pairs', idx' := pairs + [(els[n], parse(els[n].name).value)], idx + [n];
    forall j | 0 <= j < |idx'|
      ensures 0 <= idx'[j] < |els| && pairs'[j].0 == els[idx'[j]]
        && parse(els[idx'[j]].name) == Ok(pairs'[j].1) && pairs'[j].1.title != ""
    {
      if j < |idx| {
        assert pairs'[j] == pairs[j] && idx'[j] == idx[j] && els[..n][idx[j]] == els[idx[j]];
      }
    }
    forall i | 0 <= i < |els|
      ensures i in idx' <==> parse(els[i].name).Ok? && parse(els[i].name).value.title != ""
    {
      if i < n {
        assert els[..n][i] == els[i];
        assert i in idx' <==> i in idx;
      }
    }
  }

  /** One more element extends the titled elements when its title is not empty. */
  lemma TpbStep(parse: Parser, els: seq<TPBItem>, i: nat, pairs: seq<(TPBItem, TorrentInfo)>, info: TorrentInfo)
    requires i < |els| && TitledElements(parse, els[..i]) == Ok(pairs) && parse(els[i].name) == Ok(info)
    ensures TitledElements(parse, els[..i + 1]) == Ok(if info.title == "" then pairs else pairs + [(els[i], info)])
  {
    assert els[..i + 1][..i] == els[..i];
  }

  /** The TPB loop: parse each name, stop at an error, skip an empty title,
      build the record. */
  method TransformTpb(cfg: ProviderConfig, parse: Parser, els: seq<TPBItem>) returns (r: Result<seq<Torrent>, string>)
    ensures r == TpbRecords(cfg, parse, els)
  {
    var items: seq<Torrent> := [];
    ghost var pairs: seq<(TPBItem, TorrentInfo)> := [];
    for i := 0 to |els|
      invariant TitledElements(parse, els[..i]) == Ok(pairs)
      invariant items == MapSeq(TpbRecordOf(cfg), pairs)
    {
      var el := els[i];
      var info := parse(el.name);
      if info.Err? {
        r := Err(info.error);
        assert els[..i + 1][..i] == els[..i];
        TpbErrorPersists(parse, els, i + 1);
        return;
      }
      TpbStep(parse, els, i, pairs, info.value);
      if info.value.title == "" {
        continue;
      }
      var item := TpbRecord(cfg, el, info.value);
      assert TpbRecordOf(cfg)((el, info.value)) == TpbRecord(cfg, el, info.value);
      MapSeqAppend(TpbRecordOf(cfg), pairs, (el, info.value));
      pairs := pairs + [(el, info.value)];
      items := items + [item];
    }
    assert els[..|els|] == els;
    r := Ok(items);
  }

  lemma {:induction false} TpbErrorPersists(parse: Parser, els: seq<TPBItem>, n: nat)
    requires n <= |els| && TitledElements(parse, els[..n]).Err?
    ensures TitledElements(parse, els) == TitledElements(parse, els[..n])
    decreases |els| - n
  {
    if n < |els| {
      assert els[..n + 1][..n] == els[..n];
      TpbErrorPersists(parse, els, n + 1);
    } else {
      assert els[..n] == els;
    }
  }

  // ----- the nested YTS catalogue -----

  /** The record for one quality variant of a film. */
  function YtsRecord(cfg: ProviderConfig, film: YtsFilm, variant: YtsTorrent): Torrent {
    Torrent(cfg.name, "movie", film.titleEnglish, film.title, film.year, "yts",
            variant.quality, variant.videoCodec, variant.kind,
            variant.seeds, variant.peers, variant.size, 0, 0,
            MagnetUri(cfg.trackers, variant.hash, film.title))
  }

  /** A YTS record is always a movie of group "yts": its title is the English
      title and its raw title the film's title; resolution, codec and quality
      come from the variant's quality, video codec and type; the size text is
      the variant's; the magnet is built from the variant's hash and the film's title. */
  lemma YtsRecordFields(cfg: ProviderConfig, film: YtsFilm, variant: YtsTorrent)
    ensures var t := YtsRecord(cfg, film, variant);
      && t.kind == "movie" && t.group == "yts" && t.provider == cfg.name
      && t.title == film.titleEnglish && t.originalTitle == film.title && t.year == film.year
      && t.resolution == variant.quality && t.codec == variant.videoCodec && t.quality == variant.kind
      && t.seeds == variant.seeds && t.peers == variant.peers && t.size == variant.size
      && t.season == 0 && t.episode == 0
      && t.magnet == MagnetUri(cfg.trackers, variant.hash, film.title)
  {
  }

  function YtsRecordOf(cfg: ProviderConfig, film: YtsFilm): YtsTorrent -> Torrent {
    (variant: YtsTorrent) => YtsRecord(cfg, film, variant)
  }

  /** One record per quality variant of the film, in order. */
  function FilmRecords(cfg: ProviderConfig, film: YtsFilm): seq<Torrent> {
    MapSeq(YtsRecordOf(cfg, film), film.torrents)
  }

  /** The YTS mapping: films in order, and within a film its variants in order. */
  function YtsRecords(cfg: ProviderConfig, films: seq<YtsFilm>): seq<Torrent> {
    if films == [] then []
    else YtsRecords(cfg, films[..|films| - 1]) + FilmRecords(cfg, films[|films| - 1])
  }

  /** The number of quality variants over all films. */
  function VariantCount(films: seq<YtsFilm>): nat {
    if films == [] then 0 else VariantCount(films[..|films| - 1]) + |films[|films| - 1].torrents|
  }

  /** There is one YTS record per quality variant. */
  lemma {:induction false} YtsRecordsCount(cfg: ProviderConfig, films: seq<YtsFilm>)
    ensures |YtsRecords(cfg, films)| == VariantCount(films)
  {
    if films != [] {
      YtsRecordsCount(cfg, films[..|films| - 1]);
    }
  }

  /** Each YTS record is the record of one variant of one of the films. */
  lemma {:induction false} YtsRecordsSource(cfg: ProviderConfig, films: seq<YtsFilm>, k: nat)
    requires k < |YtsRecords(cfg, films)|
    ensures exists i, j :: (0 <= i < |films| && 0 <= j < |films[i].torrents|
      && YtsRecords(cfg, films)[k] == YtsRecord(cfg, films[i], films[i].torrents[j]))
  {
    var n := |films| - 1;
    var head := YtsRecords(cfg, films[..n]);
    var out := YtsRecords(cfg, films);
    if k < |head| {
      assert out[k] == head[k];
      YtsRecordsSource(cfg, films[..n], k);
      var i, j :| 0 <= i < n && 0 <= j < |films[..n][i].torrents|
        && head[k] == YtsRecord(cfg, films[..n][i], films[..n][i].torrents[j]);
      assert films[..n][i] == films[i];
    } else {
      var j := k - |head|;
      assert out[k] == FilmRecords(cfg, films[n])[j];
      assert out[k] == YtsRecord(cfg, films[n], films[n].torrents[j]);
    }
  }

  /** The YTS loops: for each film, one record per quality variant. */
  method TransformYts(cfg: ProviderConfig, films: seq<YtsFilm>) returns (torrents: seq<Torrent>)
    ensures torrents == YtsRecords(cfg, films)
  {
    torrents := [];
    for i := 0 to |films|
      invariant torrents == YtsRecords(cfg, films[..i])
    {
      var film := films[i];
      ghost var before := torrents;
      for j := 0 to |film.torrents|
        invariant torrents == before + MapSeq(YtsRecordOf(cfg, film), film.torrents[..j])
      {
        var variant := film.torrents[j];
        var torrent := YtsRecord(cfg, film, variant);
        assert YtsRecordOf(cfg, film)(variant) == YtsRecord(cfg, film, variant);
        MapSeqAppend(YtsRecordOf(cfg, film), film.torrents[..j], variant);
        assert film.torrents[..j + 1] == film.torrents[..j] + [variant];
        torrents := torrents + [torrent];
      }
      assert film.torrents[..|film.torrents|] == film.torrents;
      assert films[..i + 1][..i] == films[..i];
    }
    assert films[..|films|] == films;
  }

  // ----- transform2Item: which schema the body has -----

  /** An API response body and how it decodes: as the flat TPB list, and as
      the nested YTS catalogue (None where encoding/json reports an error). */
  datatype ApiBody = ApiBody(asTpb: Option<seq<TPBItem>>, asYts: Option<YtsPopularRootObject>)

  const CastError := "unable to cast type"

  /** The TPB shape is tried first; the YTS shape only when that decode fails. */
  function Transform(cfg: ProviderConfig, parse: Parser, body: ApiBody): Result<seq<Torrent>, string> {
    match body.asTpb
    case Some(els) => TpbRecords(cfg, parse, els)
    case None =>
      match body.asYts
      case Some(root) => Ok(YtsRecords(cfg, root.data.movies))
      case None => Err(CastError)
  }

  method Transform2Item(cfg: ProviderConfig, parse: Parser, body: ApiBody) returns (r: Result<seq<Torrent>, string>)
    ensures body.asTpb.Some? ==> r == TpbRecords(cfg, parse, body.asTpb.value)
    ensures body.asTpb.None? && body.asYts.Some? ==> r == Ok(YtsRecords(cfg, body.asYts.value.data.movies))
    ensures body.asTpb.None? && body.asYts.None? ==> r == Err(CastError)
    ensures r == Transform(cfg, parse, body)
  {
    if body.asTpb.Some? {
      r := TransformTpb(cfg, parse, body.asTpb.value);
      return;
    }
    if body.asYts.Some? {
      var torrents := TransformYts(cfg, body.asYts.value.data.movies);
      return Ok(torrents);
    }
    return Err(CastError);
  }

  // ----- the two fetch modes and the dispatch -----

  /** What the outside world answers: the result rows of a search page, the
      magnet hits of the detail pages in arrival order, and the API client
      (a transport error, or a body). */
  datatype Network = Network(
    searchPage: string -> seq<ScrapedRow>,
    magnetHits: seq<MagnetHit>,
    api: string -> Result<ApiBody, string>)

  /** Scrape mode: the rows of the search page become records, and the detail
      pages' magnet hits decide which are emitted.  Err is a crash. */
  function ScrapeResult(cfg: ProviderConfig, params: SearchParams, parse: Parser, net: Network): Result<seq<Torrent>, string> {
    match DetailFetches(cfg, parse, net.searchPage(SearchUrl(cfg, params.query)))
    case Err(e) => Err(e)
    case Ok(fetches) => Ok(FirstHits(fetches, net.magnetHits))
  }

  /** API mode: a transport error gives no records; a body that fits neither
      schema, or a parser error, ends in logger.Panic, which is the Err here. */
  function ApiResult(cfg: ProviderConfig, params: SearchParams, parse: Parser, net: Network): Result<seq<Torrent>, string> {
    match net.api(SearchUrl(cfg, params.query))
    case Err(_) => Ok([])
    case Ok(body) => Transform(cfg, parse, body)
  }

  function Fetch(cfg: ProviderConfig, params: SearchParams, parse: Parser, net: Network): Result<seq<Torrent>, string> {
    if cfg.kind == "html" then ScrapeResult(cfg, params, parse, net) else ApiResult(cfg, params, parse, net)
  }

  method FetchByScrape(cfg: ProviderConfig, params: SearchParams, parse: Parser, net: Network)
    returns (r: Result<seq<Torrent>, string>)
    ensures r == ScrapeResult(cfg, params, parse, net)
  {
    var url := cfg.baseUrl + ReplaceFirst(cfg.searchUrl, QueryPlaceholder, params.query);
    var fetches := ScheduleDetailFetches(cfg, parse, net.searchPage(url));
    if fetches.Err? {
      return Err(fetches.error);
    }
    var torrents := CollectMagnets(fetches.value, net.magnetHits);
    return Ok(torrents);
  }

  method FetchByApi(cfg: ProviderConfig, params: SearchParams, parse: Parser, net: Network)
    returns (r: Result<seq<Torrent>, string>)
    ensures r == ApiResult(cfg, params, parse, net)
  {
    var url := cfg.baseUrl + ReplaceFirst(cfg.searchUrl, QueryPlaceholder, params.query);
    var resp := net.api(url);
    if resp.Err? {
      return Ok([]);
    }
    r := Transform2Item(cfg, parse, resp.value);
  }

  /** FetchAndParse: providers of type "html" are scraped, all others asked as an API. */
  method FetchAndParse(cfg: ProviderConfig, params: SearchParams, parse: Parser, net: Network)
    returns (r: Result<seq<Torrent>, string>)
    ensures cfg.kind == "html" ==> r == ScrapeResult(cfg, params, parse, net)
    ensures cfg.kind != "html" ==> r == ApiResult(cfg, params, parse, net)
    ensures r == Fetch(cfg, params, parse, net)
  {
    if cfg.kind == "html" {
      r := FetchByScrape(cfg, params, parse, net);
      return;
    }
    r := FetchByApi(cfg, params, parse, net);
  }
}
