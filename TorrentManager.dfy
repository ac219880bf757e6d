/**
 * The torrent manager: the post-filter every search result goes through
 * (per-item filter stages, then a sort by size), the enabled-provider
 * selection and the single-provider search.  Configuration files are read
 * by a function given as input; the network and the release-name parser are
 * the inputs TorrentProvider takes.
 */
module TorrentManager {
  import opened Wrappers
  import opened GoStrings
  import opened GoStrconv
  import opened TorrentTypes
  import opened Sizes
  import opened TorrentProvider

  // ----- filtering a list, order kept -----

  /** The elements of `xs` that satisfy `p`, in their order: a loop appending survivors. */
  function Filter<T>(p: T -> bool, xs: seq<T>): (ys: seq<T>)
    ensures |ys| <= |xs|
  {
    if xs == [] then []
    else Filter(p, xs[..|xs| - 1]) + (if p(xs[|xs| - 1]) then [xs[|xs| - 1]] else [])
  }

  /** One more element is appended exactly when it satisfies `p`. */
  lemma FilterStep<T>(p: T -> bool, xs: seq<T>, x: T)
    ensures Filter(p, xs + [x]) == Filter(p, xs) + (if p(x) then [x] else [])
  {
    assert (xs + [x])[..|xs|] == xs;
  }

  /** The survivors are exactly the elements that satisfy `p`. */
  lemma {:induction false} FilterMembers<T>(p: T -> bool, xs: seq<T>, x: T)
    ensures x in Filter(p, xs) <==> x in xs && p(x)
  {
    if xs != [] {
      var init := xs[..|xs| - 1];
      FilterMembers(p, init, x);
      assert xs == init + [xs[|xs| - 1]];
    }
  }

  /** Filtering a concatenation filters each part: the relative order is kept. */
  lemma {:induction false} FilterAppend<T>(p: T -> bool, a: seq<T>, b: seq<T>)
    ensures Filter(p, a + b) == Filter(p, a) + Filter(p, b)
  {
    if b == [] {
      assert a + b == a;
    } else {
      var init := b[..|b| - 1];
      var x := b[|b| - 1];
      assert a + b == (a + init) + [x];
      assert b == init + [x];
      FilterAppend(p, a, init);
      FilterStep(p, a + init, x);
      FilterStep(p, init, x);
    }
  }

  /** A list whose every element satisfies `p` passes through unchanged. */
  lemma {:induction false} FilterAll<T>(p: T -> bool, xs: seq<T>)
    requires forall k :: 0 <= k < |xs| ==> p(xs[k])
    ensures Filter(p, xs) == xs
  {
    if xs != [] {
      FilterAll(p, xs[..|xs| - 1]);
      assert xs == xs[..|xs| - 1] + [xs[|xs| - 1]];
    }
  }

  // ----- the active providers -----

  predicate IsEnabled(cfg: ProviderConfig) { cfg.enabled }

  /** GetActiveProviders: the loaded configurations whose Enabled flag is set,
      in load order; a load error is passed on. */
  method GetActiveProviders(loaded: Result<seq<ProviderConfig>, string>)
    returns (r: Result<seq<ProviderConfig>, string>)
    ensures loaded.Err? ==> r == Err(loaded.error)
    ensures loaded.Ok? ==> r == Ok(Filter(IsEnabled, loaded.value))
  {
    if loaded.Err? {
      return Err(loaded.error);
    }
    var cfgs := loaded.value;
    var config: seq<ProviderConfig> := [];
    for i := 0 to |cfgs|
      invariant config == Filter(IsEnabled, cfgs[..i])
    {
      FilterStep(IsEnabled, cfgs[..i], cfgs[i]);
      assert cfgs[..i + 1] == cfgs[..i] + [cfgs[i]];
      if cfgs[i].enabled {
        config := config + [cfgs[i]];
      }
    }
    assert cfgs[..|cfgs|] == cfgs;
    return Ok(config);
  }

  /** The active providers are exactly the enabled ones. */
  lemma ActiveProvidersExactly(cfgs: seq<ProviderConfig>, c: ProviderConfig)
    ensures c in Filter(IsEnabled, cfgs) <==> c in cfgs && c.enabled
  {
    FilterMembers(IsEnabled, cfgs, c);
  }

  /** Selecting from two batches of files selects from each, keeping load order. */
  lemma ActiveProvidersInOrder(a: seq<ProviderConfig>, b: seq<ProviderConfig>)
    ensures Filter(IsEnabled, a + b) == Filter(IsEnabled, a) + Filter(IsEnabled, b)
  {
    FilterAppend(IsEnabled, a, b);
  }

  // ----- the size windows -----

  /** sizeToBytes("700 MB") and sizeToBytes("3 GB"): the movie window. */
  const MinMovieSize: int := 734003200
  const MaxMovieSize: int := 3221225472
  /** sizeToBytes("250 MB") and sizeToBytes("1.5 GB"): the episode window. */
  const MinSerieSize: int := 262144000
  const MaxSerieSize: int := 1610612736

  lemma DigitsOf700(s: string)
    requires s == "700"
    ensures AllDigits(s) && DigitsValue(s) == 700
  {
    assert s[..2] == "70" && s[..2][..1] == "7" && s[..2][..1][..0] == "";
    assert DigitsValue("7") == 7;
    assert DigitsValue("70") == 70;
  }

  lemma DigitsOf250(s: string)
    requires s == "250"
    ensures AllDigits(s) && DigitsValue(s) == 250
  {
    assert s[..2] == "25" && s[..2][..1] == "2" && s[..2][..1][..0] == "";
    assert DigitsValue("2") == 2;
    assert DigitsValue("25") == 25;
  }

  /** "700 MB" is 700 mebibytes. The text is a parameter fixed by `requires` so that the verifier unfolds the literal only as far as the proof needs. */
  lemma SizeExample700MB(s: string)
    requires s == "700 MB"
    ensures SizeToBytes(s) == Ok(MinMovieSize)
  {
    UpperUnits();
    DigitsOf700("700");
    assert NumberValue("", "700", "") == Decimal(false, 700, 0) by {
      assert "700" + "" == "700";
    }
    assert Times1024(700, 2) == 734003200;
    ReadNumber(s, "700", "", "MB");
  }

  /** "250 MB" is 250 mebibytes. The text is a parameter fixed by `requires` so that the verifier unfolds the literal only as far as the proof needs. */
  lemma SizeExample250MB(s: string)
    requires s == "250 MB"
    ensures SizeToBytes(s) == Ok(MinSerieSize)
  {
    UpperUnits();
    DigitsOf250("250");
    assert NumberValue("", "250", "") == Decimal(false, 250, 0) by {
      assert "250" + "" == "250";
    }
    assert Times1024(250, 2) == 262144000;
    ReadNumber(s, "250", "", "MB");
  }

  /** "3 GB" is 3 gibibytes. The text is a parameter fixed by `requires` so that the verifier unfolds the literal only as far as the proof needs. */
  lemma SizeExample3GB(s: string)
    requires s == "3 GB"
    ensures SizeToBytes(s) == Ok(MaxMovieSize)
  {
    UpperUnits();
    assert NumberValue("", "3", "") == Decimal(false, 3, 0) by {
      assert "3" + "" == "3" && "3"[..0] == "";
      assert DigitsValue("3") == 3;
    }
    assert Times1024(3, 3) == 3221225472;
    ReadNumber(s, "3", "", "GB");
  }

  /** What `x, _ := sizeToBytes(s)` leaves in x: the value, or 0 on an error. */
  function BytesOrZero(r: Result<int, SizeError>): int {
    match r
    case Ok(n) => n
    case Err(_) => 0
  }

  /** The four window bounds, read from their texts as postFilter does. */
  method SizeBounds() returns (minSize: int, maxSize: int, minSerieSize: int, maxSerieSize: int)
    ensures minSize == MinMovieSize && maxSize == MaxMovieSize
    ensures minSerieSize == MinSerieSize && maxSerieSize == MaxSerieSize
  {
    var minText, maxText, minSerieText, maxSerieText := "700 MB", "3 GB", "250 MB", "1.5 GB";
    SizeExample700MB(minText);
    SizeExample3GB(maxText);
    SizeExample250MB(minSerieText);
    SizeExampleFraction(maxSerieText);
    minSize := BytesOrZero(SizeToBytes(minText));
    maxSize := BytesOrZero(SizeToBytes(maxText));
    minSerieSize := BytesOrZero(SizeToBytes(minSerieText));
    maxSerieSize := BytesOrZero(SizeToBytes(maxSerieText));
  }

  // ----- the filter stages -----

  /** The resolution stage: a set filter must occur in the item's resolution, ignoring case. */
  predicate ResolutionMatches(item: Torrent, f: ParamFilters) {
    f.resolution == "" || Contains(ToLower(item.resolution), ToLower(f.resolution))
  }

  /** The group stage: a set filter must occur in the group or in the lower-cased original title. */
  predicate GroupMatches(item: Torrent, f: ParamFilters) {
    f.group == "" || Contains(item.group, f.group) || Contains(ToLower(item.originalTitle), f.group)
  }

  /** The title stage as written: the title equals the filter ignoring case,
      and the original title does not. */
  predicate TitleMatches(item: Torrent, f: ParamFilters) {
    EqualFold(item.title, f.title) && !EqualFold(item.originalTitle, f.title)
  }

  /** The camera-rip stage. */
  predicate IsCam(item: Torrent) {
    EqualFold(item.quality, "HDCAM")
  }

  /** The size stage, by type: movies and episodes must fall in their window
      (episodes must also match the season or the episode filter); any other
      type passes. */
  predicate SizeFits(item: Torrent, f: ParamFilters, bytes: int) {
    if item.kind == "movie" then
      MinMovieSize <= bytes <= MaxMovieSize
    else if item.kind == "serie" then
      MinSerieSize <= bytes <= MaxSerieSize && (item.season == f.season || item.episode == f.episode)
    else true
  }

  /** The stages after the size reading, given the bytes it read. */
  predicate Passes(item: Torrent, f: ParamFilters, bytes: int) {
    && ResolutionMatches(item, f)
    && GroupMatches(item, f)
    && TitleMatches(item, f)
    && !IsCam(item)
    && SizeFits(item, f, bytes)
  }

  /** An item survives the filter loop: its size reads, and every stage passes. */
  predicate Keep(item: Torrent, f: ParamFilters) {
    var size := SizeToBytes(item.size);
    size.Ok? && Passes(item, f, size.value)
  }

  function KeepOf(f: ParamFilters): Torrent -> bool {
    item => Keep(item, f)
  }

  /** The survivors of the filter loop, in input order. */
  function Kept(items: seq<Torrent>, f: ParamFilters): seq<Torrent> {
    Filter(KeepOf(f), items)
  }

  // ----- the sort -----

  /** The byte count of an item's size, 0 when it does not read. */
  function SizeBytes(item: Torrent): int {
    BytesOrZero(SizeToBytes(item.size))
  }

  /** The sort.Slice comparator: both sizes read and the first is smaller;
      false whenever either does not read. */
  predicate SizeLess(x: Torrent, y: Torrent) {
    var a, b := SizeToBytes(x.size), SizeToBytes(y.size);
    a.Ok? && b.Ok? && a.value < b.value
  }

  predicate SortedBy<T>(s: seq<T>, key: T -> int) {
    forall p, q :: 0 <= p < q < |s| ==> key(s[p]) <= key(s[q])
  }

  /** Sorting in place by an integer key, by insertion: the array ends up
      ordered by the key and holds the same elements. */
  method SortByKey<T>(a: array<T>, key: T -> int)
    modifies a
    ensures SortedBy(a[..], key)
    ensures multiset(a[..]) == multiset(old(a[..]))
  {
    for i := 0 to a.Length
      invariant forall p, q :: 0 <= p < q < i ==> key(a[p]) <= key(a[q])
      invariant multiset(a[..]) == multiset(old(a[..]))
    {
      Insert(a, i, key);
    }
  }

  /** One insertion step: a[i] moves left past every larger key, so a[..i+1]
      is ordered and the rest of the array is untouched. */
  method Insert<T>(a: array<T>, i: nat, key: T -> int)
    requires i < a.Length
    requires forall p, q :: 0 <= p < q < i ==> key(a[p]) <= key(a[q])
    modifies a
    ensures forall p, q :: 0 <= p < q <= i ==> key(a[p]) <= key(a[q])
    ensures multiset(a[..]) == multiset(old(a[..]))
    ensures a[i + 1..] == old(a[i + 1..])
  {
    var j := i;
    while j > 0 && key(a[j]) < key(a[j - 1])
      invariant 0 <= j <= i
      invariant a[i + 1..] == old(a[i + 1..])
      invariant Inserting(a[..], key, i, j)
      invariant multiset(a[..]) == multiset(old(a[..]))
    {
      ghost var s := a[..];
      InsertStep(s, key, i, j);
      a[j - 1], a[j] := a[j], a[j - 1];
      assert a[..] == s[j - 1 := s[j]][j := s[j - 1]];
      j := j - 1;
    }
    InsertDone(a[..], key, i, j);
  }

  /** While a[i] moves left to position j: a[..i+1] without position j is
      ordered, and every key after j is larger than the moving one. */
  predicate Inserting<T>(s: seq<T>, key: T -> int, i: nat, j: nat)
    requires j <= i < |s|
  {
    && (forall p, q :: 0 <= p < q <= i && p != j && q != j ==> key(s[p]) <= key(s[q]))
    && (forall q :: j < q <= i ==> key(s[j]) < key(s[q]))
  }

  /** Swapping the moving element with a larger left neighbour moves it one place. */
  lemma InsertStep<T>(s: seq<T>, key: T -> int, i: nat, j: nat)
    requires 0 < j <= i < |s| && Inserting(s, key, i, j) && key(s[j]) < key(s[j - 1])
    ensures Inserting(s[j - 1 := s[j]][j := s[j - 1]], key, i, j - 1)
    ensures multiset(s[j - 1 := s[j]][j := s[j - 1]]) == multiset(s)
  {
  }

  /** The moving element stops at the front or behind a key no larger than its own. */
  lemma InsertDone<T>(s: seq<T>, key: T -> int, i: nat, j: nat)
    requires j <= i < |s| && Inserting(s, key, i, j)
    requires j == 0 || key(s[j - 1]) <= key(s[j])
    ensures forall p, q :: 0 <= p < q <= i ==> key(s[p]) <= key(s[q])
  {
  }

  /** postFilter: the loop drops the items a stage rejects, then the
      survivors are sorted by size.  The result holds exactly the survivors
      and no item is smaller than one before it. */
  method PostFilter(items: seq<Torrent>, params: SearchParams) returns (filtered: seq<Torrent>)
    ensures multiset(filtered) == multiset(Kept(items, params.filters))
    ensures SortedBy(filtered, SizeBytes)
    ensures forall p, q :: 0 <= p < q < |filtered| ==> !SizeLess(filtered[q], filtered[p])
  {
    var f := params.filters;
    var minSize, maxSize, minSerieSize, maxSerieSize := SizeBounds();
    var kept: seq<Torrent> := [];
    for i := 0 to |items|
      invariant kept == Kept(items[..i], f)
    {
      var item := items[i];
      KeptStep(items, f, i);
      var size := SizeToBytes(item.size);
      if size.Err? {
        continue;
      }
      var bytes := size.value;
      if !ResolutionMatches(item, f) {
        continue;
      }
      if !GroupMatches(item, f) {
        continue;
      }
      if !TitleMatches(item, f) {
        continue;
      }
      if IsCam(item) {
        continue;
      }
      if item.kind == "movie" {
        if bytes < minSize || bytes > maxSize {
          continue;
        }
      } else if item.kind == "serie" {
        if bytes < minSerieSize || bytes > maxSerieSize {
          continue;
        }
        if item.season != f.season && item.episode != f.episode {
          continue;
        }
      }
      kept := kept + [item];
    }
    assert items[..|items|] == items;
    var a := new Torrent[|kept|](k requires 0 <= k < |kept| => kept[k]);
    assert a[..] == kept;
    SortByKey(a, SizeBytes);
    filtered := a[..];
    SortedNoInversion(filtered);
  }

  /** The loop step: item i is appended exactly when it is kept. */
  lemma KeptStep(items: seq<Torrent>, f: ParamFilters, i: nat)
    requires i < |items|
    ensures Kept(items[..i + 1], f) == Kept(items[..i], f) + (if Keep(items[i], f) then [items[i]] else [])
  {
    assert items[..i + 1] == items[..i] + [items[i]];
    FilterStep(KeepOf(f), items[..i], items[i]);
  }

  /** On a list sorted by bytes, the comparator never finds a later item
      smaller than an earlier one: where both sizes read it compares the
      same bytes, and otherwise it answers false. */
  lemma SortedNoInversion(out: seq<Torrent>)
    requires SortedBy(out, SizeBytes)
    ensures forall p, q :: 0 <= p < q < |out| ==> !SizeLess(out[q], out[p])
  {
    forall p, q | 0 <= p < q < |out|
      ensures !SizeLess(out[q], out[p])
    {
      assert SizeBytes(out[p]) <= SizeBytes(out[q]);
    }
  }

  // ----- what the filter promises -----

  /** The survivors are exactly the input items that pass every stage. */
  lemma KeptMembers(items: seq<Torrent>, f: ParamFilters, x: Torrent)
    ensures x in Kept(items, f) <==> x in items && Keep(x, f)
  {
    FilterMembers(KeepOf(f), items, x);
  }

  /** Every item postFilter returns came from its input, has a size that
      reads, matches the resolution and group filters when they are set,
      has the filter title (ignoring case) but not as its original title,
      and is not a camera rip. */
  lemma PostFilterItem(items: seq<Torrent>, f: ParamFilters, out: seq<Torrent>, x: Torrent)
    requires multiset(out) == multiset(Kept(items, f))
    requires x in out
    ensures x in items
    ensures SizeToBytes(x.size).Ok?
    ensures f.resolution != "" ==> Contains(ToLower(x.resolution), ToLower(f.resolution))
    ensures f.group != "" ==> Contains(x.group, f.group) || Contains(ToLower(x.originalTitle), f.group)
    ensures ToLower(x.title) == ToLower(f.title) && ToLower(x.originalTitle) != ToLower(f.title)
    ensures ToLower(x.quality) != "hdcam"
  {
    assert x in multiset(out);
    KeptMembers(items, f, x);
    KeepMeans(x, f);
  }

  /** What passing every stage says about an item. */
  lemma KeepMeans(x: Torrent, f: ParamFilters)
    requires Keep(x, f)
    ensures SizeToBytes(x.size).Ok?
    ensures f.resolution != "" ==> Contains(ToLower(x.resolution), ToLower(f.resolution))
    ensures f.group != "" ==> Contains(x.group, f.group) || Contains(ToLower(x.originalTitle), f.group)
    ensures ToLower(x.title) == ToLower(f.title) && ToLower(x.originalTitle) != ToLower(f.title)
    ensures ToLower(x.quality) != "hdcam"
  {
    CamLower("HDCAM");
  }

  /** Helper for KeepMeans: the lower-cased camera quality. */
  lemma CamLower(s: string)
    requires s == "HDCAM"
    ensures ToLower(s) == "hdcam"
  {
  }

  /** With the title filter left empty, only items with an empty title and a
      non-empty original title survive. */
  lemma EmptyTitleFilter(item: Torrent, f: ParamFilters)
    requires f.title == "" && Keep(item, f)
    ensures item.title == "" && item.originalTitle != ""
  {
    assert |ToLower(item.title)| == |ToLower(f.title)| == 0;
  }

  /** A movie that passes the other stages is kept exactly when its size lies
      between sizeToBytes("700 MB") and sizeToBytes("3 GB"), both included.
      The bound texts are parameters fixed by `requires` so that the verifier
      unfolds the literals only as far as the proof needs. */
  lemma MovieWindow(item: Torrent, f: ParamFilters, lo: string, hi: string)
    requires lo == "700 MB" && hi == "3 GB"
    requires item.kind == "movie" && SizeToBytes(item.size).Ok?
    requires ResolutionMatches(item, f) && GroupMatches(item, f) && TitleMatches(item, f) && !IsCam(item)
    ensures SizeToBytes(lo).Ok? && SizeToBytes(hi).Ok?
    ensures Keep(item, f) <==> SizeToBytes(lo).value <= SizeToBytes(item.size).value <= SizeToBytes(hi).value
  {
    SizeExample700MB(lo);
    SizeExample3GB(hi);
    SizeStage(item, f);
  }

  /** An episode that passes the other stages is kept exactly when its size
      lies between sizeToBytes("250 MB") and sizeToBytes("1.5 GB") and its
      season or its episode number matches the filter.  The bound texts are
      parameters fixed by `requires` so that the verifier unfolds the literals
      only as far as the proof needs. */
  lemma SerieWindow(item: Torrent, f: ParamFilters, lo: string, hi: string)
    requires lo == "250 MB" && hi == "1.5 GB"
    requires item.kind == "serie" && SizeToBytes(item.size).Ok?
    requires ResolutionMatches(item, f) && GroupMatches(item, f) && TitleMatches(item, f) && !IsCam(item)
    ensures SizeToBytes(lo).Ok? && SizeToBytes(hi).Ok?
    ensures Keep(item, f) <==>
      && SizeToBytes(lo).value <= SizeToBytes(item.size).value <= SizeToBytes(hi).value
      && (item.season == f.season || item.episode == f.episode)
  {
    SizeExample250MB(lo);
    SizeExampleFraction(hi);
    SizeStage(item, f);
  }

  /** Once the other stages pass, the size stage decides. */
  lemma SizeStage(item: Torrent, f: ParamFilters)
    requires SizeToBytes(item.size).Ok?
    requires ResolutionMatches(item, f) && GroupMatches(item, f) && TitleMatches(item, f) && !IsCam(item)
    ensures Keep(item, f) <==> SizeFits(item, f, SizeToBytes(item.size).value)
  {
  }

  /** For any type other than "movie" and "serie" the size only has to read:
      two readable sizes are kept alike. */
  lemma OtherKindsIgnoreSize(item: Torrent, f: ParamFilters, size: string)
    requires item.kind != "movie" && item.kind != "serie"
    requires SizeToBytes(item.size).Ok? && SizeToBytes(size).Ok?
    ensures Keep(item, f) <==> Keep(item.(size := size), f)
  {
    var other := item.(size := size);
    assert ResolutionMatches(item, f) == ResolutionMatches(other, f);
    assert GroupMatches(item, f) == GroupMatches(other, f);
    assert TitleMatches(item, f) == TitleMatches(other, f);
    assert IsCam(item) == IsCam(other);
  }

  /** postFilter applied to its own output with the same filters keeps every
      item: the survivors of a reordering of survivors are that reordering. */
  lemma PostFilterStable(items: seq<Torrent>, f: ParamFilters, out: seq<Torrent>)
    requires multiset(out) == multiset(Kept(items, f))
    ensures Kept(out, f) == out
  {
    forall k | 0 <= k < |out|
      ensures KeepOf(f)(out[k])
    {
      assert out[k] in multiset(out);
      KeptMembers(items, f, out[k]);
    }
    FilterAll(KeepOf(f), out);
  }

  // ----- a search against one provider -----

  /** Where a provider's configuration file lives. */
  const ConfigDir: string := "./internal/providers/config/"

  /** The file loadProviderConfig opens for a provider name. */
  function ConfigPath(provider: string): string {
    ConfigDir + provider + ".json"
  }

  /** The provider name is read back from between the directory and the
      extension of its path, so distinct names give distinct path strings. */
  lemma ConfigPathNamesProvider(provider: string)
    ensures var path := ConfigPath(provider);
      |path| == |ConfigDir| + |provider| + 5 && path[|ConfigDir|..|path| - 5] == provider
  {
    var path := ConfigPath(provider);
    assert path == ConfigDir + (provider + ".json");
    assert path[|ConfigDir|..] == provider + ".json";
  }

  lemma ConfigPathInjective(p: string, q: string)
    requires ConfigPath(p) == ConfigPath(q)
    ensures p == q
  {
    ConfigPathNamesProvider(p);
    ConfigPathNamesProvider(q);
  }

  /** Why a single-provider search fails: its configuration file could not be
      opened (returned as an error), or the provider crashed (a panic). */
  datatype ProviderError =
    | ConfigError(message: string)
    | Crashed(message: string)

  /** FetchByProvider: load the provider's configuration, fetch, post-filter.
      `readConfig` opens and decodes a configuration file. */
  method FetchByProvider(readConfig: string -> Result<ProviderConfig, string>, provider: string,
                         params: SearchParams, parse: Parser, net: Network)
    returns (r: Result<seq<Torrent>, ProviderError>)
    ensures readConfig(ConfigPath(provider)).Err? ==>
      r == Err(ConfigError(readConfig(ConfigPath(provider)).error))
    ensures readConfig(ConfigPath(provider)).Ok? ==>
      var fetched := Fetch(readConfig(ConfigPath(provider)).value, params, parse, net);
      && (fetched.Err? ==> r == Err(Crashed(fetched.error)))
      && (fetched.Ok? ==> r.Ok? && multiset(r.value) == multiset(Kept(fetched.value, params.filters))
                          && SortedBy(r.value, SizeBytes))
  {
    var cfg := readConfig(ConfigPath(provider));
    if cfg.Err? {
      return Err(ConfigError(cfg.error));
    }
    var torrents := FetchAndParse(cfg.value, params, parse, net);
    if torrents.Err? {
      return Err(Crashed(torrents.error));
    }
    var filtered := PostFilter(torrents.value, params);
    return Ok(filtered);
  }
}
