/** `cacheData`: fetch every URL again and replace the cache folder by a new
    snapshot, the keyword-count table and one link file per host. */
module Snapshot {
  import opened PyStr
  import opened Monitor

  /** An absolute web link, the only kind the link files keep. */
  predicate IsWebLink(h: string) {
    StartsWith(h, "https://") || StartsWith(h, "http://")
  }

  /** A link-file name that `open(..., 'w+')` accepts: `cleanUrl` never
      yields a `/`, so only these three names resolve to a directory. */
  predicate ProperName(name: string) {
    name != "" && name != "." && name != ".."
  }

  /** The rows one fetched page contributes, one per keyword in keyword
      order: the lowered word and its count in the lowered text. */
  function PageRows(url: string, keys: seq<string>, text: string): seq<Row> {
    seq(|keys|, k requires 0 <= k < |keys| => Row(url, Lower(keys[k]), Count(Lower(text), Lower(keys[k]))))
  }

  /** The link list written for a page: the present hrefs that are web
      links, in document order. */
  function StoredLinks(hrefs: seq<Option<string>>): (links: seq<string>)
    ensures |links| <= |hrefs|
    ensures forall l :: l in links <==> exists i :: 0 <= i < |hrefs| && hrefs[i] == Some(l) && IsWebLink(l)
  {
    if hrefs == [] then []
    else
      var last := hrefs[|hrefs| - 1];
      var links := StoredLinks(hrefs[..|hrefs| - 1]);
      assert forall i :: 0 <= i < |hrefs| - 1 ==> hrefs[..|hrefs| - 1][i] == hrefs[i];
      links + (if last.Some? && IsWebLink(last.value) then [last.value] else [])
  }

  /** One anchor keeps its href exactly when the href is a web link. */
  lemma StoredLinksOne(h: Option<string>)
    ensures StoredLinks([h]) == if h.Some? && IsWebLink(h.value) then [h.value] else []
  {
    assert [h][..0] == [];
  }

  /** The links of two runs of anchors are those of the first followed by
      those of the second: document order and repeats are kept. */
  lemma {:induction false} StoredLinksAppend(a: seq<Option<string>>, b: seq<Option<string>>)
    ensures StoredLinks(a + b) == StoredLinks(a) + StoredLinks(b)
    decreases |b|
  {
    if b == [] {
      assert a + b == a;
    } else {
      var init := b[..|b| - 1];
      assert (a + b)[..|a + b| - 1] == a + init;
      assert (a + b)[|a + b| - 1] == b[|b| - 1];
      StoredLinksAppend(a, init);
    }
  }

  /** What the URL loop of `cacheData` has produced: the rows, the link
      files written, and the error that stopped it, if any. */
  datatype Built = Built(rows: seq<Row>, siteCaches: map<string, string>, failed: Option<Error>)

  /** The URL loop of `cacheData` over `urls` in iteration order. A URL that
      fails to fetch adds nothing; a fetched one adds its rows and then
      writes its link file, which a later URL with the same host
      overwrites; a name that is a directory stops the loop. */
  function Build(urls: seq<string>, keys: seq<string>, fetch: Fetcher): Built
    decreases |urls|
  {
    if urls == [] then Built([], map[], None)
    else
      var prev := Build(urls[..|urls| - 1], keys, fetch);
      var url := urls[|urls| - 1];
      if prev.failed.Some? then prev
      else match fetch(url)
        case None => prev
        case Some(page) =>
          var rows := prev.rows + PageRows(url, keys, page.text);
          var name := CleanUrl(url);
          if !ProperName(name) then Built(rows, prev.siteCaches, Some(UnwritableLinkFile(name)))
          else Built(rows, prev.siteCaches[name := Join(StoredLinks(page.hrefs))], None)
  }

  /** `shutil.rmtree(dir)` */
  function RemoveTree(fs: FileSystem, dir: Path): (r: FileSystem)
    ensures forall p :: r.IsDir(p) <==> fs.IsDir(p) && !Under(p, dir)
    ensures forall p :: r.IsFile(p) <==> fs.IsFile(p) && !Under(p, dir)
  {
    FileSystem(set p | p in fs.dirs && !Under(p, dir), set p | p in fs.files && !Under(p, dir))
  }

  /** The cache folder after `shutil.rmtree` when it is a directory. */
  function ClearCache(fs: FileSystem, cacheFolder: Path): FileSystem {
    if fs.IsDir(cacheFolder) then RemoveTree(fs, cacheFolder) else fs
  }

  datatype Outcome = Done(state: State) | Failed(error: Error, state: State)

  /** The whole effect of `cacheData` on the state. */
  function Rebuild(st: State, project: Path, urls: seq<string>, keys: seq<string>, fetch: Fetcher): Outcome {
    var inputFolder := InputFolder(project);
    var cacheFolder := CacheFolder(project);
    if !InputValid(st.fs, inputFolder) then
      Failed(InvalidInputFolder, st)
    else
      var cleared := ClearCache(st.fs, cacheFolder);
      if Exists(cleared, cacheFolder) then Failed(CacheFolderNotCreatable, st)
      else
        var fs := FileSystem(cleared.dirs + {cacheFolder, SiteCachesDir(cacheFolder)}, cleared.files);
        var b := Build(urls, keys, fetch);
        if b.failed.Some? then Failed(b.failed.value, State(fs, CacheContents(None, b.siteCaches)))
        else Done(State(FileSystem(fs.dirs, fs.files + {KeywordCountFile(cacheFolder)}), CacheContents(Some(b.rows), b.siteCaches)))
  }

  /** The rows `cacheData` appends for one fetched page, one keyword at a
      time. */
  method CountKeywords(url: string, keys: seq<string>, text: string) returns (pageRows: seq<Row>)
    ensures pageRows == PageRows(url, keys, text)
  {
    pageRows := [];
    var k := 0;
    while k < |keys|
      invariant 0 <= k <= |keys|
      invariant pageRows == PageRows(url, keys[..k], text)
    {
      assert PageRows(url, keys[..k + 1], text)
        == PageRows(url, keys[..k], text) + [Row(url, Lower(keys[k]), Count(Lower(text), Lower(keys[k])))];
      pageRows := pageRows + [Row(url, Lower(keys[k]), Count(Lower(text), Lower(keys[k])))];
      k := k + 1;
    }
    assert keys[..k] == keys;
  }

  /** The `linkContent` loop of `cacheData`. */
  method CollectLinks(hrefs: seq<Option<string>>) returns (linkContent: seq<string>)
    ensures linkContent == StoredLinks(hrefs)
  {
    linkContent := [];
    var j := 0;
    while j < |hrefs|
      invariant 0 <= j <= |hrefs|
      invariant linkContent == StoredLinks(hrefs[..j])
    {
      assert hrefs[..j + 1][..j] == hrefs[..j];
      var href := hrefs[j];
      if href.Some? {
        if StartsWith(href.value, "https://") || StartsWith(href.value, "http://") {
          linkContent := linkContent + [href.value];
        }
      }
      j := j + 1;
    }
    assert hrefs[..j] == hrefs;
  }

  /** The URL loop of `cacheData`: rows, link files, and the error that
      stopped it. */
  method FetchAll(urls: seq<string>, keys: seq<string>, fetch: Fetcher)
    returns (rows: seq<Row>, siteCaches: map<string, string>, failed: Option<Error>)
    ensures Built(rows, siteCaches, failed) == Build(urls, keys, fetch)
  {
    rows := [];
    siteCaches := map[];
    failed := None;
    var i := 0;
    while i < |urls|
      invariant 0 <= i <= |urls|
      invariant Build(urls[..i], keys, fetch) == Built(rows, siteCaches, None)
    {
      var url := urls[i];
      assert urls[..i + 1][..i] == urls[..i];
      match fetch(url) {
        case None =>
        case Some(page) =>
          var pageRows := CountKeywords(url, keys, page.text);
          rows := rows + pageRows;
          var linkContent := CollectLinks(page.hrefs);
          var name := CleanUrl(url);
          if !ProperName(name) {
            failed := Some(UnwritableLinkFile(name));
            BuildStopped(urls, keys, fetch, i + 1);
            return;
          }
          siteCaches := siteCaches[name := Join(linkContent)];
      }
      i := i + 1;
    }
    assert urls[..i] == urls;
  }

  /** `cacheData` */
  method CacheData(st: State, project: Path, urls: seq<string>, keys: seq<string>, fetch: Fetcher)
    returns (out: Outcome)
    ensures out == Rebuild(st, project, urls, keys, fetch)
  {
    var inputFolder := InputFolder(project);
    var cacheFolder := CacheFolder(project);
    var inputOk := InputFolderIsValid(st.fs, inputFolder);
    if !inputOk {
      out := Failed(InvalidInputFolder, st);
      return;
    }
    var fs := st.fs;
    if fs.IsDir(cacheFolder) {
      fs := RemoveTree(fs, cacheFolder);
    }
    if fs.IsFile(cacheFolder) || fs.IsDir(cacheFolder) {
      out := Failed(CacheFolderNotCreatable, st);
      return;
    }
    ghost var cleared := fs;
    fs := FileSystem(fs.dirs + {cacheFolder}, fs.files);
    fs := FileSystem(fs.dirs + {SiteCachesDir(cacheFolder)}, fs.files);
    assert fs == FileSystem(cleared.dirs + {cacheFolder, SiteCachesDir(cacheFolder)}, cleared.files);
    var rows, siteCaches, failed := FetchAll(urls, keys, fetch);
    if failed.Some? {
      out := Failed(failed.value, State(fs, CacheContents(None, siteCaches)));
      return;
    }
    fs := FileSystem(fs.dirs, fs.files + {KeywordCountFile(cacheFolder)});
    out := Done(State(fs, CacheContents(Some(rows), siteCaches)));
  }

  /** Once the loop has stopped, the later URLs change nothing. */
  lemma {:induction false} BuildStopped(urls: seq<string>, keys: seq<string>, fetch: Fetcher, i: nat)
    requires i <= |urls|
    requires Build(urls[..i], keys, fetch).failed.Some?
    ensures Build(urls, keys, fetch) == Build(urls[..i], keys, fetch)
    decreases |urls| - i
  {
    if i < |urls| {
      assert urls[..|urls| - 1][..i] == urls[..i];
      BuildStopped(urls[..|urls| - 1], keys, fetch, i);
    } else {
      assert urls[..i] == urls;
    }
  }

  /** The build stops exactly when some fetched URL has a host name that
      resolves to a directory. */
  lemma {:induction false} BuildFailure(urls: seq<string>, keys: seq<string>, fetch: Fetcher)
    ensures Build(urls, keys, fetch).failed.Some?
        <==> exists i :: 0 <= i < |urls| && BadWrite(urls[i], fetch)
    decreases |urls|
  {
    if urls != [] {
      var init := urls[..|urls| - 1];
      var url := urls[|urls| - 1];
      BuildFailure(init, keys, fetch);
      BuildStep(urls, keys, fetch);
      BadWriteSplit(urls, fetch);
    }
  }

  lemma BadWriteSplit(urls: seq<string>, fetch: Fetcher)
    requires urls != []
    ensures var init := urls[..|urls| - 1];
      (exists i :: 0 <= i < |urls| && BadWrite(urls[i], fetch))
      <==> (exists i :: 0 <= i < |init| && BadWrite(init[i], fetch)) || BadWrite(urls[|urls| - 1], fetch)
  {
    ExistsSplit(urls, u => BadWrite(u, fetch));
  }

  /** An element of a non-empty sequence satisfies `P` when one of its
      front part does or its last one does. */
  lemma ExistsSplit<T>(xs: seq<T>, P: T -> bool)
    requires xs != []
    ensures var init := xs[..|xs| - 1];
      (exists i :: 0 <= i < |xs| && P(xs[i]))
      <==> (exists i :: 0 <= i < |init| && P(init[i])) || P(xs[|xs| - 1])
  {
    var init := xs[..|xs| - 1];
    if exists i :: 0 <= i < |xs| && P(xs[i]) {
      var i :| 0 <= i < |xs| && P(xs[i]);
      if i < |init| { assert init[i] == xs[i]; }
    }
    if exists i :: 0 <= i < |init| && P(init[i]) {
      var i :| 0 <= i < |init| && P(init[i]);
      assert init[i] == xs[i];
    }
  }

  /** A fetched URL whose link file cannot be written. */
  predicate BadWrite(url: string, fetch: Fetcher) {
    fetch(url).Some? && !ProperName(CleanUrl(url))
  }

  /** One step of the build, with the details of a page left folded. */
  lemma BuildStep(urls: seq<string>, keys: seq<string>, fetch: Fetcher)
    requires urls != []
    ensures var prev := Build(urls[..|urls| - 1], keys, fetch);
      var url := urls[|urls| - 1];
      Build(urls, keys, fetch).failed.Some? <==> prev.failed.Some? || BadWrite(url, fetch)
  {
  }

  /** A row of the table, as the build promises it: its URL was fetched, its
      word is a lowered keyword, and its count is that word's count in the
      lowered page text. */
  predicate BuiltRow(urls: seq<string>, keys: seq<string>, fetch: Fetcher, r: Row) {
    r.url in urls && fetch(r.url).Some?
    && (exists w :: w in keys && r.word == Lower(w))
    && r.count == Count(Lower(fetch(r.url).value.text), r.word)
  }

  lemma PageRowsMembers(url: string, keys: seq<string>, text: string, r: Row)
    ensures r in PageRows(url, keys, text)
        <==> r.url == url && (exists w :: w in keys && r.word == Lower(w)) && r.count == Count(Lower(text), r.word)
  {
    var rows := PageRows(url, keys, text);
    if r.url == url && (exists w :: w in keys && r.word == Lower(w)) && r.count == Count(Lower(text), r.word) {
      var w :| w in keys && r.word == Lower(w);
      var k :| 0 <= k < |keys| && keys[k] == w;
      assert rows[k] == r;
    }
  }

  /** The table holds exactly the rows of the fetched URLs; a URL that
      failed to fetch contributes none. */
  lemma {:induction false} BuildRows(urls: seq<string>, keys: seq<string>, fetch: Fetcher, r: Row)
    requires Build(urls, keys, fetch).failed.None?
    ensures r in Build(urls, keys, fetch).rows <==> BuiltRow(urls, keys, fetch, r)
    decreases |urls|
  {
    if urls != [] {
      var init := urls[..|urls| - 1];
      var url := urls[|urls| - 1];
      BuildRows(init, keys, fetch, r);
      RowsStep(urls, keys, fetch, r);
      assert r.url in urls <==> r.url in init || r.url == url by {
        assert urls == init + [url];
      }
      if fetch(url).Some? {
        PageRowsMembers(url, keys, fetch(url).value.text, r);
      }
    }
  }

  /** One URL's step in the rows of the build. */
  lemma RowsStep(urls: seq<string>, keys: seq<string>, fetch: Fetcher, r: Row)
    requires urls != []
    requires Build(urls, keys, fetch).failed.None?
    ensures var url := urls[|urls| - 1];
      var added := fetch(url).Some? && r in PageRows(url, keys, fetch(url).value.text);
      r in Build(urls, keys, fetch).rows <==> r in Build(urls[..|urls| - 1], keys, fetch).rows || added
  {
  }

  predicate NoDup(xs: seq<string>) {
    forall i, j :: 0 <= i < j < |xs| ==> xs[i] != xs[j]
  }

  /** The rows of the table that belong to `url`, in table order. */
  function RowsFor(rows: seq<Row>, url: string): seq<Row> {
    if rows == [] then []
    else RowsFor(rows[..|rows| - 1], url) + (if rows[|rows| - 1].url == url then [rows[|rows| - 1]] else [])
  }

  lemma {:induction false} RowsForAppend(a: seq<Row>, b: seq<Row>, url: string)
    ensures RowsFor(a + b, url) == RowsFor(a, url) + RowsFor(b, url)
    decreases |b|
  {
    if b == [] {
      assert a + b == a;
    } else {
      assert (a + b)[..|a + b| - 1] == a + b[..|b| - 1];
      RowsForAppend(a, b[..|b| - 1], url);
    }
  }

  lemma {:induction false} RowsForUniform(rows: seq<Row>, v: string, url: string)
    requires forall k :: 0 <= k < |rows| ==> rows[k].url == v
    ensures RowsFor(rows, url) == if v == url then rows else []
    decreases |rows|
  {
    if rows != [] {
      RowsForUniform(rows[..|rows| - 1], v, url);
      assert rows == rows[..|rows| - 1] + [rows[|rows| - 1]];
    }
  }

  /** With distinct URLs, each fetched URL has exactly one row per keyword,
      in keyword order, and every other URL has none. */
  lemma {:induction false} BuildRowsOfUrl(urls: seq<string>, keys: seq<string>, fetch: Fetcher, u: string)
    requires NoDup(urls)
    requires Build(urls, keys, fetch).failed.None?
    ensures RowsFor(Build(urls, keys, fetch).rows, u)
         == if u in urls && fetch(u).Some? then PageRows(u, keys, fetch(u).value.text) else []
    decreases |urls|
  {
    if urls != [] {
      var init := urls[..|urls| - 1];
      var url := urls[|urls| - 1];
      NoDupInit(urls);
      BuildRowsOfUrl(init, keys, fetch, u);
      RowsOfUrlStep(urls, keys, fetch, u);
    }
  }

  lemma NoDupInit(urls: seq<string>)
    requires NoDup(urls) && urls != []
    ensures NoDup(urls[..|urls| - 1]) && urls[|urls| - 1] !in urls[..|urls| - 1]
    ensures forall v :: v in urls <==> v in urls[..|urls| - 1] || v == urls[|urls| - 1]
  {
    var init := urls[..|urls| - 1];
    assert urls == init + [urls[|urls| - 1]];
    assert forall i :: 0 <= i < |init| ==> init[i] == urls[i];
  }

  /** One URL's step in the rows for `u`. */
  lemma RowsOfUrlStep(urls: seq<string>, keys: seq<string>, fetch: Fetcher, u: string)
    requires urls != []
    requires Build(urls, keys, fetch).failed.None?
    ensures var prev := Build(urls[..|urls| - 1], keys, fetch);
      var url := urls[|urls| - 1];
      RowsFor(Build(urls, keys, fetch).rows, u)
        == RowsFor(prev.rows, u) + (if url == u && fetch(url).Some? then PageRows(u, keys, fetch(url).value.text) else [])
  {
    var url := urls[|urls| - 1];
    var prev := Build(urls[..|urls| - 1], keys, fetch);
    match fetch(url) {
      case None =>
        assert prev.rows + [] == prev.rows;
      case Some(page) =>
        RowsForAppend(prev.rows, PageRows(url, keys, page.text), u);
        RowsForUniform(PageRows(url, keys, page.text), url, u);
    }
  }

  /** The concatenation of `f` over `xs`, in order. */
  function FlatMap<A, B>(f: A -> seq<B>, xs: seq<A>): seq<B>
    decreases |xs|
  {
    if xs == [] then [] else FlatMap(f, xs[..|xs| - 1]) + f(xs[|xs| - 1])
  }

  lemma {:induction false} FlatMapAppend<A, B>(f: A -> seq<B>, xs: seq<A>, ys: seq<A>)
    ensures FlatMap(f, xs + ys) == FlatMap(f, xs) + FlatMap(f, ys)
    decreases |ys|
  {
    if ys == [] {
      assert xs + ys == xs;
    } else {
      assert (xs + ys)[..|xs + ys| - 1] == xs + ys[..|ys| - 1];
      assert (xs + ys)[|xs + ys| - 1] == ys[|ys| - 1];
      FlatMapAppend(f, xs, ys[..|ys| - 1]);
    }
  }

  /** Taking out one element of `ys` leaves the elements of `xs` when `xs`
      with `x` added has the elements of `ys`. */
  lemma RemoveOne<A>(xs: seq<A>, x: A, before: seq<A>, after: seq<A>)
    requires multiset(xs + [x]) == multiset(before + [x] + after)
    ensures multiset(before + after) == multiset(xs)
  {
    assert multiset(before) + multiset{x} + multiset(after) == multiset(xs) + multiset{x};
    forall y ensures multiset(before + after)[y] == multiset(xs)[y] {
      assert (multiset(before) + multiset{x} + multiset(after))[y] == (multiset(xs) + multiset{x})[y];
    }
  }

  lemma FlatMapAround<A, B>(f: A -> seq<B>, before: seq<A>, x: A, after: seq<A>)
    ensures FlatMap(f, before + [x] + after) == FlatMap(f, before) + f(x) + FlatMap(f, after)
  {
    FlatMapAppend(f, before + [x], after);
    FlatMapAppend(f, before, [x]);
    assert FlatMap(f, [x]) == f(x) by { assert [x][..0] == []; }
  }

  /** Reordering the elements reorders the concatenation: the same
      elements, counted with their repeats. */
  lemma {:induction false} FlatMapPermutation<A, B>(f: A -> seq<B>, xs: seq<A>, ys: seq<A>)
    requires multiset(xs) == multiset(ys)
    ensures multiset(FlatMap(f, xs)) == multiset(FlatMap(f, ys))
    decreases |xs|
  {
    if xs == [] {
      assert |ys| == |multiset(ys)| == 0;
    } else {
      var x := xs[|xs| - 1];
      var init := xs[..|xs| - 1];
      assert xs == init + [x];
      assert x in multiset(ys);
      var j :| 0 <= j < |ys| && ys[j] == x;
      var before, after := ys[..j], ys[j + 1..];
      assert ys == before + [x] + after;
      RemoveOne(init, x, before, after);
      FlatMapPermutation(f, init, before + after);
      FlatMapAround(f, before, x, after);
      FlatMapAppend(f, before, after);
    }
  }

  /** Replacing each part by a reordering of it reorders the concatenation. */
  lemma {:induction false} FlatMapPointwise<A, B>(f: A -> seq<B>, g: A -> seq<B>, xs: seq<A>)
    requires forall i :: 0 <= i < |xs| ==> multiset(f(xs[i])) == multiset(g(xs[i]))
    ensures multiset(FlatMap(f, xs)) == multiset(FlatMap(g, xs))
    decreases |xs|
  {
    if xs != [] {
      var init := xs[..|xs| - 1];
      assert forall i :: 0 <= i < |init| ==> init[i] == xs[i];
      FlatMapPointwise(f, g, init);
    }
  }

  /** The row of one keyword on one page. */
  function KeyRow(url: string, text: string): string -> seq<Row> {
    k => [Row(url, Lower(k), Count(Lower(text), Lower(k)))]
  }

  /** The rows of one URL: its page's rows, or none when it fails to fetch. */
  function UrlRows(keys: seq<string>, fetch: Fetcher): string -> seq<Row> {
    u => if fetch(u).Some? then PageRows(u, keys, fetch(u).value.text) else []
  }

  lemma {:induction false} PageRowsFlat(url: string, keys: seq<string>, text: string)
    ensures PageRows(url, keys, text) == FlatMap(KeyRow(url, text), keys)
    decreases |keys|
  {
    if keys != [] {
      var init := keys[..|keys| - 1];
      PageRowsFlat(url, init, text);
      assert PageRows(url, keys, text) == PageRows(url, init, text) + KeyRow(url, text)(keys[|keys| - 1]);
    }
  }

  /** The table is the rows of the fetched URLs, URL after URL. */
  lemma {:induction false} BuildRowsFlat(urls: seq<string>, keys: seq<string>, fetch: Fetcher)
    requires Build(urls, keys, fetch).failed.None?
    ensures Build(urls, keys, fetch).rows == FlatMap(UrlRows(keys, fetch), urls)
    decreases |urls|
  {
    if urls != [] {
      BuildRowsFlat(urls[..|urls| - 1], keys, fetch);
      var url := urls[|urls| - 1];
      if fetch(url).None? {
        assert Build(urls[..|urls| - 1], keys, fetch).rows + [] == Build(urls[..|urls| - 1], keys, fetch).rows;
      }
    }
  }

  /** Another iteration order of the same URL and key sets gives the same
      table rows, in another order. */
  lemma BuildRowsReordered(urls: seq<string>, keys: seq<string>, urls2: seq<string>, keys2: seq<string>, fetch: Fetcher)
    requires multiset(urls2) == multiset(urls) && multiset(keys2) == multiset(keys)
    requires Build(urls, keys, fetch).failed.None? && Build(urls2, keys2, fetch).failed.None?
    ensures multiset(Build(urls2, keys2, fetch).rows) == multiset(Build(urls, keys, fetch).rows)
  {
    BuildRowsFlat(urls, keys, fetch);
    BuildRowsFlat(urls2, keys2, fetch);
    FlatMapPermutation(UrlRows(keys2, fetch), urls2, urls);
    forall i | 0 <= i < |urls|
      ensures multiset(UrlRows(keys2, fetch)(urls[i])) == multiset(UrlRows(keys, fetch)(urls[i]))
    {
      var u := urls[i];
      if fetch(u).Some? {
        var text := fetch(u).value.text;
        PageRowsFlat(u, keys, text);
        PageRowsFlat(u, keys2, text);
        FlatMapPermutation(KeyRow(u, text), keys2, keys);
      }
    }
    FlatMapPointwise(UrlRows(keys2, fetch), UrlRows(keys, fetch), urls);
  }

  /** Another iteration order of the same URL set stops the build exactly
      when the first order does. */
  lemma BuildFailureReordered(urls: seq<string>, keys: seq<string>, urls2: seq<string>, keys2: seq<string>, fetch: Fetcher)
    requires multiset(urls2) == multiset(urls)
    ensures Build(urls2, keys2, fetch).failed.Some? <==> Build(urls, keys, fetch).failed.Some?
  {
    BuildFailure(urls, keys, fetch);
    BuildFailure(urls2, keys2, fetch);
    if exists i :: 0 <= i < |urls| && BadWrite(urls[i], fetch) {
      var i :| 0 <= i < |urls| && BadWrite(urls[i], fetch);
      assert urls[i] in multiset(urls2);
      var j :| 0 <= j < |urls2| && urls2[j] == urls[i];
    }
    if exists j :: 0 <= j < |urls2| && BadWrite(urls2[j], fetch) {
      var j :| 0 <= j < |urls2| && BadWrite(urls2[j], fetch);
      assert urls2[j] in multiset(urls);
      var i :| 0 <= i < |urls| && urls[i] == urls2[j];
    }
  }

  /** No two fetched URLs share a host name, so no link file is overwritten. */
  predicate DistinctHosts(urls: seq<string>, fetch: Fetcher) {
    forall j, k :: 0 <= j < k < |urls| && fetch(urls[j]).Some? && fetch(urls[k]).Some? ==> CleanUrl(urls[j]) != CleanUrl(urls[k])
  }

  /** An element at two positions is counted at least twice. */
  lemma TwoPositionsCounted(xs: seq<string>, j: nat, k: nat)
    requires j < k < |xs| && xs[j] == xs[k]
    ensures multiset(xs)[xs[k]] >= 2
  {
    var x := xs[k];
    var before, after := xs[..k], xs[k + 1..];
    assert xs == before + [x] + after;
    assert multiset(xs) == multiset(before) + multiset{x} + multiset(after);
    assert before[j] == x;
    assert x in multiset(before);
  }

  /** An element counted at least twice sits at two positions. */
  lemma CountedTwicePositions(xs: seq<string>, x: string) returns (j: nat, k: nat)
    requires multiset(xs)[x] >= 2
    ensures j < k < |xs| && xs[j] == x && xs[k] == x
  {
    assert x in multiset(xs);
    var p :| 0 <= p < |xs| && xs[p] == x;
    var before, after := xs[..p], xs[p + 1..];
    assert xs == before + [x] + after;
    assert multiset(xs) == multiset(before) + multiset{x} + multiset(after);
    assert multiset(before + after) == multiset(before) + multiset(after);
    assert x in multiset(before + after);
    var r :| 0 <= r < |before + after| && (before + after)[r] == x;
    if r < p {
      assert xs[r] == x;
      j, k := r, p;
    } else {
      assert xs[r + 1] == x;
      j, k := p, r + 1;
    }
  }

  /** Distinct host names do not depend on the iteration order. */
  lemma DistinctHostsReordered(urls: seq<string>, urls2: seq<string>, fetch: Fetcher)
    requires multiset(urls2) == multiset(urls)
    requires DistinctHosts(urls, fetch)
    ensures DistinctHosts(urls2, fetch)
  {
    forall j, k | 0 <= j < k < |urls2| && fetch(urls2[j]).Some? && fetch(urls2[k]).Some?
      ensures CleanUrl(urls2[j]) != CleanUrl(urls2[k])
    {
      var a, b := urls2[j], urls2[k];
      if a == b {
        TwoPositionsCounted(urls2, j, k);
        var p, q := CountedTwicePositions(urls, a);
        assert false;
      } else {
        assert a in multiset(urls) && b in multiset(urls);
        var p :| 0 <= p < |urls| && urls[p] == a;
        var q :| 0 <= q < |urls| && urls[q] == b;
        assert p != q;
      }
    }
  }

  /** With distinct host names, another iteration order of the same URL set
      writes the same link files with the same contents. */
  lemma BuildLinksReordered(urls: seq<string>, keys: seq<string>, urls2: seq<string>, keys2: seq<string>, fetch: Fetcher)
    requires multiset(urls2) == multiset(urls)
    requires DistinctHosts(urls, fetch)
    requires Build(urls, keys, fetch).failed.None? && Build(urls2, keys2, fetch).failed.None?
    ensures Build(urls2, keys2, fetch).siteCaches == Build(urls, keys, fetch).siteCaches
  {
    DistinctHostsReordered(urls, urls2, fetch);
    var m1 := Build(urls, keys, fetch).siteCaches;
    var m2 := Build(urls2, keys2, fetch).siteCaches;
    forall n ensures (n in m1 <==> n in m2) && (n in m1 ==> m1[n] == m2[n]) {
      BuildLinkFileNames(urls, keys, fetch, n);
      BuildLinkFileNames(urls2, keys2, fetch, n);
      if exists i :: 0 <= i < |urls| && Writes(urls[i], fetch, n) {
        var i :| 0 <= i < |urls| && Writes(urls[i], fetch, n);
        assert urls[i] in multiset(urls2);
        var j :| 0 <= j < |urls2| && urls2[j] == urls[i];
        LastWriteWins(urls, keys, fetch, i);
        LastWriteWins(urls2, keys2, fetch, j);
      }
      if exists j :: 0 <= j < |urls2| && Writes(urls2[j], fetch, n) {
        var j :| 0 <= j < |urls2| && Writes(urls2[j], fetch, n);
        assert urls2[j] in multiset(urls);
        var i :| 0 <= i < |urls| && urls[i] == urls2[j];
      }
    }
    assert m1 == m2;
  }

  /** Every fetched URL leaves a link file under its host name, and no other
      file is written. */
  lemma {:induction false} BuildLinkFileNames(urls: seq<string>, keys: seq<string>, fetch: Fetcher, name: string)
    requires Build(urls, keys, fetch).failed.None?
    ensures name in Build(urls, keys, fetch).siteCaches
        <==> exists i :: 0 <= i < |urls| && Writes(urls[i], fetch, name)
    decreases |urls|
  {
    if urls != [] {
      var init := urls[..|urls| - 1];
      BuildLinkFileNames(init, keys, fetch, name);
      WritesSplit(urls, fetch, name);
    }
  }

  /** A fetched URL whose link file is named `name`. */
  predicate Writes(url: string, fetch: Fetcher, name: string) {
    fetch(url).Some? && CleanUrl(url) == name
  }

  lemma WritesSplit(urls: seq<string>, fetch: Fetcher, name: string)
    requires urls != []
    ensures var init := urls[..|urls| - 1];
      (exists i :: 0 <= i < |urls| && Writes(urls[i], fetch, name))
      <==> (exists i :: 0 <= i < |init| && Writes(init[i], fetch, name)) || Writes(urls[|urls| - 1], fetch, name)
  {
    ExistsSplit(urls, u => Writes(u, fetch, name));
  }

  /** Last write wins: the link file of a host holds the links of the last
      fetched URL with that host. */
  lemma {:induction false} LastWriteWins(urls: seq<string>, keys: seq<string>, fetch: Fetcher, j: nat)
    requires Build(urls, keys, fetch).failed.None?
    requires j < |urls| && fetch(urls[j]).Some?
    requires forall k :: j < k < |urls| && fetch(urls[k]).Some? ==> CleanUrl(urls[k]) != CleanUrl(urls[j])
    ensures CleanUrl(urls[j]) in Build(urls, keys, fetch).siteCaches
    ensures Build(urls, keys, fetch).siteCaches[CleanUrl(urls[j])] == Join(StoredLinks(fetch(urls[j]).value.hrefs))
    decreases |urls|
  {
    if j < |urls| - 1 {
      var init := urls[..|urls| - 1];
      assert init[j] == urls[j];
      assert forall k :: j < k < |init| ==> init[k] == urls[k];
      LastWriteWins(init, keys, fetch, j);
    }
  }

  /** What a link file holds reads back, line by line, as the list written,
      when no link holds a line boundary; an empty list reads back empty. */
  lemma LinkFileReadsBack(hrefs: seq<Option<string>>)
    requires forall i :: 0 <= i < |hrefs| && hrefs[i].Some? ==> NoBreak(hrefs[i].value)
    ensures SplitLines(Join(StoredLinks(hrefs))) == StoredLinks(hrefs)
  {
    var links := StoredLinks(hrefs);
    forall k | 0 <= k < |links| ensures NoBreak(links[k]) && links[k] != "" {
      assert links[k] in links;
      var i :| 0 <= i < |hrefs| && hrefs[i] == Some(links[k]) && IsWebLink(links[k]);
      assert NoBreak(hrefs[i].value);
      assert |links[k]| >= |"http://"|;
    }
    SplitJoin(links);
  }

  /** Every entry's parent folder exists. */
  predicate ParentsExist(fs: FileSystem) {
    forall p :: p in fs.files + fs.dirs && |p| > 0 ==> p[..|p| - 1] in fs.dirs
  }

  lemma {:induction false} InsideNeedsDir(fs: FileSystem, p: Path, dir: Path)
    requires ParentsExist(fs)
    requires p in fs.files + fs.dirs && Inside(p, dir)
    ensures dir in fs.dirs
    decreases |p|
  {
    var parent := p[..|p| - 1];
    assert parent in fs.dirs;
    if |parent| > |dir| {
      assert parent[..|dir|] == dir;
      InsideNeedsDir(fs, parent, dir);
    } else {
      assert parent == dir;
    }
  }

  /** After a successful rebuild the cache folder is valid, holds the new
      table and link files, and the input files are untouched. */
  lemma RebuildLeavesValidCache(st: State, project: Path, urls: seq<string>, keys: seq<string>, fetch: Fetcher)
    requires Rebuild(st, project, urls, keys, fetch).Done?
    ensures var s := Rebuild(st, project, urls, keys, fetch).state;
      CacheValid(s.fs, CacheFolder(project))
      && s.fs.IsFile(KeywordCountFile(CacheFolder(project)))
      && s.cache == CacheContents(Some(Build(urls, keys, fetch).rows), Build(urls, keys, fetch).siteCaches)
      && s.fs.IsDir(SiteCachesDir(CacheFolder(project)))
      && s.fs.IsDir(InputFolder(project))
      && s.fs.IsFile(UrlFile(InputFolder(project))) && s.fs.IsFile(KeyFile(InputFolder(project)))
  {
    InputNotUnderCache(project);
  }

  lemma InputNotUnderCache(project: Path)
    ensures !Under(InputFolder(project), CacheFolder(project))
    ensures !Under(UrlFile(InputFolder(project)), CacheFolder(project))
    ensures !Under(KeyFile(InputFolder(project)), CacheFolder(project))
  {
    var cf := CacheFolder(project);
    assert InputFolder(project)[..|cf|][|project|] == "inputFolder";
    assert UrlFile(InputFolder(project))[..|cf|][|project|] == "inputFolder";
    assert KeyFile(InputFolder(project))[..|cf|][|project|] == "inputFolder";
  }

  /** A rebuild stopped by a link-file name leaves a cache folder without a
      table, so the next run takes it as no snapshot at all. */
  lemma StoppedRebuildInvalid(st: State, project: Path, urls: seq<string>, keys: seq<string>, fetch: Fetcher)
    requires ParentsExist(st.fs)
    requires Rebuild(st, project, urls, keys, fetch).Failed?
    ensures var out := Rebuild(st, project, urls, keys, fetch);
      out.error.UnwritableLinkFile? ==> !CacheValid(out.state.fs, CacheFolder(project))
  {
    var cf := CacheFolder(project);
    var out := Rebuild(st, project, urls, keys, fetch);
    if out.error.UnwritableLinkFile? {
      var cleared := ClearCache(st.fs, cf);
      assert out.state.fs == FileSystem(cleared.dirs + {cf, SiteCachesDir(cf)}, cleared.files);
      ClearedOutside(st.fs, cf);
      CacheLayout(cf);
      assert KeywordCountFile(cf) !in cleared.files + cleared.dirs;
    }
  }

  /** The two entries of the cache folder are distinct and lie inside it. */
  lemma CacheLayout(cacheFolder: Path)
    ensures Under(KeywordCountFile(cacheFolder), cacheFolder) && Under(SiteCachesDir(cacheFolder), cacheFolder)
    ensures KeywordCountFile(cacheFolder) != cacheFolder && SiteCachesDir(cacheFolder) != cacheFolder
    ensures KeywordCountFile(cacheFolder) != SiteCachesDir(cacheFolder)
  {
    var kc := KeywordCountFile(cacheFolder);
    var sc := SiteCachesDir(cacheFolder);
    assert kc[..|cacheFolder|] == cacheFolder;
    assert sc[..|cacheFolder|] == cacheFolder;
    assert |kc[|cacheFolder|]| != |sc[|cacheFolder|]|;
  }

  /** With every parent present, the cleared file system holds nothing
      under the cache folder unless the cache folder itself is a file. */
  lemma ClearedOutside(fs: FileSystem, cacheFolder: Path)
    requires ParentsExist(fs)
    requires !Exists(ClearCache(fs, cacheFolder), cacheFolder)
    ensures forall p :: p in ClearCache(fs, cacheFolder).files + ClearCache(fs, cacheFolder).dirs ==> !Under(p, cacheFolder)
  {
    var cleared := ClearCache(fs, cacheFolder);
    forall p | p in cleared.files + cleared.dirs ensures !Under(p, cacheFolder) {
      if fs.IsDir(cacheFolder) {
        assert cleared.IsFile(p) || cleared.IsDir(p);
      } else if |p| > |cacheFolder| {
        if Under(p, cacheFolder) {
          InsideNeedsDir(fs, p, cacheFolder);
        }
      } else {
        assert p != cacheFolder;
      }
    }
  }

  /** Removing a freshly laid-out cache folder gives back what was beside it. */
  lemma RemoveFreshCache(c: FileSystem, cacheFolder: Path)
    requires forall p :: p in c.files + c.dirs ==> !Under(p, cacheFolder)
    ensures RemoveTree(FileSystem(c.dirs + {cacheFolder, SiteCachesDir(cacheFolder)},
                                  c.files + {KeywordCountFile(cacheFolder)}), cacheFolder) == c
  {
    CacheLayout(cacheFolder);
    var r := RemoveTree(FileSystem(c.dirs + {cacheFolder, SiteCachesDir(cacheFolder)},
                                   c.files + {KeywordCountFile(cacheFolder)}), cacheFolder);
    assert r.dirs == c.dirs;
    assert r.files == c.files;
  }

  /** Rebuilding twice with unchanged pages gives the same state as
      rebuilding once. */
  lemma RebuildIdempotent(st: State, project: Path, urls: seq<string>, keys: seq<string>, fetch: Fetcher)
    requires ParentsExist(st.fs)
    requires Rebuild(st, project, urls, keys, fetch).Done?
    ensures var s := Rebuild(st, project, urls, keys, fetch).state;
      Rebuild(s, project, urls, keys, fetch) == Done(s)
  {
    var cf := CacheFolder(project);
    var cleared := ClearCache(st.fs, cf);
    InputNotUnderCache(project);
    ClearedOutside(st.fs, cf);
    RemoveFreshCache(cleared, cf);
  }

  /** Rebuilding with another iteration order of the same URL and key sets,
      and unchanged pages, leaves the same folders, files and link files,
      and the same table rows in another order, when no two fetched URLs
      share a host name. */
  lemma RebuildReordered(st: State, project: Path, urls: seq<string>, keys: seq<string>, fetch: Fetcher,
                         urls2: seq<string>, keys2: seq<string>)
    requires ParentsExist(st.fs)
    requires Rebuild(st, project, urls, keys, fetch).Done?
    requires multiset(urls2) == multiset(urls) && multiset(keys2) == multiset(keys)
    requires DistinctHosts(urls, fetch)
    ensures var s := Rebuild(st, project, urls, keys, fetch).state;
      var out := Rebuild(s, project, urls2, keys2, fetch);
      out.Done? && out.state.fs == s.fs
      && out.state.cache.siteCaches == s.cache.siteCaches
      && out.state.cache.table.Some? && multiset(out.state.cache.table.value) == multiset(s.cache.table.value)
  {
    var cf := CacheFolder(project);
    var cleared := ClearCache(st.fs, cf);
    InputNotUnderCache(project);
    ClearedOutside(st.fs, cf);
    RemoveFreshCache(cleared, cf);
    BuildFailureReordered(urls, keys, urls2, keys2, fetch);
    BuildRowsReordered(urls, keys, urls2, keys2, fetch);
    BuildLinksReordered(urls, keys, urls2, keys2, fetch);
  }
}
