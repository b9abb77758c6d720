/** `compareData`: fetch every URL again and report what is new against the
    cached snapshot, keyword counts that grew and links that appeared. */
module Diff {
  import opened PyStr
  import opened Monitor
  import opened Report
  import opened Snapshot

  /** The report of one comparison: the two logs `printLogs` is given. */
  datatype Findings = Findings(countLog: seq<string>, linkLog: seq<string>)

  function KeywordMessage(url: string, word: string): string {
    "New occurance of the word " + word + " on " + url
  }

  function LinkMessage(url: string): string {
    "New link appeard on " + url
  }

  /** The count in the first row of the table for `url` and the lowered
      word, or `None` when there is no such row. */
  function PriorCount(rows: seq<Row>, url: string, word: string): Option<nat> {
    if rows == [] then None
    else if rows[0].url == url && rows[0].word == Lower(word) then Some(rows[0].count)
    else PriorCount(rows[1..], url, word)
  }

  /** The row of the table for `url` and `word`. */
  predicate RowFor(r: Row, url: string, word: string) {
    r.url == url && r.word == Lower(word)
  }

  /** `PriorCount` finds nothing exactly when no row is for `url` and the
      lowered word, and otherwise gives the count of the first such row. */
  lemma {:induction false} PriorCountFirst(rows: seq<Row>, url: string, word: string)
    ensures PriorCount(rows, url, word).None? <==> forall i :: 0 <= i < |rows| ==> !RowFor(rows[i], url, word)
    ensures PriorCount(rows, url, word).Some? ==>
      exists i :: 0 <= i < |rows| && RowFor(rows[i], url, word) && rows[i].count == PriorCount(rows, url, word).value
        && forall j :: 0 <= j < i ==> !RowFor(rows[j], url, word)
  {
    if rows != [] && !RowFor(rows[0], url, word) {
      var tail := rows[1..];
      PriorCountFirst(tail, url, word);
      assert forall i :: 1 <= i < |rows| ==> tail[i - 1] == rows[i];
      if PriorCount(tail, url, word).Some? {
        var i :| 0 <= i < |tail| && RowFor(tail[i], url, word) && tail[i].count == PriorCount(tail, url, word).value
          && forall j :: 0 <= j < i ==> !RowFor(tail[j], url, word);
        assert rows[i + 1] == tail[i];
        assert forall j :: 1 <= j < i + 1 ==> rows[j] == tail[j - 1];
      }
    } else if rows != [] {
      assert RowFor(rows[0], url, word);
    }
  }

  /** The set of fresh links in the `try` block: the hrefs that are web
      links, or `None` when an anchor has no href (the `startswith` on it
      raises and the URL is skipped). */
  function FreshLinks(hrefs: seq<Option<string>>): (r: Option<set<string>>)
    ensures r.None? <==> exists i :: 0 <= i < |hrefs| && hrefs[i].None?
    ensures r.Some? ==> forall l :: l in r.value <==> exists i :: 0 <= i < |hrefs| && hrefs[i] == Some(l) && IsWebLink(l)
  {
    if exists i :: 0 <= i < |hrefs| && hrefs[i].None? then None
    else Some(set i | 0 <= i < |hrefs| && IsWebLink(hrefs[i].value) :: hrefs[i].value)
  }

  /** The link files `compareData` can open: `os.path.isfile` holds for
      siteCaches/name only when siteCaches is a directory and the name does
      not resolve to a directory. */
  function ReadableLinks(fs: FileSystem, cache: CacheContents, cacheFolder: Path): (links: map<string, string>)
    ensures forall n :: n in links <==> fs.IsDir(SiteCachesDir(cacheFolder)) && ProperName(n) && n in cache.siteCaches
    ensures forall n :: n in links ==> links[n] == cache.siteCaches[n]
  {
    map n | n in cache.siteCaches && ProperName(n) && fs.IsDir(SiteCachesDir(cacheFolder)) :: cache.siteCaches[n]
  }

  /** The keyword lines of one page, key by key; a key with no cached row
      stops the whole comparison. */
  function KeywordLog(url: string, keys: seq<string>, text: string, rows: seq<Row>): Result<seq<string>>
    decreases |keys|
  {
    if keys == [] then Ok([])
    else
      var prev := KeywordLog(url, keys[..|keys| - 1], text, rows);
      var word := keys[|keys| - 1];
      if prev.Err? then prev
      else match PriorCount(rows, url, word)
        case None => Err(MissingCountEntry(url, word))
        case Some(c) => Ok(prev.value + if Count(text, word) > c then [KeywordMessage(url, word)] else [])
  }

  /** The link line of one page, if any. */
  function LinkLog(url: string, newLinks: set<string>, links: map<string, string>): seq<string> {
    var name := CleanUrl(url);
    if name !in links then []
    else if exists l :: l in newLinks - Elems(SplitLines(links[name])) && IsWebLink(l) then [LinkMessage(url)]
    else []
  }

  /** A URL whose page was fetched and whose anchors all have an href. */
  predicate Visited(url: string, fetch: Fetcher) {
    fetch(url).Some? && FreshLinks(fetch(url).value.hrefs).Some?
  }

  /** What one URL adds to the logs. */
  function VisitUrl(url: string, keys: seq<string>, fetch: Fetcher, rows: seq<Row>, links: map<string, string>): Result<Findings> {
    if !Visited(url, fetch) then Ok(Findings([], []))
    else
      var page := fetch(url).value;
      match KeywordLog(url, keys, page.text, rows)
        case Err(e) => Err(e)
        case Ok(words) => Ok(Findings(words, LinkLog(url, FreshLinks(page.hrefs).value, links)))
  }

  /** The URL loop of `compareData` over `urls` in iteration order. */
  function CompareUrls(urls: seq<string>, keys: seq<string>, fetch: Fetcher, rows: seq<Row>, links: map<string, string>): Result<Findings>
    decreases |urls|
  {
    if urls == [] then Ok(Findings([], []))
    else
      var prev := CompareUrls(urls[..|urls| - 1], keys, fetch, rows, links);
      if prev.Err? then prev
      else match VisitUrl(urls[|urls| - 1], keys, fetch, rows, links)
        case Err(e) => Err(e)
        case Ok(f) => Ok(Findings(prev.value.countLog + f.countLog, prev.value.linkLog + f.linkLog))
  }

  /** The table can be read: keywordCount.csv is a file holding a table. */
  predicate TableReadable(st: State, cacheFolder: Path) {
    st.fs.IsFile(KeywordCountFile(cacheFolder)) && st.cache.table.Some?
  }

  /** The whole outcome of `compareData`. */
  function Compare(st: State, project: Path, urls: seq<string>, keys: seq<string>, fetch: Fetcher): Result<Findings> {
    var inputFolder := InputFolder(project);
    var cacheFolder := CacheFolder(project);
    if !InputValid(st.fs, inputFolder) then
      Err(InvalidInputFolder)
    else if !TableReadable(st, cacheFolder) then Err(UnreadableCountTable)
    else CompareUrls(urls, keys, fetch, st.cache.table.value, ReadableLinks(st.fs, st.cache, cacheFolder))
  }

  /** The key loop of `compareData` for one page. */
  method CheckKeywords(url: string, keys: seq<string>, text: string, rows: seq<Row>) returns (r: Result<seq<string>>)
    ensures r == KeywordLog(url, keys, text, rows)
  {
    var countLog: seq<string> := [];
    var k := 0;
    while k < |keys|
      invariant 0 <= k <= |keys|
      invariant KeywordLog(url, keys[..k], text, rows) == Ok(countLog)
    {
      var word := keys[k];
      assert keys[..k + 1][..k] == keys[..k];
      var cacheCount := PriorCount(rows, url, word);
      if cacheCount.None? {
        KeywordLogStopped(url, keys, text, rows, k + 1);
        return Err(MissingCountEntry(url, word));
      }
      var siteCount := Count(text, word);
      ghost var before := countLog;
      if siteCount > cacheCount.value {
        countLog := countLog + [KeywordMessage(url, word)];
      }
      assert countLog == before + if Count(text, word) > cacheCount.value then [KeywordMessage(url, word)] else [];
      assert keys[..k + 1][k] == word;
      k := k + 1;
    }
    assert keys[..k] == keys;
    r := Ok(countLog);
  }

  /** The body of the URL loop of `compareData`: skip a URL that fails to
      fetch or has an anchor without href, check its keys, then compare its
      links with its link file when there is one. */
  method VisitPage(url: string, keys: seq<string>, fetch: Fetcher, rows: seq<Row>, links: map<string, string>)
    returns (step: Result<Findings>)
    ensures step == VisitUrl(url, keys, fetch, rows, links)
  {
    var response := fetch(url);
    if !(response.Some? && FreshLinks(response.value.hrefs).Some?) {
      return Ok(Findings([], []));
    }
    var newLinks := FreshLinks(response.value.hrefs).value;
    var words := CheckKeywords(url, keys, response.value.text, rows);
    if words.Err? {
      return Err(words.error);
    }
    var linkLog: seq<string> := [];
    var urlName := CleanUrl(url);
    if urlName in links {
      var storedLinks := Elems(SplitLines(links[urlName]));
      if exists l :: l in newLinks - storedLinks && IsWebLink(l) {
        linkLog := [LinkMessage(url)];
      }
    }
    step := Ok(Findings(words.value, linkLog));
  }

  /** The URL loop of `compareData`. */
  method CompareAll(urls: seq<string>, keys: seq<string>, fetch: Fetcher, rows: seq<Row>, links: map<string, string>)
    returns (res: Result<Findings>)
    ensures res == CompareUrls(urls, keys, fetch, rows, links)
  {
    var countLog: seq<string> := [];
    var linkLog: seq<string> := [];
    var i := 0;
    while i < |urls|
      invariant 0 <= i <= |urls|
      invariant CompareUrls(urls[..i], keys, fetch, rows, links) == Ok(Findings(countLog, linkLog))
    {
      var url := urls[i];
      assert urls[..i + 1][..i] == urls[..i];
      assert urls[..i + 1][i] == url;
      var step := VisitPage(url, keys, fetch, rows, links);
      if step.Err? {
        CompareStopped(urls, keys, fetch, rows, links, i + 1);
        return Err(step.error);
      }
      countLog := countLog + step.value.countLog;
      linkLog := linkLog + step.value.linkLog;
      i := i + 1;
    }
    assert urls[..i] == urls;
    res := Ok(Findings(countLog, linkLog));
  }

  /** `compareData`, returning the findings and the report it prints; the
      report is empty when the comparison stops with an error. */
  method CompareData(st: State, project: Path, urls: seq<string>, keys: seq<string>, fetch: Fetcher)
    returns (res: Result<Findings>, msg: string)
    ensures res == Compare(st, project, urls, keys, fetch)
    ensures res.Ok? ==> msg == Unlines(ReportLines(res.value.countLog, res.value.linkLog))
    ensures res.Err? ==> msg == ""
  {
    msg := "";
    var inputFolder := InputFolder(project);
    var cacheFolder := CacheFolder(project);
    var inputOk := InputFolderIsValid(st.fs, inputFolder);
    if !inputOk {
      return Err(InvalidInputFolder), msg;
    }
    if !(st.fs.IsFile(KeywordCountFile(cacheFolder)) && st.cache.table.Some?) {
      return Err(UnreadableCountTable), msg;
    }
    var rows := st.cache.table.value;
    var links := ReadableLinks(st.fs, st.cache, cacheFolder);
    res := CompareAll(urls, keys, fetch, rows, links);
    if res.Ok? {
      msg := PrintLogs(res.value.countLog, res.value.linkLog);
    }
  }

  /** Once a key has no cached row, the later keys change nothing. */
  lemma {:induction false} KeywordLogStopped(url: string, keys: seq<string>, text: string, rows: seq<Row>, k: nat)
    requires k <= |keys|
    requires KeywordLog(url, keys[..k], text, rows).Err?
    ensures KeywordLog(url, keys, text, rows) == KeywordLog(url, keys[..k], text, rows)
    decreases |keys| - k
  {
    if k < |keys| {
      assert keys[..|keys| - 1][..k] == keys[..k];
      KeywordLogStopped(url, keys[..|keys| - 1], text, rows, k);
    } else {
      assert keys[..k] == keys;
    }
  }

  /** Once a URL has stopped the comparison, the later URLs change nothing. */
  lemma {:induction false} CompareStopped(urls: seq<string>, keys: seq<string>, fetch: Fetcher, rows: seq<Row>,
                                          links: map<string, string>, i: nat)
    requires i <= |urls|
    requires CompareUrls(urls[..i], keys, fetch, rows, links).Err?
    ensures CompareUrls(urls, keys, fetch, rows, links) == CompareUrls(urls[..i], keys, fetch, rows, links)
    decreases |urls| - i
  {
    if i < |urls| {
      assert urls[..|urls| - 1][..i] == urls[..i];
      CompareStopped(urls[..|urls| - 1], keys, fetch, rows, links, i);
    } else {
      assert urls[..i] == urls;
    }
  }

  /** The keyword `word` is new on the page: its case-sensitive count in the
      fresh text exceeds the cached count. */
  predicate KeywordFound(url: string, word: string, text: string, rows: seq<Row>) {
    PriorCount(rows, url, word).Some? && Count(text, word) > PriorCount(rows, url, word).value
  }

  /** The key loop fails exactly when some key has no cached row, and then
      with the first such key. */
  lemma {:induction false} KeywordLogFails(url: string, keys: seq<string>, text: string, rows: seq<Row>)
    ensures KeywordLog(url, keys, text, rows).Err?
        <==> exists k :: 0 <= k < |keys| && PriorCount(rows, url, keys[k]).None?
    ensures KeywordLog(url, keys, text, rows).Err? ==>
      exists k :: 0 <= k < |keys| && PriorCount(rows, url, keys[k]).None?
        && KeywordLog(url, keys, text, rows).error == MissingCountEntry(url, keys[k])
        && forall j :: 0 <= j < k ==> PriorCount(rows, url, keys[j]).Some?
    decreases |keys|
  {
    if keys != [] {
      var init := keys[..|keys| - 1];
      KeywordLogFails(url, init, text, rows);
      ExistsSplit(keys, w => PriorCount(rows, url, w).None?);
      assert forall j :: 0 <= j < |init| ==> init[j] == keys[j];
      var prev := KeywordLog(url, init, text, rows);
      if prev.Ok? && PriorCount(rows, url, keys[|keys| - 1]).None? {
        assert forall j :: 0 <= j < |init| ==> PriorCount(rows, url, init[j]).Some?;
      }
    }
  }

  /** The keyword lines of a page are those of its new keywords. */
  lemma {:induction false} KeywordLogMembers(url: string, keys: seq<string>, text: string, rows: seq<Row>, m: string)
    requires KeywordLog(url, keys, text, rows).Ok?
    ensures m in KeywordLog(url, keys, text, rows).value
        <==> exists k :: 0 <= k < |keys| && KeywordFound(url, keys[k], text, rows) && m == KeywordMessage(url, keys[k])
    decreases |keys|
  {
    if keys != [] {
      var init := keys[..|keys| - 1];
      KeywordLogMembers(url, init, text, rows, m);
      ExistsSplit(keys, w => KeywordFound(url, w, text, rows) && m == KeywordMessage(url, w));
    }
  }

  /** For one URL, the keyword line names its word. */
  lemma KeywordMessageInjective(url: string, v: string, w: string)
    requires KeywordMessage(url, v) == KeywordMessage(url, w)
    ensures v == w
  {
    var p := "New occurance of the word ";
    assert |KeywordMessage(url, v)| == |p| + |v| + |" on "| + |url|;
    assert |KeywordMessage(url, w)| == |p| + |w| + |" on "| + |url|;
    assert KeywordMessage(url, v)[|p|..|p| + |v|] == v;
    assert KeywordMessage(url, w)[|p|..|p| + |w|] == w;
  }

  /** With distinct keys, a page reports each new keyword once. */
  lemma {:induction false} KeywordLogNoDup(url: string, keys: seq<string>, text: string, rows: seq<Row>)
    requires NoDup(keys)
    requires KeywordLog(url, keys, text, rows).Ok?
    ensures NoDup(KeywordLog(url, keys, text, rows).value)
    decreases |keys|
  {
    if keys != [] {
      var init := keys[..|keys| - 1];
      var w := keys[|keys| - 1];
      NoDupInit(keys);
      KeywordLogNoDup(url, init, text, rows);
      var prev := KeywordLog(url, init, text, rows).value;
      var c := PriorCount(rows, url, w).value;
      var step := if Count(text, w) > c then [KeywordMessage(url, w)] else [];
      assert KeywordLog(url, keys, text, rows).value == prev + step;
      if step != [] && KeywordMessage(url, w) in prev {
        KeywordLogMembers(url, init, text, rows, KeywordMessage(url, w));
        var k :| 0 <= k < |init| && KeywordFound(url, init[k], text, rows) && KeywordMessage(url, w) == KeywordMessage(url, init[k]);
        KeywordMessageInjective(url, w, init[k]);
        assert false;
      }
      NoDupAppend(prev, step);
    }
  }

  /** A visited URL with a key that has no cached row. */
  predicate MissingOn(url: string, keys: seq<string>, fetch: Fetcher, rows: seq<Row>) {
    Visited(url, fetch) && exists k :: 0 <= k < |keys| && PriorCount(rows, url, keys[k]).None?
  }

  lemma VisitFails(url: string, keys: seq<string>, fetch: Fetcher, rows: seq<Row>, links: map<string, string>)
    ensures VisitUrl(url, keys, fetch, rows, links).Err? <==> MissingOn(url, keys, fetch, rows)
    ensures VisitUrl(url, keys, fetch, rows, links).Err? ==>
      exists k :: 0 <= k < |keys| && PriorCount(rows, url, keys[k]).None?
        && VisitUrl(url, keys, fetch, rows, links).error == MissingCountEntry(url, keys[k])
  {
    if Visited(url, fetch) {
      KeywordLogFails(url, keys, fetch(url).value.text, rows);
    }
  }

  /** The comparison of the URLs fails exactly when a visited URL lacks a
      cached row for some key; a URL that fails to fetch, or has an anchor
      without href, is never looked up. */
  lemma {:induction false} CompareFails(urls: seq<string>, keys: seq<string>, fetch: Fetcher, rows: seq<Row>, links: map<string, string>)
    ensures CompareUrls(urls, keys, fetch, rows, links).Err?
        <==> exists i :: 0 <= i < |urls| && MissingOn(urls[i], keys, fetch, rows)
    ensures CompareUrls(urls, keys, fetch, rows, links).Err? ==>
      exists i, k :: 0 <= i < |urls| && 0 <= k < |keys| && Visited(urls[i], fetch)
        && PriorCount(rows, urls[i], keys[k]).None?
        && CompareUrls(urls, keys, fetch, rows, links).error == MissingCountEntry(urls[i], keys[k])
    decreases |urls|
  {
    if urls != [] {
      var init := urls[..|urls| - 1];
      var url := urls[|urls| - 1];
      CompareFails(init, keys, fetch, rows, links);
      VisitFails(url, keys, fetch, rows, links);
      ExistsSplit(urls, u => MissingOn(u, keys, fetch, rows));
      var prev := CompareUrls(init, keys, fetch, rows, links);
      if prev.Err? {
        var i, k :| 0 <= i < |init| && 0 <= k < |keys| && Visited(init[i], fetch)
          && PriorCount(rows, init[i], keys[k]).None? && prev.error == MissingCountEntry(init[i], keys[k]);
        assert init[i] == urls[i];
      } else if VisitUrl(url, keys, fetch, rows, links).Err? {
        var k :| 0 <= k < |keys| && PriorCount(rows, url, keys[k]).None?
          && VisitUrl(url, keys, fetch, rows, links).error == MissingCountEntry(url, keys[k]);
        assert urls[|urls| - 1] == url;
      }
    }
  }

  /** `m` is the keyword line of a new keyword on the page at `url`. */
  predicate KeywordLineOf(url: string, keys: seq<string>, fetch: Fetcher, rows: seq<Row>, m: string) {
    Visited(url, fetch)
    && exists k :: 0 <= k < |keys| && KeywordFound(url, keys[k], fetch(url).value.text, rows) && m == KeywordMessage(url, keys[k])
  }

  lemma VisitKeywords(url: string, keys: seq<string>, fetch: Fetcher, rows: seq<Row>, links: map<string, string>, m: string)
    requires VisitUrl(url, keys, fetch, rows, links).Ok?
    ensures m in VisitUrl(url, keys, fetch, rows, links).value.countLog <==> KeywordLineOf(url, keys, fetch, rows, m)
  {
    if Visited(url, fetch) {
      KeywordLogMembers(url, keys, fetch(url).value.text, rows, m);
    }
  }

  /** A keyword line is reported exactly for a new keyword on a visited
      URL, whatever happens to the URL's link step. */
  lemma {:induction false} CountLogMembers(urls: seq<string>, keys: seq<string>, fetch: Fetcher, rows: seq<Row>,
                                           links: map<string, string>, m: string)
    requires CompareUrls(urls, keys, fetch, rows, links).Ok?
    ensures m in CompareUrls(urls, keys, fetch, rows, links).value.countLog
        <==> exists i :: 0 <= i < |urls| && KeywordLineOf(urls[i], keys, fetch, rows, m)
    decreases |urls|
  {
    if urls != [] {
      var init := urls[..|urls| - 1];
      var url := urls[|urls| - 1];
      CompareUrlsStep(urls, keys, fetch, rows, links);
      CountLogMembers(init, keys, fetch, rows, links, m);
      VisitKeywords(url, keys, fetch, rows, links, m);
      ExistsSplit(urls, u => KeywordLineOf(u, keys, fetch, rows, m));
    }
  }

  /** A successful comparison is the concatenation of its URLs' steps. */
  lemma CompareUrlsStep(urls: seq<string>, keys: seq<string>, fetch: Fetcher, rows: seq<Row>, links: map<string, string>)
    requires urls != []
    requires CompareUrls(urls, keys, fetch, rows, links).Ok?
    ensures var prev := CompareUrls(urls[..|urls| - 1], keys, fetch, rows, links);
      var step := VisitUrl(urls[|urls| - 1], keys, fetch, rows, links);
      prev.Ok? && step.Ok?
      && CompareUrls(urls, keys, fetch, rows, links).value.countLog == prev.value.countLog + step.value.countLog
      && CompareUrls(urls, keys, fetch, rows, links).value.linkLog == prev.value.linkLog + step.value.linkLog
  {
  }

  /** A visited URL whose link file lists fewer links than the page now
      has: some fresh web link is not among the stored lines. */
  predicate NewLinkOn(url: string, fetch: Fetcher, links: map<string, string>) {
    Visited(url, fetch) && CleanUrl(url) in links
    && exists l :: l in FreshLinks(fetch(url).value.hrefs).value - Elems(SplitLines(links[CleanUrl(url)])) && IsWebLink(l)
  }

  /** A link line is reported exactly for a visited URL with a readable
      link file and a fresh link not in it. */
  lemma {:induction false} LinkLogMembers(urls: seq<string>, keys: seq<string>, fetch: Fetcher, rows: seq<Row>,
                                          links: map<string, string>, m: string)
    requires CompareUrls(urls, keys, fetch, rows, links).Ok?
    ensures m in CompareUrls(urls, keys, fetch, rows, links).value.linkLog
        <==> exists i :: 0 <= i < |urls| && NewLinkOn(urls[i], fetch, links) && m == LinkMessage(urls[i])
    decreases |urls|
  {
    if urls != [] {
      var init := urls[..|urls| - 1];
      CompareUrlsStep(urls, keys, fetch, rows, links);
      LinkLogMembers(init, keys, fetch, rows, links, m);
      ExistsSplit(urls, u => NewLinkOn(u, fetch, links) && m == LinkMessage(u));
    }
  }

  /** Links that were removed from a page never give a link line: only a
      fresh link missing from the stored ones does. */
  lemma RemovedLinksIgnored(url: string, fetch: Fetcher, links: map<string, string>)
    requires Visited(url, fetch) && CleanUrl(url) in links
    requires FreshLinks(fetch(url).value.hrefs).value <= Elems(SplitLines(links[CleanUrl(url)]))
    ensures !NewLinkOn(url, fetch, links)
    ensures LinkLog(url, FreshLinks(fetch(url).value.hrefs).value, links) == []
  {
    var newLinks := FreshLinks(fetch(url).value.hrefs).value;
    var stored := Elems(SplitLines(links[CleanUrl(url)]));
    assert newLinks - stored == {};
  }

  lemma LinkMessageInjective(u: string, v: string)
    requires LinkMessage(u) == LinkMessage(v)
    ensures u == v
  {
    var p := "New link appeard on ";
    assert LinkMessage(u)[|p|..] == u;
    assert LinkMessage(v)[|p|..] == v;
  }

  /** With distinct URLs, no URL is reported twice for new links. */
  lemma {:induction false} LinkLogNoDup(urls: seq<string>, keys: seq<string>, fetch: Fetcher, rows: seq<Row>,
                                        links: map<string, string>)
    requires NoDup(urls)
    requires CompareUrls(urls, keys, fetch, rows, links).Ok?
    ensures NoDup(CompareUrls(urls, keys, fetch, rows, links).value.linkLog)
    decreases |urls|
  {
    if urls != [] {
      var init := urls[..|urls| - 1];
      var url := urls[|urls| - 1];
      NoDupInit(urls);
      CompareUrlsStep(urls, keys, fetch, rows, links);
      LinkLogNoDup(init, keys, fetch, rows, links);
      var prev := CompareUrls(init, keys, fetch, rows, links).value.linkLog;
      var step := VisitUrl(url, keys, fetch, rows, links).value.linkLog;
      if step != [] {
        assert step == [LinkMessage(url)];
        if LinkMessage(url) in prev {
          LinkLogMembers(init, keys, fetch, rows, links, LinkMessage(url));
          var i :| 0 <= i < |init| && NewLinkOn(init[i], fetch, links) && LinkMessage(url) == LinkMessage(init[i]);
          LinkMessageInjective(url, init[i]);
          assert false;
        }
      }
      NoDupAppend(prev, step);
    }
  }

  lemma NoDupAppend(a: seq<string>, b: seq<string>)
    requires NoDup(a) && |b| <= 1 && (b != [] ==> b[0] !in a)
    ensures NoDup(a + b)
  {
  }

  /** The keyword lines and the errors do not depend on the link files: a
      missing or different link file only changes the link step. */
  lemma {:induction false} KeywordsIgnoreLinkFiles(urls: seq<string>, keys: seq<string>, fetch: Fetcher, rows: seq<Row>,
                                                   links: map<string, string>, others: map<string, string>)
    ensures CompareUrls(urls, keys, fetch, rows, links).Err? == CompareUrls(urls, keys, fetch, rows, others).Err?
    ensures CompareUrls(urls, keys, fetch, rows, links).Err? ==>
      CompareUrls(urls, keys, fetch, rows, links).error == CompareUrls(urls, keys, fetch, rows, others).error
    ensures CompareUrls(urls, keys, fetch, rows, links).Ok? ==>
      CompareUrls(urls, keys, fetch, rows, links).value.countLog == CompareUrls(urls, keys, fetch, rows, others).value.countLog
    decreases |urls|
  {
    if urls != [] {
      KeywordsIgnoreLinkFiles(urls[..|urls| - 1], keys, fetch, rows, links, others);
    }
  }

  /** With every anchor carrying an href, the fresh links are the stored
      list of the same page, as a set. */
  lemma FreshLinksStored(hrefs: seq<Option<string>>)
    requires forall i :: 0 <= i < |hrefs| ==> hrefs[i].Some?
    ensures FreshLinks(hrefs) == Some(Elems(StoredLinks(hrefs)))
  {
    var newLinks := FreshLinks(hrefs).value;
    var stored := Elems(StoredLinks(hrefs));
    assert forall l :: l in newLinks <==> l in StoredLinks(hrefs);
    assert newLinks == stored;
  }
}
