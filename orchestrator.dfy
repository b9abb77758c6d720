/** The `__main__` block of monitor.py: compare against the snapshot when the
    cache folder is valid, then take a new snapshot; a comparison that stops
    with an error ends the run before the snapshot is taken. */
module Orchestrator {
  import opened PyStr
  import opened Monitor
  import opened Report
  import opened Snapshot
  import opened Diff

  datatype Phase = Comparison | Caching

  /** What a run did, the report it printed, and how it ended. */
  datatype RunResult = RunResult(phases: seq<Phase>, report: Option<string>, outcome: Outcome)

  /** The run as a function of the state and of the pages seen by the
      comparison (`now`) and by the snapshot (`later`). */
  function MainRun(st: State, project: Path, urls: seq<string>, keys: seq<string>, now: Fetcher, later: Fetcher): RunResult {
    if CacheValid(st.fs, CacheFolder(project)) then
      match Compare(st, project, urls, keys, now)
        case Err(e) => RunResult([Comparison], None, Failed(e, st))
        case Ok(f) =>
          RunResult([Comparison, Caching], Some(Unlines(ReportLines(f.countLog, f.linkLog))),
                    Rebuild(st, project, urls, keys, later))
    else RunResult([Caching], None, Rebuild(st, project, urls, keys, later))
  }

  /** The `__main__` block. */
  method Run(st: State, project: Path, urls: seq<string>, keys: seq<string>, now: Fetcher, later: Fetcher)
    returns (result: RunResult)
    ensures result == MainRun(st, project, urls, keys, now, later)
  {
    var cacheFolder := CacheFolder(project);
    var valid := CacheFolderIsValid(st.fs, cacheFolder);
    if valid {
      var res, msg := CompareData(st, project, urls, keys, now);
      if res.Err? {
        return RunResult([Comparison], None, Failed(res.error, st));
      }
      var out := CacheData(st, project, urls, keys, later);
      result := RunResult([Comparison, Caching], Some(msg), out);
    } else {
      var out := CacheData(st, project, urls, keys, later);
      result := RunResult([Caching], None, out);
    }
  }

  /** The comparison runs exactly when the cache folder is valid; the
      snapshot is taken once, unless the comparison stopped the run, and
      always after the comparison. */
  lemma RunPhases(st: State, project: Path, urls: seq<string>, keys: seq<string>, now: Fetcher, later: Fetcher)
    ensures var r := MainRun(st, project, urls, keys, now, later);
      (Comparison in r.phases <==> CacheValid(st.fs, CacheFolder(project)))
      && (Caching in r.phases <==> !CacheValid(st.fs, CacheFolder(project)) || Compare(st, project, urls, keys, now).Ok?)
      && multiset(r.phases)[Caching] <= 1 && multiset(r.phases)[Comparison] <= 1
      && (r.report.Some? <==> Comparison in r.phases && Caching in r.phases)
      && (Caching in r.phases ==>
            r.phases[|r.phases| - 1] == Caching && r.outcome == Rebuild(st, project, urls, keys, later))
      && (Caching !in r.phases ==> r.outcome.Failed? && r.outcome.state == st)
  {
  }

  /** The report printed for two empty logs. */
  lemma QuietReport()
    ensures Unlines(ReportLines([], [])) == "\n" + NoNewKeywords + "\n" + "\n" + NoNewLinks + "\n"
  {
    assert ReportLines([], []) == ["", NoNewKeywords] + ["", NoNewLinks];
    UnlinesAppend(["", NoNewKeywords], ["", NoNewLinks]);
    UnlinesPair("", NoNewKeywords);
    UnlinesPair("", NoNewLinks);
  }

  /** Every fetched page's hrefs are free of line boundaries. */
  predicate LinksHaveNoBreak(urls: seq<string>, fetch: Fetcher) {
    forall i, h ::
      (0 <= i < |urls| && fetch(urls[i]).Some? && 0 <= h < |fetch(urls[i]).value.hrefs| && fetch(urls[i]).value.hrefs[h].Some?)
      ==> NoBreak(fetch(urls[i]).value.hrefs[h].value)
  }

  /** A comparison in which every URL adds nothing reports nothing. */
  lemma {:induction false} QuietUrls(urls: seq<string>, keys: seq<string>, fetch: Fetcher, rows: seq<Row>, links: map<string, string>)
    requires forall i :: 0 <= i < |urls| ==> VisitUrl(urls[i], keys, fetch, rows, links) == Ok(Findings([], []))
    ensures CompareUrls(urls, keys, fetch, rows, links) == Ok(Findings([], []))
    decreases |urls|
  {
    if urls != [] {
      var init := urls[..|urls| - 1];
      assert forall i :: 0 <= i < |init| ==> init[i] == urls[i];
      QuietUrls(init, keys, fetch, rows, links);
      var step := VisitUrl(urls[|urls| - 1], keys, fetch, rows, links);
      assert step == Ok(Findings([], []));
      var prev := CompareUrls(init, keys, fetch, rows, links);
      assert prev == Ok(Findings([], []));
      assert CompareUrls(urls, keys, fetch, rows, links) == Ok(Findings(prev.value.countLog + step.value.countLog, prev.value.linkLog + step.value.linkLog));
      assert prev.value.countLog + step.value.countLog == [];
    }
  }

  /** A page whose every key has a cached count at least its fresh count
      has no keyword lines. */
  lemma {:induction false} QuietKeywords(url: string, keys: seq<string>, text: string, rows: seq<Row>)
    requires forall k :: 0 <= k < |keys| ==>
      PriorCount(rows, url, keys[k]).Some? && Count(text, keys[k]) <= PriorCount(rows, url, keys[k]).value
    ensures KeywordLog(url, keys, text, rows) == Ok([])
    decreases |keys|
  {
    if keys != [] {
      var init := keys[..|keys| - 1];
      assert forall k :: 0 <= k < |init| ==> init[k] == keys[k];
      QuietKeywords(url, init, text, rows);
      var w := keys[|keys| - 1];
      assert PriorCount(rows, url, w).Some? && Count(text, w) <= PriorCount(rows, url, w).value;
      var prev := KeywordLog(url, init, text, rows);
      assert prev == Ok([]);
      assert KeywordLog(url, keys, text, rows) == Ok(prev.value + []);
      assert prev.value + [] == [];
    }
  }

  /** After a snapshot, the cached count of a keyword on a fetched URL is
      its count, lowered, in the lowered page text. */
  lemma SnapshotCount(urls: seq<string>, keys: seq<string>, fetch: Fetcher, u: string, w: string)
    requires Build(urls, keys, fetch).failed.None?
    requires u in urls && fetch(u).Some? && w in keys
    ensures PriorCount(Build(urls, keys, fetch).rows, u, w) == Some(Count(Lower(fetch(u).value.text), Lower(w)))
  {
    var rows := Build(urls, keys, fetch).rows;
    var text := fetch(u).value.text;
    BuildRows(urls, keys, fetch, Row(u, Lower(w), Count(Lower(text), Lower(w))));
    PriorCountFirst(rows, u, w);
    if PriorCount(rows, u, w).Some? {
      var i :| 0 <= i < |rows| && RowFor(rows[i], u, w) && rows[i].count == PriorCount(rows, u, w).value
        && forall j :: 0 <= j < i ==> !RowFor(rows[j], u, w);
      BuildRows(urls, keys, fetch, rows[i]);
    }
  }

  /** An unchanged page of the snapshot adds nothing to the comparison,
      whichever of the snapshot's keys are checked, in whichever order. */
  lemma QuietPage(urls: seq<string>, keys: seq<string>, fetch: Fetcher, links: map<string, string>,
                  u: string, keys2: seq<string>)
    requires Build(urls, keys, fetch).failed.None?
    requires DistinctHosts(urls, fetch) && LinksHaveNoBreak(urls, fetch)
    requires forall n :: n in links ==> n in Build(urls, keys, fetch).siteCaches && links[n] == Build(urls, keys, fetch).siteCaches[n]
    requires u in urls && forall w :: w in keys2 ==> w in keys
    ensures VisitUrl(u, keys2, fetch, Build(urls, keys, fetch).rows, links) == Ok(Findings([], []))
  {
    var b := Build(urls, keys, fetch);
    if Visited(u, fetch) {
      var page := fetch(u).value;
      forall k | 0 <= k < |keys2|
        ensures PriorCount(b.rows, u, keys2[k]).Some? && Count(page.text, keys2[k]) <= PriorCount(b.rows, u, keys2[k]).value
      {
        SnapshotCount(urls, keys, fetch, u, keys2[k]);
        CountCaseFold(page.text, keys2[k]);
      }
      QuietKeywords(u, keys2, page.text, b.rows);
      var name := CleanUrl(u);
      if name in links {
        var j :| 0 <= j < |urls| && urls[j] == u;
        LastWriteWins(urls, keys, fetch, j);
        assert forall h :: 0 <= h < |page.hrefs| && page.hrefs[h].Some? ==> NoBreak(page.hrefs[h].value);
        LinkFileReadsBack(page.hrefs);
        FreshLinksStored(page.hrefs);
        assert FreshLinks(page.hrefs).value - Elems(SplitLines(links[name])) == {};
      }
    }
  }

  /** With unchanged pages, comparing against the snapshot just taken finds
      nothing, whatever order the comparison visits the snapshot's URLs and
      keys in, provided no two fetched URLs share a host and no link holds a
      line boundary: a case-sensitive count never exceeds the count of the
      lowered word in the lowered text, and the link file reads back as the
      set of the page's links. */
  lemma UnchangedPagesNoFindings(st: State, project: Path, urls: seq<string>, keys: seq<string>, fetch: Fetcher,
                                 urls2: seq<string>, keys2: seq<string>)
    requires Rebuild(st, project, urls, keys, fetch).Done?
    requires DistinctHosts(urls, fetch) && LinksHaveNoBreak(urls, fetch)
    requires (forall u :: u in urls2 ==> u in urls) && (forall w :: w in keys2 ==> w in keys)
    ensures Compare(Rebuild(st, project, urls, keys, fetch).state, project, urls2, keys2, fetch) == Ok(Findings([], []))
  {
    var s := Rebuild(st, project, urls, keys, fetch).state;
    var cf := CacheFolder(project);
    var b := Build(urls, keys, fetch);
    RebuildLeavesValidCache(st, project, urls, keys, fetch);
    var links := ReadableLinks(s.fs, s.cache, cf);
    forall i | 0 <= i < |urls2| ensures VisitUrl(urls2[i], keys2, fetch, b.rows, links) == Ok(Findings([], [])) {
      QuietPage(urls, keys, fetch, links, urls2[i], keys2);
    }
    QuietUrls(urls2, keys2, fetch, b.rows, links);
  }

  /** The run after a snapshot, with the same pages and the URL and key sets
      iterated in any order, reports nothing new and leaves the same folders,
      files and link files, and the same table rows, in the new order; in
      the same order it leaves the snapshot exactly as it was. */
  lemma SecondRunQuiet(st: State, project: Path, urls: seq<string>, keys: seq<string>, fetch: Fetcher,
                       urls2: seq<string>, keys2: seq<string>)
    requires ParentsExist(st.fs)
    requires Rebuild(st, project, urls, keys, fetch).Done?
    requires DistinctHosts(urls, fetch) && LinksHaveNoBreak(urls, fetch)
    requires multiset(urls2) == multiset(urls) && multiset(keys2) == multiset(keys)
    ensures var s := Rebuild(st, project, urls, keys, fetch).state;
      var r := MainRun(s, project, urls2, keys2, fetch, fetch);
      r.phases == [Comparison, Caching]
      && r.report == Some("\n" + NoNewKeywords + "\n" + "\n" + NoNewLinks + "\n")
      && r.outcome.Done? && r.outcome.state.fs == s.fs
      && r.outcome.state.cache.siteCaches == s.cache.siteCaches
      && r.outcome.state.cache.table.Some?
      && multiset(r.outcome.state.cache.table.value) == multiset(s.cache.table.value)
      && (urls2 == urls && keys2 == keys ==> r.outcome == Done(s))
  {
    RebuildLeavesValidCache(st, project, urls, keys, fetch);
    forall u | u in urls2 ensures u in urls {
      assert u in multiset(urls2);
    }
    forall w | w in keys2 ensures w in keys {
      assert w in multiset(keys2);
    }
    UnchangedPagesNoFindings(st, project, urls, keys, fetch, urls2, keys2);
    RebuildReordered(st, project, urls, keys, fetch, urls2, keys2);
    RebuildIdempotent(st, project, urls, keys, fetch);
    QuietReport();
  }

  /** A keyword added to the key file after a snapshot has no cached row, so
      a run that visits some URL, in whatever order it iterates the URLs and
      keys, stops the comparison; the snapshot is then not retaken and the
      state is left as it was. */
  lemma AddedKeywordSticks(st: State, project: Path, urls: seq<string>, keys: seq<string>, fetch: Fetcher,
                           urls2: seq<string>, keys2: seq<string>, now: Fetcher, later: Fetcher, w: string)
    requires Rebuild(st, project, urls, keys, fetch).Done?
    requires forall k :: k in keys ==> Lower(k) != Lower(w)
    requires w in keys2
    requires exists u :: u in urls2 && Visited(u, now)
    ensures var s := Rebuild(st, project, urls, keys, fetch).state;
      var r := MainRun(s, project, urls2, keys2, now, later);
      r.phases == [Comparison] && r.report.None? && r.outcome.Failed? && r.outcome.state == s
  {
    var s := Rebuild(st, project, urls, keys, fetch).state;
    var cf := CacheFolder(project);
    var b := Build(urls, keys, fetch);
    var links := ReadableLinks(s.fs, s.cache, cf);
    RebuildLeavesValidCache(st, project, urls, keys, fetch);
    var u :| u in urls2 && Visited(u, now);
    var i :| 0 <= i < |urls2| && urls2[i] == u;
    var k :| 0 <= k < |keys2| && keys2[k] == w;
    PriorCountFirst(b.rows, u, w);
    forall j | 0 <= j < |b.rows| ensures !RowFor(b.rows[j], u, w) {
      BuildRows(urls, keys, fetch, b.rows[j]);
    }
    assert MissingOn(urls2[i], keys2, now, b.rows);
    CompareFails(urls2, keys2, now, b.rows, links);
  }

  /** What a later run is given: the URL and key sets in its iteration
      order, and the pages its comparison and its snapshot see. */
  datatype RunInput = RunInput(urls: seq<string>, keys: seq<string>, now: Fetcher, later: Fetcher)

  /** A run that still has the keyword `w` and visits some URL. */
  predicate ChecksKeyword(run: RunInput, w: string) {
    w in run.keys && exists u :: u in run.urls && Visited(u, run.now)
  }

  /** The state after a series of runs. */
  function AfterRuns(st: State, project: Path, runs: seq<RunInput>): State
    decreases |runs|
  {
    if runs == [] then st
    else
      var r := runs[|runs| - 1];
      MainRun(AfterRuns(st, project, runs[..|runs| - 1]), project, r.urls, r.keys, r.now, r.later).outcome.state
  }

  /** Once a keyword is added after a snapshot, every later run that still
      has the keyword and visits some URL stops before caching, so the
      snapshot is never retaken. */
  lemma {:induction false} AddedKeywordStaysStuck(st: State, project: Path, urls: seq<string>, keys: seq<string>,
                                                 fetch: Fetcher, w: string, runs: seq<RunInput>)
    requires Rebuild(st, project, urls, keys, fetch).Done?
    requires forall k :: k in keys ==> Lower(k) != Lower(w)
    requires forall n :: 0 <= n < |runs| ==> ChecksKeyword(runs[n], w)
    ensures AfterRuns(Rebuild(st, project, urls, keys, fetch).state, project, runs) == Rebuild(st, project, urls, keys, fetch).state
    decreases |runs|
  {
    if runs != [] {
      var init := runs[..|runs| - 1];
      assert forall n :: 0 <= n < |init| ==> init[n] == runs[n];
      AddedKeywordStaysStuck(st, project, urls, keys, fetch, w, init);
      var r := runs[|runs| - 1];
      assert ChecksKeyword(r, w);
      AddedKeywordSticks(st, project, urls, keys, fetch, r.urls, r.keys, r.now, r.later, w);
    }
  }
}
