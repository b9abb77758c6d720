# Monitor: a verified model of the snapshot/diff engine

monitor.py watches a set of web pages. A project folder holds an input
folder, with a URL file and a keyword file, and a cache folder. The cache
folder holds a snapshot:

- `keywordCount.csv`, a table of rows `(url, word, count)`;
- `siteCaches/`, one link file per host name.

One run does two things:

- When the cache folder is valid, `compareData` fetches every page again and
  reports keyword counts that grew and links that are new.
- In every case, `cacheData` then replaces the snapshot with a fresh one.

The model is written in Dafny, in six modules:

- `PyStr` (pystr.dfy) gives the Python string operations the program relies
  on, with their Python semantics: `startswith`, `find`, slicing with a
  negative end, non-overlapping `count`, ASCII `lower`, `'\n'.join` and
  `splitlines`.
- `Monitor` (monitor.dfy) holds the data model:
  - the fatal errors;
  - fetched pages, each a text and the `href` of every anchor;
  - table rows;
  - a file system seen through `isdir` and `isfile`;
  - the snapshot contents.

  It also holds `cleanUrl` and the two folder checks. The checks are methods
  with the source's flag-updating loop.
- `Report` (report.dfy) holds `printLogs`. It is a method that builds the
  message by appending, as the source does, and returns it.
- `Snapshot` (snapshot.dfy) holds `cacheData`. It is a method with the
  source's loops, proved equal to the specification function `Rebuild`. The
  lemmas about `Rebuild` state what the snapshot contains.
- `Diff` (diff.dfy) holds `compareData`. It is a method proved equal to the
  specification function `Compare`, with lemmas saying exactly which lines
  are reported and when the comparison stops.
- `Orchestrator` (orchestrator.dfy) holds the `__main__` decision and the
  end-to-end theorems:
  - Run right after a snapshot, with unchanged pages, the monitor reports
    nothing. It then leaves the same folders, files and link files, and the
    same table rows, possibly in another order. This holds in any iteration
    order of the URL and key sets, under these hypotheses:
    - no two fetched URLs share a host name;
    - no link holds a line boundary;
    - every folder's parent exists, which is needed for the snapshot part;
    - the table reads back exactly as it was written (see "## Left out");
    - page texts and keywords are ASCII, so that `lower()` maps character
      by character (see "## Left out").
  - A keyword added after the snapshot, whose lowered form no snapshot key
    has, stops every later run that still has the keyword and visits some URL. A URL counts as visited when its page
    fetches and every anchor on it has an `href`. Such a run stops before
    caching, so the snapshot is never retaken. A run that visits no URL
    finishes its comparison and takes a new snapshot with the new keyword.

Fetching is an oracle `url -> Option<Page>`. `None` stands for any network,
HTTP or parse failure. A run sees two oracles, because pages are fetched
once for the comparison and once more for the snapshot.

The URL set and the keyword set are sequences, in the set's iteration order.
String hashing is seeded anew in each process, so the next run generally
iterates the same sets in another order.

- The lemmas about one comparison state their findings as membership.
- The theorems that relate two runs take the second run's order as another
  sequence of the same elements.
- The table rows of a rebuild in another order are then the same rows in
  another order, and the link files are the same when no two fetched URLs
  share a host name.
- Where a property needs distinct URLs, it says so.

Where the program's behaviour is surprising, the model follows the code:

- The messages keep the program's spelling: "New occurance of the word …" and
  "New link appeard on …".
- `str.count` counts non-overlapping occurrences. An empty keyword counts
  `len + 1`.
- In `compareData` (monitor.py:132), an anchor without `href` has its
  `startswith` evaluated inside the `try`. It raises there, so the whole URL
  is skipped, as with a failed fetch. `cacheData` skips only that anchor,
  through its `href is not None` test (monitor.py:206).
- A fatal error in `cacheData` leaves a partial snapshot. This happens when a
  host name is `""`, `"."` or `".."`, because `open(..., 'w+')` then meets a
  directory. By then the old cache is removed and some link files are
  written.
- The no-findings property for unchanged pages needs two hypotheses:
  - No two fetched URLs share a host name. Otherwise one link file is
    overwritten by the other and may no longer match its page.
  - No link holds a line boundary. Otherwise the link file does not read
    back as the list written.

## Model

| member | source | states |
|---|---|---|
| PyStr.Find | monitor.py:20 | `find('/')` gives the index of the first `/`, with no `/` before it, or -1 exactly when there is none |
| PyStr.SliceTo | monitor.py:20 | `s[:k]` is the prefix of `s` of length `min(k, len(s))` for `k >= 0` and `max(len(s) + k, 0)` for a negative `k` |
| PyStr.Count | monitor.py:201 | an empty pattern counts `len + 1`; otherwise the non-overlapping occurrences fit in the text |
| PyStr.CountMaximal | monitor.py:201 | for a non-empty pattern, `count` is the largest number of non-overlapping occurrences: the scan's positions are such a list, and no such list is longer |
| PyStr.CountPositive | monitor.py:201 | the count of a non-empty pattern is positive exactly when the pattern occurs |
| PyStr.CountCaseFold | monitor.py:142 | the case-sensitive count of `w` in `t` is at most the count of `w.lower()` in `t.lower()` |
| PyStr.SplitUnlines | monitor.py:153 | `splitlines` gives back lines that were each ended by `'\n'`, when none holds a line boundary |
| PyStr.SplitJoin | monitor.py:211 | `splitlines` undoes `'\n'.join` when no element holds a line boundary and the last one is not empty |
| Monitor.CleanUrl | monitor.py:9-20 | the host name never contains `/` and is no longer than the URL |
| Monitor.CleanUrlHttps | monitor.py:16-20 | `cleanUrl("https://" + h + "/" + r) == h` when `h` has no `/` |
| Monitor.CleanUrlHttp | monitor.py:18-20 | `cleanUrl("http://" + h + "/" + r) == h` when `h` has no `/` |
| Monitor.CleanUrlNoScheme | monitor.py:13-20 | a URL with neither prefix gives `""` |
| Monitor.CleanUrlNoSlash | monitor.py:16-20 | with no `/` after the host, the host loses its last character |
| Monitor.InputFolderIsValid | monitor.py:47-60 | valid exactly when the input folder is a directory and the URL and keyword files are regular files |
| Monitor.CacheFolderIsValid | monitor.py:62-75 | valid exactly when the cache folder is a directory and `keywordCount.csv` and `siteCaches` each exist as a file or a directory |
| Monitor.EmptyCacheFolderInvalid | monitor.py:62-75 | an empty cache directory is not valid |
| Report.PrintLogs | monitor.py:77-97 | the message is the keyword section, then the link section, each line ended by `'\n'`; it always ends with `'\n'` |
| Report.ReportLayout | monitor.py:84-95 | each header is present exactly when its log is non-empty, with the fixed notice at its place otherwise |
| Report.ReportReadsBack | monitor.py:81-96 | split into lines, the message gives back its lines, when no log entry holds a line boundary |
| Snapshot.StoredLinks | monitor.py:203-208 | the link list holds exactly the present hrefs that start with `https://` or `http://`, and no more than the page has |
| Snapshot.StoredLinksOne | monitor.py:205-208 | one anchor contributes its href exactly when the href is present and a web link |
| Snapshot.StoredLinksAppend | monitor.py:204-208 | the links of two runs of anchors are the first's followed by the second's, so document order and repeats are kept |
| Snapshot.CountKeywords | monitor.py:198-201 | one row per keyword in keyword order: the URL, the lowered word and its count in the lowered text |
| Snapshot.CollectLinks | monitor.py:203-208 | the `linkContent` loop builds the stored link list |
| Snapshot.FetchAll | monitor.py:187-211 | the URL loop produces the rows, the link files and the stopping error of the build |
| Snapshot.CacheData | monitor.py:162-215 | `cacheData` takes the state to `Rebuild`: input check, removal and re-creation of the cache folder, the build, and the table written last |
| Snapshot.BuildFailure | monitor.py:210 | the build stops exactly when a fetched URL's host name is `""`, `"."` or `".."` |
| Snapshot.BuildRows | monitor.py:187-201 | a row is in the table exactly when its URL was fetched, its word is a lowered keyword, and its count is that word's count in the lowered page text |
| Snapshot.BuildRowsOfUrl | monitor.py:198-201 | with distinct URLs, a fetched URL has exactly one row per keyword, in keyword order, and a URL that failed to fetch has none |
| Snapshot.BuildLinkFileNames | monitor.py:210-211 | a link file exists exactly for the host names of the fetched URLs |
| Snapshot.LastWriteWins | monitor.py:210-211 | a host's link file holds the links of the last fetched URL with that host |
| Snapshot.LinkFileReadsBack | monitor.py:203-211 | a link file read back by lines gives the stored list when no link holds a line boundary; an empty list reads back empty |
| Snapshot.RebuildLeavesValidCache | monitor.py:168-214 | after a successful rebuild, the cache folder is valid and holds the new table and link files, and the input files are untouched |
| Snapshot.StoppedRebuildInvalid | monitor.py:171-211 | a rebuild stopped at a link file leaves a cache folder without a table, so the next run does not compare |
| Snapshot.RebuildIdempotent | monitor.py:162-215 | rebuilding again with the same pages, in the same iteration order, gives the same state |
| Snapshot.BuildRowsReordered | monitor.py:187-201 | another iteration order of the same URL and key sets gives the same table rows in another order |
| Snapshot.BuildFailureReordered | monitor.py:187-210 | another iteration order of the same URL set stops the build exactly when the first one does |
| Snapshot.DistinctHostsReordered | monitor.py:187-210 | distinct host names among the fetched URLs do not depend on the iteration order |
| Snapshot.BuildLinksReordered | monitor.py:203-211 | with distinct host names, another iteration order writes the same link files with the same contents |
| Snapshot.RebuildReordered | monitor.py:162-215 | rebuilding in another iteration order with the same pages leaves the same folders, files and link files, and the same rows in another order |
| Diff.PriorCountFirst | monitor.py:138-141 | the lookup finds nothing exactly when no row is for the URL and the lowered word, and otherwise the count of the first such row |
| Diff.CheckKeywords | monitor.py:139-144 | the key loop produces a page's keyword lines, or the error of its first key without a row |
| Diff.VisitPage | monitor.py:126-157 | the loop body: skip, check the keys, then compare the links when the link file exists |
| Diff.CompareAll | monitor.py:125-157 | the URL loop produces the comparison of all URLs |
| Diff.CompareData | monitor.py:100-159 | `compareData` is `Compare`: input check, table check, the URL loop, and the printed report |
| Diff.KeywordLogFails | monitor.py:139-141 | a page's key loop fails exactly when some key has no row, and with the first such key |
| Diff.KeywordLogMembers | monitor.py:139-144 | a page's keyword lines are exactly those of keys whose case-sensitive fresh count exceeds the cached count |
| Diff.CompareFails | monitor.py:125-141 | the comparison fails exactly when a visited URL lacks a row for some key, and names that URL and key |
| Diff.CountLogMembers | monitor.py:125-144 | a keyword line is reported exactly for a new keyword on a visited URL, whether or not it has a link file |
| Diff.LinkLogMembers | monitor.py:147-157 | a link line is reported exactly for a visited URL with a link file and a fresh web link missing from it |
| Diff.RemovedLinksIgnored | monitor.py:155-156 | links that were removed never give a link line |
| Diff.KeywordLogNoDup | monitor.py:139-144 | with distinct keys, a page reports each new keyword at most once |
| Diff.LinkLogNoDup | monitor.py:155-157 | with distinct URLs, each URL gives at most one link line |
| Diff.KeywordsIgnoreLinkFiles | monitor.py:137-150 | the keyword lines and errors do not depend on the link files |
| Diff.FreshLinksStored | monitor.py:132 | when every anchor has an href, the fresh links are the stored list of the same page, as a set |
| Orchestrator.Run | monitor.py:218-229 | the run compares only when the cache is valid, prints the report, then rebuilds |
| Orchestrator.RunPhases | monitor.py:223-229 | the comparison happens exactly when the cache is valid; the rebuild happens once, last, unless the comparison stopped the run |
| Orchestrator.QuietReport | monitor.py:88-96 | two empty logs print the two fixed notices |
| Orchestrator.SnapshotCount | monitor.py:140-141 | after a snapshot, the cached count of a keyword on a fetched URL is the count of the lowered word in the lowered text |
| Orchestrator.QuietPage | monitor.py:138-157 | an unchanged page of the snapshot adds no line |
| Orchestrator.UnchangedPagesNoFindings | monitor.py:100-159 | comparing unchanged pages with the snapshot just taken finds nothing, for any URLs and keys drawn from the snapshot's and in any order, given distinct host names and links without line boundaries |
| Orchestrator.SecondRunQuiet | monitor.py:218-229 | the run after a snapshot, with the same pages and the sets in any order, prints both notices, takes an equal snapshot up to row order, and in the same order the identical one |
| Orchestrator.AddedKeywordSticks | monitor.py:139-141 | a keyword added after the snapshot, whose lowered form no snapshot key has, stops, before caching and leaving the state as it was, any run that has the keyword and visits some URL, in any iteration order |
| Orchestrator.AddedKeywordStaysStuck | monitor.py:218-229 | after a keyword whose lowered form no snapshot key has, a series of runs that each have it and visit some URL leaves the snapshot as it was |

## Left out

- Fetching and parsing are an oracle giving each page's text and hrefs: `requests.get`, `raise_for_status`, BeautifulSoup's `get_text` and `find_all`.
- Reading the URL file and the keyword file is left out. The model takes the resulting sets as sequences in iteration order.
- Pandas is left out. The table is the sequence of rows that `to_csv` wrote, read back verbatim by `read_csv`. A `keywordCount.csv` that does not hold such a table is modelled as unreadable, and the comparison then stops before it visits any URL. In the program, a file that `read_csv` parses but that lacks the `url`, `word` or `count` column raises only at monitor.py:138-141, at the first URL it visits. So a run that visits no URL prints the report and takes a new snapshot (monitor.py:225-227), where the model's run stops. `read_csv`'s type inference is not modelled. For example, an empty word (from a blank line in the key file), or a word such as `nan` or `null`, reads back as NaN. When every word in the table looks numeric, the `word` column reads back as numbers. In either case the lookup at monitor.py:140-141 finds no row for that word, so every later comparison that visits some URL stops there. The no-findings theorems do not hold for such key files.
- The model keeps the rows as one sequence of `(url, word, count)`. The source keeps three parallel lists, `urls`, `words` and `counts`.
- File-system plumbing is left out: `abspath`, `os.path.join`, OS name limits, permissions, and `mkdir` failing because the project folder is missing. Paths are sequences of components.
- The contents of the link files live in the snapshot's map, by name. The file-system sets do not list them.
- `argparse` and every `print` are left out, apart from the report message, which is returned.
- PyStr.Lower: Python's `lower()` is modelled for ASCII letters only. Full Unicode case mapping, which can change string length, is not modelled, and neither is its context-dependent final-sigma rule. The no-findings theorems rely on this character-by-character lowering. For example, for the text "AΣ" and the keyword "Σ", monitor.py:142 counts 1, but the snapshot stored the count of "σ" in "aς", which is 0; so the program reports an unchanged page as new.
- An exception is modelled as an error value that the caller passes on. The traceback and the exit status are not modelled.
- Concurrency and the wall clock are left out. The time between the two fetches of a run is the choice of two oracles.
