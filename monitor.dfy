/** The values monitor.py works on, the host name it derives from a URL
    (`cleanUrl`) and the two folder checks (`inputFolderIsValid`,
    `cacheFolderIsValid`) over an abstract file system. */
module Monitor {
  import opened PyStr

  datatype Option<T> = None | Some(value: T)

  /** The fatal errors of a run. Per-URL fetch failures are not errors: the
      URL is skipped. */
  datatype Error =
    | InvalidInputFolder                       // "InputFolder is invalid."
    | CacheFolderNotCreatable                  // os.mkdir on a path that is a file
    | UnreadableCountTable                     // keywordCount.csv cannot be read as a table
    | MissingCountEntry(url: string, word: string)  // df.index[0] on an empty selection
    | UnwritableLinkFile(name: string)         // open(...,'w+') on a directory

  datatype Result<T> = Ok(value: T) | Err(error: Error)

  /** A fetched page: its text and the `href` of every anchor, in document
      order (`None` for an anchor without one). */
  datatype Page = Page(text: string, hrefs: seq<Option<string>>)

  /** What fetching a URL gives: `None` is any network, HTTP or parse failure. */
  type Fetcher = string -> Option<Page>

  /** One row of the keyword-count table. */
  datatype Row = Row(url: string, word: string, count: nat)

  /** A path, as the list of its components. */
  type Path = seq<string>

  /** What `os.path.isdir` and `os.path.isfile` see. */
  datatype FileSystem = FileSystem(dirs: set<Path>, files: set<Path>) {
    predicate IsDir(p: Path) { p in dirs }
    predicate IsFile(p: Path) { p in files }
  }

  /** What the cache folder holds beside its layout: the table that reading
      keywordCount.csv gives (`None` when it is not a table this program
      wrote) and the text of every file in siteCaches, by file name. */
  datatype CacheContents = CacheContents(table: Option<seq<Row>>, siteCaches: map<string, string>)

  datatype State = State(fs: FileSystem, cache: CacheContents)

  // The layout of the project folder (getFolders, getInputFolderContent,
  // getCacheFolderContent).
  function InputFolder(project: Path): Path { project + ["inputFolder"] }
  function CacheFolder(project: Path): Path { project + ["cacheFolder"] }
  function UrlFile(inputFolder: Path): Path { inputFolder + ["urlFile"] }
  function KeyFile(inputFolder: Path): Path { inputFolder + ["keyFile"] }
  function KeywordCountFile(cacheFolder: Path): Path { cacheFolder + ["keywordCount.csv"] }
  function SiteCachesDir(cacheFolder: Path): Path { cacheFolder + ["siteCaches"] }

  function InputFolderContent(inputFolder: Path): seq<Path> {
    [UrlFile(inputFolder), KeyFile(inputFolder)]
  }

  function CacheFolderContent(cacheFolder: Path): seq<Path> {
    [KeywordCountFile(cacheFolder), SiteCachesDir(cacheFolder)]
  }

  /** The URL's host: everything after the `https://` or `http://` prefix up
      to the first `/`. With no `/` there, `find` gives -1 and the slice
      drops the last character; with neither prefix the result is empty. */
  function CleanUrl(url: string): (r: string)
    ensures '/' !in r
    ensures |r| <= |url|
  {
    var https := "https://";
    var http := "http://";
    var afterHttps := if StartsWith(url, https) then url[|https|..] else "";
    var newUrl := if StartsWith(url, http) then url[|http|..] else afterHttps;
    var r := SliceTo(newUrl, Find(newUrl, '/'));
    assert r == newUrl[..|r|];
    assert forall j :: 0 <= j < |r| ==> r[j] == newUrl[j];
    r
  }

  lemma CleanUrlHttps(h: string, rest: string)
    requires '/' !in h
    ensures CleanUrl("https://" + h + "/" + rest) == h
  {
    var url := "https://" + h + "/" + rest;
    assert StartsWith(url, "https://");
    assert !StartsWith(url, "http://") by { assert url[4] == 's'; }
    assert url[8..] == h + "/" + rest;
    FindAfter(h, rest);
  }

  lemma CleanUrlHttp(h: string, rest: string)
    requires '/' !in h
    ensures CleanUrl("http://" + h + "/" + rest) == h
  {
    var url := "http://" + h + "/" + rest;
    assert StartsWith(url, "http://");
    assert url[7..] == h + "/" + rest;
    FindAfter(h, rest);
  }

  lemma FindAfter(h: string, rest: string)
    requires '/' !in h
    ensures Find(h + "/" + rest, '/') == |h|
  {
    var s := h + "/" + rest;
    assert s[|h|] == '/';
    assert s[..|h|] == h;
  }

  /** With neither prefix the name is empty. */
  lemma CleanUrlNoScheme(url: string)
    requires !StartsWith(url, "https://") && !StartsWith(url, "http://")
    ensures CleanUrl(url) == ""
  {
  }

  /** With no `/` after the host, the last character of the host is lost. */
  lemma CleanUrlNoSlash(scheme: string, h: string)
    requires scheme == "https://" || scheme == "http://"
    requires '/' !in h
    ensures CleanUrl(scheme + h) == if h == "" then "" else h[..|h| - 1]
  {
    var url := scheme + h;
    assert StartsWith(url, scheme);
    assert url[|scheme|..] == h;
    if scheme == "https://" {
      assert !StartsWith(url, "http://") by { assert url[4] == 's'; }
    }
  }

  /** The condition `inputFolderIsValid` decides. */
  predicate InputValid(fs: FileSystem, inputFolder: Path) {
    fs.IsDir(inputFolder) && fs.IsFile(UrlFile(inputFolder)) && fs.IsFile(KeyFile(inputFolder))
  }

  /** `inputFolderIsValid`: the input folder is a directory holding the URL
      file and the keyword file, both regular files. */
  method InputFolderIsValid(fs: FileSystem, inputFolder: Path) returns (isValid: bool)
    ensures isValid <==> fs.IsDir(inputFolder) && fs.IsFile(UrlFile(inputFolder)) && fs.IsFile(KeyFile(inputFolder))
  {
    isValid := true;
    if !fs.IsDir(inputFolder) {
      isValid := false;
    }
    var content := InputFolderContent(inputFolder);
    var i := 0;
    while i < |content|
      invariant 0 <= i <= |content|
      invariant isValid <==> fs.IsDir(inputFolder) && forall j :: 0 <= j < i ==> fs.IsFile(content[j])
    {
      if !fs.IsFile(content[i]) {
        isValid := false;
      }
      i := i + 1;
    }
    assert content[0] == UrlFile(inputFolder) && content[1] == KeyFile(inputFolder);
  }

  predicate Exists(fs: FileSystem, p: Path) {
    fs.IsFile(p) || fs.IsDir(p)
  }

  /** The condition `cacheFolderIsValid` decides. */
  predicate CacheValid(fs: FileSystem, cacheFolder: Path) {
    fs.IsDir(cacheFolder) && Exists(fs, KeywordCountFile(cacheFolder)) && Exists(fs, SiteCachesDir(cacheFolder))
  }

  /** `cacheFolderIsValid`: the cache folder is a directory in which
      keywordCount.csv and siteCaches both exist, each as a file or a
      directory. */
  method CacheFolderIsValid(fs: FileSystem, cacheFolder: Path) returns (isValid: bool)
    ensures isValid <==> (fs.IsDir(cacheFolder)
      && (fs.IsFile(KeywordCountFile(cacheFolder)) || fs.IsDir(KeywordCountFile(cacheFolder)))
      && (fs.IsFile(SiteCachesDir(cacheFolder)) || fs.IsDir(SiteCachesDir(cacheFolder))))
  {
    isValid := true;
    if !fs.IsDir(cacheFolder) {
      isValid := false;
    }
    var content := CacheFolderContent(cacheFolder);
    var i := 0;
    while i < |content|
      invariant 0 <= i <= |content|
      invariant isValid <==> fs.IsDir(cacheFolder) && forall j :: 0 <= j < i ==> Exists(fs, content[j])
    {
      if !(fs.IsFile(content[i]) || fs.IsDir(content[i])) {
        isValid := false;
      }
      i := i + 1;
    }
    assert content[0] == KeywordCountFile(cacheFolder) && content[1] == SiteCachesDir(cacheFolder);
  }

  /** `p` is `dir` or lies inside it. */
  predicate Under(p: Path, dir: Path) {
    |dir| <= |p| && p[..|dir|] == dir
  }

  /** `p` lies strictly inside the directory `dir`. */
  predicate Inside(p: Path, dir: Path) {
    Under(p, dir) && p != dir
  }

  /** A directory with nothing in it is not a valid cache. */
  lemma EmptyCacheFolderInvalid(fs: FileSystem, cacheFolder: Path)
    requires fs.IsDir(cacheFolder)
    requires forall p :: p in fs.files ==> !Inside(p, cacheFolder)
    requires forall p :: p in fs.dirs ==> !Inside(p, cacheFolder)
    ensures !CacheValid(fs, cacheFolder)
  {
    var kc := KeywordCountFile(cacheFolder);
    assert Inside(kc, cacheFolder) by { assert kc[..|cacheFolder|] == cacheFolder; }
  }
}
