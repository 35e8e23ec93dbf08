/** The static manifest and how its `./`-relative entries are rewritten
    against the directory the worker script is served from. */
module Manifest {
  import opened Text

  /** `STATIC_ASSETS`: the documents pre-cached at install. */
  const StaticAssets: seq<string> := ["./", "./index.html"]

  /** The tail of the worker script's own pathname. */
  const WorkerSuffix := "/sw.js"

  /** `BASE_URL`: the worker's pathname without a trailing `/sw.js`, or `./`
      when nothing is left. */
  function BaseUrl(pathname: string): (base: string)
    ensures base != ""
    ensures EndsWith(pathname, WorkerSuffix) && |pathname| > |WorkerSuffix| ==> base + WorkerSuffix == pathname
    ensures !EndsWith(pathname, WorkerSuffix) && pathname != "" ==> base == pathname
    ensures pathname == "" || pathname == WorkerSuffix ==> base == "./"
  {
    var stripped := if EndsWith(pathname, WorkerSuffix) then pathname[..|pathname| - |WorkerSuffix|] else pathname;
    if stripped == "" then "./" else stripped
  }

  /** One manifest entry, resolved against `base`: `./` becomes `base`,
      `./rest` becomes `base` immediately followed by `rest`, and any other
      entry is kept. */
  function ResolveEntry(base: string, url: string): (r: string)
    ensures url == "./" ==> r == base
    ensures StartsWith(url, "./") ==> StartsWith(r, base) && r[|base|..] == url[2..]
    ensures !StartsWith(url, "./") ==> r == url
  {
    if url == "./" then base
    else if StartsWith(url, "./") then base + url[2..]
    else url
  }

  /** `FULL_STATIC_ASSETS`: the manifest with every entry resolved, in order. */
  function ResolveManifest(base: string, assets: seq<string>): (r: seq<string>)
    ensures |r| == |assets|
    ensures forall i :: 0 <= i < |assets| ==> r[i] == ResolveEntry(base, assets[i])
  {
    seq(|assets|, i requires 0 <= i < |assets| => ResolveEntry(base, assets[i]))
  }

  /** The manifest the worker served at `pathname` pre-caches. */
  function FullStaticAssets(pathname: string): seq<string>
  {
    ResolveManifest(BaseUrl(pathname), StaticAssets)
  }

  /** The static manifest, entry by entry, resolved against `base`. */
  lemma StaticManifestEntries(base: string)
    ensures ResolveManifest(base, StaticAssets) == [ResolveEntry(base, "./"), ResolveEntry(base, "./index.html")]
  {
    var r := ResolveManifest(base, StaticAssets);
    assert r[0] == ResolveEntry(base, StaticAssets[0]);
    assert r[1] == ResolveEntry(base, StaticAssets[1]);
  }

  lemma EndsWithWorkerSuffix(d: string)
    ensures EndsWith(d + WorkerSuffix, WorkerSuffix)
    ensures (d + WorkerSuffix)[..|d|] == d
  {
    assert (d + WorkerSuffix)[|d|..] == WorkerSuffix;
  }

  /** At the site root the manifest stays relative: `./` and `./index.html`. */
  lemma RootManifest()
    ensures FullStaticAssets("/sw.js") == ["./", "./index.html"]
  {
    assert BaseUrl("/sw.js") == "./";
    StaticManifestEntries("./");
    assert ResolveEntry("./", "./") == "./";
    assert ResolveEntry("./", "./index.html") == "./index.html" by {
      assert "./index.html"[2..] == "index.html";
    }
  }

  /** As written, a worker served from a subdirectory `d` resolves `./x`
      to `d + x`: the separator between the directory and `x` is lost. */
  lemma {:induction false} SubdirectoryDropsSeparator(d: string, x: string)
    requires d != ""
    ensures ResolveEntry(BaseUrl(d + WorkerSuffix), "./" + x) == d + x
  {
    EndsWithWorkerSuffix(d);
    assert BaseUrl(d + WorkerSuffix) == d;
    assert ("./" + x)[2..] == x;
  }

  /** The concrete case: served as `/app/sw.js`, the index document is
      pre-cached under `/appindex.html`. */
  lemma SubdirectoryManifest()
    ensures FullStaticAssets("/app/sw.js") == ["/app", "/appindex.html"]
  {
    assert "/app/sw.js" == "/app" + WorkerSuffix;
    StaticManifestEntries(BaseUrl("/app/sw.js"));
    SubdirectoryDropsSeparator("/app", "");
    SubdirectoryDropsSeparator("/app", "index.html");
    assert "./index.html" == "./" + "index.html";
    assert "./" == "./" + "";
    assert "/app" + "" == "/app";
    assert "/app" + "index.html" == "/appindex.html";
  }

  /** The directory of the worker script, keeping its trailing `/`, or `./`
      when nothing is left: what `BASE_URL` is evidently meant to be. */
  function DirectoryOf(pathname: string): (dir: string)
    ensures dir != ""
    ensures EndsWith(pathname, WorkerSuffix) ==> dir + "sw.js" == pathname
    ensures !EndsWith(pathname, WorkerSuffix) && pathname != "" ==> dir == pathname
    ensures pathname == "" ==> dir == "./"
  {
    // Drops only the `sw.js` of a trailing `/sw.js`, keeping the slash.
    var stripped := if EndsWith(pathname, WorkerSuffix) then pathname[..|pathname| - 5] else pathname;
    if stripped == "" then "./" else stripped
  }

  /** The manifest resolved against the script's directory. */
  function FullStaticAssetsInDirectory(pathname: string): seq<string>
  {
    ResolveManifest(DirectoryOf(pathname), StaticAssets)
  }

  /** Resolving against `DirectoryOf` puts `./x` under the script's
      directory: `d + "/" + x`, for every directory `d`, the root included. */
  lemma {:induction false} DirectoryKeepsSeparator(d: string, x: string)
    ensures ResolveEntry(DirectoryOf(d + WorkerSuffix), "./" + x) == d + "/" + x
  {
    EndsWithWorkerSuffix(d);
    var p := d + WorkerSuffix;
    assert p[..|p| - 5] == d + "/";
    assert DirectoryOf(p) == d + "/";
    assert ("./" + x)[2..] == x;
  }

  /** The concrete case: served as `/app/sw.js`, the corrected manifest is
      `/app/` and `/app/index.html`. */
  lemma SubdirectoryManifestInDirectory()
    ensures FullStaticAssetsInDirectory("/app/sw.js") == ["/app/", "/app/index.html"]
  {
    assert "/app/sw.js" == "/app" + WorkerSuffix;
    StaticManifestEntries(DirectoryOf("/app/sw.js"));
    DirectoryKeepsSeparator("/app", "");
    DirectoryKeepsSeparator("/app", "index.html");
    assert "./index.html" == "./" + "index.html";
    assert "./" == "./" + "";
    assert "/app" + "/" + "" == "/app/";
    assert "/app" + "/" + "index.html" == "/app/index.html";
  }
}
