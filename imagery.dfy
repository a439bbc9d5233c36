/** `_download_imagery` of pywebcoos/API.py: the download URLs of the
    filtered elements, the local path of each (the save directory joined
    with the URL's last segment), and the downloads themselves, which
    write a file only when its path is absent. The disk is a map from path
    to contents; the server is a map from URL to contents, a URL it lacks
    being an HTTP error. */
module Imagery {

  import opened Errors
  import opened Elements

  type Bytes = seq<bv8>

  // ---------------------------------------------------------------------
  // Paths
  // ---------------------------------------------------------------------

  /** `os.path.basename`: what follows the last `/`. */
  function Basename(path: string): (name: string)
    ensures '/' !in name && |name| <= |path|
  {
    if path == [] || path[|path| - 1] == '/' then []
    else Basename(path[..|path| - 1]) + [path[|path| - 1]]
  }

  /** `os.path.join(dir, name)` (POSIX) for a `name` not starting with `/`:
      a separator is added unless `dir` is empty or already ends in one. */
  function JoinPath(dir: string, name: string): (path: string)
    ensures |path| >= |dir| + |name|
  {
    if dir == [] || dir[|dir| - 1] == '/' then dir + name else dir + "/" + name
  }

  /** The path a URL is saved to. */
  function SavePath(saveDir: string, url: string): string {
    JoinPath(saveDir, Basename(url))
  }

  /** The saved file is named after the URL's last segment. */
  lemma SaveNameIsUrlName(saveDir: string, url: string)
    ensures Basename(SavePath(saveDir, url)) == Basename(url)
  {
    var name := Basename(url);
    if saveDir == [] || saveDir[|saveDir| - 1] == '/' {
      BasenameAfterSlash(saveDir, name);
    } else {
      assert saveDir + "/" + name == (saveDir + "/") + name;
      BasenameAfterSlash(saveDir + "/", name);
    }
  }

  /** A slash-free name after an empty or slash-terminated prefix is the
      basename of the whole. */
  lemma {:induction false} BasenameAfterSlash(prefix: string, name: string)
    requires '/' !in name
    requires prefix == [] || prefix[|prefix| - 1] == '/'
    ensures Basename(prefix + name) == name
    decreases |name|
  {
    var path := prefix + name;
    if name == [] {
      assert path == prefix;
    } else {
      var n := |name| - 1;
      assert path[|path| - 1] == name[n];
      assert path[..|path| - 1] == prefix + name[..n];
      BasenameAfterSlash(prefix, name[..n]);
      assert name == name[..n] + [name[n]];
    }
  }

  // ---------------------------------------------------------------------
  // The download URLs
  // ---------------------------------------------------------------------

  /** The URLs of the elements that carry one, in element order; the
      others are skipped without error. */
  function Urls(elements: seq<Element>): (urls: seq<string>)
    ensures |urls| <= |elements|
  {
    if elements == [] then []
    else (if elements[0].url.Some? then [elements[0].url.value] else []) + Urls(elements[1..])
  }

  /** The URL loop of `_download_imagery`. */
  method DownloadUrls(elements: seq<Element>) returns (urls: seq<string>)
    ensures urls == Urls(elements)
  {
    urls := [];
    for i := 0 to |elements|
      invariant urls + Urls(elements[i..]) == Urls(elements)
    {
      assert elements[i..][1..] == elements[i + 1..];
      if elements[i].url.Some? {
        urls := urls + [elements[i].url.value];
      }
    }
    assert elements[|elements|..] == [];
  }

  /** Each URL is that of an element, and each element with a URL gives one. */
  lemma {:induction false} UrlsOfElements(elements: seq<Element>)
    ensures forall u :: u in Urls(elements) <==> exists i :: 0 <= i < |elements| && elements[i].url == Some(u)
    ensures (forall i :: 0 <= i < |elements| ==> elements[i].url.Some?) ==> |Urls(elements)| == |elements|
    decreases |elements|
  {
    if elements != [] {
      UrlsOfElements(elements[1..]);
      forall u ensures u in Urls(elements) <==> exists i :: 0 <= i < |elements| && elements[i].url == Some(u) {
        if u in Urls(elements[1..]) {
          var i :| 0 <= i < |elements[1..]| && elements[1..][i].url == Some(u);
          assert elements[i + 1].url == Some(u);
        }
        if exists i :: 0 <= i < |elements| && elements[i].url == Some(u) {
          var i :| 0 <= i < |elements| && elements[i].url == Some(u);
          if i > 0 {
            assert elements[1..][i - 1].url == Some(u);
          }
        }
      }
    }
  }

  // ---------------------------------------------------------------------
  // The downloads
  // ---------------------------------------------------------------------

  /** The end of a run: the result (the paths, or the error that stopped
      it), the disk afterwards and the URLs requested. */
  datatype Run = Run(result: Result<seq<string>>, files: map<string, Bytes>, requested: seq<string>)

  /** The download loop from disk `files`: each URL is requested before
      its path is checked, a failed request raises at once, and a file is
      written only when its path is absent. */
  function Download(files: map<string, Bytes>, saveDir: string, urls: seq<string>, server: map<string, Bytes>): Run
    decreases |urls|
  {
    if urls == [] then Run(Ok([]), files, [])
    else
      var url := urls[0];
      var path := SavePath(saveDir, url);
      if url !in server then Run(Err(HttpError(url)), files, [url])
      else
        var written := if path in files then files else files[path := server[url]];
        var rest := Download(written, saveDir, urls[1..], server);
        Run(if rest.result.Ok? then Ok([path] + rest.result.value) else rest.result, rest.files, [url] + rest.requested)
  }

  /** The paths of a list of URLs. */
  function SavePaths(saveDir: string, urls: seq<string>): (paths: seq<string>)
    ensures |paths| == |urls|
    ensures forall i :: 0 <= i < |urls| ==> paths[i] == SavePath(saveDir, urls[i])
  {
    if urls == [] then [] else [SavePath(saveDir, urls[0])] + SavePaths(saveDir, urls[1..])
  }

  /** The disk `_download_imagery` writes to. */
  /** `_download_imagery`: the URLs, then the download loop, from the
      files on disk `files` to the files on disk `saved`. */
  method DownloadImagery(files: map<string, Bytes>, elements: seq<Element>, saveDir: string, server: map<string, Bytes>)
    returns (r: Result<seq<string>>, saved: map<string, Bytes>, requested: seq<string>)
    ensures var run := Download(files, saveDir, Urls(elements), server);
      r == run.result && saved == run.files && requested == run.requested
  {
    var urls := DownloadUrls(elements);
    r, saved, requested := DownloadLoop(files, saveDir, urls, server);
  }

  /** The download loop of `_download_imagery`, on the disk contents. */
  method DownloadLoop(files: map<string, Bytes>, saveDir: string, urls: seq<string>, server: map<string, Bytes>)
    returns (r: Result<seq<string>>, disk: map<string, Bytes>, requested: seq<string>)
    ensures Download(files, saveDir, urls, server) == Run(r, disk, requested)
  {
    ghost var total := Download(files, saveDir, urls, server);
    disk := files;
    var filenames: seq<string> := [];
    requested := [];
    assert Continued(total, filenames, requested, Download(disk, saveDir, urls[0..], server)) by {
      assert urls[0..] == urls;
      assert [] + total.requested == total.requested;
      if total.result.Ok? {
        assert [] + total.result.value == total.result.value;
      }
    }
    var i := 0;
    while i < |urls|
      invariant 0 <= i <= |urls|
      invariant Continued(total, filenames, requested, Download(disk, saveDir, urls[i..], server))
    {
      var url := urls[i];
      DownloadStep(disk, saveDir, urls, i, server, total, filenames, requested);
      var filename := SavePath(saveDir, url);
      filenames := filenames + [filename];
      requested := requested + [url];
      if url !in server {
        return Err(HttpError(url)), disk, requested;
      }
      if filename !in disk {
        disk := disk[filename := server[url]];
      }
      i := i + 1;
    }
    assert urls[|urls|..] == [];
    assert requested + [] == requested && filenames + [] == filenames;
    r := Ok(filenames);
  }

  /** `total` is the run that first yields `filenames`, requests
      `requested` and then goes on as `rest`. */
  predicate Continued(total: Run, filenames: seq<string>, requested: seq<string>, rest: Run) {
    && total.files == rest.files
    && total.requested == requested + rest.requested
    && total.result == if rest.result.Ok? then Ok(filenames + rest.result.value) else rest.result
  }

  /** One turn of the download loop, read off `Download`. */
  lemma DownloadStep(files: map<string, Bytes>, saveDir: string, urls: seq<string>, i: int, server: map<string, Bytes>,
                     total: Run, filenames: seq<string>, requested: seq<string>)
    requires 0 <= i < |urls|
    requires Continued(total, filenames, requested, Download(files, saveDir, urls[i..], server))
    ensures urls[i] !in server ==>
      total.result == Err(HttpError(urls[i])) && total.files == files && total.requested == requested + [urls[i]]
    ensures urls[i] in server ==>
      var path := SavePath(saveDir, urls[i]);
      var written := if path in files then files else files[path := server[urls[i]]];
      Continued(total, filenames + [path], requested + [urls[i]], Download(written, saveDir, urls[i + 1..], server))
  {
    assert urls[i..][0] == urls[i];
    assert urls[i..][1..] == urls[i + 1..];
    if urls[i] in server {
      var path := SavePath(saveDir, urls[i]);
      var written := if path in files then files else files[path := server[urls[i]]];
      var rest := Download(written, saveDir, urls[i + 1..], server);
      assert requested + ([urls[i]] + rest.requested) == (requested + [urls[i]]) + rest.requested;
      if rest.result.Ok? {
        assert filenames + ([path] + rest.result.value) == (filenames + [path]) + rest.result.value;
      }
    }
  }

  // ---------------------------------------------------------------------
  // Lemmas
  // ---------------------------------------------------------------------

  /** A run succeeds exactly when the server has every URL; then the
      paths are one per URL, in order, and every URL was requested, the
      ones whose file is already on disk included. */
  lemma {:induction false} DownloadSucceeds(files: map<string, Bytes>, saveDir: string, urls: seq<string>, server: map<string, Bytes>)
    ensures var run := Download(files, saveDir, urls, server);
      && (run.result.Ok? <==> forall i :: 0 <= i < |urls| ==> urls[i] in server)
      && (run.result.Ok? ==> run.result.value == SavePaths(saveDir, urls) && run.requested == urls)
    decreases |urls|
  {
    if urls != [] && urls[0] in server {
      var path := SavePath(saveDir, urls[0]);
      var written := if path in files then files else files[path := server[urls[0]]];
      DownloadSucceeds(written, saveDir, urls[1..], server);
      assert urls == [urls[0]] + urls[1..];
      assert forall i :: 0 <= i < |urls[1..]| ==> urls[1..][i] == urls[i + 1];
    }
  }

  /** A failed run stops at the first URL the server lacks, with its HTTP
      error, having requested the URLs up to that one. */
  lemma {:induction false} DownloadFails(files: map<string, Bytes>, saveDir: string, urls: seq<string>, server: map<string, Bytes>, k: int)
    requires 0 <= k < |urls| && urls[k] !in server
    requires forall j :: 0 <= j < k ==> urls[j] in server
    ensures var run := Download(files, saveDir, urls, server);
      run.result == Err(HttpError(urls[k])) && run.requested == urls[..k + 1]
    decreases k
  {
    if k == 0 {
      assert urls[..1] == [urls[0]];
    } else {
      var path := SavePath(saveDir, urls[0]);
      var written := if path in files then files else files[path := server[urls[0]]];
      assert forall j :: 0 <= j < k - 1 ==> urls[1..][j] == urls[j + 1];
      DownloadFails(written, saveDir, urls[1..], server, k - 1);
      assert urls[..k + 1] == [urls[0]] + urls[1..][..k];
    }
  }

  /** After a successful run every path is on disk. */
  lemma {:induction false} PathsOnDisk(files: map<string, Bytes>, saveDir: string, urls: seq<string>, server: map<string, Bytes>)
    requires Download(files, saveDir, urls, server).result.Ok?
    ensures forall i :: 0 <= i < |urls| ==> SavePath(saveDir, urls[i]) in Download(files, saveDir, urls, server).files
    decreases |urls|
  {
    if urls != [] {
      var path := SavePath(saveDir, urls[0]);
      var written := if path in files then files else files[path := server[urls[0]]];
      var rest := Download(written, saveDir, urls[1..], server);
      assert urls[0] in server && Download(files, saveDir, urls, server).files == rest.files;
      PathsOnDisk(written, saveDir, urls[1..], server);
      KeptFiles(written, saveDir, urls[1..], server);
      assert path in rest.files;
      forall i | 1 <= i < |urls|
        ensures SavePath(saveDir, urls[i]) in rest.files
      {
        assert urls[i] == urls[1..][i - 1];
      }
    }
  }

  /** Files already on disk are never modified, whatever happens. */
  lemma {:induction false} KeptFiles(files: map<string, Bytes>, saveDir: string, urls: seq<string>, server: map<string, Bytes>)
    ensures var after := Download(files, saveDir, urls, server).files;
      forall p :: p in files ==> p in after && after[p] == files[p]
    decreases |urls|
  {
    if urls != [] && urls[0] in server {
      var path := SavePath(saveDir, urls[0]);
      var written := if path in files then files else files[path := server[urls[0]]];
      KeptFiles(written, saveDir, urls[1..], server);
      var after := Download(written, saveDir, urls[1..], server).files;
      assert Download(files, saveDir, urls, server).files == after;
      forall p | p in files
        ensures p in after && after[p] == files[p]
      {
        assert p in written && written[p] == files[p];
      }
    }
  }

  /** The first position whose URL is saved to `path`, or `|urls|`. */
  function FirstSavedTo(saveDir: string, urls: seq<string>, path: string): (k: nat)
    ensures k <= |urls|
    ensures k < |urls| ==> SavePath(saveDir, urls[k]) == path
    ensures forall j :: 0 <= j < k ==> SavePath(saveDir, urls[j]) != path
  {
    if urls == [] then 0
    else if SavePath(saveDir, urls[0]) == path then 0
    else 1 + FirstSavedTo(saveDir, urls[1..], path)
  }

  /** A file the run creates holds what the server sent for the FIRST URL
      saved to that path: a repeated basename is written once. */
  lemma {:induction false} NewFilesFromFirstUrl(files: map<string, Bytes>, saveDir: string, urls: seq<string>, server: map<string, Bytes>)
    ensures var after := Download(files, saveDir, urls, server).files;
      forall p :: p in after && p !in files ==>
        var k := FirstSavedTo(saveDir, urls, p);
        k < |urls| && urls[k] in server && after[p] == server[urls[k]]
    decreases |urls|
  {
    if urls != [] && urls[0] in server {
      var path := SavePath(saveDir, urls[0]);
      var written := if path in files then files else files[path := server[urls[0]]];
      NewFilesFromFirstUrl(written, saveDir, urls[1..], server);
      KeptFiles(written, saveDir, urls[1..], server);
    }
  }

  /** With every path already on disk, a run writes nothing. */
  lemma {:induction false} NothingToWrite(files: map<string, Bytes>, saveDir: string, urls: seq<string>, server: map<string, Bytes>)
    requires forall i :: 0 <= i < |urls| ==> SavePath(saveDir, urls[i]) in files
    ensures Download(files, saveDir, urls, server).files == files
    decreases |urls|
  {
    if urls != [] && urls[0] in server {
      assert forall i :: 0 <= i < |urls[1..]| ==> SavePath(saveDir, urls[1..][i]) in files by {
        forall i | 0 <= i < |urls[1..]| ensures SavePath(saveDir, urls[1..][i]) in files {
          assert urls[1..][i] == urls[i + 1];
        }
      }
      NothingToWrite(files, saveDir, urls[1..], server);
    }
  }

  /** Downloading again after a successful run changes nothing and gives
      the same paths. */
  lemma Idempotent(files: map<string, Bytes>, saveDir: string, urls: seq<string>, server: map<string, Bytes>)
    requires Download(files, saveDir, urls, server).result.Ok?
    ensures var first := Download(files, saveDir, urls, server);
      var second := Download(first.files, saveDir, urls, server);
      second.files == first.files && second.result == first.result
  {
    var first := Download(files, saveDir, urls, server);
    DownloadSucceeds(files, saveDir, urls, server);
    PathsOnDisk(files, saveDir, urls, server);
    NothingToWrite(first.files, saveDir, urls, server);
    DownloadSucceeds(first.files, saveDir, urls, server);
  }
}
