/**
 * Scene assets: a plain asset read from a URL, and a zipped asset that is
 * one entry of a zip archive held in memory. The archive keeps a table of
 * its entries; the decompression library itself is not modelled and enters
 * as uninterpreted functions.
 */
module Assets {
  import opened Wrappers
  import opened Urls

  /** One file of the archive: its path inside the archive and its uncompressed size. */
  datatype Entry = Entry(path: string, uncompressedSize: nat)

  /** What the library reports for one file index. */
  datatype FileStat = FileStat(filename: string, uncompressedSize: nat)

  /**
   * The zip reader, as functions of the archive's compressed bytes:
   * whether the reader accepts them, how many files it lists, the stat of
   * file i (None when the stat fails), and for an extraction of file i into
   * a buffer of a given size, whether it succeeds and the bytes it writes.
   */
  datatype ZipReader = ZipReader(
    init: seq<char> -> bool,
    numFiles: seq<char> -> nat,
    fileStat: (seq<char>, nat) -> Option<FileStat>,
    extractOk: (seq<char>, nat, nat) -> bool,
    extracted: (seq<char>, nat, nat) -> seq<char>)

  /** The entry recorded for file i: its stat, or an empty path and size 0 when the stat fails. */
  function EntryOf(reader: ZipReader, data: seq<char>, i: nat): Entry
  {
    match reader.fileStat(data, i)
    case Some(stat) => Entry(stat.filename, stat.uncompressedSize)
    case None => Entry("", 0)
  }

  /** The entry table of an archive: one entry per file index, in index order. */
  function EntryTable(reader: ZipReader, data: seq<char>): (r: seq<Entry>)
    ensures |r| == reader.numFiles(data)
    ensures forall i :: 0 <= i < |r| ==> r[i] == EntryOf(reader, data, i)
  {
    seq(reader.numFiles(data), i requires 0 <= i => EntryOf(reader, data, i))
  }

  /** The index of the first entry with this path. */
  function FirstEntry(entries: seq<Entry>, path: string): (r: Option<nat>)
    ensures r.None? <==> forall i :: 0 <= i < |entries| ==> entries[i].path != path
    ensures r.Some? ==> r.value < |entries| && entries[r.value].path == path
                        && forall i :: 0 <= i < r.value ==> entries[i].path != path
  {
    if entries == [] then None
    else if entries[0].path == path then Some(0)
    else match FirstEntry(entries[1..], path)
      case None => None
      case Some(k) => Some(k + 1)
  }

  /** A buffer resized to n (zero-filled) and then written with bs, truncated to n. */
  function Fit(bs: seq<char>, n: nat): (r: seq<char>)
    ensures |r| == n
    ensures forall i :: 0 <= i < n && i < |bs| ==> r[i] == bs[i]
    ensures forall i :: |bs| <= i < n ==> r[i] == 0 as char
  {
    if |bs| >= n then bs[..n] else bs + seq(n - |bs|, _ => 0 as char)
  }

  predicate OccursAt(s: string, pat: string, j: nat)
  {
    j + |pat| <= |s| && s[j..j + |pat|] == pat
  }

  /** An occurrence at j >= 1 is an occurrence at j - 1 in the string without its first character. */
  lemma OccursShift(s: string, pat: string, j: nat)
    requires 1 <= j && s != []
    ensures OccursAt(s, pat, j) <==> OccursAt(s[1..], pat, j - 1)
  {
    if j + |pat| <= |s| {
      assert s[1..][j - 1..j - 1 + |pat|] == s[j..j + |pat|];
    }
  }

  /** std::string::find: the first position where pat occurs in s. */
  function Find(s: string, pat: string): (r: Option<nat>)
    ensures r.Some? ==> OccursAt(s, pat, r.value) && forall j :: 0 <= j < r.value ==> !OccursAt(s, pat, j)
    ensures r.None? ==> forall j :: 0 <= j <= |s| ==> !OccursAt(s, pat, j)
    decreases |s|
  {
    if |pat| > |s| then None
    else if s[..|pat|] == pat then Some(0)
    else
      var r := Find(s[1..], pat);
      assert forall j :: 1 <= j <= |s| ==> (OccursAt(s, pat, j) <==> OccursAt(s[1..], pat, j - 1)) by {
        forall j | 1 <= j <= |s| ensures OccursAt(s, pat, j) <==> OccursAt(s[1..], pat, j - 1) {
          OccursShift(s, pat, j);
        }
      }
      match r
      case None => None
      case Some(k) => Some(k + 1)
  }

  /** isBaseSceneYaml: whether the file is a scene file at the top level of the archive. */
  predicate IsBaseSceneYaml(filePath: string)
  {
    var extLoc := Find(filePath, ".yaml");
    if extLoc.None? then false
    else
      var slashLoc := Find(filePath, "/");
      if slashLoc.Some? then false
      else true
  }

  /** A path is a base scene file iff it contains ".yaml" and contains no "/". */
  lemma IsBaseSceneYamlSpec(filePath: string)
    ensures IsBaseSceneYaml(filePath) <==>
      (exists j :: 0 <= j <= |filePath| && OccursAt(filePath, ".yaml", j)) && '/' !in filePath
  {
    var slashLoc := Find(filePath, "/");
    if slashLoc.Some? {
      assert filePath[slashLoc.value] == '/';
    } else {
      forall i | 0 <= i < |filePath| ensures filePath[i] != '/' {
        assert !OccursAt(filePath, "/", i);
        assert filePath[i..i + 1] == [filePath[i]];
      }
    }
    if '/' in filePath {
      var i :| 0 <= i < |filePath| && filePath[i] == '/';
      assert OccursAt(filePath, "/", i);
    }
  }

  /** The index of the last entry that is a base scene file. */
  function LastBaseScene(entries: seq<Entry>): (r: Option<nat>)
    ensures r.None? ==> forall i :: 0 <= i < |entries| ==> !IsBaseSceneYaml(entries[i].path)
    ensures r.Some? ==> r.value < |entries| && IsBaseSceneYaml(entries[r.value].path)
                        && forall j :: r.value < j < |entries| ==> !IsBaseSceneYaml(entries[j].path)
  {
    if entries == [] then None
    else if IsBaseSceneYaml(entries[|entries| - 1].path) then Some(|entries| - 1)
    else
      var r := LastBaseScene(entries[..|entries| - 1]);
      assert forall i :: 0 <= i < |entries| - 1 ==> entries[..|entries| - 1][i] == entries[i];
      r
  }

  /** The root path: the path of the last base scene entry, or "" when there is none. */
  function RootPath(entries: seq<Entry>): string
  {
    match LastBaseScene(entries)
    case None => ""
    case Some(i) => entries[i].path
  }

  /** The scan of the ZippedAsset constructor over the entries, keeping the last base scene path. */
  method ScanRootPath(entries: seq<Entry>) returns (pathInArchive: string)
    ensures pathInArchive == RootPath(entries)
  {
    pathInArchive := "";
    var i := 0;
    while i < |entries|
      invariant 0 <= i <= |entries|
      invariant pathInArchive == RootPath(entries[..i])
    {
      assert entries[..i + 1][..i] == entries[..i];
      if IsBaseSceneYaml(entries[i].path) {
        pathInArchive := entries[i].path;
      }
      i := i + 1;
    }
    assert entries[..i] == entries;
  }

  class ZipArchive {
    /** The compressed archive data. */
    var buffer: seq<char>
    var entries: seq<Entry>
    const reader: ZipReader

    constructor (reader: ZipReader)
      ensures buffer == [] && entries == [] && this.reader == reader
    {
      buffer, entries := [], [];
      this.reader := reader;
    }

    /** loadFromMemory: keep the data; when the reader accepts it, append one entry per file. */
    method LoadFromMemory(compressedArchiveData: seq<char>) returns (ok: bool)
      modifies this
      ensures buffer == compressedArchiveData
      ensures ok == reader.init(compressedArchiveData)
      ensures !ok ==> entries == old(entries)
      ensures ok ==> entries == old(entries) + EntryTable(reader, compressedArchiveData)
    {
      buffer := compressedArchiveData;
      if !reader.init(buffer) {
        return false;
      }
      var numberOfFiles := reader.numFiles(buffer);
      var i := 0;
      while i < numberOfFiles
        invariant 0 <= i <= numberOfFiles
        invariant buffer == compressedArchiveData
        invariant entries == old(entries) + EntryTable(reader, buffer)[..i]
      {
        var entry := Entry("", 0);
        var stats := reader.fileStat(buffer, i);
        if stats.Some? {
          entry := Entry(stats.value.filename, stats.value.uncompressedSize);
        }
        assert EntryTable(reader, buffer)[..i + 1] == EntryTable(reader, buffer)[..i] + [entry];
        entries := entries + [entry];
        i := i + 1;
      }
      assert EntryTable(reader, buffer)[..i] == EntryTable(reader, buffer);
      return true;
    }

    /**
     * decompressFile: find the first entry with the path; when there is one,
     * request a buffer of exactly its uncompressed size and extract into it.
     * `output` is that buffer, and None when none was requested.
     */
    method DecompressFile(path: string) returns (ok: bool, output: Option<seq<char>>)
      ensures output.None? <==> FirstEntry(entries, path).None?
      ensures output.None? ==> !ok
      ensures output.Some? ==>
        var index := FirstEntry(entries, path).value;
        var size := entries[index].uncompressedSize;
        && |output.value| == size
        && output.value == Fit(reader.extracted(buffer, index, size), size)
        && ok == reader.extractOk(buffer, index, size)
    {
      var index := 0;
      while index < |entries|
        invariant 0 <= index <= |entries|
        invariant forall i :: 0 <= i < index ==> entries[i].path != path
      {
        if entries[index].path == path {
          break;
        }
        index := index + 1;
      }
      if index >= |entries| {
        return false, None;
      }
      var outputSize := entries[index].uncompressedSize;
      var outputBuffer := Fit(reader.extracted(buffer, index, outputSize), outputSize);
      if !reader.extractOk(buffer, index, outputSize) {
        return false, Some(outputBuffer);
      }
      return true, Some(outputBuffer);
    }
  }

  /** An asset read from its URL through the platform. */
  class Asset {
    const url: Url

    constructor (url: Url)
      ensures this.url == url
    {
      this.url := url;
    }

    /** Asset::getRelativeAsset: a plain asset at the URL resolved against this one's. */
    method GetRelativeAsset(urls: UrlOps, u: Url) returns (r: Asset)
      ensures fresh(r) && r.url == urls.resolved(u, url)
    {
      r := new Asset(urls.resolved(u, url));
    }
  }

  /** One entry of a zip archive, possibly shared with other zipped assets. */
  class ZippedAsset {
    const url: Url
    var zipArchive: ZipArchive?
    var pathInArchive: string

    /** The archive's root asset: open the data and pick the root scene entry. */
    constructor FromData(url: Url, zippedData: seq<char>, reader: ZipReader)
      ensures this.url == url && zipArchive != null && fresh(zipArchive)
      ensures zipArchive.reader == reader && zipArchive.buffer == zippedData
      ensures zipArchive.entries == (if reader.init(zippedData) then EntryTable(reader, zippedData) else [])
      ensures pathInArchive == RootPath(zipArchive.entries)
    {
      this.url := url;
      var archive := new ZipArchive(reader);
      var ok := archive.LoadFromMemory(zippedData);
      assert archive.entries == (if ok then EntryTable(reader, zippedData) else []);
      var root := ScanRootPath(archive.entries);
      zipArchive := archive;
      pathInArchive := root;
    }

    /** Another entry of the same archive as base. */
    constructor Relative(base: ZippedAsset, path: string)
      ensures url == base.url && zipArchive == base.zipArchive && pathInArchive == path
    {
      url := base.url;
      zipArchive := base.zipArchive;
      pathInArchive := path;
    }

    /**
     * readBytes: nothing without an archive; otherwise the decompressed entry
     * at pathInArchive, sized to its uncompressed size, or nothing when the
     * archive has no such entry.
     */
    method ReadBytes() returns (fileData: seq<char>)
      ensures zipArchive == null ==> fileData == []
      ensures zipArchive != null ==>
        match FirstEntry(zipArchive.entries, pathInArchive)
        case None => fileData == []
        case Some(index) =>
          var size := zipArchive.entries[index].uncompressedSize;
          fileData == Fit(zipArchive.reader.extracted(zipArchive.buffer, index, size), size)
    {
      fileData := [];
      if zipArchive == null { return; }
      var ok, output := zipArchive.DecompressFile(pathInArchive);
      if output.Some? {
        fileData := output.value;
      }
      // when !ok, "Cannot read zip entry" is logged
    }

    /** getRelativeAsset: an absolute URL is a plain asset; a relative one is another entry of this archive. */
    method GetRelativeAsset(urls: UrlOps, u: Url) returns (r: AssetRef)
      ensures urls.isAbsolute(u) ==> r.Plain? && fresh(r.asset) && r.asset.url == u
      ensures !urls.isAbsolute(u) ==>
        && r.Zipped? && fresh(r.zipped)
        && r.zipped.url == url && r.zipped.zipArchive == zipArchive && r.zipped.pathInArchive == urls.path(u)
    {
      if urls.isAbsolute(u) {
        var a := new Asset(u);
        return Plain(a);
      }
      var z := new ZippedAsset.Relative(this, urls.path(u));
      return Zipped(z);
    }
  }

  /** The result of getRelativeAsset, which may be either kind of asset. */
  datatype AssetRef = Plain(asset: Asset) | Zipped(zipped: ZippedAsset)
}
