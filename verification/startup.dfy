/** `cacheInit`: normalises the cache directory, makes sure it exists, and
    builds a fresh index with every file already in the directory AVAILABLE. */
module Startup {
  import opened Wrappers
  import opened CacheIndex
  import opened CacheDir

  /** What `os.Stat(cachedir)` reported: a directory, or an error or a
      non-directory. */
  datatype DirProbe = Directory | NoDirectory

  /** The two conditions on which the process stops (`log.Fatal`). */
  datatype InitError = MkdirFailed | ReadDirFailed

  /** The loop over the directory listing: one AVAILABLE entry per name. */
  method LoadIndex(names: seq<string>) returns (idx: Index)
    ensures idx.Keys == set n | n in names
    ensures forall k :: k in idx ==> idx[k] == Available
    ensures forall k :: Lookup(idx, k) == Available <==> k in names
  {
    idx := map[];
    var i := 0;
    while i < |names|
      invariant 0 <= i <= |names|
      invariant idx.Keys == set n | n in names[..i]
      invariant forall k :: k in idx ==> idx[k] == Available
    {
      assert names[..i + 1] == names[..i] + [names[i]];
      idx := idx[names[i] := Available];
      i := i + 1;
    }
    assert names[..i] == names;
  }

  /** `cacheInit`. `probe` is the result of stat-ing the directory, `mkdirOk`
      whether creating it succeeds, and `listing` the names `ioutil.ReadDir`
      returns, or `None` when it fails. A directory that `os.Mkdir` has just
      created is empty, so when it is listed successfully the names are
      none, whatever `listing` holds. */
  method CacheInit(rawDir: string, probe: DirProbe, mkdirOk: bool, listing: Option<seq<string>>)
    returns (r: Result<(string, Index), InitError>)
    ensures probe == NoDirectory && !mkdirOk ==> r == Failure(MkdirFailed)
    ensures (probe == Directory || mkdirOk) && listing.None? ==> r == Failure(ReadDirFailed)
    ensures r.Success? <==> (probe == Directory || mkdirOk) && listing.Some?
    ensures r.Success? ==> r.value.0 == NormalizeCacheDir(rawDir) && EndsWithSlash(r.value.0)
    ensures r.Success? && probe == Directory ==>
              forall k :: Lookup(r.value.1, k) == Available <==> k in listing.value
    ensures r.Success? && probe == NoDirectory ==> r.value.1 == map[]
    ensures r.Success? ==> forall k :: Lookup(r.value.1, k) != InProgress
  {
    var dir := NormalizeCacheDir(rawDir);
    if probe == NoDirectory && !mkdirOk {
      return Failure(MkdirFailed);
    }
    if listing.None? {
      return Failure(ReadDirFailed);
    }
    var names := if probe == Directory then listing.value else [];
    var idx := LoadIndex(names);
    r := Success((dir, idx));
  }
}
