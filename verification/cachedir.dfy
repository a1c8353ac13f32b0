/** Normalisation of the cache directory name at startup: the directory is
    used as a plain string prefix of every blob file name, so it must end
    with '/'. */
module CacheDir {

  predicate EndsWithSlash(s: string) {
    |s| > 0 && s[|s| - 1] == '/'
  }

  /** The shortest extension of `dir` that ends with '/'. */
  function NormalizeCacheDir(dir: string): (r: string)
    ensures EndsWithSlash(r)
    ensures |dir| <= |r| <= |dir| + 1 && r[..|dir|] == dir
    ensures r == dir <==> EndsWithSlash(dir)
  {
    if EndsWithSlash(dir) then dir else dir + "/"
  }

  /** Normalising twice is normalising once. */
  lemma NormalizeCacheDirIdempotent(dir: string)
    ensures NormalizeCacheDir(NormalizeCacheDir(dir)) == NormalizeCacheDir(dir)
  {
  }
}
