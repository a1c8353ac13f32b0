/** The path classifier `shouldBeCached`: searches a URL path, unanchored and
    leftmost-first, for the fixed blob pattern
      /registry-v2/docker/registry/v2/blobs/sha256/../(?P<shaname>[^/]+)/
    and returns the captured hash segment, or "" when the pattern does not occur.
    The matcher below is written by hand for this one pattern. */
module Classifier {
  import opened Wrappers

  /** The literal part of the pattern, up to the two-character shard directory. */
  const BlobPrefix: string := "/registry-v2/docker/registry/v2/blobs/sha256/"

  /** The pattern's `.`: any character except a newline. */
  predicate AnyChar(c: char) {
    c != '\n'
  }

  /** The pattern matches `path` starting at position `i` with capture `h`:
      prefix, two non-newline characters, '/', then `h` (non-empty, no '/'),
      then '/'. */
  ghost predicate MatchAt(path: string, i: int, h: string) {
    var p := |BlobPrefix|;
    && 0 <= i
    && |h| > 0
    && i + p + 3 + |h| < |path|
    && path[i..i + p] == BlobPrefix
    && AnyChar(path[i + p]) && AnyChar(path[i + p + 1])
    && path[i + p + 2] == '/'
    && path[i + p + 3..i + p + 3 + |h|] == h
    && '/' !in h
    && path[i + p + 3 + |h|] == '/'
  }

  /** `h` is the capture of the leftmost match in `path`, which starts at `i`. */
  ghost predicate LeftmostMatch(path: string, i: int, h: string) {
    && MatchAt(path, i, h)
    && forall k, h' :: 0 <= k < i ==> !MatchAt(path, k, h')
  }

  /** The number of characters in the maximal run of non-'/' characters of
      `s` that starts at `j`. */
  function SegmentLength(s: string, j: nat): (n: nat)
    requires j <= |s|
    ensures j + n <= |s|
    ensures forall k :: j <= k < j + n ==> s[k] != '/'
    ensures j + n == |s| || s[j + n] == '/'
    decreases |s| - j
  {
    if j == |s| || s[j] == '/' then 0 else 1 + SegmentLength(s, j + 1)
  }

  /** A capture followed by '/' and free of '/' is exactly the maximal
      non-'/' run: `[^/]+/` leaves the matcher no choice. */
  lemma CaptureIsSegment(path: string, i: int, h: string)
    requires MatchAt(path, i, h)
    ensures var j := i + |BlobPrefix| + 3;
            h == path[j..j + SegmentLength(path, j)]
  {
  }

  /** The matcher anchored at position `i`. */
  function CaptureAt(path: string, i: nat): (r: Option<string>)
    ensures forall h :: MatchAt(path, i, h) <==> r == Some(h)
  {
    var p := |BlobPrefix|;
    var j := i + p + 3;
    if j <= |path| && path[i..i + p] == BlobPrefix
       && AnyChar(path[i + p]) && AnyChar(path[i + p + 1]) && path[i + p + 2] == '/'
    then
      var n := SegmentLength(path, j);
      if n > 0 && j + n < |path| then
        var h := path[j..j + n];
        assert forall c :: c in h ==> c != '/' by {
          forall c | c in h ensures c != '/' {
            var m :| 0 <= m < |h| && h[m] == c;
            assert path[j + m] == c;
          }
        }
        assert MatchAt(path, i, h);
        assert forall h' :: MatchAt(path, i, h') ==> h' == h by {
          forall h' | MatchAt(path, i, h') ensures h' == h {
            CaptureIsSegment(path, i, h');
          }
        }
        Some(h)
      else
        assert forall h' :: !MatchAt(path, i, h') by {
          forall h' | MatchAt(path, i, h') ensures false {
            CaptureIsSegment(path, i, h');
          }
        }
        None
    else
      None
  }

  /** The leftmost match starting at position `i` or later, with its start. */
  function LeftmostFrom(path: string, i: nat): (r: Option<(nat, string)>)
    requires i <= |path|
    ensures r.Some? ==> i <= r.value.0 && MatchAt(path, r.value.0, r.value.1)
    ensures r.Some? ==> forall k, h :: i <= k < r.value.0 ==> !MatchAt(path, k, h)
    ensures r.None? ==> forall k, h :: i <= k ==> !MatchAt(path, k, h)
    decreases |path| - i
  {
    match CaptureAt(path, i)
    case Some(h) => Some((i, h))
    case None => if i == |path| then None else LeftmostFrom(path, i + 1)
  }

  /** `shouldBeCached`: the hash segment of the leftmost blob-pattern match in
      `path`, or "" when there is none. */
  function ShouldBeCached(path: string): (r: string)
    ensures r == "" <==> forall i, h :: !MatchAt(path, i, h)
    ensures r != "" ==> exists i :: LeftmostMatch(path, i, r)
    ensures forall i, h :: LeftmostMatch(path, i, h) ==> r == h
    ensures '/' !in r
  {
    match LeftmostFrom(path, 0)
    case Some((i, h)) =>
      assert LeftmostMatch(path, i, h);
      assert forall i', h' :: LeftmostMatch(path, i', h') ==> h' == h by {
        forall i', h' | LeftmostMatch(path, i', h') ensures h' == h {
          assert i' == i;
          assert CaptureAt(path, i) == Some(h);
        }
      }
      h
    case None => ""
  }

  /** Round trip: classifying a blob path built from a shard, a hash and any
      tail yields the hash. */
  lemma ClassifyBlobPath(shard: string, hash: string, rest: string)
    requires |shard| == 2 && '\n' !in shard
    requires |hash| > 0 && '/' !in hash
    ensures ShouldBeCached(BlobPrefix + shard + "/" + hash + "/" + rest) == hash
  {
    var path := BlobPrefix + shard + "/" + hash + "/" + rest;
    var p := |BlobPrefix|;
    assert path[0..p] == BlobPrefix;
    assert path[p] == shard[0] && path[p + 1] == shard[1];
    assert AnyChar(path[p]) && AnyChar(path[p + 1]);
    assert path[p + 2] == '/';
    assert path[p + 3..p + 3 + |hash|] == hash;
    assert path[p + 3 + |hash|] == '/';
    assert MatchAt(path, 0, hash);
    assert LeftmostMatch(path, 0, hash);
  }

  /** A concrete blob path. */
  lemma ExampleBlobPath()
    ensures ShouldBeCached("/registry-v2/docker/registry/v2/blobs/sha256/ab/abc123/") == "abc123"
  {
    ClassifyBlobPath("ab", "abc123", "");
    assert BlobPrefix + "ab" + "/" + "abc123" + "/" + ""
        == "/registry-v2/docker/registry/v2/blobs/sha256/ab/abc123/";
  }

  /** Without the '/' after the hash there is no match. */
  lemma ExampleMissingFinalSlash()
    ensures ShouldBeCached("/registry-v2/docker/registry/v2/blobs/sha256/ab/abc123") == ""
  {
  }

  /** A path outside the blob tree is not cacheable. */
  lemma ExampleOtherPath()
    ensures ShouldBeCached("/v2/other/path") == ""
  {
  }
}
