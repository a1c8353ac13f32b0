/** Response bodies and the cache tee reader (`cacheTeeReader`): a stream
    decorator that hands every read of the wrapped body to its caller
    unchanged and appends the bytes read to the blob file it created. */
module Streams {
  import opened Wrappers
  import opened CacheIndex
  import opened FileStore

  /** The error half of a read: end of stream or any other failure. */
  datatype StreamError = EOF | ReadFailure(reason: string)

  /** What one `Read(p)` returned: `chunk` is `p[:n]`, so `n == |chunk|`. */
  datatype ReadResult = ReadResult(chunk: seq<byte>, err: Option<StreamError>)

  /** A response body: the transport's body, described by the results of its
      successive reads; a cache file opened for reading, wrapped so that
      closing it is a no-op; or a body replaced by the cache tee. */
  datatype Body =
    | Upstream(results: seq<ReadResult>)
    | CachedFile(data: seq<byte>)
    | Teed(tee: TeeReader)

  /** The tee: the key it fills, the file it writes, the body it wraps, the
      bytes written through its file handle so far, and its two counters.
      `body` records which body was wrapped and is only carried along: `Read`
      is given what that body returned on each call (`ReadStep.got`), and
      `Scenarios.FetchThenHit` is where the two are tied together. */
  datatype TeeReader = TeeReader(
    shaname: string,
    fname: string,
    body: Body,
    file: seq<byte>,
    nbread: nat,
    nbwritten: nat)

  /** The handle holds exactly the bytes counted as written, and no more
      bytes were written than read. */
  predicate Consistent(t: TeeReader) {
    |t.file| == t.nbwritten <= t.nbread
  }

  /** Same key, same file, same wrapped body. */
  predicate SameTee(t: TeeReader, u: TeeReader) {
    t.shaname == u.shaname && t.fname == u.fname && t.body == u.body
  }

  /** All bytes carried by a sequence of reads, in order. */
  function Delivered(rs: seq<ReadResult>): seq<byte> {
    if rs == [] then [] else rs[0].chunk + Delivered(rs[1..])
  }

  /** `newCacheTeeReader`: creates (or truncates) `dir + shaname` and wraps
      `body`; fails, leaving the store alone, when the file cannot be created. */
  function NewTee(dir: string, shaname: string, body: Body, st: Store)
    : (r: Result<(TeeReader, Store), FsError>)
    ensures r.Failure? <==> dir + shaname in st.noCreate
    ensures r.Success? ==>
              var (t, st') := r.value;
              && t == TeeReader(shaname, dir + shaname, body, [], 0, 0)
              && Consistent(t)
              && st' == st.(files := st.files[dir + shaname := []])
  {
    match Create(st, dir + shaname)
    case Failure(e) => Failure(e)
    case Success(st') => Success((TeeReader(shaname, dir + shaname, body, [], 0, 0), st'))
  }

  /** One call of `Read`: `got` is what the wrapped body returned, and the
      file write of `p[:n]` takes only the first `diskAccepts` bytes when
      the disk accepts fewer than `n`. */
  datatype ReadStep = ReadStep(got: ReadResult, diskAccepts: nat)

  /** Every write in `steps` takes all the bytes offered. */
  predicate AllWritten(steps: seq<ReadStep>) {
    forall i :: 0 <= i < |steps| ==> steps[i].diskAccepts >= |steps[i].got.chunk|
  }

  /** `cacheTeeReader.Read`: returns exactly what the wrapped body returned;
      counts the bytes read; when `n > 0` appends what the file write took
      to the file and counts it; a short write changes nothing else. */
  function Read(t: TeeReader, step: ReadStep): (r: (TeeReader, ReadResult))
    ensures r.1 == step.got
    ensures SameTee(t, r.0)
    ensures r.0.nbread == t.nbread + |step.got.chunk|
    ensures exists w :: 0 <= w <= |step.got.chunk|
              && r.0.file == t.file + step.got.chunk[..w] && r.0.nbwritten == t.nbwritten + w
    ensures step.diskAccepts >= |step.got.chunk| ==>
              r.0.file == t.file + step.got.chunk && r.0.nbwritten == t.nbwritten + |step.got.chunk|
    ensures Consistent(t) ==> Consistent(r.0)
  {
    var n := |step.got.chunk|;
    var t' := t.(nbread := t.nbread + n);
    if n > 0 then
      var w := if step.diskAccepts < n then step.diskAccepts else n;
      var written := t'.(file := t.file + step.got.chunk[..w], nbwritten := t.nbwritten + w);
      assert written.file == t.file + step.got.chunk[..w];
      (written, step.got)
    else
      assert t.file == t.file + step.got.chunk[..0];
      (t', step.got)
  }

  /** A consumer reading the tee once per step. */
  function ReadAll(t: TeeReader, steps: seq<ReadStep>): (r: (TeeReader, seq<ReadResult>))
    ensures |r.1| == |steps|
    ensures forall i :: 0 <= i < |steps| ==> r.1[i] == steps[i].got
    ensures SameTee(t, r.0)
    ensures r.0.nbread == t.nbread + |Delivered(r.1)|
    ensures t.file <= r.0.file
    ensures Consistent(t) ==> Consistent(r.0)
    ensures AllWritten(steps) ==>
              r.0.file == t.file + Delivered(r.1) && r.0.nbwritten == t.nbwritten + |Delivered(r.1)|
    decreases |steps|
  {
    if steps == [] then (t, [])
    else
      var (t1, out) := Read(t, steps[0]);
      var (t2, outs) := ReadAll(t1, steps[1..]);
      assert AllWritten(steps) ==> AllWritten(steps[1..]) by {
        if AllWritten(steps) {
          forall i | 0 <= i < |steps[1..]|
            ensures steps[1..][i].diskAccepts >= |steps[1..][i].got.chunk|
          {
            assert steps[1..][i] == steps[i + 1];
          }
        }
      }
      assert ([out] + outs)[1..] == outs;
      (t2, [out] + outs)
  }

  /** A tee fresh from `NewTee`, read through with every write succeeding,
      holds exactly the bytes it returned, and its two counters agree. */
  lemma FreshTeeMirrorsStream(dir: string, shaname: string, body: Body, st: Store, steps: seq<ReadStep>)
    requires dir + shaname !in st.noCreate
    requires AllWritten(steps)
    ensures var (t, outs) := ReadAll(NewTee(dir, shaname, body, st).value.0, steps);
            t.file == Delivered(outs) && t.nbwritten == t.nbread == |t.file|
  {
  }

  /** What `Close` did: the index and store afterwards, and the error it returned. */
  datatype Closed = Closed(index: Index, store: Store, err: Option<FsError>)

  /** `cacheTeeReader.Close`: closes the file, which leaves the bytes written
      through the handle in the store, then marks the key AVAILABLE; it
      returns no error. */
  function Close(t: TeeReader, idx: Index, st: Store): (r: Closed)
    ensures r.err == None
    ensures Lookup(r.index, t.shaname) == Available
    ensures forall k :: k != t.shaname ==> Lookup(r.index, k) == Lookup(idx, k)
    ensures NoRegress(idx, r.index)
    ensures t.fname in r.store.files && r.store.files[t.fname] == t.file
    ensures forall p :: p != t.fname ==> (p in r.store.files <==> p in st.files)
    ensures forall p :: p != t.fname && p in st.files ==> r.store.files[p] == st.files[p]
    ensures r.store.noCreate == st.noCreate && r.store.noOpen == st.noOpen && r.store.noStat == st.noStat
  {
    AdvanceNoRegress(idx, t.shaname, Available);
    Closed(idx[t.shaname := Available], st.(files := st.files[t.fname := t.file]), None)
  }

  /** Closing twice leaves the same index and store as closing once. */
  lemma CloseIdempotent(t: TeeReader, idx: Index, st: Store)
    ensures var c := Close(t, idx, st);
            var c' := Close(t, c.index, c.store);
            c'.index == c.index && c'.store == c.store && Lookup(c'.index, t.shaname) == Available
  {
  }
}
