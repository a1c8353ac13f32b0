/** The two proxy hooks: the request gate (`CacheReqHandler`), run before a
    request goes upstream, and the response gate (`CacheRespHandler`), run on
    the upstream response. Each is a pure function of the shared state. */
module Gates {
  import opened Wrappers
  import opened CacheIndex
  import opened FileStore
  import opened Streams
  import opened Classifier

  /** The process-wide shared state: the index and the cache directory. */
  datatype State = State(index: Index, store: Store)

  /** The parts of an HTTP response the core reads or writes; `path` is the
      URL path of the request it answers. */
  datatype Response = Response(
    status: int,
    contentType: Option<string>,
    contentLength: int,
    body: Body,
    path: string)

  const OctetStream: string := "application/octet-stream"

  /** The cache-hit responder: opens and stats `dir + key` and builds a
      synthetic 200 response carrying the file. */
  function CacheHit(dir: string, st: Store, key: string, path: string): (r: Result<Response, FsError>)
    ensures r.Success? <==>
              dir + key in st.files && dir + key !in st.noOpen && dir + key !in st.noStat
    ensures r.Success? ==>
              var data := st.files[dir + key];
              r.value == Response(200, Some(OctetStream), |data|, CachedFile(data), path)
  {
    match OpenAndStat(st, dir + key)
    case Failure(e) => Failure(e)
    case Success(data) => Success(Response(200, Some(OctetStream), |data|, CachedFile(data), path))
  }

  /** The wait loop: of the state seen on taking the lock (`s`) and the
      states seen on each re-lock after a pause (`polls`), the first in which
      `key` is not IN_PROGRESS; `None` while every one shows IN_PROGRESS. */
  function Settled(s: State, polls: seq<State>, key: string): (r: Option<State>)
    ensures r.Some? ==> Lookup(r.value.index, key) != InProgress
    ensures r.Some? ==> r.value == s || r.value in polls
    ensures r.None? <==>
              Lookup(s.index, key) == InProgress
              && forall i :: 0 <= i < |polls| ==> Lookup(polls[i].index, key) == InProgress
    ensures Lookup(s.index, key) != InProgress ==> r == Some(s)
    ensures Lookup(s.index, key) == InProgress && r.Some? ==>
              exists j :: 0 <= j < |polls| && r.value == polls[j]
                && forall i :: 0 <= i < j ==> Lookup(polls[i].index, key) == InProgress
    decreases |polls|
  {
    if Lookup(s.index, key) != InProgress then Some(s)
    else if polls == [] then None
    else Settled(polls[0], polls[1..], key)
  }

  /** What the request gate did: let the request go upstream (`return req,
      nil`), answer it from the cache (`return req, resp`), or it is still
      polling when the observations run out. */
  datatype ReqOutcome =
    | Forward(index: Index)
    | Serve(index: Index, resp: Response)
    | Waiting

  /** `CacheReqHandler`. */
  function RequestGate(dir: string, s: State, polls: seq<State>, path: string): (r: ReqOutcome)
    ensures ShouldBeCached(path) == "" ==> r == Forward(s.index)
    ensures var key := ShouldBeCached(path);
            key != "" ==> (r.Waiting? <==> Settled(s, polls, key).None?)
    ensures var key := ShouldBeCached(path);
            key != "" && Settled(s, polls, key).Some? ==>
              var t := Settled(s, polls, key).value;
              && NoRegress(t.index, r.index)
              && (Lookup(t.index, key) == Empty ==> r == Forward(t.index[key := InProgress]))
              && (Lookup(t.index, key) == Available ==> r.index == t.index)
              && (Lookup(t.index, key) == Available ==>
                    (r.Serve? <==> CacheHit(dir, t.store, key, path).Success?))
              && (r.Serve? ==> r.resp == CacheHit(dir, t.store, key, path).value)
    ensures r.Serve? ==> Lookup(r.index, ShouldBeCached(path)) == Available
    ensures r.Serve? ==> r.resp.status == 200 && r.resp.contentType == Some(OctetStream)
    ensures r.Serve? ==> r.resp.body.CachedFile? && r.resp.contentLength == |r.resp.body.data|
  {
    var key := ShouldBeCached(path);
    if key == "" then Forward(s.index)
    else
      match Settled(s, polls, key)
      case None => Waiting
      case Some(t) =>
        if Lookup(t.index, key) == Available then
          match CacheHit(dir, t.store, key, path)
          case Success(resp) => Serve(t.index, resp)
          case Failure(_) => Forward(t.index)
        else
          AdvanceNoRegress(t.index, key, InProgress);
          Forward(t.index[key := InProgress])
  }

  /** What the response gate returns: the shared state and the response. */
  datatype Gated = Gated(state: State, resp: Response)

  /** `CacheRespHandler`: wraps the body of a successful response for an
      uncached blob in a tee that fills the cache file. */
  function ResponseGate(dir: string, s: State, resp: Response): (r: Gated)
    ensures r.state.index == s.index
    ensures r.resp == resp.(body := r.resp.body)
    ensures resp.status != 200 ==> r == Gated(s, resp)
    ensures ShouldBeCached(resp.path) == "" ==> r == Gated(s, resp)
    ensures Lookup(s.index, ShouldBeCached(resp.path)) == Available ==> r == Gated(s, resp)
    ensures var key := ShouldBeCached(resp.path);
            resp.status == 200 && key != "" && Lookup(s.index, key) != Available ==>
              if dir + key in s.store.noCreate then r == Gated(s, resp)
              else
                && r.resp.body == Teed(TeeReader(key, dir + key, resp.body, [], 0, 0))
                && r.state.store == s.store.(files := s.store.files[dir + key := []])
  {
    if resp.status != 200 then Gated(s, resp)
    else
      var key := ShouldBeCached(resp.path);
      if key == "" || Lookup(s.index, key) == Available then Gated(s, resp)
      else
        match NewTee(dir, key, resp.body, s.store)
        case Failure(_) => Gated(s, resp)
        case Success((tee, st')) => Gated(s.(store := st'), resp.(body := Teed(tee)))
  }
}
