/** Properties that span several operations: a fetch that streams through
    the tee is later served byte-for-byte from the cache, the polling loop
    defers to the next observation, and no sequence of gate and close events
    moves a key backwards in the state machine. */
module Scenarios {
  import opened Wrappers
  import opened CacheIndex
  import opened FileStore
  import opened Streams
  import opened Classifier
  import opened Gates

  /** What the wrapped body returned, step by step. */
  function Results(steps: seq<ReadStep>): (rs: seq<ReadResult>)
    ensures |rs| == |steps|
    ensures forall i :: 0 <= i < |steps| ==> rs[i] == steps[i].got
  {
    seq(|steps|, i requires 0 <= i < |steps| => steps[i].got)
  }

  /** Round trip: the first request for an uncached blob goes upstream and
      claims the key; the 200 response gets a tee; the client reads the tee
      through and closes it, every disk write succeeding; then a second
      request for the same blob is answered from the cache with exactly the
      bytes the upstream body delivered. */
  lemma FetchThenHit(dir: string, s: State, path: string, ct: Option<string>, len: int, steps: seq<ReadStep>)
    requires ShouldBeCached(path) != ""
    requires Lookup(s.index, ShouldBeCached(path)) == Empty
    requires var f := dir + ShouldBeCached(path);
             f !in s.store.noCreate && f !in s.store.noOpen && f !in s.store.noStat
    requires AllWritten(steps)
    ensures var key := ShouldBeCached(path);
            var first := RequestGate(dir, s, [], path);
            && first == Forward(s.index[key := InProgress])
            && var s1 := State(first.index, s.store);
               var upstream := Response(200, ct, len, Upstream(Results(steps)), path);
               var gated := ResponseGate(dir, s1, upstream);
               && gated.resp.body.Teed?
               && var (tee, outs) := ReadAll(gated.resp.body.tee, steps);
                  && outs == Results(steps)
                  && var closed := Close(tee, gated.state.index, gated.state.store);
                     var data := Delivered(Results(steps));
                     RequestGate(dir, State(closed.index, closed.store), [], path)
                       == Serve(closed.index, Response(200, Some(OctetStream), |data|, CachedFile(data), path))
  {
  }

  /** The wait loop: while the key is IN_PROGRESS the gate acts exactly as it
      would on the next observation; with none left it is still waiting. */
  lemma WaitDefersToNextPoll(dir: string, s: State, polls: seq<State>, path: string)
    requires ShouldBeCached(path) != ""
    requires Lookup(s.index, ShouldBeCached(path)) == InProgress
    ensures polls == [] ==> RequestGate(dir, s, polls, path) == Waiting
    ensures polls != [] ==> RequestGate(dir, s, polls, path) == RequestGate(dir, polls[0], polls[1..], path)
  {
  }

  /** A request for a blob that another fetch holds IN_PROGRESS never claims
      the key or goes upstream while that fetch is unfinished, and is served
      from the cache once an observation shows the key AVAILABLE with a
      readable file. */
  lemma WaiterIsServedAfterClose(dir: string, s: State, t: State, path: string)
    requires ShouldBeCached(path) != ""
    requires Lookup(s.index, ShouldBeCached(path)) == InProgress
    requires Lookup(t.index, ShouldBeCached(path)) == Available
    requires var f := dir + ShouldBeCached(path);
             f in t.store.files && f !in t.store.noOpen && f !in t.store.noStat
    ensures RequestGate(dir, s, [], path) == Waiting
    ensures var data := t.store.files[dir + ShouldBeCached(path)];
            RequestGate(dir, s, [t], path)
              == Serve(t.index, Response(200, Some(OctetStream), |data|, CachedFile(data), path))
  {
  }

  /** The events that touch the shared state, in a sequential run. */
  datatype Event =
    | RequestArrives(path: string)
    | ResponseArrives(resp: Response)
    | TeeClosed(tee: TeeReader)

  /** One event applied to the shared state. A request with nothing else
      running either completes or waits forever, leaving the state alone. */
  function Apply(dir: string, s: State, e: Event): (s': State)
    ensures NoRegress(s.index, s'.index)
  {
    match e
    case RequestArrives(path) =>
      (match RequestGate(dir, s, [], path)
       case Forward(idx) => s.(index := idx)
       case Serve(idx, _) => s.(index := idx)
       case Waiting => s)
    case ResponseArrives(resp) =>
      ResponseGate(dir, s, resp).state
    case TeeClosed(tee) =>
      var c := Close(tee, s.index, s.store);
      State(c.index, c.store)
  }

  /** The shared state after applying `events` in order. */
  function Run(dir: string, s: State, events: seq<Event>): State
    decreases |events|
  {
    if events == [] then s else Run(dir, Apply(dir, s, events[0]), events[1..])
  }

  /** Across any sequence of request gates, response gates and closes, no
      key's state moves backwards in EMPTY < IN_PROGRESS < AVAILABLE. */
  lemma {:induction false} RunNoRegress(dir: string, s: State, events: seq<Event>)
    ensures NoRegress(s.index, Run(dir, s, events).index)
    decreases |events|
  {
    if events != [] {
      var s1 := Apply(dir, s, events[0]);
      RunNoRegress(dir, s1, events[1..]);
      NoRegressTransitive(s.index, s1.index, Run(dir, s1, events[1..]).index);
    } else {
      assert NoRegress(s.index, s.index);
    }
  }

  /** Blobs are immutable once cached: an AVAILABLE key stays AVAILABLE. */
  lemma AvailableIsFinal(dir: string, s: State, events: seq<Event>, key: string)
    requires Lookup(s.index, key) == Available
    ensures Lookup(Run(dir, s, events).index, key) == Available
  {
    RunNoRegress(dir, s, events);
    assert Rank(Lookup(s.index, key)) <= Rank(Lookup(Run(dir, s, events).index, key));
  }
}
