/** The in-memory cache index: blob key to cache state. A key that is not in
    the map reads as EMPTY, the zero value of the source's `map[string]int`. */
module CacheIndex {

  /** The source stores EMPTY as 0, AVAILABLE as 1 and IN_PROGRESS as 2;
      no other value is ever stored, so the three constructors stand for them. */
  datatype CacheState = Empty | Available | InProgress

  type Index = map<string, CacheState>

  /** `cache[key]`: a missing key reads as EMPTY. */
  function Lookup(idx: Index, key: string): CacheState {
    if key in idx then idx[key] else Empty
  }

  /** The forward order of the state machine: EMPTY < IN_PROGRESS < AVAILABLE. */
  function Rank(s: CacheState): nat {
    match s
    case Empty => 0
    case InProgress => 1
    case Available => 2
  }

  /** No key moved backwards from `before` to `after`. */
  ghost predicate NoRegress(before: Index, after: Index) {
    forall k :: Rank(Lookup(before, k)) <= Rank(Lookup(after, k))
  }

  /** Setting one key to a state of rank at least its current one regresses
      nothing, and leaves every other key as it was. */
  lemma AdvanceNoRegress(idx: Index, key: string, s: CacheState)
    requires Rank(Lookup(idx, key)) <= Rank(s)
    ensures NoRegress(idx, idx[key := s])
    ensures Lookup(idx[key := s], key) == s
    ensures forall k :: k != key ==> Lookup(idx[key := s], k) == Lookup(idx, k)
  {
  }

  /** No-regress composes along a run. */
  lemma NoRegressTransitive(a: Index, b: Index, c: Index)
    requires NoRegress(a, b) && NoRegress(b, c)
    ensures NoRegress(a, c)
  {
  }
}
