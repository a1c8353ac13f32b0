# Docker-registry blob cache: a Dafny model

This project models the cache at the heart of goproxy-cache4docker. The
program is an intercepting HTTP proxy that stores Docker image layers
("blobs", named by their sha256 hash) on disk. After the first download it
serves each blob from the cache. The model covers the sequential logic of
`examples/goproxy-cache/main.go`:

- **Classifier** (`shouldBeCached`). A hand-written matcher for the one
  fixed pattern `/registry-v2/docker/registry/v2/blobs/sha256/../(?P<shaname>[^/]+)/`.
  It searches unanchored and takes the leftmost match. `.` is any character
  but a newline. The match is specified declaratively (`MatchAt`,
  `LeftmostMatch`) and the matcher is proved against that specification.
- **Cache directory normalisation** (the start of `cacheInit`).
- **Cache index**. A map from key to `Empty | Available | InProgress`; a
  missing key reads as `Empty`. The three constructors stand for the
  source's constants EMPTY=0, AVAILABLE=1 and IN_PROGRESS=2, the only values
  it ever stores. `Rank` orders the states
  EMPTY < IN_PROGRESS < AVAILABLE.
- **Startup load** (`cacheInit`). The directory probe, the mkdir result and
  the directory listing are parameters. A directory that mkdir has just
  created is listed as empty.
- **Request gate** (`CacheReqHandler`) and **response gate**
  (`CacheRespHandler`). Both are pure functions of the shared state, which
  is the index plus an abstract store.
- **Tee reader** (`newCacheTeeReader`, `Read`, `Close`). The wrapped body's
  behaviour is given as the result of each read. The disk's behaviour is
  given as the number of bytes each write accepts.

The store (`FileStore.Store`) maps full paths to file contents. It also
holds the paths on which create, open or stat fail; these stand for every
operating-system failure. The polling wait loop is modelled by its
observations: the state seen on taking the lock, then the state seen after
each pause. The gate acts on the first observation in which the key is not
IN_PROGRESS (`Gates.Settled`). If every observation shows IN_PROGRESS, the
outcome is `Waiting`.

The model follows the code, including three places where it is narrower or looser than the cache's intended design:

- The response gate caches only status 200 exactly, not any success status.
- The wait loop exits on any state other than IN_PROGRESS, not only on
  AVAILABLE. A key seen as EMPTY after waiting is claimed again.
- The response gate installs a tee whenever the key is not AVAILABLE. That
  includes EMPTY, not only IN_PROGRESS.

## Model

| member | source | states |
|---|---|---|
| Classifier.SegmentLength | examples/goproxy-cache/main.go:28 | the `[^/]+` run is maximal: every character in it is not '/', and it ends at '/' or at the end of the path |
| Classifier.CaptureAt | examples/goproxy-cache/main.go:28 | the pattern anchored at one position: it returns `Some(h)` exactly when the pattern matches there with capture `h`, so the capture is unique |
| Classifier.LeftmostFrom | examples/goproxy-cache/main.go:125 | the search from position `i` returns a match with no match at any earlier position from `i`; it returns none only if no match starts at or after `i` |
| Classifier.ShouldBeCached | examples/goproxy-cache/main.go:122-132 | returns "" exactly when the pattern occurs nowhere in the path; otherwise returns the capture of the leftmost match, which is non-empty, contains no '/' and is followed by '/' in the path |
| Classifier.ClassifyBlobPath | examples/goproxy-cache/main.go:28 | round trip: prefix + two-character shard + '/' + hash + '/' + any tail is classified as that hash |
| Classifier.ExampleBlobPath | examples/goproxy-cache/main.go:122-132 | `/registry-v2/docker/registry/v2/blobs/sha256/ab/abc123/` is classified as `abc123` |
| Classifier.ExampleMissingFinalSlash | examples/goproxy-cache/main.go:122-132 | the same path without the final '/' is classified as "" |
| Classifier.ExampleOtherPath | examples/goproxy-cache/main.go:122-132 | `/v2/other/path` is classified as "" |
| CacheDir.NormalizeCacheDir | examples/goproxy-cache/main.go:94-97 | the result ends with '/', starts with the input and is at most one character longer; it equals the input exactly when the input already ends with '/' |
| CacheDir.NormalizeCacheDirIdempotent | examples/goproxy-cache/main.go:95-97 | normalising twice gives the same result as normalising once |
| CacheIndex.AdvanceNoRegress | examples/goproxy-cache/main.go:87 | assigning a key a state of equal or higher rank regresses no key and leaves every other key unchanged |
| FileStore.Create | examples/goproxy-cache/main.go:56-61 | creating fails exactly on uncreatable paths; on success the file exists and is empty (truncated) and nothing else changes |
| FileStore.OpenAndStat | examples/goproxy-cache/main.go:165-174 | succeeds exactly when the file exists and both open and stat succeed, and then yields its contents |
| Streams.NewTee | examples/goproxy-cache/main.go:44-65 | fails exactly when the file `dir + key` cannot be created; on success the tee wraps the given body, its counters are 0, the file is empty and consistent, and the store gains that empty file |
| Streams.Read | examples/goproxy-cache/main.go:67-81 | returns exactly the wrapped body's (n, err); `nbread` grows by n; the file grows by a prefix of the chunk whose length is what `nbwritten` grows by (nothing when n is 0); when the disk takes all n bytes the whole chunk is appended; key, file name and wrapped body are unchanged; the tee stays consistent |
| Streams.ReadAll | examples/goproxy-cache/main.go:67-81 | over successive reads the tee returns the wrapped body's results verbatim; `nbread` counts every delivered byte; the file only grows; when every write succeeds the file gains exactly the concatenation of the returned chunks and `nbwritten` grows as `nbread` does |
| Streams.FreshTeeMirrorsStream | examples/goproxy-cache/main.go:44-81 | a tee starting from `NewTee` (counters 0, empty file) and read through with every write succeeding holds exactly the concatenation of the chunks it returned, and `nbwritten == nbread` |
| Streams.Close | examples/goproxy-cache/main.go:83-91 | returns no error; the key becomes AVAILABLE and no other key changes, so no key regresses; the store now holds the bytes written through the handle under the tee's file name and nothing else in it changes |
| Streams.CloseIdempotent | examples/goproxy-cache/main.go:83-91 | closing a second time leaves the same index and store, with the key still AVAILABLE |
| Startup.LoadIndex | examples/goproxy-cache/main.go:110-119 | the fresh index has exactly the listed names as keys, each AVAILABLE, so a key is AVAILABLE exactly when it is listed |
| Startup.CacheInit | examples/goproxy-cache/main.go:93-120 | fatal when the directory is missing and cannot be created, or when listing it fails, and only then; on success the directory name is normalised and no key is IN_PROGRESS; for an existing directory the AVAILABLE keys are exactly the listed names, and a directory just created by mkdir yields an empty index |
| Gates.CacheHit | examples/goproxy-cache/main.go:165-184 | succeeds exactly when the file exists and can be opened and stat-ed; then the response has status 200, Content-Type application/octet-stream, ContentLength equal to the file size, and the file contents as body |
| Gates.Settled | examples/goproxy-cache/main.go:150-159 | the wait loop exits on the first observation in which the key is not IN_PROGRESS, every earlier one showing IN_PROGRESS; it exits at once when the first observation is not IN_PROGRESS; it does not exit exactly when every observation shows IN_PROGRESS |
| Gates.RequestGate | examples/goproxy-cache/main.go:144-193 | a non-cacheable path leaves the index unchanged and produces no response; a cacheable request is still waiting exactly when every observation shows IN_PROGRESS; on exit, EMPTY becomes IN_PROGRESS with no response; AVAILABLE leaves the index unchanged and produces a response exactly when the cache hit succeeds, and that response is the cache hit on the observed store: status 200, octet stream, the file `dir + key` as body and its size as length; no key regresses; a served response is a 200 octet stream whose length is the length of its body |
| Gates.ResponseGate | examples/goproxy-cache/main.go:195-225 | never writes the index and only ever changes the body; a non-200 status, a non-cacheable path or an AVAILABLE key returns the response and state unchanged; otherwise the body is replaced by a fresh tee wrapping the original body and the store gains an empty file, unless creation fails, in which case nothing changes |
| Scenarios.FetchThenHit | examples/goproxy-cache/main.go:144-225 | round trip: first request claims the key; the 200 response gets a tee; the client reads it through (all writes succeed) and the tee returns the upstream results verbatim; after Close, the next request is served from the cache with exactly the bytes the upstream body delivered |
| Scenarios.WaitDefersToNextPoll | examples/goproxy-cache/main.go:153-159 | while the key is IN_PROGRESS the gate acts as it would on the next observation, and with no observation left it is still waiting |
| Scenarios.WaiterIsServedAfterClose | examples/goproxy-cache/main.go:153-184 | a request for a key IN_PROGRESS neither claims it nor goes upstream, and once an observation shows it AVAILABLE with a readable file it is served that file |
| Scenarios.Apply | examples/goproxy-cache/main.go:144-225 | a request gate, response gate or tee close moves no key backwards in EMPTY < IN_PROGRESS < AVAILABLE |
| Scenarios.RunNoRegress | examples/goproxy-cache/main.go:83-193 | over any sequence of gate and close events, no key's rank ever decreases |
| Scenarios.AvailableIsFinal | examples/goproxy-cache/main.go:161-189 | a key that is AVAILABLE stays AVAILABLE through any sequence of events (cached blobs are immutable) |

## Left out

- Real I/O: `os.Create`, `os.Open`, `os.Stat`, `os.Mkdir` and `ioutil.ReadDir` become the abstract store, parameters, and the store's failure sets. `log.Fatal` becomes `Failure(...)` from `CacheInit`.
- Concurrency: the `sync.RWMutex` and the 2-second sleep are not modelled. The model is sequential. Other goroutines appear only as the index and store snapshots seen by the wait loop. The duplicate-fetch race is not analysed.
- File writes: the bytes written through the tee's file handle are kept in the tee. They appear in the store when `Close` closes the handle. In a sequential run nothing reads the file before the key becomes AVAILABLE, so this ordering is not observable.
- The tee's wrapped body: each `Read` is given the result the wrapped body returned. The caller's buffer `p` is not modelled, so a chunk is whatever the body delivered into `p[:n]`.
- The error returned by `f.Close()` is ignored by the source and not modelled. So is the file handle left open when `os.Stat` fails after `os.Open` succeeded.
- The proxy wiring is not part of this model: `main`, flag parsing, `setCA`/`caCert`, MITM, handler registration and `http.ListenAndServe`.
- All logging (`ctx.Logf`, `ctx.Warnf`, `fmt`) is left out.
- `cacheExistsFor` is left out. It is unused and is only a filesystem stat.
- HTTP fields are left out except status, Content-Type, ContentLength, body and the request's URL path. `TransferEncoding` and the back pointer to the request are among those not modelled.
- Strings are sequences of characters. Go matches on UTF-8 runes of a byte string, so invalid UTF-8 is not modelled.
- The directory listing is a sequence of names. Whether an entry is a file or a subdirectory is not modelled; the source indexes both.
- Gates.RequestGate: monotonicity is stated relative to the observation the gate acted on, not the state first seen under the lock. Between observations other goroutines change the index, and those changes are outside this model.
