/** An abstract view of the cache directory on disk: file contents by full
    path, and the paths on which creating, opening or stat-ing fails. The
    failure sets stand for every reason the operating system may refuse
    (permissions, a full disk, removal behind the proxy's back). */
module FileStore {
  import opened Wrappers

  type byte = b: int | 0 <= b < 256

  datatype Store = Store(
    files: map<string, seq<byte>>,
    noCreate: set<string>,
    noOpen: set<string>,
    noStat: set<string>)

  datatype FsError = CreateError | OpenError | StatError

  /** `os.Create`: creates or truncates the file. */
  function Create(st: Store, path: string): (r: Result<Store, FsError>)
    ensures r.Failure? <==> path in st.noCreate
    ensures r.Success? ==> r.value == st.(files := st.files[path := []])
  {
    if path in st.noCreate then Failure(CreateError)
    else Success(st.(files := st.files[path := []]))
  }

  /** `os.Open` followed by `os.Stat`: the contents of a readable file. */
  function OpenAndStat(st: Store, path: string): (r: Result<seq<byte>, FsError>)
    ensures r.Success? <==> path in st.files && path !in st.noOpen && path !in st.noStat
    ensures r.Success? ==> r.value == st.files[path]
  {
    if path !in st.files || path in st.noOpen then Failure(OpenError)
    else if path in st.noStat then Failure(StatError)
    else Success(st.files[path])
  }
}
