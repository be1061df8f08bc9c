/** The side effects the ingestion code has and the abstract vector store it talks to. */
module Effects {
  import opened Wrappers
  import opened Exceptions
  import opened OsPath
  import opened DocumentProcessing

  /** The directories `os.makedirs(p, exist_ok=True)` guarantees: `p` and every ancestor of it. */
  function DirsOf(p: string): (r: set<string>)
    ensures |p| > 0 ==> p in r
  {
    var r := set i | 0 < i <= |p| && (i == |p| || p[i] == '/') :: p[..i];
    assert p[..|p|] == p;
    assert |p| > 0 ==> p[..|p|] in r;
    r
  }

  /** The upload area on disk: which directories exist and what each file holds. */
  class Disk {
    var dirs: set<string>
    var files: map<string, seq<bv8>>

    constructor (dirs0: set<string>, files0: map<string, seq<bv8>>)
      ensures dirs == dirs0 && files == files0
    {
      dirs := dirs0;
      files := files0;
    }

    /** Whether `open(p, "wb")` finds the directory to create `p` in (a relative name with no
        directory part lives in the working directory, which exists). */
    predicate ParentExists(p: string)
      reads this
    {
      Dirname(p) == "" || Dirname(p) in dirs
    }

    /** `os.makedirs(p, exist_ok=True)`. */
    method MakeDirs(p: string)
      modifies this
      ensures dirs == old(dirs) + DirsOf(p) && files == old(files)
    {
      dirs := dirs + DirsOf(p);
    }

    /** `open(p, "wb").write(data)`: fails when the parent directory is missing. */
    method WriteFile(p: string, data: seq<bv8>) returns (r: Result<(), Exc>)
      modifies this
      ensures dirs == old(dirs)
      ensures old(ParentExists(p)) ==> r == Success(()) && files == old(files)[p := data]
      ensures !old(ParentExists(p)) ==>
        r == Failure(OtherError("No such file or directory: " + p)) && files == old(files)
    {
      if ParentExists(p) {
        files := files[p := data];
        r := Success(());
      } else {
        r := Failure(OtherError("No such file or directory: " + p));
      }
    }

    /** `if os.path.exists(p): os.remove(p)`. */
    method RemoveIfExists(p: string)
      modifies this
      ensures dirs == old(dirs) && files == old(files) - {p}
    {
      if p in files {
        files := files - {p};
      }
    }
  }

  /** One `store_documents(chunks, store_name)` call. */
  datatype StoreWrite = StoreWrite(storeName: string, chunks: seq<Document>)

  /** The vector database, seen only through the writes the core asks of it; what a write does to
      an existing collection is not modelled. */
  class VectorStores {
    var writes: seq<StoreWrite>

    constructor ()
      ensures writes == []
    {
      writes := [];
    }

    /** `store_documents(chunks, store_name)`: the write is requested and logged; `write` says
        whether the vector database accepted it or raised. */
    method StoreDocuments(chunks: seq<Document>, storeName: string, write: StoreWriter)
      returns (r: Result<(), Exc>)
      modifies this
      ensures writes == old(writes) + [StoreWrite(storeName, chunks)]
      ensures r == write(StoreWrite(storeName, chunks))
    {
      writes := writes + [StoreWrite(storeName, chunks)];
      r := write(StoreWrite(storeName, chunks));
    }
  }

  /** The vector database's answer to one write: accepted, or the exception it raised. */
  type StoreWriter = StoreWrite -> Result<(), Exc>

  /** `debug_collection(store_name)`: returns normally, or raises. Its report is only printed. */
  type CollectionCheck = string -> Result<(), Exc>

  /** One `similarity_search(query, k=k)` on the store named `storeName`. */
  datatype SearchRequest = SearchRequest(storeName: string, query: string, k: nat)

  /** What `get_vector_store` returned: `None` or a store object. */
  datatype StoreHandle = NoneHandle | StoreObject

  /** `get_vector_store(name)`: the handle, or the exception it raised. */
  type StoreLookup = string -> Result<StoreHandle, Exc>

  /** `similarity_search(query, k)` on the named store: the chunks found, or the exception raised. */
  type Search = SearchRequest -> Result<seq<Document>, Exc>

  /** A search that honours its bound returns at most `k` chunks. */
  ghost predicate HonoursK(search: Search)
  {
    forall q :: search(q).Success? ==> |search(q).value| <= q.k
  }
}
