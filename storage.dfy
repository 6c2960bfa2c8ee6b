/**
 * The persistence backend the vector store writes to: either a local directory tree or a
 * Google Cloud Storage bucket (only one is in use at a time, chosen by `USE_GCS`).  Both are
 * modelled as a map from path or blob key to the artifact stored there, plus the set of local
 * directories; pickling, FAISS's file format and the GCS client are not modelled.
 */
module Storage {
  import opened Strings

  /** What a key holds: a FAISS index file (only its vector count matters here) or a pickled
      list of chunk texts. */
  datatype Artifact = FaissIndex(ntotal: nat) | ChunkPickle(texts: seq<string>)

  datatype StoreState = StoreState(files: map<string, Artifact>, dirs: set<string>)

  /** The Django settings the vector store reads: `USE_GCS`, `GS_BUCKET_NAME` (`""` when unset),
      `GS_FAISS_PREFIX` and `BASE_DIR`. */
  datatype Settings = Settings(useGcs: bool, bucketName: string, gcsPrefix: string, baseDir: string)

  /** The prefix used when `GS_FAISS_PREFIX` is not configured. */
  const DefaultGcsPrefix: string := "faiss_indices/"

  /** `os.listdir(d)` is empty: no stored file and no directory lies below `d`. */
  predicate DirIsEmpty(st: StoreState, d: string) {
    && (forall k :: k in st.files ==> !StartsWith(k, d + "/"))
    && (forall e :: e in st.dirs ==> !StartsWith(e, d + "/"))
  }

  class Store {
    var files: map<string, Artifact>
    var dirs: set<string>

    function State(): StoreState
      reads this
    {
      StoreState(files, dirs)
    }

    constructor ()
      ensures State() == StoreState(map[], {})
    {
      files, dirs := map[], {};
    }

    /** Writing (or uploading) an artifact, replacing what the key held. */
    method Write(key: string, a: Artifact)
      modifies this
      ensures State() == StoreState(old(files)[key := a], old(dirs))
    {
      files := files[key := a];
    }

    /** `os.remove` / `blob.delete()`. */
    method Remove(key: string)
      modifies this
      ensures State() == StoreState(old(files) - {key}, old(dirs))
    {
      files := files - {key};
    }

    /** `os.makedirs(..., exist_ok=True)` for the given directories. */
    method MakeDirs(ds: set<string>)
      modifies this
      ensures State() == StoreState(old(files), old(dirs) + ds)
    {
      dirs := dirs + ds;
    }

    /** `os.rmdir`. */
    method RemoveDir(d: string)
      modifies this
      ensures State() == StoreState(old(files), old(dirs) - {d})
    {
      dirs := dirs - {d};
    }
  }
}
