/**
 * The hand-off of annotated images between the detection endpoint and the
 * image endpoint: a directory of files named by opaque file names, written
 * once by a detection and removed by the first retrieval that finds them.
 * Here the directory is a map from file name to the file's bytes.
 */
module ImageStore {

  type Bytes = seq<bv8>

  /** What a retrieval yields: the JPEG bytes, or the miss that the image
      endpoint reports as 404 {"error": "File not found"}. */
  datatype Retrieval = Served(jpeg: Bytes) | NotFound

  const NotFoundStatus: int := 404

  /** HTTP status of a retrieval's reply. */
  function Status(r: Retrieval): (code: int)
    ensures code == 200 <==> r.Served?
    ensures code == NotFoundStatus <==> r.NotFound?
  {
    if r.Served? then 200 else NotFoundStatus
  }

  class Store {
    /** The files of the scratch directory, by name. */
    var files: map<string, Bytes>

    /** The directory as the image endpoint finds it: whatever files are
        already there. */
    constructor (existing: map<string, Bytes>)
      ensures files == existing
    {
      files := existing;
    }

    /** Writes an annotated image under the given name, replacing any file
        of that name. */
    method Put(name: string, jpeg: Bytes)
      modifies this
      ensures files == old(files)[name := jpeg]
    {
      files := files[name := jpeg];
    }

    /** Serves the named file and removes it; a name that is not there is a
        miss and changes nothing. */
    method Take(name: string) returns (r: Retrieval)
      modifies this
      ensures name in old(files) ==> r == Served(old(files)[name]) && files == old(files) - {name}
      ensures name !in old(files) ==> r == NotFound && files == old(files)
      ensures name !in files
    {
      if name !in files {
        return NotFound;
      }
      r := Served(files[name]);
      files := files - {name};
    }
  }

  /** A file can be retrieved once: right after it is written, a first take
      returns its bytes and a second take of the same name misses. */
  method PutThenTakeTwice(store: Store, name: string, jpeg: Bytes) returns (first: Retrieval, second: Retrieval)
    modifies store
    ensures first == Served(jpeg) && Status(first) == 200
    ensures second == NotFound && Status(second) == NotFoundStatus
    ensures store.files == old(store.files) - {name}
  {
    store.Put(name, jpeg);
    first := store.Take(name);
    second := store.Take(name);
  }
}
