/** uploadPart and uploadTOC: an encoder's output streamed through a counter and a hasher into a writer. */
module PartUploads {
  import opened Basics
  import opened Manifests
  import opened MultipartWriters
  import UploadProtocol

  /** countWriter over io.MultiWriter(bw, hasher). */
  class CountingTee {
    const w: MultipartWriter
    var n: nat
    var hashed: Bytes

    constructor (w: MultipartWriter)
      ensures this.w == w && n == 0 && hashed == []
    {
      this.w := w;
      n, hashed := 0, [];
    }

    /** MultiWriter stops at the first writer that fails, so a failed chunk is never hashed. */
    method Write(p: Bytes) returns (err: bool)
      requires w.Valid() && !w.done
      modifies this, w`buf, w`partNum, w`inFlight, w`parts, w`failed, w`remote
      modifies w`waiting, w`cut, w`run, w`states
      ensures w.Valid() && !w.done
      ensures !err ==>
        && n == old(n) + |p| && hashed == old(hashed) + p
        && Multipart.Written(w.run) == Multipart.Written(old(w.run)) + p
      ensures err ==> w.failed && n == old(n) && hashed == old(hashed)
    {
      var written;
      written, err := w.Write(p);
      n := n + written;
      if !err { hashed := hashed + p; }
    }
  }

  datatype Digest = Digest(size: nat, sha256: string)

  /**
   Streams the chunks an encoder emits to one key.  On success the object is their
   concatenation and the digest describes exactly it; on any failure, wherever it
   strikes, the deferred Abort leaves every object as it was.
   */
  method StreamObject(store: ObjectStore, key: string, partSize: int, concurrency: int,
                      chunks: seq<Bytes>, hash: Bytes -> string) returns (r: Option<Digest>)
    modifies store
    ensures r.Some? ==>
      && store.objects == old(store.objects)[key := Concat(chunks)]
      && r.value == Digest(|Concat(chunks)|, hash(Concat(chunks)))
    ensures r.None? ==> store.objects == old(store.objects)
  {
    var putOk: bool := *;
    if !putOk { return None; }
    var w := new MultipartWriter(store, key, partSize, concurrency);
    var tee := new CountingTee(w);
    assert chunks[..0] == [] && chunks[..|chunks|] == chunks;
    for i := 0 to |chunks|
      invariant w.Valid() && !w.done && fresh(w) && fresh(tee) && tee.w == w && w.store == store && w.key == key
      invariant store.objects == old(store.objects)
      invariant tee.hashed == Concat(chunks[..i]) == Multipart.Written(w.run)
      invariant tee.n == |Concat(chunks[..i])|
    {
      var sourceFails: bool := *;
      if sourceFails {
        w.Abort();
        return None;
      }
      var err := tee.Write(chunks[i]);
      if err {
        w.Abort();
        return None;
      }
      assert chunks[..i + 1] == chunks[..i] + [chunks[i]];
      ConcatSnoc(chunks[..i], chunks[i]);
    }
    var err := w.Close();
    if err {
      w.Abort();
      return None;
    }
    r := Some(Digest(tee.n, hash(tee.hashed)));
  }

  /**
   uploadPart: the part, then its sidecar.  A returned record is the one the upload
   protocol stores; a failed sidecar leaves the part's object behind, unlisted.
   */
  method UploadPart(store: ObjectStore, prefix: string, partSize: int, concurrency: int, p: UploadProtocol.Planned,
                    chunks: seq<Bytes>, tocChunks: seq<Bytes>, hash: Bytes -> string) returns (r: Option<Part>)
    requires Concat(chunks) == p.bytes && Concat(tocChunks) == p.toc
    modifies store
    ensures r.Some? ==> r.value == UploadProtocol.Record(hash, p) && UploadProtocol.Describes(hash, r.value, p)
    ensures r.Some? ==> store.objects == old(store.objects)[prefix + p.name := p.bytes][prefix + p.tocName := p.toc]
    ensures r.None? ==>
      store.objects == old(store.objects) || store.objects == old(store.objects)[prefix + p.name := p.bytes]
  {
    var part := StreamObject(store, prefix + p.name, partSize, concurrency, chunks, hash);
    if part.None? { return None; }
    var toc := StreamObject(store, prefix + p.tocName, partSize, concurrency, tocChunks, hash);
    if toc.None? { return None; }
    r := Some(Part(p.name, p.uncompressed, part.value.size, part.value.sha256,
                   Some(TocRef(p.tocName, toc.value.size, toc.value.sha256, p.files))));
  }
}
