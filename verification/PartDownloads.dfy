/** downloadPart: one object read through a hasher into a decoder, extracted, drained and compared. */
module PartDownloads {
  import opened Basics
  import opened Paths
  import opened Disks
  import opened Extraction
  import opened Containment
  import opened Manifests
  import opened AtomicTargets
  import DownloadProtocol

  /** What comes with the bytes of a read: nothing, the end, or a failure. */
  datatype Status = More | Eof | Failed

  /** io.TeeReader over an object's bytes: whatever is read is also hashed. */
  class TeeReader {
    const source: Bytes
    var pos: nat
    var hashed: Bytes

    ghost predicate Valid()
      reads this
    {
      pos <= |source| && hashed == source[..pos]
    }

    constructor (source: Bytes)
      ensures Valid() && this.source == source && pos == 0
    {
      this.source, pos, hashed := source, 0, [];
    }

    /** Up to `want` bytes, alone or together with the end of the object or a failure; all of them are hashed. */
    method Read(want: nat) returns (got: Bytes, status: Status)
      requires Valid()
      modifies this
      ensures Valid() && old(pos) <= pos
      ensures got == source[old(pos)..pos] && |got| <= want
      ensures status.Eof? ==> pos == |source|
      ensures status.More? && want > 0 ==> got != []
    {
      var left := |source| - pos;
      var most: nat := if want <= left then want else left;
      var n: nat :| n <= most;
      var failed: bool := *;
      if !failed && n == 0 { n := most; }
      got := source[pos..pos + n];
      hashed, pos := hashed + got, pos + n;
      assert hashed == source[..pos];
      var atOnce: bool := *;
      status := if failed then Failed else if pos == |source| && (n == 0 || atOnce) then Eof else More;
    }

    /** io.Copy(io.Discard, teed): without a failure the hasher has seen the whole object. */
    method Drain() returns (err: bool)
      requires Valid()
      modifies this
      ensures Valid() && (!err ==> hashed == source)
    {
      var _, status := Read(CHUNK);
      while status.More?
        invariant Valid() && (status.Eof? ==> pos == |source|)
        decreases |source| - pos, status.More?
      {
        var got;
        got, status := Read(CHUNK);
      }
      assert source[..|source|] == source;
      err := status.Failed?;
    }
  }

  const CHUNK: nat := 32768

  /** The disk that the entries before k made, or that the k-th, breaking off, has left. */
  ghost predicate BrokeOff(before: FileSystem, after: FileSystem, root: Path, ts: seq<TarEntry>, k: nat)
    requires root != []
  {
    && k <= |ts| && ExtractAll(before, root, ts[..k]).Some?
    && var at := ExtractAll(before, root, ts[..k]).value;
       after == at || (k < |ts| && Partial(at, after, Touched(at, root, ts[k])))
  }

  /** One entry: it is extracted, or refused, or broken off by an error of the system. */
  method ExtractEntry(disk: Disk, root: Path, t: TarEntry) returns (done: bool)
    requires Rooted(disk.fs, root)
    modifies disk
    ensures Rooted(disk.fs, root)
    ensures done ==> Extract(old(disk.fs), root, t) == Some(disk.fs)
    ensures !done ==> disk.fs == old(disk.fs) || Partial(old(disk.fs), disk.fs, Touched(old(disk.fs), root, t))
  {
    RootIsNotEmpty(disk.fs, root);
    var next := Extract(disk.fs, root, t);
    var places := Touched(disk.fs, root, t);
    var ioFails: bool := *;
    if next.None? || ioFails {
      var left: FileSystem := *;
      if Partial(disk.fs, left, places) {
        PartialStaysRooted(disk.fs, left, root, places);
        disk.fs := left;
      }
      return false;
    }
    EntryKeepsRooted(disk.fs, root, t);
    disk.fs := next.value;
    return true;
  }

  /**
   Success means the object exists, decodes to a clean end, has the manifest's digest
   over all of its bytes, wherever the decoder stopped reading, and that the disk is what
   exactly its entries make of it.  A failure leaves the work of some of its entries and
   perhaps a part of the next one's.
   */
  method DownloadPart(src: DownloadProtocol.Source, p: Part, disk: Disk, root: Path) returns (err: bool)
    requires Rooted(disk.fs, root)
    modifies disk
    ensures Rooted(disk.fs, root)
    ensures !err ==>
      && DownloadProtocol.Verified(src, p)
      && p.name in src.objects && src.hash(src.objects[p.name]) == p.sha256 && src.decode(src.objects[p.name]).clean
      && ExtractAll(old(disk.fs), root, DownloadProtocol.StreamOf(src, p)) == Some(disk.fs)
    ensures err ==> exists k: nat :: BrokeOff(old(disk.fs), disk.fs, root, DownloadProtocol.StreamOf(src, p), k)
  {
    ghost var start, all := disk.fs, DownloadProtocol.StreamOf(src, p);
    assert all[..0] == [] && all[..|all|] == all;
    assert BrokeOff(start, disk.fs, root, all, 0);
    var fetched: bool := *;
    if p.name !in src.objects || !fetched { return true; }
    var tee := new TeeReader(src.objects[p.name]);
    var stream := src.decode(tee.source);
    assert stream.entries == all;
    RootIsNotEmpty(disk.fs, root);
    hide Extract, Touched, Rooted, Partial;
    for i := 0 to |stream.entries|
      invariant tee.Valid() && fresh(tee) && tee.source == src.objects[p.name]
      invariant Rooted(disk.fs, root) && ExtractAll(start, root, all[..i]) == Some(disk.fs)
    {
      assert BrokeOff(start, disk.fs, root, all, i);
      // The decoder pulls as much of the object as it likes before it yields an entry.
      var want: nat := *;
      var _, status := tee.Read(want);
      if status.Failed? { return true; }
      var done := ExtractEntry(disk, root, stream.entries[i]);
      if !done {
        assert BrokeOff(start, disk.fs, root, all, i);
        return true;
      }
      assert all[..i + 1] == all[..i] + [all[i]];
    }
    assert BrokeOff(start, disk.fs, root, all, |all|);
    if !stream.clean { return true; }
    err := tee.Drain();
    if err { return true; }
    err := src.hash(tee.hashed) != p.sha256;
  }

  lemma RootIsNotEmpty(fs: FileSystem, root: Path)
    requires Rooted(fs, root)
    ensures root != []
  {
  }

  lemma PartialStaysRooted(fs: FileSystem, left: FileSystem, root: Path, places: set<Path>)
    requires Rooted(fs, root) && Partial(fs, left, places)
    ensures Rooted(left, root)
  {
  }
}
