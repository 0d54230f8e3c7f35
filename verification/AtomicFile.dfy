/** The file backend's writer: a temp file beside the destination, renamed on Close. */
module AtomicFiles {
  import opened Basics
  import WriterContract

  /** The files of a backend's root, by path. */
  class Directory {
    var files: map<string, Bytes>

    constructor ()
      ensures files == map[]
    {
      files := map[];
    }
  }

  class AtomicFile {
    const dir: Directory
    const tmp: string
    const finalPath: string
    var done: bool
    ghost var written: Bytes

    ghost function Contract(): WriterContract.Handle
      reads this, dir
    {
      WriterContract.Handle(written, done,
                            if finalPath in dir.files then Some(dir.files[finalPath]) else None)
    }

    ghost predicate Valid()
      reads this, dir
    {
      tmp != finalPath && (!done ==> tmp in dir.files && dir.files[tmp] == written)
    }

    /** os.CreateTemp made `tmp`, a name that was not in use. */
    constructor (dir: Directory, tmp: string, finalPath: string)
      requires tmp !in dir.files && tmp != finalPath
      modifies dir
      ensures Valid() && this.dir == dir && this.tmp == tmp && this.finalPath == finalPath
      ensures Contract() == WriterContract.Handle([], false, Contract().visible)
      ensures dir.files == old(dir.files)[tmp := []]
    {
      this.dir, this.tmp, this.finalPath := dir, tmp, finalPath;
      done, written := false, [];
      new;
      dir.files := dir.files[tmp := []];
    }

    /** A write that fails may have stored a prefix. */
    method Write(p: Bytes) returns (n: nat, err: bool)
      requires Valid() && !done
      modifies this`written, dir
      ensures Valid() && !done && n <= |p| && (err <==> n < |p|)
      ensures dir.files == old(dir.files)[tmp := old(written) + p[..n]]
      ensures WriterContract.Allowed(old(Contract()), WriterContract.Write(p, !err), Contract())
    {
      n :| 0 <= n <= |p|;
      err := n < |p|;
      written := written + p[..n];
      dir.files := dir.files[tmp := dir.files[tmp] + p[..n]];
    }

    /** os.Remove, whose failure is ignored. */
    method RemoveTemp()
      modifies dir
      ensures dir.files == old(dir.files) || dir.files == old(dir.files) - {tmp}
    {
      var removed: bool := *;
      if removed { dir.files := dir.files - {tmp}; }
    }

    method Close() returns (err: bool)
      requires Valid()
      modifies this`done, dir
      ensures Valid() && done
      ensures WriterContract.Allowed(old(Contract()), WriterContract.Close(!err), Contract())
      ensures !old(done) && !err ==> dir.files == (old(dir.files) - {tmp})[finalPath := written]
      ensures old(done) ==> dir.files == old(dir.files)
      ensures forall f | f != tmp && f != finalPath ::
                f in dir.files <==> f in old(dir.files)
      ensures forall f | f != tmp && f != finalPath && f in dir.files :: dir.files[f] == old(dir.files)[f]
    {
      if done { return false; }
      done := true;
      var closed: bool, renamed: bool := *, *;
      if !closed || !renamed {
        RemoveTemp();
        return true;
      }
      dir.files := (dir.files - {tmp})[finalPath := dir.files[tmp]];
      return false;
    }

    method Abort()
      requires Valid()
      modifies this`done, dir
      ensures Valid() && done
      ensures WriterContract.Allowed(old(Contract()), WriterContract.Abort, Contract())
      ensures dir.files == old(dir.files) || (!old(done) && dir.files == old(dir.files) - {tmp})
    {
      if done { return; }
      done := true;
      RemoveTemp();
    }
  }
}
