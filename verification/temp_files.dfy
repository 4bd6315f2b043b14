/** The temp files the scoring rules and the benchmark drivers write and
    remove, as a trace of file-system steps replayed in order from a
    directory holding none of them. */
module TempFiles {
  /** A rule's candidate source, the simulation the compiler builds next to
      it (`<candidate>.out`), and a driver's search configuration
      (`gemma_config_benchmark.yaml`). Their names are unique by assumption. */
  datatype TempFile = CandidateFile | ExecutableFile | ConfigFile

  /** A file written, or `if os.path.exists(f): os.remove(f)`: removing a
      file that is not there does nothing. */
  datatype FileOp = Write(file: TempFile) | RemoveIfExists(file: TempFile)

  /** The files on disk after `op` when `disk` were there before. */
  function Apply(disk: set<TempFile>, op: FileOp): set<TempFile> {
    match op
    case Write(f) => disk + {f}
    case RemoveIfExists(f) => disk - {f}
  }

  /** The files on disk after the steps `ops`. */
  function OnDisk(ops: seq<FileOp>): set<TempFile>
    decreases |ops|
  {
    if ops == [] then {} else Apply(OnDisk(ops[..|ops| - 1]), ops[|ops| - 1])
  }

  /** The steps `ops` and then `op`. */
  function Then(ops: seq<FileOp>, op: FileOp): (r: seq<FileOp>)
    ensures OnDisk(r) == Apply(OnDisk(ops), op)
    ensures forall x :: x in r <==> x in ops || x == op
  {
    assert (ops + [op])[..|ops|] == ops;
    ops + [op]
  }

  /** Step `i` writes `f` and no later step removes it. */
  predicate WrittenAndKept(ops: seq<FileOp>, f: TempFile, i: int) {
    && 0 <= i < |ops|
    && ops[i] == Write(f)
    && forall j :: i < j < |ops| ==> ops[j] != RemoveIfExists(f)
  }

  /** What is left is what was written and not removed since: a file is on
      disk exactly when some step writes it and no later step removes it. */
  lemma {:induction false} OnDiskIff(ops: seq<FileOp>, f: TempFile)
    ensures f in OnDisk(ops) <==> exists i :: WrittenAndKept(ops, f, i)
    decreases |ops|
  {
    if ops != [] {
      var n := |ops| - 1;
      var init := ops[..n];
      OnDiskIff(init, f);
      if ops[n] == Write(f) {
        assert WrittenAndKept(ops, f, n);
      } else if ops[n] == RemoveIfExists(f) {
        forall i | 0 <= i < |ops|
          ensures !WrittenAndKept(ops, f, i)
        {
          if i < n {
            assert ops[n] == RemoveIfExists(f);
          }
        }
      } else {
        assert f in OnDisk(ops) <==> f in OnDisk(init);
        if f in OnDisk(init) {
          var i :| WrittenAndKept(init, f, i);
          assert WrittenAndKept(ops, f, i);
        }
        if i :| WrittenAndKept(ops, f, i) {
          assert i < n;
          assert WrittenAndKept(init, f, i);
        }
      }
    }
  }
}
