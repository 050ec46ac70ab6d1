/** The directories the loader reads and rearranges: each a map from file name to file. */
module Files {
  import opened Base

  /** A text file, as the lines that iterating over it in text mode yields, each without its `\n`. */
  datatype File = File(lines: seq<string>)

  type Dir = map<string, File>

  /** Directory path (such as "data/hold") to the files directly inside it. */
  type FileSystem = map<string, Dir>

  /** The directories the loader works in. */
  const DataDir: string := "data"
  const DataHoldDir: string := "data/hold"
  const DataProcessedDir: string := "data/processed"
  const SpecDir: string := "specs"
  const SpecHoldDir: string := "specs/hold"

  function PathOf(dir: string, name: string): string {
    dir + "/" + name
  }

  predicate IsFile(fs: FileSystem, dir: string, name: string) {
    dir in fs && name in fs[dir]
  }

  function Lookup(fs: FileSystem, dir: string, name: string): Option<File> {
    if IsFile(fs, dir, name) then Some(fs[dir][name]) else None
  }

  /** `os.replace(src/name, dst/name)`: the file changes directory, replacing any file of that name there. */
  function Replace(fs: FileSystem, src: string, dst: string, name: string): Result<FileSystem, Error> {
    if !IsFile(fs, src, name) then Failure(FileNotFound(PathOf(src, name)))
    else if dst !in fs then Failure(FileNotFound(PathOf(dst, name)))
    else if src == dst then Success(fs)
    else Success(fs[src := fs[src] - {name}][dst := fs[dst][name := fs[src][name]]])
  }

  /** The move succeeds exactly when the file exists and so does the target directory; then the file is in the
      target with its content, gone from the source, and nothing else changed. */
  lemma ReplaceEffect(fs: FileSystem, src: string, dst: string, name: string)
    ensures var r := Replace(fs, src, dst, name);
      && (r.Success? <==> IsFile(fs, src, name) && dst in fs)
      && (r.Success? ==> r.value.Keys == fs.Keys)
      && (r.Success? ==> Lookup(r.value, dst, name) == Lookup(fs, src, name))
      && (r.Success? && src != dst ==> Lookup(r.value, src, name) == None)
      && (r.Success? ==> forall d, n :: (n != name || (d != src && d != dst)) ==> Lookup(r.value, d, n) == Lookup(fs, d, n))
  {
  }

  /** What moving a list of files did: the directories after it, one log line per file moved, the exception that stopped it. */
  datatype MoveTrace = MoveTrace(fs: FileSystem, log: seq<string>, error: Option<Error>)

  function MovedLine(dst: string, name: string): string {
    " - " + PathOf(dst, name)
  }

  /** The first `k` of `files` moved one by one from `src` to `dst`, each logged, until one cannot be moved. */
  function MoveUpTo(fs: FileSystem, src: string, dst: string, files: seq<string>, k: nat): MoveTrace
    requires k <= |files|
    decreases k
  {
    if k == 0 then MoveTrace(fs, [], None)
    else
      var prev := MoveUpTo(fs, src, dst, files, k - 1);
      if prev.error.Some? then prev
      else match Replace(prev.fs, src, dst, files[k - 1])
        case Failure(e) => MoveTrace(prev.fs, prev.log, Some(e))
        case Success(fs1) => MoveTrace(fs1, prev.log + [MovedLine(dst, files[k - 1])], None)
  }

  function MoveAll(fs: FileSystem, src: string, dst: string, files: seq<string>): MoveTrace {
    MoveUpTo(fs, src, dst, files, |files|)
  }

  /** Once a file cannot be moved, the later ones are not touched. */
  lemma {:induction false} MoveAbort(fs: FileSystem, src: string, dst: string, files: seq<string>, k: nat, n: nat)
    requires k <= n <= |files| && MoveUpTo(fs, src, dst, files, k).error.Some?
    ensures MoveUpTo(fs, src, dst, files, n) == MoveUpTo(fs, src, dst, files, k)
    decreases n - k
  {
    if n > k {
      MoveAbort(fs, src, dst, files, k, n - 1);
    }
  }

  /** The log names, in order, the files moved before the first failure, and all of them when nothing failed. */
  lemma {:induction false} MoveUpToLog(fs: FileSystem, src: string, dst: string, files: seq<string>, k: nat)
    requires k <= |files|
    ensures var t := MoveUpTo(fs, src, dst, files, k);
      && |t.log| <= k
      && (forall i :: 0 <= i < |t.log| ==> t.log[i] == MovedLine(dst, files[i]))
      && (t.error.None? <==> |t.log| == k)
    decreases k
  {
    if k > 0 {
      MoveUpToLog(fs, src, dst, files, k - 1);
    }
  }

  /** Every file is present in the source and named once, and the target directory exists. */
  predicate Movable(fs: FileSystem, src: string, dst: string, files: seq<string>) {
    && src != dst && dst in fs && Distinct(files)
    && forall i :: 0 <= i < |files| ==> IsFile(fs, src, files[i])
  }

  /** Where every file ends up: each of the first `k` files is in the target with its old content and gone from
      the source; every other entry of every directory is as it was. */
  lemma {:induction false} MoveUpToEffect(fs: FileSystem, src: string, dst: string, files: seq<string>, k: nat)
    requires k <= |files| && Movable(fs, src, dst, files)
    ensures var t := MoveUpTo(fs, src, dst, files, k);
      && t.error.None?
      && t.fs.Keys == fs.Keys
      && forall d, n :: Lookup(t.fs, d, n) ==
           if d == dst && n in files[..k] then Lookup(fs, src, n)
           else if d == src && n in files[..k] then None
           else Lookup(fs, d, n)
    decreases k
  {
    if k > 0 {
      MoveUpToEffect(fs, src, dst, files, k - 1);
      var prev := MoveUpTo(fs, src, dst, files, k - 1);
      var name := files[k - 1];
      var init := files[..k - 1];
      assert name !in init by {
        forall i | 0 <= i < |init| ensures init[i] != name {
          assert init[i] == files[i];
        }
      }
      assert Lookup(prev.fs, src, name) == Lookup(fs, src, name);
      ReplaceEffect(prev.fs, src, dst, name);
      assert forall n :: n in files[..k] <==> n in files[..k - 1] || n == name by {
        assert files[..k] == files[..k - 1] + [name];
      }
    }
  }

  /** `fs1` is `fs` with exactly the files `names` moved from `src` to `dst`. */
  ghost predicate Relocated(fs: FileSystem, src: string, dst: string, names: seq<string>, fs1: FileSystem) {
    && fs1.Keys == fs.Keys
    && forall d, n :: Lookup(fs1, d, n) ==
         if d == dst && n in names then Lookup(fs, src, n)
         else if d == src && n in names then None
         else Lookup(fs, d, n)
  }

  /** Moving the whole list under those conditions succeeds and relocates exactly the listed files. */
  lemma MoveAllEffect(fs: FileSystem, src: string, dst: string, files: seq<string>)
    requires Movable(fs, src, dst, files)
    ensures var t := MoveAll(fs, src, dst, files);
      t.error.None? && Relocated(fs, src, dst, files, t.fs) && |t.log| == |files|
      && forall i :: 0 <= i < |files| ==> t.log[i] == MovedLine(dst, files[i])
  {
    MoveUpToEffect(fs, src, dst, files, |files|);
    MoveUpToLog(fs, src, dst, files, |files|);
    assert files[..|files|] == files;
  }

  /** Two relocations between four different directories, one after the other: each file ends where its own
      move put it, and every other entry is as it was. */
  lemma RelocatedThen(fs: FileSystem, src1: string, dst1: string, a: seq<string>, mid: FileSystem,
                      src2: string, dst2: string, b: seq<string>, fs2: FileSystem)
    requires Relocated(fs, src1, dst1, a, mid) && Relocated(mid, src2, dst2, b, fs2)
    requires src1 != src2 && src1 != dst2 && dst1 != src2 && dst1 != dst2
    ensures fs2.Keys == fs.Keys
    ensures forall d, n :: Lookup(fs2, d, n) ==
                if d == dst2 && n in b then Lookup(fs, src2, n)
                else if d == src2 && n in b then None
                else if d == dst1 && n in a then Lookup(fs, src1, n)
                else if d == src1 && n in a then None
                else Lookup(fs, d, n)
  {
  }
}
