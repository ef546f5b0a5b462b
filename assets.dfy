/**
 * Copying the static assets (`copy_files_from_dir`): every file collected
 * under the source directory is copied to the path obtained by rewriting
 * the source directory into the destination directory.
 */
module Assets {
  import opened Strings
  import opened Paths
  import opened Content
  import opened Loader

  /** One `copy_file(file, new_path)`: the file copied and where it goes. */
  datatype Copy = Copy(source: string, dest: string)

  /**
   * The destination as build.py:55 computes it: every occurrence of `src`
   * in the path is replaced by `dest`, and `Path` normalises the result.
   */
  function AssetDestAsWritten(src: string, dest: string, file: string): string
  {
    Normalize(ReplaceAll(file, src, dest))
  }

  /** The destination as intended: the leading `src` only is replaced by `dest`. */
  function AssetDest(src: string, dest: string, file: string): string
  {
    Normalize(ReplacePrefix(file, src, dest))
  }

  /** Relative plain names print as they are joined. */
  lemma NormalizeRelative(names: seq<string>)
    requires |names| >= 1 && forall n <- names :: IsName(n)
    ensures Normalize(Join(names)) == Join(names)
  {
    assert IsName(names[0]);
    JoinHead(names);
    assert PathStr(PurePath("", names)) == Join(names);
    ParsePathStr(PurePath("", names));
  }

  /**
   * A static file keeps its path relative to the source directory: with
   * `src` the static directory and `d` the build directory's name, the
   * file at `src/parts` is copied to `d/parts`, so `static/foo.txt` goes to
   * `build/foo.txt`.
   */
  lemma AssetDestOfRelativePath(src: string, d: string, parts: seq<string>)
    requires IsName(d)
    requires |parts| >= 1 && forall n <- parts :: IsName(n)
    ensures AssetDest(src, d + "/", src + Join(parts)) == d + "/" + Join(parts)
  {
    var rel := Join(parts);
    assert (src + rel)[|src|..] == rel;
    assert ReplacePrefix(src + rel, src, d + "/") == d + "/" + rel;
    var names := [d] + parts;
    assert names[1..] == parts && names[0] == d;
    assert Join(names) == d + "/" + rel;
    NormalizeRelative(names);
  }

  /**
   * Copying is reversible on the paths: the destination of a static file
   * determines the file, since the relative path is kept.
   */
  lemma AssetDestInjective(src: string, d: string, parts: seq<string>, others: seq<string>)
    requires IsName(d)
    requires |parts| >= 1 && forall n <- parts :: IsName(n)
    requires |others| >= 1 && forall n <- others :: IsName(n)
    requires AssetDest(src, d + "/", src + Join(parts)) == AssetDest(src, d + "/", src + Join(others))
    ensures parts == others
  {
    AssetDestOfRelativePath(src, d, parts);
    AssetDestOfRelativePath(src, d, others);
    var a, b := Join(parts), Join(others);
    assert a == (d + "/" + a)[|d| + 1..];
    assert b == (d + "/" + b)[|d| + 1..];
    ComponentsOfJoin(parts);
    ComponentsOfJoin(others);
  }

  /** Where `src` does not recur after the leading one, both rewritings agree. */
  lemma AssetDestAsWrittenAgrees(src: string, dest: string, file: string)
    requires src != [] && src <= file
    requires !Occurs(src, file[|src|..])
    ensures AssetDestAsWritten(src, dest, file) == AssetDest(src, dest, file)
  {
    ReplaceAllIsReplacePrefix(file, src, dest);
  }

  /** The copies `copy_files_from_dir` makes of `files`, in order. */
  function CopyPlan(src: string, dest: string, files: seq<string>): (plan: seq<Copy>)
    ensures |plan| == |files|
  {
    seq(|files|, i requires 0 <= i < |files| => Copy(files[i], AssetDest(src, dest, files[i])))
  }

  /** A prefix one longer is the prefix and the next element. */
  lemma PrefixStep<T>(s: seq<T>, i: nat)
    requires i < |s|
    ensures s[..i + 1] == s[..i] + [s[i]]
  {
  }

  /**
   * `copy_files_from_dir`: for every file collected under `src`, in
   * collection order, one copy to its rewritten destination.
   */
  method CopyFilesFromDir(src: string, dest: string, walk: Walk) returns (copies: seq<Copy>)
    ensures copies == CopyPlan(src, dest, Collected(walk))
  {
    var files := CollectFiles(walk);
    ghost var plan := CopyPlan(src, dest, files);
    copies := [];
    var i := 0;
    while i < |files|
      invariant 0 <= i <= |files|
      invariant copies == plan[..i]
    {
      var file := files[i];
      var newPath := AssetDest(src, dest, file);
      PrefixStep(plan, i);
      assert plan[i] == Copy(file, newPath);
      copies := copies + [Copy(file, newPath)];
      i := i + 1;
    }
    assert plan[..i] == plan;
  }
}
