/** The file selection of format_all.py (`python_files`): a top-down walk
    of a directory tree that does not descend into ".git", "__pycache__",
    "venv" or ".venv" and yields the paths of the files whose name ends in
    ".py". The tree is a value; listing order is the order of its sequences. */
module FormatAll {
  import opened Text

  datatype Dir = Dir(name: string, files: seq<string>, subdirs: seq<Dir>)

  const Ignored: seq<string> := [".git", "__pycache__", "venv", ".venv"]

  /** `os.path.join(a, b)` for a name `b` without separators. */
  function Join(a: string, b: string): string
  {
    if a == [] then b else if EndsWith(a, "/") then a + b else a + "/" + b
  }

  /** `f.endswith(".py")`. */
  predicate IsPython(f: string)
  {
    EndsWith(f, ".py")
  }

  /** The paths yielded for the files listed directly in the directory at `cur`. */
  function PyIn(cur: string, files: seq<string>): (r: seq<string>)
    ensures forall p :: p in r <==> exists f :: f in files && IsPython(f) && p == Join(cur, f)
    ensures forall p :: p in r ==> IsPython(p)
  {
    if files == [] then []
    else
      var rest := PyIn(cur, files[1..]);
      JoinKeepsSuffix(cur, files[0]);
      assert forall f :: f in files <==> f == files[0] || f in files[1..];
      (if IsPython(files[0]) then [Join(cur, files[0])] else []) + rest
  }

  /** `python_files(cur)` on the directory `d` at path `cur`. */
  function Walk(cur: string, d: Dir): (r: seq<string>)
    ensures forall p :: p in r ==> IsPython(p)
    decreases d, 1
  {
    PyIn(cur, d.files) + WalkFrom(cur, d, 0)
  }

  /** The subdirectories of `d` from index `i` on, those kept by the
      `dirs[:] = ...` filter walked in order. */
  function WalkFrom(cur: string, d: Dir, i: nat): (r: seq<string>)
    requires i <= |d.subdirs|
    ensures forall p :: p in r ==> IsPython(p)
    decreases d, 0, |d.subdirs| - i
  {
    if i == |d.subdirs| then []
    else
      var c := d.subdirs[i];
      (if c.name in Ignored then [] else Walk(Join(cur, c.name), c)) + WalkFrom(cur, d, i + 1)
  }

  /** `python_files(".")`. */
  function PythonFiles(root: Dir): (r: seq<string>)
    ensures forall p :: p in r ==> IsPython(p)
  {
    Walk(".", root)
  }

  /** A path is reached from `cur` when it names a ".py" file of `d`, or is
      reached inside a subdirectory whose name is not ignored. */
  predicate Reaches(cur: string, d: Dir, p: string)
    decreases d
  {
    || (exists f :: f in d.files && IsPython(f) && p == Join(cur, f))
    || (exists k :: 0 <= k < |d.subdirs| && d.subdirs[k].name !in Ignored
                    && Reaches(Join(cur, d.subdirs[k].name), d.subdirs[k], p))
  }

  lemma {:induction false} WalkReaches(cur: string, d: Dir, p: string)
    ensures p in Walk(cur, d) <==> Reaches(cur, d, p)
    decreases d, 1
  {
    if p in WalkFrom(cur, d, 0) {
      var k := WalkFromFind(cur, d, 0, p);
      assert d.subdirs[k].name !in Ignored && Reaches(Join(cur, d.subdirs[k].name), d.subdirs[k], p);
    }
    if exists k :: 0 <= k < |d.subdirs| && d.subdirs[k].name !in Ignored
                   && Reaches(Join(cur, d.subdirs[k].name), d.subdirs[k], p) {
      var k :| 0 <= k < |d.subdirs| && d.subdirs[k].name !in Ignored
               && Reaches(Join(cur, d.subdirs[k].name), d.subdirs[k], p);
      assert ReachesIn(cur, d, k, p);
      WalkFromHas(cur, d, 0, k, p);
    }
  }

  /** Path `p` is reached inside kept subdirectory number `k` of `d`. */
  predicate ReachesIn(cur: string, d: Dir, k: int, p: string)
    requires 0 <= k < |d.subdirs|
    decreases d, 0
  {
    d.subdirs[k].name !in Ignored && Reaches(Join(cur, d.subdirs[k].name), d.subdirs[k], p)
  }

  /** A path the walk yields from subdirectory `i` on comes from a kept
      subdirectory `k >= i` that reaches it. */
  lemma {:induction false} WalkFromFind(cur: string, d: Dir, i: nat, p: string) returns (k: nat)
    requires i <= |d.subdirs| && p in WalkFrom(cur, d, i)
    ensures i <= k < |d.subdirs| && ReachesIn(cur, d, k, p)
    decreases d, 0, |d.subdirs| - i
  {
    var c := d.subdirs[i];
    var here := if c.name in Ignored then [] else Walk(Join(cur, c.name), c);
    assert WalkFrom(cur, d, i) == here + WalkFrom(cur, d, i + 1);
    if p in here {
      WalkReaches(Join(cur, c.name), c, p);
      k := i;
    } else {
      k := WalkFromFind(cur, d, i + 1, p);
    }
  }

  /** Conversely, what kept subdirectory `k >= i` reaches is yielded from
      subdirectory `i` on. */
  lemma {:induction false} WalkFromHas(cur: string, d: Dir, i: nat, k: nat, p: string)
    requires i <= k < |d.subdirs| && ReachesIn(cur, d, k, p)
    ensures p in WalkFrom(cur, d, i)
    decreases d, 0, |d.subdirs| - i
  {
    var c := d.subdirs[i];
    var here := if c.name in Ignored then [] else Walk(Join(cur, c.name), c);
    assert WalkFrom(cur, d, i) == here + WalkFrom(cur, d, i + 1);
    if k == i {
      WalkReaches(Join(cur, c.name), c, p);
      assert p in here;
    } else {
      WalkFromHas(cur, d, i + 1, k, p);
    }
  }

  /** Every path `python_files` yields names a ".py" file. */
  lemma {:induction false} WalkOnlyPython(cur: string, d: Dir, p: string)
    requires Reaches(cur, d, p)
    ensures IsPython(p)
    decreases d
  {
    if exists f :: f in d.files && IsPython(f) && p == Join(cur, f) {
      var f :| f in d.files && IsPython(f) && p == Join(cur, f);
      JoinKeepsSuffix(cur, f);
    } else {
      var k :| 0 <= k < |d.subdirs| && d.subdirs[k].name !in Ignored
               && Reaches(Join(cur, d.subdirs[k].name), d.subdirs[k], p);
      WalkOnlyPython(Join(cur, d.subdirs[k].name), d.subdirs[k], p);
    }
  }

  lemma JoinKeepsSuffix(a: string, f: string)
    ensures IsPython(f) ==> IsPython(Join(a, f))
  {
    if IsPython(f) {
      var j := Join(a, f);
      assert j == (if a == [] then [] else if EndsWith(a, "/") then a else a + "/") + f;
      assert j[|j| - 3..] == f[|f| - 3..];
    }
  }

  /** `python_files` yields exactly the ".py" files outside the ignored
      directories, and nothing that is not a ".py" path. */
  lemma PythonFilesSpec(root: Dir)
    ensures forall p :: p in PythonFiles(root) <==> Reaches(".", root, p)
    ensures forall p :: p in PythonFiles(root) ==> IsPython(p)
  {
    forall p ensures p in PythonFiles(root) <==> Reaches(".", root, p) {
      WalkReaches(".", root, p);
    }
    forall p | p in PythonFiles(root) ensures IsPython(p) {
      WalkOnlyPython(".", root, p);
    }
  }

  /** Nothing under an ignored directory is yielded: a subdirectory named
      ".git", "__pycache__", "venv" or ".venv" contributes no path. */
  lemma IgnoredPruned(cur: string, d: Dir, i: nat)
    requires i < |d.subdirs| && d.subdirs[i].name in Ignored
    ensures WalkFrom(cur, d, i) == WalkFrom(cur, d, i + 1)
  {
  }
}
