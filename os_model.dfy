/**
 * The part of the operating system the poller touches: a tree of directories
 * holding named files. Paths are sequences of components below the process's
 * working directory, which is the empty path. The calls the source makes
 * (`os.path.exists`, `os.mkdir`, `os.listdir`, `open` for reading and for
 * writing, `os.remove`) are functions from a tree to a new tree or an error;
 * the class FileSystem holds the tree that the program changes in place.
 */
module Os {
  import opened Wrappers

  type Path = seq<string>

  function Parent(p: Path): Path
    requires p != []
  {
    p[..|p| - 1]
  }

  function Base(p: Path): string
    requires p != []
  {
    p[|p| - 1]
  }

  /** The call that raised, and the path it was given. */
  datatype Call = Mkdir | Listdir | Open | Remove
  datatype OsError = OsError(call: Call, path: Path)

  function Elements<T>(s: seq<T>): set<T> {
    set x | x in s
  }

  predicate NoDuplicates<T(==)>(s: seq<T>) {
    forall i, j | 0 <= i < j < |s| :: s[i] != s[j]
  }

  /** Directories, and for each directory the files directly inside it with their contents. */
  datatype Tree<P> = Tree(dirs: set<Path>, files: map<Path, map<string, P>>) {

    /**
     * The working directory exists, every directory has a file table, every
     * other directory sits in a directory, and no name is both a file and a
     * directory.
     */
    ghost predicate Valid() {
      && [] in dirs
      && files.Keys == dirs
      && forall p {:trigger Parent(p)} | p in dirs && p != [] :: Parent(p) in dirs && Base(p) !in files[Parent(p)]
    }

    predicate IsDir(p: Path) {
      p in dirs
    }

    predicate IsFile(p: Path) {
      p != [] && Parent(p) in files && Base(p) in files[Parent(p)]
    }

    /** `os.path.exists`. */
    predicate Exists(p: Path) {
      IsDir(p) || IsFile(p)
    }

    /** Names of the directories directly inside d. */
    function SubdirNames(d: Path): set<string> {
      set q | q in dirs && |q| == |d| + 1 && q[..|d|] == d :: q[|d|]
    }

    /** Every name directly inside d, as `os.listdir(d)` lists it (in some order). */
    function Entries(d: Path): set<string>
      requires d in files
    {
      files[d].Keys + SubdirNames(d)
    }

    /** `os.mkdir(p)`: fails when p exists or its parent is not a directory. */
    function MkDir(p: Path): Result<Tree<P>, OsError> {
      if p == [] || Exists(p) || !IsDir(Parent(p)) then Err(OsError(Mkdir, p))
      else Ok(Tree(dirs + {p}, files[p := map[]]))
    }

    /** `open(d/name, "wb")` and writing x: creates or overwrites the file; fails on a directory. */
    function Write(d: Path, name: string, x: P): Result<Tree<P>, OsError> {
      if d !in files || d + [name] in dirs then Err(OsError(Open, d + [name]))
      else Ok(Tree(dirs, files[d := files[d][name := x]]))
    }

    /** `open(d/name)` and reading its content: fails unless d/name is a file. */
    function Read(d: Path, name: string): Result<P, OsError> {
      if d in files && name in files[d] then Ok(files[d][name]) else Err(OsError(Open, d + [name]))
    }

    /** `os.remove(d/name)`: deletes a file; fails on a directory or a missing name. */
    function Delete(d: Path, name: string): Result<Tree<P>, OsError> {
      if d in files && name in files[d] then Ok(Tree(dirs, files[d := files[d] - {name}]))
      else Err(OsError(Remove, d + [name]))
    }

    /** Adds the given directories, each empty. */
    function WithDirs(added: set<Path>): Tree<P> {
      Tree(dirs + added, files + map q | q in added :: map[])
    }
  }

  lemma SubdirName<P>(t: Tree<P>, d: Path, n: string)
    ensures n in t.SubdirNames(d) <==> d + [n] in t.dirs
  {
    if n in t.SubdirNames(d) {
      var q :| q in t.dirs && |q| == |d| + 1 && q[..|d|] == d && q[|d|] == n;
      assert q == d + [n];
    }
    if d + [n] in t.dirs {
      assert (d + [n])[..|d|] == d;
    }
  }

  lemma MkDirKeepsValid<P>(t: Tree<P>, p: Path)
    requires t.Valid()
    ensures t.MkDir(p).Ok? ==> t.MkDir(p).value.Valid()
    ensures t.MkDir(p).Ok? <==> !t.Exists(p) && p != [] && t.IsDir(Parent(p))
  {
    if t.MkDir(p).Ok? {
      var u := t.MkDir(p).value;
      forall q | q in u.dirs && q != []
        ensures Parent(q) in u.dirs && Base(q) !in u.files[Parent(q)]
      {
        if q != p {
          assert Parent(q) != p;
        }
      }
    }
  }

  lemma WriteKeepsValid<P>(t: Tree<P>, d: Path, name: string, x: P)
    requires t.Valid()
    ensures t.Write(d, name, x).Ok? <==> d in t.dirs && d + [name] !in t.dirs
    ensures t.Write(d, name, x).Ok? ==> t.Write(d, name, x).value.Valid()
  {
    forall q | q in t.dirs && q != []
      ensures q == Parent(q) + [Base(q)]
    {
    }
  }

  lemma DeleteKeepsValid<P>(t: Tree<P>, d: Path, name: string)
    requires t.Valid()
    ensures t.Delete(d, name).Ok? ==> t.Delete(d, name).value.Valid()
  {
  }

  /** Reading back a file just written yields what was written; nothing else changes. */
  lemma ReadAfterWrite<P>(t: Tree<P>, d: Path, name: string, x: P, other: string)
    requires t.Write(d, name, x).Ok?
    ensures t.Write(d, name, x).value.Read(d, name) == Ok(x)
    ensures other != name ==> t.Write(d, name, x).value.Read(d, other) == t.Read(d, other)
  {
  }

  class FileSystem<P> {
    var tree: Tree<P>

    constructor (t: Tree<P>)
      ensures tree == t
    {
      tree := t;
    }

    /**
     * `os.listdir(d)`: every entry of d exactly once, in an order the
     * operating system chooses; fails unless d is a directory.
     */
    method ListDir(d: Path) returns (r: Result<seq<string>, OsError>)
      requires tree.Valid()
      ensures d !in tree.dirs ==> r == Err(OsError(Listdir, d))
      ensures d in tree.dirs ==> r.Ok? && Elements(r.value) == tree.Entries(d) && NoDuplicates(r.value)
    {
      if d !in tree.dirs {
        return Err(OsError(Listdir, d));
      }
      var rest := tree.Entries(d);
      var listing := [];
      while rest != {}
        invariant Elements(listing) + rest == tree.Entries(d)
        invariant Elements(listing) !! rest
        invariant NoDuplicates(listing)
        decreases rest
      {
        var name :| name in rest;
        listing := listing + [name];
        rest := rest - {name};
      }
      return Ok(listing);
    }
  }
}
