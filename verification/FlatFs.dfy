/** The in-memory filesystem seen from outside: a map from paths to folders and
    files, behind one mutex. */
module FlatFs {
  import opened Text
  import opened FilesystemUtils

  datatype Entry = Folder | File(data: string)

  /** A list of components, last one outermost. */
  datatype Path = Root | Sub(parent: Path, name: string)

  type Tree = map<Path, Entry>

  /** How a call ends: 0, -1, waiting for a mutex that nobody will release, or
      in undefined behaviour (`back()` on no components, a null node). */
  datatype Status = Ok | Failed | Blocked | Undefined

  datatype Fs = Fs(tree: Tree, coarse: bool, held: bool)

  const EMPTY_TREE: Tree := map[Root := Folder]

  function PathOf(tokens: seq<string>): Path
  {
    if tokens == [] then Root else Sub(PathOf(tokens[..|tokens| - 1]), tokens[|tokens| - 1])
  }

  /** `q` is `p` or lies below it. */
  predicate Under(p: Path, q: Path)
  {
    q == p || (q.Sub? && Under(p, q.parent))
  }

  function Ancestors(q: Path): set<Path>
  {
    {q} + if q.Root? then {} else Ancestors(q.parent)
  }

  predicate IsFolder(t: Tree, p: Path)
  {
    p in t && t[p] == Folder
  }

  predicate InFolder(t: Tree, p: Path)
  {
    p.Sub? && IsFolder(t, p.parent)
  }

  ghost predicate WellFormed(t: Tree)
  {
    && IsFolder(t, Root)
    && forall p {:trigger InFolder(t, p)} | p in t && p.Sub? :: InFolder(t, p)
  }

  // ---- walking and making folders ----

  /** The node the walk to `q` reaches before the first missing component. */
  function Base(t: Tree, q: Path): Path
  {
    if q in t || q.Root? then q else Base(t, q.parent)
  }

  datatype Walk = Found | Missing | Made | NullNode

  /** `getTreeNode` on the parent components: a missing component ends the walk
      or, with `dirs`, is made below a folder.  Below a file nothing can be made:
      the walk yields null, and going on from null is undefined. */
  function WalkTo(t: Tree, q: Path, dirs: bool): Walk
  {
    if q in t then Found
    else if !dirs then Missing
    else if IsFolder(t, Base(t, q)) then Made
    else if q.Sub? && q.parent in t then Missing
    else NullNode
  }

  function MakeFolders(t: Tree, q: Path): Tree
  {
    map p | p in t.Keys + Ancestors(q) :: if p in t then t[p] else Folder
  }

  // ---- operations on component lists ----

  function CreateAt(t: Tree, p: Path, folder: bool, dirs: bool): (Status, Tree)
  {
    if p == Root then (Undefined, t)
    else
      var entry := if folder then Folder else File("");
      match WalkTo(t, p.parent, dirs)
      case Found => if p in t || !IsFolder(t, p.parent) then (Failed, t) else (Ok, t[p := entry])
      case Made => (Ok, MakeFolders(t, p.parent)[p := entry])
      case Missing => (Failed, t)
      case NullNode => (Undefined, t)
  }

  function WriteAt(t: Tree, p: Path, data: string, dirs: bool, overwrite: bool): (Status, Tree)
  {
    if p == Root then (Undefined, t)
    else
      match WalkTo(t, p.parent, dirs)
      case Found =>
        if p in t then
          (match t[p]
           case Folder => (Failed, t)
           case File(d) => (Ok, t[p := File(if overwrite then data else d + data)]))
        else if IsFolder(t, p.parent) then (Ok, t[p := File(data)])
        else (Failed, t)
      case Made => (Ok, MakeFolders(t, p.parent)[p := File(data)])
      case Missing => (Failed, t)
      case NullNode => (Undefined, t)
  }

  function RemoveAt(t: Tree, p: Path): (Status, Tree)
  {
    if p == Root then (Undefined, t)
    else if p in t then (Ok, map q | q in t && !Under(p, q) :: t[q])
    else (Failed, t)
  }

  // ---- operations on path strings, with the mutex ----

  function FilePath(file: string): Path
  {
    PathOf(SplitFilepath(file))
  }

  /** An operation that takes the mutex: it waits if the mutex is held, and on
      `""` it returns without releasing it. */
  function Guarded(fs: Fs, file: string, op: (Status, Tree)): (Status, Fs)
  {
    if fs.coarse && fs.held then (Blocked, fs)
    else if file == "" then (Failed, fs.(held := fs.coarse || fs.held))
    else if op.0 == Undefined then (Undefined, fs.(held := fs.coarse || fs.held))
    else (op.0, fs.(tree := op.1))
  }

  function Create(fs: Fs, file: string, folder: bool, dirs: bool): (Status, Fs)
  {
    Guarded(fs, file, CreateAt(fs.tree, FilePath(file), folder, dirs))
  }

  function Write(fs: Fs, file: string, data: string, dirs: bool, overwrite: bool): (Status, Fs)
  {
    Guarded(fs, file, WriteAt(fs.tree, FilePath(file), data, dirs, overwrite))
  }

  function Remove(fs: Fs, file: string): (Status, Fs)
  {
    Guarded(fs, file, RemoveAt(fs.tree, FilePath(file)))
  }

  predicate Exists(fs: Fs, file: string)
  {
    FilePath(file) in fs.tree
  }

  /** The offset is compared as an unsigned number, so a negative one is beyond
      every end. */
  function Read(fs: Fs, file: string, offset: int): Option<string>
  {
    var p := FilePath(file);
    if p in fs.tree && fs.tree[p].File? && 0 <= offset <= |fs.tree[p].data|
    then Some(fs.tree[p].data[offset..]) else None
  }

  // ---- what the operations keep and what they do ----

  /** Every ancestor of an existing path exists, as a folder. */
  lemma {:induction false} AncestorsExist(t: Tree, p: Path)
    requires WellFormed(t) && p in t
    ensures Ancestors(p) <= t.Keys
    ensures forall q | q in Ancestors(p) && q != p :: t[q] == Folder
    decreases p
  {
    if p.Sub? {
      assert InFolder(t, p);
      AncestorsExist(t, p.parent);
    }
  }

  lemma {:induction false} UnderIsAncestor(p: Path, q: Path)
    ensures Under(p, q) <==> p in Ancestors(q)
    decreases q
  {
    if q.Sub? {
      UnderIsAncestor(p, q.parent);
    }
  }

  /** Nothing lives below a missing path or below a file. */
  lemma NothingBelow(t: Tree, q: Path)
    requires WellFormed(t) && !IsFolder(t, q)
    ensures forall p | p in t && Under(q, p) :: p == q
  {
    forall p | p in t && Under(q, p) ensures p == q {
      UnderIsAncestor(q, p);
      AncestorsExist(t, p);
    }
  }

  lemma {:induction false} BaseExists(t: Tree, q: Path)
    requires WellFormed(t)
    ensures Base(t, q) in t && Base(t, q) in Ancestors(q)
    ensures forall p | p in Ancestors(q) && p in t :: p in Ancestors(Base(t, q))
    decreases q
  {
    if q !in t {
      BaseExists(t, q.parent);
    }
  }

  lemma {:induction false} AncestorsClosed(q: Path)
    ensures forall p | p in Ancestors(q) && p.Sub? :: p.parent in Ancestors(q)
    ensures q in Ancestors(q)
    decreases q
  {
    if q.Sub? {
      AncestorsClosed(q.parent);
    }
  }

  lemma {:induction false} NotBelowItself(q: Path, c: string)
    ensures Sub(q, c) !in Ancestors(q)
    decreases q
  {
    if q.Sub? {
      UnderIsAncestor(Sub(q, c), q.parent);
      UnderIsAncestor(q, q.parent);
      if Sub(q, c) in Ancestors(q.parent) {
        AncestorsClosed(q.parent);
        NotBelowItself(q.parent, q.name);
      }
    }
  }

  lemma MakeFoldersKeeps(t: Tree, q: Path)
    requires WellFormed(t) && WalkTo(t, q, true) == Made
    ensures WellFormed(MakeFolders(t, q))
    ensures IsFolder(MakeFolders(t, q), q)
  {
    BaseExists(t, q);
    AncestorsClosed(q);
    AncestorsExist(t, Base(t, q));
    var m := MakeFolders(t, q);
    assert forall p | p in Ancestors(q) :: IsFolder(m, p);
    forall p | p in m && p.Sub? ensures InFolder(m, p) {
      assert p in t ==> InFolder(t, p);
    }
  }

  lemma AddKeepsTree(t: Tree, p: Path, e: Entry)
    requires WellFormed(t) && InFolder(t, p)
    requires e == Folder || !IsFolder(t, p)
    ensures WellFormed(t[p := e])
  {
    var m := t[p := e];
    forall r | r in m && r.Sub? ensures InFolder(m, r) {
      assert r in t ==> InFolder(t, r);
    }
  }

  lemma CutKeepsTree(t: Tree, p: Path)
    requires WellFormed(t)
    ensures WellFormed(RemoveAt(t, p).1)
  {
    var m := RemoveAt(t, p).1;
    forall q | q in m && q.Sub? ensures InFolder(m, q) {
      assert InFolder(t, q);
    }
  }

  lemma CreateKeepsTree(t: Tree, p: Path, folder: bool, dirs: bool)
    requires WellFormed(t)
    ensures WellFormed(CreateAt(t, p, folder, dirs).1)
  {
    var (st, t') := CreateAt(t, p, folder, dirs);
    if st == Ok {
      if p.parent in t {
        AddKeepsTree(t, p, t'[p]);
      } else {
        MakeFoldersKeeps(t, p.parent);
        assert p in t ==> InFolder(t, p);
        NotBelowItself(p.parent, p.name);
        AddKeepsTree(MakeFolders(t, p.parent), p, t'[p]);
      }
    }
  }

  lemma WriteKeepsTree(t: Tree, p: Path, data: string, dirs: bool, overwrite: bool)
    requires WellFormed(t)
    ensures WellFormed(WriteAt(t, p, data, dirs, overwrite).1)
  {
    var (st, t') := WriteAt(t, p, data, dirs, overwrite);
    if st == Ok {
      assert p in t ==> InFolder(t, p);
      if p.parent in t {
        AddKeepsTree(t, p, t'[p]);
      } else {
        MakeFoldersKeeps(t, p.parent);
        NotBelowItself(p.parent, p.name);
        AddKeepsTree(MakeFolders(t, p.parent), p, t'[p]);
      }
    }
  }

  /** Every operation keeps the tree a tree, and a call that does not succeed
      leaves it exactly as it was, also when it may create directories. */
  lemma OperationsKeepTheTree(t: Tree, p: Path, folder: bool, data: string, dirs: bool, overwrite: bool)
    requires WellFormed(t)
    ensures WellFormed(CreateAt(t, p, folder, dirs).1)
    ensures WellFormed(WriteAt(t, p, data, dirs, overwrite).1)
    ensures WellFormed(RemoveAt(t, p).1)
    ensures CreateAt(t, p, folder, dirs).0 != Ok ==> CreateAt(t, p, folder, dirs).1 == t
    ensures WriteAt(t, p, data, dirs, overwrite).0 != Ok ==> WriteAt(t, p, data, dirs, overwrite).1 == t
    ensures RemoveAt(t, p).0 != Ok ==> RemoveAt(t, p).1 == t
  {
    CreateKeepsTree(t, p, folder, dirs);
    WriteKeepsTree(t, p, data, dirs, overwrite);
    CutKeepsTree(t, p);
  }

  /** When `create` ends normally it is a test-and-set: it succeeds exactly if
      the path is free and its parent is (or can be made) a folder, and then the
      new entry and the missing folders above it are all that changed. */
  lemma CreateIsTestAndSet(t: Tree, p: Path, folder: bool, dirs: bool)
    requires WellFormed(t) && p.Sub?
    ensures var (st, t') := CreateAt(t, p, folder, dirs);
            && (st == Ok <==> p !in t && (dirs || p.parent in t) && IsFolder(t, Base(t, p.parent)))
            && (st == Ok ==>
                  && t'.Keys == t.Keys + Ancestors(p)
                  && t'[p] == (if folder then Folder else File(""))
                  && (forall r | r in t :: t'[r] == t[r])
                  && (forall r | r in t' && r !in t && r != p :: t'[r] == Folder))
  {
    assert p in t ==> InFolder(t, p);
    if p.parent in t {
      AncestorsExist(t, p.parent);
    }
  }

  /** Removing what was just created in an existing folder undoes the creation. */
  lemma RemoveUndoesCreate(t: Tree, p: Path, folder: bool, dirs: bool)
    requires WellFormed(t) && p.Sub? && p.parent in t
    requires CreateAt(t, p, folder, dirs).0 == Ok
    ensures RemoveAt(CreateAt(t, p, folder, dirs).1, p) == (Ok, t)
  {
    NothingBelow(t, p);
    assert RemoveAt(CreateAt(t, p, folder, dirs).1, p).1 == t;
  }

  /** After a write the data can be read back; appending keeps the old data. */
  lemma ReadAfterWrite(t: Tree, p: Path, data: string, dirs: bool, overwrite: bool)
    requires WellFormed(t)
    requires WriteAt(t, p, data, dirs, overwrite).0 == Ok
    ensures var t' := WriteAt(t, p, data, dirs, overwrite).1;
            && (p in t ==> t[p].File?)
            && p in t'
            && t'[p] == File(if p in t && !overwrite then t[p].data + data else data)
  {
    assert p in t ==> InFolder(t, p);
  }

  /** When `write` ends normally it succeeds exactly on a file that exists, or on a
      free path whose parent is (or can be made) a folder; then that file and the
      missing folders above it are all that changed. */
  lemma WriteEffect(t: Tree, p: Path, data: string, dirs: bool, overwrite: bool)
    requires WellFormed(t) && p.Sub?
    ensures var (st, t') := WriteAt(t, p, data, dirs, overwrite);
            && (st == Ok <==> if p in t then t[p].File?
                              else (dirs || p.parent in t) && IsFolder(t, Base(t, p.parent)))
            && (st == Ok ==>
                  && t'.Keys == t.Keys + Ancestors(p)
                  && t'[p] == File(if p in t && !overwrite then t[p].data + data else data)
                  && (forall r | r in t && r != p :: t'[r] == t[r])
                  && (forall r | r in t' && r !in t && r != p :: t'[r] == Folder))
  {
    assert p in t ==> InFolder(t, p);
    if p.parent in t {
      AncestorsExist(t, p.parent);
    }
  }

  /** `remove` succeeds exactly on what exists, and then what goes is that entry and
      everything below it, also below a folder that is not empty. */
  lemma {:induction false} RemoveEffect(t: Tree, p: Path)
    requires WellFormed(t) && p.Sub?
    ensures var (st, t') := RemoveAt(t, p);
            && st == (if p in t then Ok else Failed)
            && (forall q :: q in t' <==> q in t && (p in t ==> p !in Ancestors(q)))
            && forall q | q in t' :: t'[q] == t[q]
  {
    forall q ensures Under(p, q) <==> p in Ancestors(q) {
      UnderIsAncestor(p, q);
    }
  }

  /** On a path string, the operations do this to the tree, unless they wait, die or
      have no path. */
  lemma StringOperations(fs: Fs, file: string, folder: bool, data: string, dirs: bool, overwrite: bool)
    requires !(fs.coarse && fs.held) && file != ""
    ensures var p := FilePath(file);
            && (var (st, fs') := Create(fs, file, folder, dirs);
                var (st', t) := CreateAt(fs.tree, p, folder, dirs);
                st == st' && (st != Undefined ==> fs' == Fs(t, fs.coarse, fs.held)))
            && (var (st, fs') := Write(fs, file, data, dirs, overwrite);
                var (st', t) := WriteAt(fs.tree, p, data, dirs, overwrite);
                st == st' && (st != Undefined ==> fs' == Fs(t, fs.coarse, fs.held)))
            && (var (st, fs') := Remove(fs, file);
                var (st', t) := RemoveAt(fs.tree, p);
                st == st' && (st != Undefined ==> fs' == Fs(t, fs.coarse, fs.held)))
  {
    hide FilePath, CreateAt, WriteAt, RemoveAt;
  }

  /** Reading gives the rest of an existing file from an offset within it on. */
  lemma ReadIs(fs: Fs, file: string, offset: int, data: string)
    ensures Read(fs, file, offset) == Some(data) <==>
            exists all :: FilePath(file) in fs.tree && fs.tree[FilePath(file)] == File(all)
                          && 0 <= offset <= |all| && all == all[..offset] + data
  {
    hide FilePath;
    if FilePath(file) in fs.tree && fs.tree[FilePath(file)].File? {
      var all := fs.tree[FilePath(file)].data;
      if 0 <= offset <= |all| {
        assert all == all[..offset] + all[offset..];
        assert all == all[..offset] + data ==> data == all[offset..] by {
          assert (all[..offset] + data)[offset..] == data;
        }
      }
    }
  }

  /** What was created exists, and what was removed does not. */
  lemma {:induction false} ExistsAfter(fs: Fs, file: string, folder: bool, dirs: bool)
    requires WellFormed(fs.tree)
    ensures Create(fs, file, folder, dirs).0 == Ok ==>
              !Exists(fs, file) && Exists(Create(fs, file, folder, dirs).1, file)
    ensures Remove(fs, file).0 == Ok ==> Exists(fs, file) && !Exists(Remove(fs, file).1, file)
  {
    hide FilePath, CreateAt, RemoveAt;
    var p := FilePath(file);
    if p.Sub? {
      CreateIsTestAndSet(fs.tree, p, folder, dirs);
      RemoveEffect(fs.tree, p);
      AncestorsClosed(p);
    } else {
      NothingAtRoot(fs.tree, folder, dirs);
    }
  }

  lemma NothingAtRoot(t: Tree, folder: bool, dirs: bool)
    ensures CreateAt(t, Root, folder, dirs).0 == Undefined && RemoveAt(t, Root).0 == Undefined
  {
  }

  /** The walk crosses a file with two or more components still to go. */
  ghost predicate CrossesFile(t: Tree, q: Path)
  {
    q.Sub? && exists r :: r in Ancestors(q.parent) && r != q.parent && r in t && t[r].File?
  }

  lemma WhenCreateIsUndefined(t: Tree, p: Path, folder: bool, dirs: bool)
    requires WellFormed(t) && p.Sub?
    ensures CreateAt(t, p, folder, dirs).0 == Undefined <==> dirs && CrossesFile(t, p.parent)
  {
    var q := p.parent;
    BaseExists(t, q);
    AncestorsExist(t, Base(t, q));
    if q.Sub? {
      if q.parent in t {
        AncestorsExist(t, q.parent);
      }
      if q !in t && q.parent !in t && t[Base(t, q)].File? {
        BaseExists(t, q.parent);
        assert Base(t, q) in Ancestors(q.parent);
      }
    }
  }

  /** When a path-string operation does not return: the mutex is already held,
      the path has no component, or it crosses a file too early.  The only path
      on which it returns with the mutex still held is `""`. */
  lemma WhenCreateReturns(fs: Fs, file: string, folder: bool, dirs: bool)
    requires WellFormed(fs.tree)
    ensures var (st, fs') := Create(fs, file, folder, dirs);
            var p := FilePath(file);
            && (st == Blocked <==> fs.coarse && fs.held)
            && (st == Undefined <==>
                  && !(fs.coarse && fs.held) && file != ""
                  && (p == Root || (dirs && CrossesFile(fs.tree, p.parent))))
            && ((st == Ok || st == Failed) && fs.coarse ==> (fs'.held <==> file == ""))
  {
    var p := FilePath(file);
    if p != Root {
      WhenCreateIsUndefined(fs.tree, p, folder, dirs);
    }
  }

  lemma WhenWriteIsUndefined(t: Tree, p: Path, data: string, dirs: bool, overwrite: bool)
    requires WellFormed(t) && p.Sub?
    ensures WriteAt(t, p, data, dirs, overwrite).0 == Undefined <==> dirs && CrossesFile(t, p.parent)
  {
    WhenCreateIsUndefined(t, p, false, dirs);
  }

  /** The same for `write`. */
  lemma WhenWriteReturns(fs: Fs, file: string, data: string, dirs: bool, overwrite: bool)
    requires WellFormed(fs.tree)
    ensures var (st, fs') := Write(fs, file, data, dirs, overwrite);
            var p := FilePath(file);
            && (st == Blocked <==> fs.coarse && fs.held)
            && (st == Undefined <==>
                  && !(fs.coarse && fs.held) && file != ""
                  && (p == Root || (dirs && CrossesFile(fs.tree, p.parent))))
            && ((st == Ok || st == Failed) && fs.coarse ==> (fs'.held <==> file == ""))
  {
    var p := FilePath(file);
    if p != Root {
      WhenWriteIsUndefined(fs.tree, p, data, dirs, overwrite);
    }
  }

  /** `remove` makes no folders, so it dies only on a path without components; it
      too leaves the mutex held exactly on `""`, and then it removes nothing. */
  lemma WhenRemoveReturns(fs: Fs, file: string)
    requires WellFormed(fs.tree)
    ensures var (st, fs') := Remove(fs, file);
            && (st == Blocked <==> fs.coarse && fs.held)
            && (st == Undefined <==> !(fs.coarse && fs.held) && file != "" && FilePath(file) == Root)
            && ((st == Ok || st == Failed) && fs.coarse ==> (fs'.held <==> file == ""))
            && (st == Ok <==>
                  && !(fs.coarse && fs.held) && file != ""
                  && FilePath(file) != Root && FilePath(file) in fs.tree)
            && (st != Ok ==> fs'.tree == fs.tree)
  {
  }
}
