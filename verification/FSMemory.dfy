/** FSMemory.cpp and FSTreeNode.cpp: the mutable tree of nodes, proved to behave
    as the flat map of module FlatFs. */
module MemoryTree {
  import opened Text
  import opened FilesystemUtils
  import opened FlatFs

  class FSTreeNode {
    const folder: bool
    const name: string
    var data: string
    var children: map<string, FSTreeNode>

    // Where the node hangs; nodes never move.
    ghost const path: Path

    constructor (ghost path: Path, name: string, folder: bool, data: string)
      ensures this.path == path && this.name == name && this.folder == folder && this.data == data
      ensures children == map[]
    {
      this.path := path;
      this.name := name;
      this.folder := folder;
      this.data := data;
      this.children := map[];
    }

    function GetChild(childName: string): (node: FSTreeNode?)
      reads this
      ensures node != null <==> childName in children
    {
      if childName in children then children[childName] else null
    }

    method CreateChild(childName: string, childFolder: bool, childData: string) returns (node: FSTreeNode?)
      modifies this`children
      ensures node == null <==> !folder || (childFolder && childData != "")
      ensures node == null ==> children == old(children)
      ensures node != null ==>
                && fresh(node) && node.path == Sub(path, childName)
                && node.name == childName && node.folder == childFolder
                && node.data == childData && node.children == map[]
                && children == old(children)[childName := node]
    {
      if !folder || (childFolder && |childData| > 0) {
        return null;
      }
      node := new FSTreeNode(Sub(path, childName), childName, childFolder, childData);
      children := children[childName := node];
    }

    method RemoveChild(childName: string) returns (success: Status)
      modifies this`children
      ensures children == old(children) - {childName}
      ensures success == if childName in old(children) then Ok else Failed
    {
      success := if childName in children then Ok else Failed;
      children := children - {childName};
    }
  }

  /** What one node holds; a snapshot of the tree maps every path to this. */
  datatype NodeInfo = NodeInfo(node: FSTreeNode, folder: bool, name: string, data: string,
                               children: map<string, FSTreeNode>)

  type Snapshot = map<Path, NodeInfo>

  /** The node at `p` carries its last component as name and hangs, under that
      name, below the node at the parent path; and its children are nodes. */
  ghost predicate NodeOk(s: Snapshot, p: Path)
    requires p in s
  {
    && (p.Sub? ==>
          && s[p].name == p.name
          && p.parent in s && p.name in s[p.parent].children && s[p.parent].children[p.name] == s[p].node)
    && (forall c | c in s[p].children :: Sub(p, c) in s)
    && s[p].node.path == p
    && (if s[p].folder then s[p].data == "" else s[p].children == map[])
  }

  ghost predicate Consistent(s: Snapshot)
  {
    && Root in s && s[Root].folder
    && (forall p {:trigger NodeOk(s, p)} | p in s :: NodeOk(s, p))
  }

  ghost function TreeOf(s: Snapshot): Tree
  {
    map p | p in s :: if s[p].folder then Folder else File(s[p].data)
  }

  lemma TreeIsWellFormed(s: Snapshot)
    requires Consistent(s)
    ensures WellFormed(TreeOf(s))
  {
    forall p | p in s && p.Sub? ensures InFolder(TreeOf(s), p) {
      assert NodeOk(s, p) && NodeOk(s, p.parent);
    }
  }

  lemma ChildIsNode(s: Snapshot, p: Path, c: string)
    requires Consistent(s) && p in s
    ensures Sub(p, c) in s <==> c in s[p].children
    ensures c in s[p].children ==> s[p].folder && s[p].children[c] == s[Sub(p, c)].node
  {
    assert NodeOk(s, p);
    if Sub(p, c) in s {
      assert NodeOk(s, Sub(p, c));
    }
  }

  ghost function Added(s: Snapshot, p: Path, child: NodeInfo): Snapshot
    requires p in s
  {
    s[p := s[p].(children := s[p].children[child.name := child.node])][Sub(p, child.name) := child]
  }

  lemma AddedNodeOk(s: Snapshot, p: Path, child: NodeInfo, q: Path)
    requires Consistent(s) && p in s && s[p].folder && Sub(p, child.name) !in s
    requires child.node.path == Sub(p, child.name) && child.children == map[] && (child.folder ==> child.data == "")
    requires q in Added(s, p, child)
    ensures NodeOk(Added(s, p, child), q)
  {
    if q in s {
      assert NodeOk(s, q);
    }
  }

  lemma AddedIsConsistent(s: Snapshot, p: Path, child: NodeInfo)
    requires Consistent(s) && p in s && s[p].folder && child.name !in s[p].children
    requires child.node.path == Sub(p, child.name) && child.children == map[] && (child.folder ==> child.data == "")
    ensures Consistent(Added(s, p, child))
  {
    ChildIsNode(s, p, child.name);
    var m := Added(s, p, child);
    forall q | q in m ensures NodeOk(m, q) {
      AddedNodeOk(s, p, child, q);
    }
  }

  lemma AddedTree(s: Snapshot, p: Path, child: NodeInfo)
    requires p in s && s[p].folder
    ensures TreeOf(Added(s, p, child)) ==
            TreeOf(s)[Sub(p, child.name) := if child.folder then Folder else File(child.data)]
  {
  }

  ghost function Cut(s: Snapshot, p: Path, c: string): Snapshot
    requires p in s
  {
    map q | q in s && !Under(Sub(p, c), q) ::
      if q == p then s[p].(children := s[p].children - {c}) else s[q]
  }

  lemma CutIsConsistent(s: Snapshot, p: Path, c: string)
    requires Consistent(s) && p in s && c in s[p].children
    ensures Consistent(Cut(s, p, c))
    ensures TreeOf(Cut(s, p, c)) == RemoveAt(TreeOf(s), Sub(p, c)).1
  {
    var r, m := Sub(p, c), Cut(s, p, c);
    ChildIsNode(s, p, c);
    UnderIsAncestor(r, p);
    NotBelowItself(p, c);
    forall q | q in m ensures NodeOk(m, q) {
      CutNodeOk(s, p, c, q);
    }
  }

  lemma CutNodeOk(s: Snapshot, p: Path, c: string, q: Path)
    requires Consistent(s) && p in s && !Under(Sub(p, c), p) && q in Cut(s, p, c)
    ensures NodeOk(Cut(s, p, c), q)
  {
    assert NodeOk(s, q);
  }

  class FSMemory {
    const coarseMutex: bool
    const filetree: FSTreeNode
    var locked: bool
    // The node at the end of every path.
    ghost var nodes: map<Path, FSTreeNode>
    // Every node this filesystem has ever made.
    ghost var Repr: set<FSTreeNode>

    ghost function Snap(): Snapshot
      reads this`nodes, nodes.Values
    {
      map p | p in nodes ::
        NodeInfo(nodes[p], nodes[p].folder, nodes[p].name, nodes[p].data, nodes[p].children)
    }

    ghost predicate Valid()
      reads this`nodes, this`Repr, nodes.Values
    {
      && (forall p | p in nodes :: nodes[p] in Repr)
      && Consistent(Snap()) && nodes[Root] == filetree
    }

    ghost function View(): Fs
      reads this`nodes, this`locked, nodes.Values
    {
      Fs(TreeOf(Snap()), coarseMutex, locked)
    }

    constructor (coarseMutex: bool)
      ensures Valid() && fresh(Repr)
      ensures View() == Fs(EMPTY_TREE, coarseMutex, false)
    {
      this.coarseMutex := coarseMutex;
      this.locked := false;
      var root := new FSTreeNode(Root, "root", true, "");
      this.filetree := root;
      this.nodes := map[Root := root];
      this.Repr := {root};
    }

    /** `createChild` on the node at `p`, recorded in the map of nodes. */
    method Attach(ghost p: Path, node: FSTreeNode, c: string, folder: bool, data: string) returns (child: FSTreeNode?)
      requires p in nodes && nodes[p] == node && Sub(p, c) !in nodes
      requires forall q | q in nodes :: nodes[q].path == q
      requires folder ==> data == ""
      modifies this`nodes, this`Repr, node`children
      ensures child == null <==> !node.folder
      ensures child == null ==> nodes == old(nodes) && Repr == old(Repr) && Snap() == old(Snap())
      ensures child != null ==>
                && fresh(child) && Repr == old(Repr) + {child} && nodes == old(nodes)[Sub(p, c) := child]
                && child.path == Sub(p, c)
                && Snap() == Added(old(Snap()), p, NodeInfo(child, folder, c, data, map[]))
    {
      child := node.CreateChild(c, folder, data);
      if child != null {
        nodes := nodes[Sub(p, c) := child];
        Repr := Repr + {child};
        ghost var after := Added(old(Snap()), p, NodeInfo(child, folder, c, data, map[]));
        forall q | q in nodes ensures q in after && Snap()[q] == after[q] {
          if q != p && q != Sub(p, c) {
            assert nodes[q].path == q && node.path == p;
          }
        }
      }
    }

    method AddChild(ghost p: Path, node: FSTreeNode, c: string, folder: bool, data: string) returns (child: FSTreeNode?)
      requires Valid() && p in nodes && nodes[p] == node && c !in node.children
      requires folder ==> data == ""
      modifies this`nodes, this`Repr, node`children
      ensures Valid() && fresh(Repr - old(Repr))
      ensures child == null <==> !node.folder
      ensures child == null ==> nodes == old(nodes) && View() == old(View())
      ensures child != null ==>
                && Sub(p, c) in nodes && nodes[Sub(p, c)] == child
                && View() == old(View()).(tree := old(View().tree)[Sub(p, c) := if folder then Folder else File(data)])
    {
      ghost var s := Snap();
      ChildIsNode(s, p, c);
      forall q | q in s ensures nodes[q].path == q {
        assert NodeOk(s, q);
      }
      child := Attach(p, node, c, folder, data);
      if child != null {
        ghost var info := NodeInfo(child, folder, c, data, map[]);
        AddedIsConsistent(s, p, info);
        AddedTree(s, p, info);
      }
    }

    /** One step of the walk: the child `c` of the node at `here`, made if asked. */
    method NextNode(ghost t: Tree, ghost here: Path, node: FSTreeNode, c: string, create: bool)
      returns (next: FSTreeNode?)
      requires Valid() && WellFormed(t) && Walked(t, here, create, node, nodes, View().tree)
      modifies this`nodes, this`Repr, node`children
      ensures Valid() && fresh(Repr - old(Repr))
      ensures View() == old(View()).(tree := View().tree)
      ensures Walked(t, Sub(here, c), create, next, nodes, View().tree)
    {
      ChildIsNode(Snap(), here, c);
      WalkOn(t, here, c);
      next := node.GetChild(c);
      if next == null && create {
        assert node.folder <==> IsFolder(View().tree, here);
        next := AddChild(here, node, c, true, "");
      }
    }

    /** Walks down from the root; with `create`, makes the missing folders.
        `dead` reports that the loop went on from a null node. */
    lemma StartsAtRoot(create: bool)
      requires Valid()
      ensures WellFormed(View().tree)
      ensures Walked(View().tree, PathOf([]), create, filetree, nodes, View().tree)
    {
      TreeIsWellFormed(Snap());
    }

    method GetTreeNode(tokens: seq<string>, create: bool) returns (node: FSTreeNode?, dead: bool)
      requires Valid()
      modifies this`nodes, this`Repr, Repr
      ensures Valid() && fresh(Repr - old(Repr))
      ensures View() == old(View()).(tree := View().tree)
      ensures dead <==> WalkTo(old(View().tree), PathOf(tokens), create) == NullNode
      ensures dead ==> View() == old(View())
      ensures !dead ==> Walked(old(View().tree), PathOf(tokens), create, node, nodes, View().tree)
    {
      hide NodeOk, Consistent, MakeFolders, TreeOf;
      ghost var t := View().tree;
      StartsAtRoot(create);
      assert tokens[..0] == [];
      node, dead := filetree, false;
      for i := 0 to |tokens|
        invariant Valid() && fresh(Repr - old(Repr))
        invariant !dead && View() == old(View()).(tree := View().tree)
        invariant Walked(t, PathOf(tokens[..i]), create, node, nodes, View().tree)
        invariant !create ==> node != null
      {
        if node == null {
          DeadForever(t, tokens, i);
          return null, true;
        }
        assert tokens[..i + 1][..i] == tokens[..i];
        node := NextNode(t, PathOf(tokens[..i]), node, tokens[i], create);
        if node == null && !create {
          MissingForever(t, tokens, i + 1);
          return null, false;
        }
      }
      assert tokens[..|tokens|] == tokens;
    }

    /** Splits a path into its parent components and its last name, and walks to
        the parent. */
    method ParentNode(file: string, create: bool) returns (node: FSTreeNode?, name: string, dead: bool)
      requires Valid()
      modifies this`nodes, this`Repr, Repr
      ensures Valid() && fresh(Repr - old(Repr))
      ensures View() == old(View()).(tree := View().tree)
      ensures dead <==> FilePath(file) == Root || WalkTo(old(View().tree), FilePath(file).parent, create) == NullNode
      ensures dead ==> View() == old(View())
      ensures !dead ==>
                && FilePath(file).name == name
                && Walked(old(View().tree), FilePath(file).parent, create, node, nodes, View().tree)
    {
      hide Consistent, TreeOf, Walked;
      var tokens := SplitString(file, "/");
      if tokens == [] {
        return null, "", true;
      }
      name := tokens[|tokens| - 1];
      node, dead := GetTreeNode(tokens[..|tokens| - 1], create);
    }

    /** Takes the mutex, unless someone holds it. */
    method Lock() returns (ok: bool)
      modifies this`locked
      ensures ok == !(coarseMutex && old(locked))
      ensures locked == (old(locked) || coarseMutex) && Snap() == old(Snap())
    {
      ok := !(coarseMutex && locked);
      locked := locked || coarseMutex;
    }

    method Unlock()
      modifies this`locked
      ensures locked == (old(locked) && !coarseMutex) && Snap() == old(Snap())
    {
      locked := locked && !coarseMutex;
    }

    method CreateUnderLock(file: string, folder: bool, createDirectories: bool) returns (success: Status)
      requires Valid()
      modifies this`nodes, this`Repr, Repr
      ensures Valid() && fresh(Repr - old(Repr))
      ensures success == CreateAt(old(View().tree), FilePath(file), folder, createDirectories).0
      ensures View() == old(View()).(tree := CreateAt(old(View().tree), FilePath(file), folder, createDirectories).1)
    {
      success := Failed;
      TreeIsWellFormed(Snap());
      var node, actualFile, dead := ParentNode(file, createDirectories);
      if dead {
        return Undefined;
      }
      if node != null {
        ghost var q := FilePath(file).parent;
        AfterTheWalk(old(View().tree), FilePath(file), createDirectories, folder, "", false);
        success := PutNew(q, node, actualFile, folder);
      }
    }

    /** Makes the child `c` of the node at `q`, unless there is one. */
    method PutNew(ghost q: Path, node: FSTreeNode, c: string, folder: bool) returns (success: Status)
      requires Valid() && q in nodes && nodes[q] == node
      modifies this`nodes, this`Repr, node`children
      ensures Valid() && fresh(Repr - old(Repr))
      ensures (success, View().tree) == CreateAt(old(View().tree), Sub(q, c), folder, false)
      ensures View() == old(View()).(tree := View().tree)
    {
      success := Failed;
      ChildIsNode(Snap(), q, c);
      if node.GetChild(c) == null {
        var child := AddChild(q, node, c, folder, "");
        if child != null {
          success := Ok;
        }
      }
    }

    method Create(file: string, folder: bool, createDirectories: bool) returns (success: Status)
      requires Valid()
      modifies this`nodes, this`Repr, this`locked, Repr
      ensures Valid() && fresh(Repr - old(Repr))
      ensures (success, View()) == FlatFs.Create(old(View()), file, folder, createDirectories)
    {
      hide FilePath;
      var ok := Lock();
      if !ok {
        return Blocked;
      }
      if file == "" {
        return Failed;
      }
      success := CreateUnderLock(file, folder, createDirectories);
      if success != Undefined {
        Unlock();
      }
    }

    method WriteUnderLock(file: string, data: string, createDirectories: bool, overwrite: bool)
      returns (success: Status)
      requires Valid()
      modifies this`nodes, this`Repr, Repr
      ensures Valid() && fresh(Repr - old(Repr))
      ensures success == WriteAt(old(View().tree), FilePath(file), data, createDirectories, overwrite).0
      ensures var (_, tree) := WriteAt(old(View().tree), FilePath(file), data, createDirectories, overwrite);
              View() == old(View()).(tree := tree)
    {
      success := Failed;
      TreeIsWellFormed(Snap());
      var node, actualFile, dead := ParentNode(file, createDirectories);
      if dead {
        return Undefined;
      }
      if node != null {
        ghost var q := FilePath(file).parent;
        AfterTheWalk(old(View().tree), FilePath(file), createDirectories, false, data, overwrite);
        success := PutData(q, node, actualFile, data, overwrite);
      }
    }

    /** Writes the file `c` below the node at `q`, or makes it. */
    method PutData(ghost q: Path, node: FSTreeNode, c: string, data: string, overwrite: bool) returns (success: Status)
      requires Valid() && q in nodes && nodes[q] == node
      modifies this`nodes, this`Repr, Repr
      ensures Valid() && fresh(Repr - old(Repr))
      ensures var t := old(View().tree);
              (success, View().tree) == WriteAt(t, Sub(q, c), data, false, overwrite)
      ensures View() == old(View()).(tree := View().tree)
    {
      success := Failed;
      ChildIsNode(Snap(), q, c);
      var next := node.GetChild(c);
      if next != null {
        if !next.folder {
          SetData(Sub(q, c), next, if overwrite then data else next.data + data);
          success := Ok;
        }
      } else {
        next := AddChild(q, node, c, false, data);
        if next != null {
          success := Ok;
        }
      }
    }

    method Write(file: string, data: string, createDirectories: bool, overwrite: bool) returns (success: Status)
      requires Valid()
      modifies this`nodes, this`Repr, this`locked, Repr
      ensures Valid() && fresh(Repr - old(Repr))
      ensures (success, View()) == FlatFs.Write(old(View()), file, data, createDirectories, overwrite)
    {
      hide FilePath;
      var ok := Lock();
      if !ok {
        return Blocked;
      }
      if file == "" {
        return Failed;
      }
      success := WriteUnderLock(file, data, createDirectories, overwrite);
      if success != Undefined {
        Unlock();
      }
    }

    /** `next->data = data` for the file at `p`. */
    method SetData(ghost p: Path, node: FSTreeNode, data: string)
      requires Valid() && p in nodes && nodes[p] == node && !node.folder
      modifies node`data
      ensures Valid() && View() == old(View()).(tree := old(View().tree)[p := File(data)])
    {
      ghost var s := Snap();
      forall q | q in s ensures nodes[q].path == q {
        assert NodeOk(s, q);
      }
      DataSetIsConsistent(s, p, data);
      node.data := data;
      assert Snap() == s[p := s[p].(data := data)];
    }

    /** `removeChild` on the node at `p`: the whole subtree leaves the map. */
    method Detach(ghost p: Path, node: FSTreeNode, c: string)
      requires p in nodes && nodes[p] == node && c in node.children && !Under(Sub(p, c), p)
      requires forall q | q in nodes :: nodes[q].path == q
      modifies this`nodes, this`Repr, node`children
      ensures Repr == old(Repr) && (forall q | q in nodes :: q in old(nodes) && nodes[q] == old(nodes)[q])
      ensures Snap() == Cut(old(Snap()), p, c)
    {
      var _ := node.RemoveChild(c);
      nodes := map q | q in nodes && !Under(Sub(p, c), q) :: nodes[q];
    }

    method RemoveUnderLock(file: string) returns (success: Status)
      requires Valid()
      modifies this`nodes, this`Repr, Repr
      ensures Valid() && fresh(Repr - old(Repr))
      ensures (success, View().tree) == RemoveAt(old(View().tree), FilePath(file))
      ensures View() == old(View()).(tree := View().tree)
    {
      hide FilePath, MakeFolders;
      success := Failed;
      TreeIsWellFormed(Snap());
      var node, actualFile, dead := ParentNode(file, false);
      if dead {
        return Undefined;
      }
      ghost var q := FilePath(file).parent;
      WalkOn(old(View().tree), q, actualFile);
      if node != null {
        ghost var s := Snap();
        ChildIsNode(s, q, actualFile);
        if node.GetChild(actualFile) != null {
          CutIsConsistent(s, q, actualFile);
          UnderIsAncestor(Sub(q, actualFile), Root);
          UnderIsAncestor(Sub(q, actualFile), q);
          NotBelowItself(q, actualFile);
          forall r | r in s ensures nodes[r].path == r {
            assert NodeOk(s, r);
          }
          Detach(q, node, actualFile);
          success := Ok;
        }
      }
    }

    method Remove(file: string) returns (success: Status)
      requires Valid()
      modifies this`nodes, this`Repr, this`locked, Repr
      ensures Valid() && fresh(Repr - old(Repr))
      ensures (success, View()) == FlatFs.Remove(old(View()), file)
    {
      hide FilePath;
      var ok := Lock();
      if !ok {
        return Blocked;
      }
      if file == "" {
        return Failed;
      }
      success := RemoveUnderLock(file);
      if success != Undefined {
        Unlock();
      }
    }

    method Exists(file: string) returns (found: bool)
      requires Valid()
      modifies this`nodes, this`Repr, Repr
      ensures Valid() && fresh(Repr - old(Repr))
      ensures found == FlatFs.Exists(View(), file) && View() == old(View())
    {
      var tokens := SplitString(file, "/");
      var node, _ := GetTreeNode(tokens, false);
      found := node != null;
    }

    method Read(file: string, offset: int) returns (data: Option<string>)
      requires Valid()
      modifies this`nodes, this`Repr, Repr
      ensures Valid() && fresh(Repr - old(Repr))
      ensures data == FlatFs.Read(View(), file, offset) && View() == old(View())
    {
      var tokens := SplitString(file, "/");
      var node, _ := GetTreeNode(tokens, false);
      data := None;
      // An unsigned comparison: a negative offset exceeds every length.
      if node != null && !node.folder && 0 <= offset <= |node.data| {
        data := Some(node.data[offset..]);
      }
    }
  }

  lemma DataSetIsConsistent(s: Snapshot, p: Path, data: string)
    requires Consistent(s) && p in s && !s[p].folder
    ensures Consistent(s[p := s[p].(data := data)])
    ensures TreeOf(s[p := s[p].(data := data)]) == TreeOf(s)[p := File(data)]
  {
    var s' := s[p := s[p].(data := data)];
    forall q | q in s' ensures NodeOk(s', q) {
      assert NodeOk(s, q);
    }
  }

  /** What the walk has found, or made, on the way to `q`. */
  ghost predicate Walked(t: Tree, q: Path, create: bool, node: FSTreeNode?, nodes: map<Path, FSTreeNode>, now: Tree)
  {
    var w := WalkTo(t, q, create);
    && w != NullNode
    && (node != null <==> w != Missing)
    && (node != null ==> q in nodes && nodes[q] == node)
    && now == if w == Made then MakeFolders(t, q) else t
  }

  /** One more component: it is found, or made below a folder. */
  lemma WalkOn(t: Tree, q: Path, c: string)
    requires WellFormed(t)
    ensures q !in t ==> Sub(q, c) !in t
    ensures WalkTo(t, q, true) == Made ==>
              && WalkTo(t, Sub(q, c), true) == Made
              && IsFolder(MakeFolders(t, q), q)
              && Sub(q, c) !in MakeFolders(t, q)
              && MakeFolders(t, Sub(q, c)) == MakeFolders(t, q)[Sub(q, c) := Folder]
    ensures q in t && Sub(q, c) !in t && IsFolder(t, q) ==>
              && WalkTo(t, Sub(q, c), true) == Made
              && MakeFolders(t, Sub(q, c)) == t[Sub(q, c) := Folder]
    ensures q in t && Sub(q, c) !in t && !IsFolder(t, q) ==> WalkTo(t, Sub(q, c), true) == Missing
    ensures WalkTo(t, q, true) == Missing || WalkTo(t, q, true) == NullNode ==>
              WalkTo(t, Sub(q, c), true) == NullNode
  {
    if Sub(q, c) in t {
      assert InFolder(t, Sub(q, c));
    }
    NotBelowItself(q, c);
    if q in t {
      AncestorsExist(t, q);
      assert Base(t, Sub(q, c)) == if Sub(q, c) in t then Sub(q, c) else q;
    } else {
      assert Base(t, Sub(q, c)) == Base(t, q);
    }
  }

  /** Making directories and then creating or writing is creating or writing
      below the folders just made. */
  lemma AfterTheWalk(t: Tree, p: Path, dirs: bool, folder: bool, data: string, overwrite: bool)
    requires WellFormed(t) && p.Sub?
    ensures var w := WalkTo(t, p.parent, dirs);
            w == Found || w == Made ==>
              var now := if w == Made then MakeFolders(t, p.parent) else t;
              && CreateAt(t, p, folder, dirs) == CreateAt(now, p, folder, false)
              && WriteAt(t, p, data, dirs, overwrite) == WriteAt(now, p, data, false, overwrite)
  {
    WalkOn(t, p.parent, p.name);
  }

  lemma {:induction false} DeadForever(t: Tree, tokens: seq<string>, i: nat)
    requires WellFormed(t) && i < |tokens|
    requires WalkTo(t, PathOf(tokens[..i]), true) == Missing
    ensures WalkTo(t, PathOf(tokens), true) == NullNode
    decreases |tokens|
  {
    var n := |tokens| - 1;
    var front := tokens[..n];
    WalkOn(t, PathOf(front), tokens[n]);
    if i < n {
      assert front[..i] == tokens[..i];
      DeadForever(t, front, i);
    }
  }

  lemma {:induction false} MissingForever(t: Tree, tokens: seq<string>, i: nat)
    requires WellFormed(t) && i <= |tokens| && PathOf(tokens[..i]) !in t
    ensures PathOf(tokens) !in t
    decreases |tokens|
  {
    if i == |tokens| {
      assert tokens[..i] == tokens;
    } else {
      var n := |tokens| - 1;
      assert tokens[..n][..i] == tokens[..i];
      MissingForever(t, tokens[..n], i);
      WalkOn(t, PathOf(tokens[..n]), tokens[n]);
    }
  }
}
