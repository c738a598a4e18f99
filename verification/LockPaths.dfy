/** The lock files: which paths name them, and what the filesystem operations
    do on them. */
module LockPaths {
  import opened Text
  import opened FilesystemUtils
  import opened FlatFs
  import opened Registry

  // ---- from path strings to locks ----

  lemma NoSlash(n: int)
    ensures '/' !in IntStr(n) && '/' !in "cluster" && '/' !in "master" && '/' !in "slave"
  {
  }

  lemma TwoComponents(a: string, b: string)
    requires a != [] && b != [] && '/' !in a && '/' !in b
    ensures FilePath("/" + a + "/" + b) == Sub(Sub(Root, a), b)
  {
    var file := "/" + a + "/" + b;
    assert file == "" + ['/'] + (a + ['/'] + b);
    TokensAppend("", a + ['/'] + b, '/');
    TokensAppend(a, b, '/');
    TokensWithout("", '/');
    TokensWithout(a, '/');
    TokensWithout(b, '/');
    PathOfTwo(a, b);
    assert SplitFilepath(file) == [] + ([a] + [b]) == [a, b];
  }

  lemma PathOfTwo(a: string, b: string)
    ensures PathOf([a, b]) == Sub(Sub(Root, a), b)
  {
    assert [a, b][..1] == [a];
    assert PathOf([a]) == Sub(Root, a) by {
      assert [a][..0] == [];
    }
  }

  lemma MasterPath(clusterId: int)
    ensures MasterFilepath(clusterId) != ""
    ensures FilePath(MasterFilepath(clusterId)) == MasterLock(clusterId)
  {
    NoSlash(clusterId);
    var a := "cluster" + IntStr(clusterId);
    assert MasterFilepath(clusterId) == "/" + a + "/" + "master";
    TwoComponents(a, "master");
  }

  lemma SlavePath(clusterId: int, serverId: int)
    ensures SlaveFilepath(clusterId, serverId) != ""
    ensures FilePath(SlaveFilepath(clusterId, serverId)) == SlaveLock(clusterId, serverId)
  {
    NoSlash(clusterId);
    NoSlash(serverId);
    var a, b := "cluster" + IntStr(clusterId), "slave" + IntStr(serverId);
    assert SlaveFilepath(clusterId, serverId) == "/" + a + "/" + b;
    TwoComponents(a, b);
  }

  /** What the two kinds of path look like. */
  lemma PathsOfFirstCluster()
    ensures MasterFilepath(1) == "/cluster1/master" && SlaveFilepath(1, 2) == "/cluster1/slave2"
  {
    assert IntStr(1) == "1" && IntStr(2) == "2";
  }

  /** Different servers have different locks, and no slave lock is a master lock. */
  lemma LocksDiffer(c1: int, s1: int, c2: int, s2: int)
    ensures MasterLock(c1) == MasterLock(c2) ==> c1 == c2
    ensures SlaveLock(c1, s1) == SlaveLock(c2, s2) ==> c1 == c2 && s1 == s2
    ensures SlaveLock(c1, s1) != MasterLock(c2)
    ensures SlaveFilepath(c1, s1) != MasterFilepath(c2)
  {
    var a, b := "cluster" + IntStr(c1), "cluster" + IntStr(c2);
    assert a[7..] == IntStr(c1) && b[7..] == IntStr(c2);
    if a == b {
      IntStrInjective(c1, c2);
    }
    var u, v := "slave" + IntStr(s1), "slave" + IntStr(s2);
    assert u[5..] == IntStr(s1) && v[5..] == IntStr(s2);
    if u == v {
      IntStrInjective(s1, s2);
    }
    assert u[0] == 's' && "master"[0] == 'm';
    SlavePath(c1, s1);
    MasterPath(c2);
  }

  /** The folder of a cluster, or a lock in it. */
  predicate InCluster(p: Path, clusterId: int)
  {
    p.Sub? && (p == ClusterFolder(clusterId) || p.parent == ClusterFolder(clusterId))
  }

  lemma OtherCluster(c1: int, c2: int)
    requires c1 != c2
    ensures !InCluster(MasterLock(c1), c2)
  {
    LocksDiffer(c1, 0, c2, 0);
    assert ClusterFolder(c1) != ClusterFolder(c2);
  }

  // ---- operations on locks ----

  predicate IsLock(p: Path)
  {
    p.Sub? && p.parent.Sub? && p.parent.parent.Root?
  }

  /** Only cluster folders below the root, and only files in them. */
  ghost predicate Shape(t: Tree)
  {
    && IsFolder(t, Root)
    && forall p | p in t && p != Root :: if IsLock(p) then t[p].File? && p.parent in t
                                         else t[p] == Folder && p.parent == Root
  }

  lemma CreateLock(t: Tree, p: Path)
    requires Shape(t) && IsLock(p)
    ensures CreateAt(t, p, false, true) ==
            if p in t then (Failed, t) else (Ok, t[p.parent := Folder][p := File("")])
    ensures p !in t ==> Shape(t[p.parent := Folder][p := File("")])
  {
    var q := p.parent;
    if q !in t {
      assert Base(t, q) == Root;
      assert Ancestors(q) == {q, Root};
      assert MakeFolders(t, q) == t[q := Folder];
    } else if p !in t {
      assert t[q := Folder] == t;
    }
  }

  lemma WriteLock(t: Tree, p: Path, data: string)
    requires Shape(t) && IsLock(p)
    ensures WriteAt(t, p, data, false, true) ==
            if p.parent in t then (Ok, t[p := File(data)]) else (Failed, t)
    ensures p.parent in t ==> Shape(t[p := File(data)])
  {
  }

  lemma RemoveLock(t: Tree, p: Path)
    requires Shape(t) && IsLock(p)
    ensures RemoveAt(t, p) == if p in t then (Ok, t - {p}) else (Failed, t)
    ensures Shape(t - {p})
  {
    forall q | q in t && q != p ensures !Under(p, q) {
      assert !Under(p, Root);
      if q != Root && q.parent != Root {
        assert !Under(p, q.parent.parent) && q.parent != p;
      }
    }
    assert p in t ==> RemoveAt(t, p).1 == t - {p};
  }
}
