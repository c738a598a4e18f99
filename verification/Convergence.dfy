/** Two servers that receive the requests of different users in different orders
    still agree on whom everyone follows, and since when. */
module Convergence {
  import opened Social

  /** The part of an account that its own user's requests decide. */
  datatype Own = Own(following: seq<string>, times: seq<Timestamp>)

  function OwnOf(g: Graph, u: string): Own
    requires u in g.accounts
  {
    Own(g.accounts[u].following, g.accounts[u].times)
  }

  /** What a request of its own user makes of these lists. */
  function OwnStep(o: Own, r: Request): Own
  {
    match r
    case LoginReq(_) => o
    case FollowReq(a, b, t) =>
      if a == b || b in o.following then o else Own(o.following + [b], o.times + [t])
    case UnFollowReq(a, b) =>
      var i := IndexOf(o.following, b);
      if a == b || i < 0 || i >= |o.times| then o else Own(Erase(o.following, i), Erase(o.times, i))
  }

  function OwnRun(o: Own, rs: seq<Request>): Own
  {
    if rs == [] then o else OwnStep(OwnRun(o, rs[..|rs| - 1]), rs[|rs| - 1])
  }

  /** The requests of one user, in the order they are served. */
  function RequestsOf(rs: seq<Request>, u: string): seq<Request>
  {
    if rs == [] then []
    else
      var front, r := RequestsOf(rs[..|rs| - 1], u), rs[|rs| - 1];
      if r.user == u then front + [r] else front
  }

  /** Everyone a request names has an account. */
  predicate Names(g: Graph, r: Request)
  {
    r.user in g.accounts && (r.LoginReq? || r.target in g.accounts)
  }

  lemma FollowIsLocal(g: Graph, a: string, b: string, t: Timestamp, u: string)
    requires GraphOk(g) && a in g.accounts && b in g.accounts && u in g.accounts
    ensures Follow(g, a, b, t).db == g.db && Follow(g, a, b, t).accounts.Keys == g.accounts.Keys
    ensures OwnOf(Follow(g, a, b, t), u) ==
            if a == u then OwnStep(OwnOf(g, u), FollowReq(a, b, t)) else OwnOf(g, u)
  {
  }

  lemma UnFollowIsLocal(g: Graph, a: string, b: string, u: string)
    requires GraphOk(g) && a in g.accounts && b in g.accounts && u in g.accounts
    ensures UnFollow(g, a, b).db == g.db && UnFollow(g, a, b).accounts.Keys == g.accounts.Keys
    ensures OwnOf(UnFollow(g, a, b), u) ==
            if a == u then OwnStep(OwnOf(g, u), UnFollowReq(a, b)) else OwnOf(g, u)
  {
    hide GraphOk, UnFollow, RemoveEdge, Erase, IndexOf;
    UnFollowIs(g, a, b);
    if a != b && b in g.accounts[a].following {
      RemoveEdgeIsSafe(g, a, b);
    }
  }

  lemma UnFollowIs(g: Graph, a: string, b: string)
    requires GraphOk(g) && a in g.accounts && b in g.accounts
    ensures if a != b && b in g.accounts[a].following then
              RemoveEdge(g, a, b).Some? && UnFollow(g, a, b) == RemoveEdge(g, a, b).value
            else UnFollow(g, a, b) == g
  {
    hide GraphOk, RemoveEdge, IndexOf;
    if b in g.accounts[a].following {
      RemoveEdgeIsSafe(g, a, b);
    }
  }

  lemma ServeIsLocal(g: Graph, r: Request, u: string)
    requires GraphOk(g) && Names(g, r) && u in g.accounts
    ensures Serve(g, r).db == g.db && Serve(g, r).accounts.Keys == g.accounts.Keys
    ensures OwnOf(Serve(g, r), u) == if r.user == u then OwnStep(OwnOf(g, u), r) else OwnOf(g, u)
  {
    match r {
      case LoginReq(v) => assert AccountOk(g, v);
      case FollowReq(a, b, t) => FollowIsLocal(g, a, b, t, u);
      case UnFollowReq(a, b) => UnFollowIsLocal(g, a, b, u);
    }
  }

  /** A user's lists after a run depend on that user's requests alone. */
  lemma {:induction false} RunIsLocal(g: Graph, rs: seq<Request>, u: string)
    requires GraphOk(g) && u in g.accounts && forall r | r in rs :: Names(g, r)
    ensures var g' := ServeAll(g, rs);
            && GraphOk(g') && g'.db == g.db && g'.accounts.Keys == g.accounts.Keys
            && OwnOf(g', u) == OwnRun(OwnOf(g, u), RequestsOf(rs, u))
    decreases |rs|
  {
    if rs != [] {
      var n := |rs| - 1;
      RunIsLocal(g, rs[..n], u);
      var before, own := ServeAll(g, rs[..n]), RequestsOf(rs[..n], u);
      assert rs[n] in rs;
      ServeIsLocal(before, rs[n], u);
      ServeKeepsGraph(before, rs[n]);
      assert (own + [rs[n]])[..|own|] == own;
    }
  }

  ghost predicate SameOrders(rs1: seq<Request>, rs2: seq<Request>)
  {
    forall u :: RequestsOf(rs1, u) == RequestsOf(rs2, u)
  }

  /** Equal up to the order of follower lists. */
  ghost predicate SameGraph(g1: Graph, g2: Graph)
  {
    && g1.db == g2.db
    && g1.accounts.Keys == g2.accounts.Keys
    && forall u | u in g1.accounts :: SameAccount(g1.accounts[u], g2.accounts[u])
  }

  ghost predicate SameAccount(a1: Account, a2: Account)
  {
    && a1.connected == a2.connected
    && a1.following == a2.following
    && a1.times == a2.times
    && |a1.followers| == |a2.followers|
    && forall b :: b in a1.followers <==> b in a2.followers
  }

  /** Two interleavings of the same requests of each user converge: equal
      following lists and times in order, equal follower sets. */
  lemma {:induction false} InterleavingsConverge(g: Graph, rs1: seq<Request>, rs2: seq<Request>)
    requires GraphOk(g) && SameOrders(rs1, rs2)
    requires (forall r | r in rs1 :: Names(g, r)) && forall r | r in rs2 :: Names(g, r)
    ensures SameGraph(ServeAll(g, rs1), ServeAll(g, rs2))
  {
    var g1, g2 := ServeAll(g, rs1), ServeAll(g, rs2);
    SameUsers(g, rs1);
    SameUsers(g, rs2);
    forall u | u in g.accounts ensures OwnOf(g1, u) == OwnOf(g2, u) {
      RunIsLocal(g, rs1, u);
      RunIsLocal(g, rs2, u);
    }
    forall u | u in g.accounts ensures SameAccount(g1.accounts[u], g2.accounts[u]) {
      FollowersMirror(g1, g2, u);
    }
  }

  lemma SameUsers(g: Graph, rs: seq<Request>)
    requires GraphOk(g) && forall r | r in rs :: Names(g, r)
    ensures var g' := ServeAll(g, rs);
            GraphOk(g') && g'.db == g.db && g'.accounts.Keys == g.accounts.Keys
  {
    if rs != [] {
      assert rs[|rs| - 1] in rs;
      RunIsLocal(g, rs, rs[|rs| - 1].user);
    }
  }

  /** In good graphs the followers of a user are decided by everyone's following lists. */
  lemma FollowersMirror(g1: Graph, g2: Graph, u: string)
    requires GraphOk(g1) && GraphOk(g2) && g1.accounts.Keys == g2.accounts.Keys && u in g1.accounts
    requires forall x | x in g1.accounts :: OwnOf(g1, x) == OwnOf(g2, x)
    ensures SameAccount(g1.accounts[u], g2.accounts[u])
  {
    var f1, f2 := g1.accounts[u].followers, g2.accounts[u].followers;
    assert OwnOf(g1, u) == OwnOf(g2, u) && AccountOk(g1, u) && AccountOk(g2, u);
    forall b ensures b in f1 <==> b in f2 {
      if b in g1.accounts {
        assert EdgeOk(g1, b, u) && EdgeOk(g2, b, u) && OwnOf(g1, b) == OwnOf(g2, b);
      }
    }
    SameSize(f1, f2);
  }

  function ToSet(s: seq<string>): set<string>
  {
    set x | x in s
  }

  lemma {:induction false} DistinctSize(s: seq<string>)
    requires NoDup(s)
    ensures |ToSet(s)| == |s|
    decreases |s|
  {
    if s == [] {
      assert ToSet(s) == {};
    } else {
      var n := |s| - 1;
      DistinctSize(s[..n]);
      assert s[n] !in s[..n];
      assert ToSet(s) == ToSet(s[..n]) + {s[n]};
    }
  }

  lemma SameSize(s: seq<string>, t: seq<string>)
    requires NoDup(s) && NoDup(t) && forall x :: x in s <==> x in t
    ensures |s| == |t|
  {
    DistinctSize(s);
    DistinctSize(t);
    assert ToSet(s) == ToSet(t);
  }
}
