/** server/src/SNSServer.cpp: the social graph and the posts of one server, and
    its request handlers as functions of that state. */
module Social {
  import opened Text

  datatype Timestamp = Timestamp(seconds: int, nanos: int)
  {
    /** The protobuf order: seconds, then nanoseconds. */
    predicate After(other: Timestamp)
    {
      seconds > other.seconds || (seconds == other.seconds && nanos > other.nanos)
    }
  }

  datatype Post = Post(username: string, data: string, timestamp: Timestamp)

  datatype Account = Account(connected: bool, following: seq<string>, times: seq<Timestamp>, followers: seq<string>)

  const NEW_ACCOUNT := Account(false, [], [], [])

  /** `db` lists the users in the order of `client_db`; a client pointer is the
      name of its user. */
  datatype Graph = Graph(db: seq<string>, accounts: map<string, Account>)

  const EMPTY_GRAPH := Graph([], map[])

  datatype SnsStatus =
    | SUCCESS
    | FAILURE_ALREADY_EXISTS
    | FAILURE_NOT_EXISTS
    | FAILURE_NOT_A_FOLLOWER
    | FAILURE_INVALID

  /** A handler replies, or dies on a null client or an index of -1. */
  datatype Outcome = Replied(status: SnsStatus) | Fault

  // ---- lists ----

  /** `indexOfFollowing` and `indexOfFollower`. */
  function IndexOf<T(==)>(s: seq<T>, x: T): (i: int)
    ensures -1 <= i < |s|
    ensures i >= 0 ==> s[i] == x && x !in s[..i]
    ensures i == -1 <==> x !in s
  {
    if s == [] then -1
    else if s[0] == x then 0
    else
      var i := IndexOf(s[1..], x);
      if i < 0 then -1 else
        assert s[..i + 1] == [s[0]] + s[1..][..i];
        i + 1
  }

  function Erase<T>(s: seq<T>, i: nat): (r: seq<T>)
    requires i < |s|
    ensures |r| == |s| - 1
  {
    s[..i] + s[i + 1..]
  }

  ghost predicate NoDup<T>(s: seq<T>)
  {
    forall i, j | 0 <= i < j < |s| :: s[i] != s[j]
  }

  lemma NoDupAppend<T>(s: seq<T>, x: T)
    requires NoDup(s) && x !in s
    ensures NoDup(s + [x])
  {
  }

  lemma NoDupErase<T>(s: seq<T>, i: nat)
    requires NoDup(s) && i < |s|
    ensures NoDup(Erase(s, i))
    ensures forall x :: x in Erase(s, i) <==> x in s && x != s[i]
  {
    var r := Erase(s, i);
    forall x | x in s && x != s[i] ensures x in r {
      var k :| 0 <= k < |s| && s[k] == x;
      assert r[if k < i then k else k - 1] == x;
    }
    forall x | x in r ensures x in s && x != s[i] {
      var k :| 0 <= k < |r| && r[k] == x;
      assert s[if k < i then k else k + 1] == x;
    }
  }

  // ---- Login, Follow, UnFollow ----

  function Enter(g: Graph, u: string): Graph
  {
    var a := if u in g.accounts then g.accounts[u] else NEW_ACCOUNT;
    Graph(g.db + [u], g.accounts[u := a.(connected := true)])
  }

  /** A new user is entered; a connected one is welcomed back. */
  function Login(g: Graph, u: string): Graph
  {
    if u in g.accounts && g.accounts[u].connected then g else Enter(g, u)
  }

  function AddEdge(g: Graph, a: string, b: string, t: Timestamp): Graph
    requires a in g.accounts && b in g.accounts
  {
    var accounts := g.accounts[a := g.accounts[a].(following := g.accounts[a].following + [b],
                                                   times := g.accounts[a].times + [t])];
    g.(accounts := accounts[b := accounts[b].(followers := accounts[b].followers + [a])])
  }

  function FollowOutcome(g: Graph, a: string, b: string): Outcome
  {
    if a !in g.accounts || b !in g.accounts then Fault
    else if a == b then Replied(FAILURE_INVALID)
    else if IndexOf(g.accounts[a].following, b) >= 0 then Replied(FAILURE_ALREADY_EXISTS)
    else Replied(SUCCESS)
  }

  function Follow(g: Graph, a: string, b: string, t: Timestamp): Graph
  {
    if FollowOutcome(g, a, b) == Replied(SUCCESS) then AddEdge(g, a, b, t) else g
  }

  /** `erase(begin() + index)` on all three lists; an index of -1, or a time list
      that is too short, is undefined. */
  function RemoveEdge(g: Graph, a: string, b: string): Option<Graph>
  {
    if a !in g.accounts || b !in g.accounts then None
    else
      var i := IndexOf(g.accounts[a].following, b);
      var j := IndexOf(g.accounts[b].followers, a);
      if i < 0 || j < 0 || i >= |g.accounts[a].times| then None
      else
        var accounts := g.accounts[a := g.accounts[a].(following := Erase(g.accounts[a].following, i),
                                                       times := Erase(g.accounts[a].times, i))];
        if j >= |accounts[b].followers| then None
        else Some(g.(accounts := accounts[b := accounts[b].(followers := Erase(accounts[b].followers, j))]))
  }

  function UnFollowOutcome(g: Graph, a: string, b: string): Outcome
  {
    if a !in g.accounts || b !in g.accounts then Fault
    else if a == b then Replied(FAILURE_INVALID)
    else if IndexOf(g.accounts[a].following, b) < 0 then Replied(FAILURE_NOT_A_FOLLOWER)
    else if RemoveEdge(g, a, b).None? then Fault
    else Replied(SUCCESS)
  }

  function UnFollow(g: Graph, a: string, b: string): Graph
  {
    if UnFollowOutcome(g, a, b) == Replied(SUCCESS) then RemoveEdge(g, a, b).value else g
  }

  // ---- requests ----

  datatype Request =
    | LoginReq(user: string)
    | FollowReq(user: string, target: string, time: Timestamp)
    | UnFollowReq(user: string, target: string)

  function OutcomeOf(g: Graph, r: Request): Outcome
  {
    match r
    case LoginReq(u) => Replied(SUCCESS)
    case FollowReq(a, b, _) => FollowOutcome(g, a, b)
    case UnFollowReq(a, b) => UnFollowOutcome(g, a, b)
  }

  function Serve(g: Graph, r: Request): Graph
  {
    match r
    case LoginReq(u) => Login(g, u)
    case FollowReq(a, b, t) => Follow(g, a, b, t)
    case UnFollowReq(a, b) => UnFollow(g, a, b)
  }

  function ServeAll(g: Graph, rs: seq<Request>): Graph
  {
    if rs == [] then g else Serve(ServeAll(g, rs[..|rs| - 1]), rs[|rs| - 1])
  }

  // ---- the invariant of the social graph ----

  ghost predicate AccountOk(g: Graph, a: string)
    requires a in g.accounts
  {
    var acc := g.accounts[a];
    && acc.connected
    && |acc.following| == |acc.times|
    && NoDup(acc.following) && NoDup(acc.followers)
    && a !in acc.following
  }

  /** `b` is followed by `a` exactly when `a` is among the followers of `b`. */
  ghost predicate EdgeOk(g: Graph, a: string, b: string)
    requires a in g.accounts && b in g.accounts
  {
    b in g.accounts[a].following <==> a in g.accounts[b].followers
  }

  ghost predicate GraphOk(g: Graph)
  {
    && NoDup(g.db)
    && (forall u :: u in g.db <==> u in g.accounts)
    && (forall a | a in g.accounts :: AccountOk(g, a))
    && (forall a, b | a in g.accounts && b in g.accounts :: EdgeOk(g, a, b))
    && (forall a, b | a in g.accounts && b in g.accounts[a].following :: b in g.accounts)
    && (forall a, b | a in g.accounts && b in g.accounts[a].followers :: b in g.accounts)
  }

  lemma LoginKeepsGraph(g: Graph, u: string)
    requires GraphOk(g)
    ensures GraphOk(Login(g, u))
  {
    var g' := Login(g, u);
    if u !in g.accounts {
      NoDupAppend(g.db, u);
      forall a | a in g'.accounts ensures AccountOk(g', a) {
        assert a != u ==> AccountOk(g, a);
      }
      forall a, b | a in g'.accounts && b in g'.accounts ensures EdgeOk(g', a, b) {
        assert a != u && b != u ==> EdgeOk(g, a, b);
      }
    } else {
      assert AccountOk(g, u);
    }
  }

  lemma {:induction false} FollowKeepsGraph(g: Graph, a: string, b: string, t: Timestamp)
    requires GraphOk(g)
    ensures GraphOk(Follow(g, a, b, t))
  {
    if FollowOutcome(g, a, b) == Replied(SUCCESS) {
      var g' := Follow(g, a, b, t);
      assert AccountOk(g, a) && AccountOk(g, b) && EdgeOk(g, a, b);
      NoDupAppend(g.accounts[a].following, b);
      NoDupAppend(g.accounts[b].followers, a);
      forall x | x in g'.accounts ensures AccountOk(g', x) {
        assert AccountOk(g, x);
      }
      forall x, y | x in g'.accounts && y in g'.accounts ensures EdgeOk(g', x, y) {
        assert EdgeOk(g, x, y);
      }
    }
  }

  /** In a good graph an unfollow never meets an index of -1. */
  lemma RemoveEdgeIsSafe(g: Graph, a: string, b: string)
    requires GraphOk(g) && a in g.accounts && b in g.accounts && b in g.accounts[a].following
    ensures a != b && RemoveEdge(g, a, b).Some?
    ensures var i, j := IndexOf(g.accounts[a].following, b), IndexOf(g.accounts[b].followers, a);
            var g' := RemoveEdge(g, a, b).value;
            && 0 <= i < |g.accounts[a].times| && 0 <= j
            && g' == g.(accounts := g.accounts
                 [a := g.accounts[a].(following := Erase(g.accounts[a].following, i),
                                      times := Erase(g.accounts[a].times, i))]
                 [b := g.accounts[b].(followers := Erase(g.accounts[b].followers, j))])
  {
    assert AccountOk(g, a) && EdgeOk(g, a, b);
  }

  lemma {:induction false} UnFollowKeepsGraph(g: Graph, a: string, b: string)
    requires GraphOk(g)
    ensures GraphOk(UnFollow(g, a, b))
  {
    hide IndexOf;
    if UnFollowOutcome(g, a, b) == Replied(SUCCESS) {
      var g' := UnFollow(g, a, b);
      RemoveEdgeIsSafe(g, a, b);
      assert AccountOk(g, a) && AccountOk(g, b);
      NoDupErase(g.accounts[a].following, IndexOf(g.accounts[a].following, b));
      NoDupErase(g.accounts[b].followers, IndexOf(g.accounts[b].followers, a));
      forall x | x in g'.accounts ensures AccountOk(g', x) {
        assert AccountOk(g, x);
      }
      forall x, y | x in g'.accounts && y in g'.accounts ensures EdgeOk(g', x, y) {
        assert EdgeOk(g, x, y);
      }
    }
  }

  lemma {:induction false} ServeKeepsGraph(g: Graph, r: Request)
    requires GraphOk(g)
    ensures GraphOk(Serve(g, r))
  {
    match r {
      case LoginReq(u) => LoginKeepsGraph(g, u);
      case FollowReq(a, b, t) => FollowKeepsGraph(g, a, b, t);
      case UnFollowReq(a, b) => UnFollowKeepsGraph(g, a, b);
    }
  }

  /** On every run the usernames are distinct, every user is connected, following
      and time lists have equal length, following and followers mirror each
      other, and nobody follows anyone twice or himself. */
  lemma {:induction false} RunsKeepGraph(rs: seq<Request>)
    ensures GraphOk(ServeAll(EMPTY_GRAPH, rs))
    decreases |rs|
  {
    if rs != [] {
      RunsKeepGraph(rs[..|rs| - 1]);
      ServeKeepsGraph(ServeAll(EMPTY_GRAPH, rs[..|rs| - 1]), rs[|rs| - 1]);
    }
  }

  /** A request faults exactly if it names a missing account: the reply for a
      user that does not exist is never sent. */
  lemma WhenRequestsFault(g: Graph, r: Request)
    requires GraphOk(g)
    ensures OutcomeOf(g, r) == Fault <==>
              !r.LoginReq? && (r.user !in g.accounts || r.target !in g.accounts)
    ensures OutcomeOf(g, r) != Replied(FAILURE_NOT_EXISTS)
    ensures OutcomeOf(g, r) != Replied(SUCCESS) ==> Serve(g, r) == g
  {
    hide GraphOk, RemoveEdge, AddEdge, Enter, IndexOf;
    if r.UnFollowReq? && r.user in g.accounts && r.target in g.accounts
       && IndexOf(g.accounts[r.user].following, r.target) >= 0 {
      RemoveEdgeIsSafe(g, r.user, r.target);
    }
  }

  /** Which reply a follow or an unfollow of existing users gets. */
  lemma WhichReply(g: Graph, a: string, b: string)
    requires GraphOk(g) && a in g.accounts && b in g.accounts
    ensures var follows := b in g.accounts[a].following;
            && (FollowOutcome(g, a, b) == Replied(FAILURE_INVALID) <==> a == b)
            && (FollowOutcome(g, a, b) == Replied(FAILURE_ALREADY_EXISTS) <==> a != b && follows)
            && (FollowOutcome(g, a, b) == Replied(SUCCESS) <==> a != b && !follows)
            && (UnFollowOutcome(g, a, b) == Replied(FAILURE_INVALID) <==> a == b)
            && (UnFollowOutcome(g, a, b) == Replied(FAILURE_NOT_A_FOLLOWER) <==> a != b && !follows)
            && (UnFollowOutcome(g, a, b) == Replied(SUCCESS) <==> a != b && follows)
  {
    hide GraphOk, RemoveEdge;
    if b in g.accounts[a].following {
      RemoveEdgeIsSafe(g, a, b);
    }
  }

  /** A login enters a new user at the end, connected, following nobody and
      followed by nobody; a known user changes nothing. */
  lemma LoginEffect(g: Graph, u: string)
    requires GraphOk(g)
    ensures u in g.accounts ==> Login(g, u) == g
    ensures u !in g.accounts ==>
              && Login(g, u).db == g.db + [u] && Login(g, u).accounts.Keys == g.accounts.Keys + {u}
              && Login(g, u).accounts[u] == Account(true, [], [], [])
              && forall v | v in g.accounts :: Login(g, u).accounts[v] == g.accounts[v]
  {
    assert u in g.accounts ==> AccountOk(g, u);
  }

  /** A successful follow puts the target and the time at the end of the user's
      lists, the user at the end of the target's followers, and changes nothing else. */
  lemma FollowEffect(g: Graph, a: string, b: string, t: Timestamp)
    requires GraphOk(g) && a in g.accounts && b in g.accounts && a != b && b !in g.accounts[a].following
    ensures var g' := Follow(g, a, b, t);
            && g'.db == g.db && g'.accounts.Keys == g.accounts.Keys
            && g'.accounts[a] == g.accounts[a].(following := g.accounts[a].following + [b],
                                                times := g.accounts[a].times + [t])
            && g'.accounts[b] == g.accounts[b].(followers := g.accounts[b].followers + [a])
            && forall v | v in g.accounts && v != a && v != b :: g'.accounts[v] == g.accounts[v]
  {
    hide GraphOk, IndexOf;
    WhichReply(g, a, b);
  }

  /** A successful follow is undone by the unfollow, up to nothing at all. */
  lemma UnFollowUndoesFollow(g: Graph, a: string, b: string, t: Timestamp)
    requires GraphOk(g) && FollowOutcome(g, a, b) == Replied(SUCCESS)
    ensures UnFollow(Follow(g, a, b, t), a, b) == g
  {
    assert AccountOk(g, a) && EdgeOk(g, a, b);
    RemoveAddedEdge(g, a, b, t);
    LastIndex(g.accounts[a].following, b);
  }

  lemma RemoveAddedEdge(g: Graph, a: string, b: string, t: Timestamp)
    requires a in g.accounts && b in g.accounts && a != b
    requires b !in g.accounts[a].following && a !in g.accounts[b].followers
    requires |g.accounts[a].following| == |g.accounts[a].times|
    ensures RemoveEdge(AddEdge(g, a, b, t), a, b) == Some(g)
  {
    var acc, target := g.accounts[a], g.accounts[b];
    AppendErase(acc.following, b);
    AppendErase(target.followers, a);
    EraseLast(acc.times, t);
    var g2 := RemoveEdge(AddEdge(g, a, b, t), a, b).value;
    assert g2.accounts[a] == acc && g2.accounts[b] == target;
    assert g2.accounts == g.accounts;
  }

  /** An appended element is found and erased where it was put. */
  lemma AppendErase<T>(s: seq<T>, x: T)
    requires x !in s
    ensures IndexOf(s + [x], x) == |s| && Erase(s + [x], |s|) == s
  {
    LastIndex(s, x);
    EraseLast(s, x);
  }

  lemma LastIndex<T>(s: seq<T>, x: T)
    requires x !in s
    ensures IndexOf(s + [x], x) == |s|
  {
    assert (s + [x])[|s|] == x;
    assert forall k | 0 <= k < |s| :: (s + [x])[k] == s[k] && s[k] in s;
  }

  lemma EraseLast<T>(s: seq<T>, x: T)
    ensures Erase(s + [x], |s|) == s
  {
  }
}
