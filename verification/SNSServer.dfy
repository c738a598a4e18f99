/** server/src/SNSServer.{h,cpp}: the server as objects.  Every handler and every
    replay helper is proved to do what its function in `Social`, `UserInfoLog`,
    `PostLog`, `Timeline` and `Replica` says. */
module ServerObjects {
  import opened Text
  import opened FilesystemUtils
  import opened Social
  import opened LocalTime
  import opened UserInfoLog
  import opened PostLog
  import opened Timeline
  import opened Registry
  import opened Broadcast
  import R = Replica

  class Client {
    const username: string
    var connected: bool
    var following: seq<Client>
    var times: seq<Timestamp>
    var followers: seq<Client>
    /** Whether the client has joined its timeline: `stream != NULL`. */
    var streaming: bool

    constructor (username: string)
      ensures this.username == username && !connected && following == [] && times == [] && followers == []
      ensures !streaming
    {
      this.username := username;
      connected, following, times, followers, streaming := false, [], [], [], false;
    }
  }

  /** Those of `cs` that have joined their timelines, in the same order. */
  function Streaming(cs: seq<Client>): (r: seq<Client>)
    reads set c | c in cs
    ensures forall c | c in cs :: c.streaming ==> c in r
    ensures forall c | c in r :: c in cs && c.streaming
  {
    if cs == [] then []
    else
      assert cs == cs[..|cs| - 1] + [cs[|cs| - 1]];
      Streaming(cs[..|cs| - 1]) + if cs[|cs| - 1].streaming then [cs[|cs| - 1]] else []
  }

  function Names(cs: seq<Client>): (names: seq<string>)
    ensures |names| == |cs| && forall i | 0 <= i < |cs| :: names[i] == cs[i].username
  {
    seq(|cs|, i requires 0 <= i < |cs| => cs[i].username)
  }

  type Directory = map<string, Client>

  /** The objects `cs` stand for the users `names`, in this order. */
  ghost predicate Linked(clients: Directory, cs: seq<Client>, names: seq<string>)
  {
    |cs| == |names| && forall i | 0 <= i < |cs| :: names[i] in clients && cs[i] == clients[names[i]]
  }

  ghost predicate NamesTrue(clients: Directory)
  {
    forall u | u in clients :: clients[u].username == u
  }

  ghost predicate SameAccount(clients: Directory, c: Client, a: Account)
    reads c
  {
    && c.connected == a.connected
    && Linked(clients, c.following, a.following)
    && c.times == a.times
    && Linked(clients, c.followers, a.followers)
  }

  lemma StillLinked(before: Directory, after: Directory, cs: seq<Client>, names: seq<string>)
    requires Linked(before, cs, names)
    requires forall u | u in before :: u in after && after[u] == before[u]
    ensures Linked(after, cs, names)
  {
  }

  lemma AccountStays(before: Directory, after: Directory, c: Client, a: Account)
    requires SameAccount(before, c, a) && forall u | u in before :: u in after && after[u] == before[u]
    ensures SameAccount(after, c, a)
  {
    StillLinked(before, after, c.following, a.following);
    StillLinked(before, after, c.followers, a.followers);
  }

  lemma LinkedPush(before: Directory, after: Directory, cs: seq<Client>, names: seq<string>, c: Client)
    requires Linked(before, cs, names) && c.username in after && after[c.username] == c
    requires forall u | u in before :: u in after && after[u] == before[u]
    ensures Linked(after, cs + [c], names + [c.username])
  {
  }

  lemma LinkedErase(clients: Directory, cs: seq<Client>, names: seq<string>, i: nat)
    requires Linked(clients, cs, names) && i < |cs|
    ensures Linked(clients, Erase(cs, i), Erase(names, i))
  {
  }

  lemma LinkedNames(clients: Directory, cs: seq<Client>, names: seq<string>)
    requires NamesTrue(clients) && Linked(clients, cs, names)
    ensures Names(cs) == names
  {
  }

  class SNSServer {
    const zone: Zone
    var master: bool
    var clientDb: seq<Client>
    var allPosts: seq<Post>
    var userinfo: string
    var postlog: string
    ghost var clients: Directory
    ghost var graph: Graph
    var alive: bool

    ghost predicate Known(c: Client)
      reads this
    {
      c.username in clients && clients[c.username] == c
    }

    ghost predicate Mirrors(u: string)
      requires u in clients && u in graph.accounts
      reads this, clients.Values
    {
      SameAccount(clients, clients[u], graph.accounts[u])
    }

    ghost predicate Valid()
      reads this, clients.Values
    {
      && NamesTrue(clients)
      && Linked(clients, clientDb, graph.db)
      && clients.Keys == graph.accounts.Keys
      && (forall u | u in clients :: u in graph.db)
      && (forall u | u in clients :: Mirrors(u))
    }

    ghost function View(): R.Server
      reads this
    {
      R.Server(graph, allPosts, userinfo, postlog, alive)
    }

    constructor (zone: Zone)
      ensures Valid() && View() == R.NEW_SERVER && clients == map[] && !master && this.zone == zone
    {
      this.zone := zone;
      master := false;
      clientDb, allPosts, userinfo, postlog := [], [], "", "";
      clients, graph, alive := map[], EMPTY_GRAPH, true;
    }

    // ---- lookups ----

    method GetClient(username: string, createNew: bool) returns (client: Client?)
      requires Valid()
      ensures username in clients ==> client == clients[username]
      ensures username !in clients && !createNew ==> client == null
      ensures username !in clients && createNew ==>
                client != null && fresh(client) && client.username == username && !client.connected
                && client.following == [] && client.times == [] && client.followers == []
    {
      client := null;
      var i := 0;
      while i < |clientDb|
        invariant i <= |clientDb|
        invariant username !in graph.db[..i]
      {
        if username == clientDb[i].username {
          assert Known(clientDb[i]);
          return clientDb[i];
        }
        i := i + 1;
      }
      assert graph.db[..i] == graph.db;
      if createNew {
        client := new Client(username);
      }
    }

    static method IndexOfClient(cs: seq<Client>, c: Client) returns (idx: int)
      ensures idx == IndexOf(Names(cs), c.username)
    {
      for i := 0 to |cs|
        invariant c.username !in Names(cs)[..i]
      {
        if cs[i].username == c.username {
          FirstIndex(Names(cs), c.username, i);
          return i;
        }
      }
      assert Names(cs)[..|cs|] == Names(cs);
      return -1;
    }

    /** Index of `client2` in `client1`'s following list. */
    method IndexOfFollowing(client1: Client, client2: Client) returns (idx: int)
      ensures idx == IndexOf(Names(client1.following), client2.username)
    {
      idx := IndexOfClient(client1.following, client2);
    }

    /** Index of `client2` in `client1`'s follower list. */
    method IndexOfFollower(client1: Client, client2: Client) returns (idx: int)
      ensures idx == IndexOf(Names(client1.followers), client2.username)
    {
      idx := IndexOfClient(client1.followers, client2);
    }

    // ---- changing the graph ----

    /** `client->connected = true; client_db.push_back(client);` */
    method PushClient(client: Client)
      requires Valid()
      requires client.username in clients ==> clients[client.username] == client
      requires client.username !in clients ==>
                 client !in clients.Values && !client.connected
                 && client.following == [] && client.times == [] && client.followers == []
      modifies this`clientDb, this`clients, this`graph, client
      ensures Valid() && clients == old(clients)[client.username := client]
      ensures graph == Enter(old(graph), client.username)
    {
      client.connected := true;
      clientDb := clientDb + [client];
      clients := clients[client.username := client];
      graph := Enter(graph, client.username);
      LinkedPush(old(clients), clients, old(clientDb), old(graph).db, client);
      forall u | u in clients && u != client.username ensures Mirrors(u) {
        assert old(Mirrors(u));
        AccountStays(old(clients), clients, clients[u], graph.accounts[u]);
      }
      if client.username in old(clients) {
        assert old(Mirrors(client.username));
        StillLinked(old(clients), clients, client.following, graph.accounts[client.username].following);
        StillLinked(old(clients), clients, client.followers, graph.accounts[client.username].followers);
      }
    }

    method PushFollowing(client: Client, toFollow: Client, t: Timestamp)
      requires Valid() && Known(client) && Known(toFollow)
      modifies this`graph, client`following, client`times
      ensures Valid()
      ensures var acc := old(graph).accounts[client.username];
              graph == old(graph).(accounts := old(graph).accounts[client.username :=
                acc.(following := acc.following + [toFollow.username], times := acc.times + [t])])
    {
      assert Mirrors(client.username);
      var acc := graph.accounts[client.username];
      graph := graph.(accounts := graph.accounts[client.username :=
        acc.(following := acc.following + [toFollow.username], times := acc.times + [t])]);
      client.following := client.following + [toFollow];
      client.times := client.times + [t];
      assert forall u | u in clients && u != client.username :: old(Mirrors(u)) && clients[u] != client;
    }

    method PushFollower(target: Client, client: Client)
      requires Valid() && Known(client) && Known(target)
      modifies this`graph, target`followers
      ensures Valid()
      ensures var acc := old(graph).accounts[target.username];
              graph == old(graph).(accounts := old(graph).accounts[target.username :=
                acc.(followers := acc.followers + [client.username])])
    {
      assert Mirrors(target.username);
      var acc := graph.accounts[target.username];
      graph := graph.(accounts := graph.accounts[target.username :=
        acc.(followers := acc.followers + [client.username])]);
      target.followers := target.followers + [client];
      assert forall u | u in clients && u != target.username :: old(Mirrors(u)) && clients[u] != target;
    }

    /** The three `push_back`s of a follow. */
    method PushEdge(client: Client, toFollow: Client, t: Timestamp)
      requires Valid() && Known(client) && Known(toFollow)
      modifies this`graph, client, toFollow
      ensures Valid()
      ensures graph == AddEdge(old(graph), client.username, toFollow.username, t)
    {
      PushFollowing(client, toFollow, t);
      PushFollower(toFollow, client);
    }

    method EraseFollowing(client: Client, i: nat)
      requires Valid() && Known(client) && i < |client.following| && i < |client.times|
      modifies this`graph, client`following, client`times
      ensures Valid()
      ensures var acc := old(graph).accounts[client.username];
              i < |acc.following| && i < |acc.times| &&
              graph == old(graph).(accounts := old(graph).accounts[client.username :=
                acc.(following := Erase(acc.following, i), times := Erase(acc.times, i))])
    {
      assert Mirrors(client.username);
      var acc := graph.accounts[client.username];
      LinkedErase(clients, client.following, acc.following, i);
      graph := graph.(accounts := graph.accounts[client.username :=
        acc.(following := Erase(acc.following, i), times := Erase(acc.times, i))]);
      client.following := Erase(client.following, i);
      client.times := Erase(client.times, i);
      assert forall u | u in clients && u != client.username :: old(Mirrors(u)) && clients[u] != client;
    }

    method EraseFollower(target: Client, j: nat)
      requires Valid() && Known(target) && j < |target.followers|
      modifies this`graph, target`followers
      ensures Valid()
      ensures var acc := old(graph).accounts[target.username];
              j < |acc.followers| &&
              graph == old(graph).(accounts := old(graph).accounts[target.username :=
                acc.(followers := Erase(acc.followers, j))])
    {
      assert Mirrors(target.username);
      var acc := graph.accounts[target.username];
      LinkedErase(clients, target.followers, acc.followers, j);
      graph := graph.(accounts := graph.accounts[target.username := acc.(followers := Erase(acc.followers, j))]);
      target.followers := Erase(target.followers, j);
      assert forall u | u in clients && u != target.username :: old(Mirrors(u)) && clients[u] != target;
    }

    /** `erase(begin() + i)` on the two lists of `client` and `erase(begin() + j)`
        on the followers of the target. */
    method EraseEdge(client: Client, target: Client, i: nat, j: nat)
      requires Valid() && Known(client) && Known(target)
      requires i == IndexOf(Names(client.following), target.username) && i < |client.times|
      requires j == IndexOf(Names(target.followers), client.username)
      modifies this`graph, client, target
      ensures Valid()
      ensures RemoveEdge(old(graph), client.username, target.username) == Some(graph)
    {
      assert Mirrors(client.username) && Mirrors(target.username);
      LinkedNames(clients, client.following, graph.accounts[client.username].following);
      LinkedNames(clients, target.followers, graph.accounts[target.username].followers);
      EraseFollowing(client, i);
      EraseFollower(target, j);
    }

    /** The erasures shared by `UnFollow` and `unfollowHelper`; `false` for an
        index of -1, or one beyond the list of times. */
    method EraseFollow(client: Client, toUnFollow: Client) returns (ok: bool)
      requires Valid() && Known(client) && Known(toUnFollow)
      modifies this`graph, client, toUnFollow
      ensures Valid()
      ensures var r := RemoveEdge(old(graph), client.username, toUnFollow.username);
              if ok then r == Some(graph) else r.None? && graph == old(graph)
    {
      assert Mirrors(client.username) && Mirrors(toUnFollow.username);
      LinkedNames(clients, client.following, graph.accounts[client.username].following);
      LinkedNames(clients, toUnFollow.followers, graph.accounts[toUnFollow.username].followers);
      var index := IndexOfFollowing(client, toUnFollow);
      var index2 := IndexOfFollower(toUnFollow, client);
      if index < 0 || index2 < 0 || index >= |client.times| {
        return false;
      }
      EraseEdge(client, toUnFollow, index, index2);
      return true;
    }

    // ---- handlers ----

    /** `write(userinfoPath, data)`. */
    method Write(data: string)
      requires Valid()
      modifies this`userinfo
      ensures Valid() && userinfo == old(userinfo) + data
    {
      userinfo := userinfo + data;
    }

    /** What a null dereference or an index of -1 does to the server. */
    method Die()
      requires Valid()
      modifies this`alive
      ensures Valid() && !alive
    {
      alive := false;
    }

    method Login(u: string, fromServer: bool) returns (outcome: Outcome, sent: seq<Destination>)
      requires Valid() && alive
      modifies this`clientDb, this`clients, this`graph, this`userinfo, clients.Values
      ensures Valid() && View() == R.Step(zone, old(View()), R.Ask(LoginReq(u)))
      ensures outcome == Replied(SUCCESS) && sent == Destinations(master, fromServer)
      ensures fresh(clients.Values - old(clients.Values))
    {
      hide LogOf, Serve, Destinations;
      var client := GetClient(u, true);
      LoginFound(client);
      sent := Propogate(fromServer);
      outcome := Replied(SUCCESS);
    }

    method LoginFound(client: Client)
      requires Valid()
      requires client.username in clients ==> clients[client.username] == client
      requires client.username !in clients ==>
                 client !in clients.Values && !client.connected
                 && client.following == [] && client.times == [] && client.followers == []
      modifies this`clientDb, this`clients, this`graph, this`userinfo, client
      ensures Valid() && (clients == old(clients) || clients == old(clients)[client.username := client])
      ensures graph == Serve(old(graph), LoginReq(client.username))
      ensures userinfo == old(userinfo) + LogOf(zone, old(graph), LoginReq(client.username))
    {
      assert client.username in clients ==> Mirrors(client.username);
      if client.connected {
        assert userinfo + "" == userinfo;
      } else {
        PushClient(client);
        Write("user " + client.username + "\n");
      }
    }

    /** Asks for lists of servers; together these are the servers that a request
        spreads to from here. */
    method Propogate(fromServer: bool) returns (sent: seq<Destination>)
      ensures sent == Destinations(master, fromServer)
      ensures forall c: Coord, believes, p | c.Has(p) && (p in believes <==> master) ::
                Answers(c, p, sent) == Forwards(c, believes, p, fromServer)
    {
      sent := [];
      if master {
        sent := sent + [COUNTERPARTS];
        if !fromServer {
          sent := sent + [OTHER_MASTERS];
        }
      }
      forall c: Coord, believes, p | c.Has(p) && (p in believes <==> master)
        ensures Answers(c, p, sent) == Forwards(c, believes, p, fromServer)
      {
        ForwardsAreAnswers(c, believes, p, fromServer);
      }
    }

    method FollowFound(client: Client, toFollow: Client, t: Timestamp) returns (status: SnsStatus)
      requires Valid() && Known(client) && Known(toFollow)
      modifies this`graph, this`userinfo, client, toFollow
      ensures Valid()
      ensures var a, b := client.username, toFollow.username;
              && Replied(status) == OutcomeOf(old(graph), FollowReq(a, b, t))
              && graph == Serve(old(graph), FollowReq(a, b, t))
              && userinfo == old(userinfo) + LogOf(zone, old(graph), FollowReq(a, b, t))
    {
      assert userinfo + "" == userinfo;
      if client == toFollow {
        return FAILURE_INVALID;
      }
      var index := IndexOfFollowing(client, toFollow);
      assert Mirrors(client.username);
      LinkedNames(clients, client.following, graph.accounts[client.username].following);
      if index >= 0 {
        return FAILURE_ALREADY_EXISTS;
      }
      PushEdge(client, toFollow, t);
      Write("follow " + client.username + " " + toFollow.username + " " + zone.Str(t) + "\n");
      return SUCCESS;
    }

    method Follow(a: string, b: string, t: Timestamp, fromServer: bool)
      returns (outcome: Outcome, sent: seq<Destination>)
      requires Valid() && alive
      modifies this`graph, this`userinfo, this`alive, clients.Values
      ensures Valid() && View() == R.Step(zone, old(View()), R.Ask(FollowReq(a, b, t)))
      ensures outcome == OutcomeOf(old(graph), FollowReq(a, b, t))
      ensures sent == if outcome == Fault then [] else Destinations(master, fromServer)
    {
      sent := [];
      outcome := FollowByName(a, b, t);
      if outcome == Fault {
        Die();
      } else {
        sent := Propogate(fromServer);
      }
      AskIsStep(zone, old(View()), View(), FollowReq(a, b, t));
    }

    /** A missing user is never reported: the log line dereferences it first. */
    method FollowByName(a: string, b: string, t: Timestamp) returns (outcome: Outcome)
      requires Valid()
      modifies this`graph, this`userinfo, clients.Values
      ensures Valid()
      ensures var r := FollowReq(a, b, t);
              && outcome == OutcomeOf(old(graph), r)
              && graph == Serve(old(graph), r)
              && userinfo == old(userinfo) + LogOf(zone, old(graph), r)
    {
      var client := GetClient(a, false);
      var toFollow := GetClient(b, false);
      if toFollow == null || client == null {
        assert userinfo + "" == userinfo;
        return Fault;
      }
      var status := FollowFound(client, toFollow, t);
      return Replied(status);
    }

    method UnFollowFound(client: Client, toUnFollow: Client) returns (outcome: Outcome)
      requires Valid() && Known(client) && Known(toUnFollow)
      modifies this`graph, this`userinfo, client, toUnFollow
      ensures Valid()
      ensures var r := UnFollowReq(client.username, toUnFollow.username);
              && outcome == OutcomeOf(old(graph), r)
              && graph == Serve(old(graph), r)
              && userinfo == old(userinfo) + LogOf(zone, old(graph), r)
    {
      assert userinfo + "" == userinfo;
      if client == toUnFollow {
        return Replied(FAILURE_INVALID);
      }
      var index := IndexOfFollowing(client, toUnFollow);
      assert Mirrors(client.username);
      LinkedNames(clients, client.following, graph.accounts[client.username].following);
      if index < 0 {
        return Replied(FAILURE_NOT_A_FOLLOWER);
      }
      var ok := EraseFollow(client, toUnFollow);
      if !ok {
        return Fault;
      }
      Write("unfollow " + client.username + " " + toUnFollow.username + "\n");
      return Replied(SUCCESS);
    }

    method UnFollow(a: string, b: string, fromServer: bool)
      returns (outcome: Outcome, sent: seq<Destination>)
      requires Valid() && alive
      modifies this`graph, this`userinfo, this`alive, clients.Values
      ensures Valid() && View() == R.Step(zone, old(View()), R.Ask(UnFollowReq(a, b)))
      ensures outcome == OutcomeOf(old(graph), UnFollowReq(a, b))
      ensures sent == if outcome == Fault then [] else Destinations(master, fromServer)
    {
      sent := [];
      outcome := UnFollowByName(a, b);
      if outcome == Fault {
        Die();
      } else {
        sent := Propogate(fromServer);
      }
      AskIsStep(zone, old(View()), View(), UnFollowReq(a, b));
    }

    method UnFollowByName(a: string, b: string) returns (outcome: Outcome)
      requires Valid()
      modifies this`graph, this`userinfo, clients.Values
      ensures Valid()
      ensures var r := UnFollowReq(a, b);
              && outcome == OutcomeOf(old(graph), r)
              && graph == Serve(old(graph), r)
              && userinfo == old(userinfo) + LogOf(zone, old(graph), r)
    {
      var client := GetClient(a, false);
      var toUnFollow := GetClient(b, false);
      if toUnFollow == null || client == null {
        assert userinfo + "" == userinfo;
        return Fault;
      }
      outcome := UnFollowFound(client, toUnFollow);
    }

    // ---- replication helpers: these validate nothing ----

    method LoginHelper(user: string)
      requires Valid()
      modifies this`clientDb, this`clients, this`graph, clients.Values
      ensures Valid() && graph == Enter(old(graph), user) && fresh(clients.Values - old(clients.Values))
    {
      var client := GetClient(user, true);
      PushClient(client);
    }

    method FollowHelper(user1: string, user2: string, timestampStr: string)
      requires Valid() && alive
      modifies this`graph, this`alive, clients.Values
      ensures Valid()
      ensures match ReplayFollow(zone, old(graph), user1, user2, timestampStr)
              case Some(g) => alive && graph == g
              case None => !alive
    {
      var client := GetClient(user1, false);
      var toFollow := GetClient(user2, false);
      var t := zone.Read(timestampStr);
      if t.None? || client == null || toFollow == null {
        Die();
      } else {
        PushEdge(client, toFollow, t.value);
      }
    }

    method UnfollowHelper(user1: string, user2: string)
      requires Valid() && alive
      modifies this`graph, this`alive, clients.Values
      ensures Valid()
      ensures match RemoveEdge(old(graph), user1, user2)
              case Some(g) => alive && graph == g
              case None => !alive
    {
      hide IndexOf;
      var client := GetClient(user1, false);
      var toUnFollow := GetClient(user2, false);
      var ok := false;
      assert clients.Keys == graph.accounts.Keys;
      if client != null && toUnFollow != null {
        ok := EraseFollow(client, toUnFollow);
      }
      if !ok {
        Die();
      }
    }

    /** The body of the loop over the lines of the userinfo file. */
    method ProcessLine(line: string)
      requires Valid() && alive
      modifies this`clientDb, this`clients, this`graph, this`alive, clients.Values
      ensures Valid() && fresh(clients.Values - old(clients.Values))
      ensures match ReplayLine(zone, old(graph), line)
              case Some(g) => alive && graph == g
              case None => !alive
    {
      var args := Split(line, ' ');
      if args == [] {
        Die();
      } else if args[0] == "user" {
        if |args| < 2 { Die(); } else { LoginHelper(args[1]); }
      } else if args[0] == "follow" {
        if |args| < 4 { Die(); } else { FollowHelper(args[1], args[2], args[3]); }
      } else if args[0] == "unfollow" {
        if |args| < 3 { Die(); } else { UnfollowHelper(args[1], args[2]); }
      }
    }

    method ProcessUserInfoFromFile(filedata: string, save: bool)
      requires Valid() && alive
      modifies this`clientDb, this`clients, this`graph, this`alive, this`userinfo, clients.Values
      ensures Valid() && fresh(clients.Values - old(clients.Values))
      ensures match ReplayLines(zone, old(graph), GetLines(filedata, '\n'))
              case Some(g) => alive && graph == g
              case None => !alive
      ensures var lines := GetLines(filedata, '\n');
              var done := Replayed(zone, old(graph), lines);
              userinfo == old(userinfo) + if save then Unlines(lines[..done]) else ""
    {
      hide ReplayLine, ReplayLines, Unlines, SNSServer.Valid, GetLines, Replayed;
      var lines := Split(filedata, '\n');
      NothingYet(zone, old(graph), lines[..0]);
      assert userinfo == userinfo + "";
      for i := 0 to |lines|
        invariant Valid() && alive && fresh(clients.Values - old(clients.Values))
        invariant ReplayLines(zone, old(graph), lines[..i]) == Some(graph)
        invariant userinfo == old(userinfo) + if save then Unlines(lines[..i]) else ""
      {
        OneLineMore(zone, old(graph), lines, i);
        ProcessLine(lines[i]);
        if !alive {
          DeadForever(zone, old(graph), lines, i + 1);
          ReplayedIs(zone, old(graph), lines, i);
          return;
        }
        if save {
          Regroup(old(userinfo), Unlines(lines[..i]), lines[i] + "\n");
          Write(lines[i] + "\n");
        }
      }
      assert lines[..|lines|] == lines;
      ReplayedIs(zone, old(graph), lines, |lines|);
    }

    // ---- posts ----

    /** Memory and file come before the author's followers are visited; `shown`
        are those to whose streams the message is written. */
    method AddPostHelper(post: Post, client: Client?, writeToFile: bool) returns (shown: seq<Client>)
      requires Valid() && alive
      requires client == if post.username in clients then clients[post.username] else null
      modifies this`allPosts, this`postlog, this`alive
      ensures Valid() && alive == (post.username in graph.accounts)
      ensures allPosts == old(allPosts) + [post]
      ensures postlog == if writeToFile then old(postlog) + PostText(zone, post) else old(postlog)
      ensures shown == if client == null then [] else Streaming(client.followers)
    {
      shown := [];
      allPosts := allPosts + [post];
      if writeToFile {
        postlog := postlog + PostText(zone, post);
      }
      if client == null {
        alive := false;
        return;
      }
      for i := 0 to |client.followers|
        invariant shown == Streaming(client.followers[..i])
      {
        assert client.followers[..i + 1][..i] == client.followers[..i];
        assert shown + [] == shown;
        if client.followers[i].streaming {
          shown := shown + [client.followers[i]];
        }
      }
      assert client.followers[..|client.followers|] == client.followers;
    }

    /** Who sees a post by `author`: the followers that have joined their timelines. */
    ghost function Audience(author: string): seq<Client>
      reads this, clients.Values, if author in clients then clients[author].followers else []
    {
      if author in clients then Streaming(clients[author].followers) else []
    }

    method AddPost(post: Post) returns (shown: seq<Client>)
      requires Valid() && alive
      modifies this`allPosts, this`postlog, this`alive
      ensures Valid() && View() == R.Step(zone, old(View()), R.AddPost(post))
      ensures shown == Audience(post.username)
    {
      hide SNSServer.Valid, PostText, Streaming;
      var client := GetClient(post.username, false);
      shown := AddPostHelper(post, client, true);
    }

    /** The first message on a stream joins the timeline. */
    method JoinTimeline(client: Client) returns (timelinePosts: seq<Post>)
      requires Valid() && Known(client) && |client.following| == |client.times|
      modifies client`streaming
      ensures Valid() && client.streaming
      ensures var acc := graph.accounts[client.username];
              |acc.following| == |acc.times| && timelinePosts == FollowingPosts(acc, allPosts, 20)
    {
      client.streaming := true;
      timelinePosts := GetFollowingPosts(client, 20);
    }

    /** A later message is a post; a master forwards what it adds. */
    method Chat(client: Client, post: Post) returns (sent: seq<Destination>, shown: seq<Client>)
      requires Valid() && alive && Known(client) && client.username == post.username
      modifies this`allPosts, this`postlog, this`alive
      ensures Valid() && View() == R.Step(zone, old(View()), R.Chat(post))
      ensures sent == if post.data != "" then Destinations(master, false) else []
      ensures shown == if post.data != "" then Audience(post.username) else []
    {
      hide PostText, Streaming;
      sent, shown := [], [];
      if post.data != "" {
        shown := AddPostHelper(post, client, true);
        if master {
          sent := Propogate(false);
        }
      }
    }

    /** Whether the user has opened its timeline stream. */
    ghost predicate OnTimeline(username: string)
      reads this`clients, clients.Values
    {
      username in clients && clients[username].streaming
    }

    /** One message on a timeline stream: the first of a user opens the stream and
        is answered with its newest posts, the later ones are posts unless empty,
        and a message of a stranger kills the server. */
    method TimelineMessage(post: Post)
      returns (sent: seq<Destination>, shown: seq<Client>, timelinePosts: seq<Post>)
      requires Valid() && alive
      requires post.username in clients ==>
                 |clients[post.username].following| == |clients[post.username].times|
      modifies this`allPosts, this`postlog, this`alive, clients.Values`streaming
      ensures Valid() && (alive <==> post.username in clients)
      ensures var joins := post.username in clients && !old(OnTimeline(post.username));
              && View() == (if joins then old(View()) else R.Step(zone, old(View()), R.Chat(post)))
              && timelinePosts == if joins then FollowingPosts(graph.accounts[post.username], allPosts, 20) else []
      ensures forall u | u in clients :: clients[u].streaming <==> old(clients[u].streaming) || u == post.username
      ensures var posted := old(OnTimeline(post.username)) && post.data != "";
              && sent == (if posted then Destinations(master, false) else [])
              && shown == if posted then Audience(post.username) else []
    {
      sent, shown, timelinePosts := [], [], [];
      var client := GetClient(post.username, false);
      if client == null {
        Die();
      } else if !client.streaming {
        timelinePosts := JoinTimeline(client);
      } else {
        sent, shown := Chat(client, post);
      }
    }

    /** The body of the loop over the tokens of the post file. */
    method ProcessToken(token: string, save: bool)
      requires Valid() && alive
      modifies this`allPosts, this`postlog, this`alive
      ensures Valid()
      ensures alive == (!ParseToken(zone, token).Broken? && R.AuthorsIn(graph, Read(zone, token)))
      ensures allPosts == old(allPosts) + Read(zone, token)
      ensures postlog == old(postlog) + if save then PostsText(zone, Read(zone, token)) else ""
    {
      hide SNSServer.Valid, PostText, Tokens, Streaming;
      assert allPosts + [] == allPosts && postlog + "" == postlog;
      OneText(zone, token);
      var postParts := SplitString(token, "\n");
      if |postParts| > 0 {
        if |postParts| < 3 || |postParts[0]| < 2 || |postParts[1]| < 2 || |postParts[2]| < 2 {
          Die();
          return;
        }
        var timestamp := zone.Read(postParts[0][2..]);
        if timestamp.None? {
          Die();
          return;
        }
        var username := postParts[1][2..];
        var client := GetClient(username, false);
        var content := postParts[2][2..];
        var _ := AddPostHelper(Post(username, content, timestamp.value), client, save);
      }
    }

    method UpdatePostsFromFile(filedata: string, save: bool)
      requires Valid() && alive
      modifies this`allPosts, this`postlog, this`alive
      ensures Valid() && alive == PostsLive(zone, graph, Tokens(filedata, "\n\n"))
      ensures var stored := Stored(zone, graph, Tokens(filedata, "\n\n"));
              && allPosts == old(allPosts) + stored
              && postlog == old(postlog) + if save then PostsText(zone, stored) else ""
    {
      hide SNSServer.Valid, Tokens, PostsLive, Stored;
      var postTokens := SplitString(filedata, "\n\n");
      NothingStored(zone, graph, postTokens[..0]);
      ghost var done: seq<Post> := [];
      assert postlog + "" == postlog && allPosts + [] == allPosts;
      for i := 0 to |postTokens|
        invariant Valid() && alive && PostsLive(zone, graph, postTokens[..i])
        invariant done == Stored(zone, graph, postTokens[..i])
        invariant allPosts == old(allPosts) + done
        invariant postlog == old(postlog) + if save then PostsText(zone, done) else ""
      {
        ghost var more := Read(zone, postTokens[i]);
        OneMoreToken(zone, graph, postTokens, i);
        ProcessToken(postTokens[i], save);
        Regroup(old(allPosts), done, more);
        Regroup(old(postlog), PostsText(zone, done), PostsText(zone, more));
        Regroup(old(postlog), "", "");
        done := done + more;
        if !alive {
          DeadPosts(zone, graph, postTokens, i + 1);
          return;
        }
      }
      assert postTokens[..|postTokens|] == postTokens;
    }

    // ---- starting ----

    /** `initializeData`; `reply` is what the server at the sync address returns
        from `GetLog`, and `None` stands for an empty sync address. */
    method InitializeData(reply: Option<(string, string)>)
      requires Valid() && alive && graph == EMPTY_GRAPH && allPosts == []
      modifies this, clients.Values
      ensures Valid()
      ensures var started := if reply.Some? then R.StartFromLog(zone, reply.value)
                             else R.StartFromFiles(zone, old(userinfo), old(postlog));
              if alive then started == Some(View()) else started.None?
    {
      var userText, postText, save := "", "", false;
      match reply {
        case None =>
          userText, postText := R.ReadLocal(userinfo), R.ReadLocal(postlog);
        case Some(log) =>
          userinfo, postlog := "", "";
          userText, postText, save := log.0, log.1, true;
      }
      Replay(userText, postText, save);
    }

    method Replay(userText: string, postText: string, save: bool)
      requires Valid() && alive && graph == EMPTY_GRAPH && allPosts == []
      requires save ==> userinfo == "" && postlog == ""
      modifies this, clients.Values
      ensures Valid()
      ensures alive == R.Recover(zone, userText, postText).Some?
      ensures alive ==>
                && R.Recover(zone, userText, postText) == Some((graph, allPosts))
                && userinfo == (if save then Unlines(GetLines(userText, '\n')) else old(userinfo))
                && postlog == if save then PostsText(zone, allPosts) else old(postlog)
    {
      hide *;
      RecoverIs(zone, userText, postText);
      ProcessUserInfoFromFile(userText, save);
      if alive {
        UpdatePostsFromFile(postText, save);
      }
    }

    // ---- the timeline ----

    /** `find(following->begin(), following->end(), author)`. */
    method FindAuthor(c: Client, author: Client?) returns (idx: int)
      ensures -1 <= idx < |c.following|
      ensures idx >= 0 ==> c.following[idx] == author && author !in c.following[..idx]
      ensures idx < 0 ==> author !in c.following
    {
      for i := 0 to |c.following|
        invariant author !in c.following[..i]
      {
        if c.following[i] == author {
          return i;
        }
      }
      return -1;
    }

    /** Whether `post` belongs in the timeline of `c`. */
    method Shows(c: Client, post: Post) returns (b: bool)
      requires Valid() && Known(c) && |c.following| == |c.times|
      ensures var acc := graph.accounts[c.username];
              |acc.following| == |acc.times| && b == Selected(acc, post)
    {
      assert Mirrors(c.username);
      LinkedNames(clients, c.following, graph.accounts[c.username].following);
      var author := GetClient(post.username, false);
      var idx := FindAuthor(c, author);
      if idx < 0 {
        NotFollowed(clients, c.following, post.username);
        return false;
      }
      assert author.username == post.username;
      assert forall k | 0 <= k < idx :: c.following[k] in c.following[..idx];
      FirstIndex(Names(c.following), post.username, idx);
      var followTime := c.times[idx];
      return post.timestamp.After(followTime);
    }

    method GetFollowingPosts(c: Client, maxPosts: int) returns (timelinePosts: seq<Post>)
      requires Valid() && Known(c) && |c.following| == |c.times|
      ensures var acc := graph.accounts[c.username];
              |acc.following| == |acc.times| && timelinePosts == FollowingPosts(acc, allPosts, maxPosts)
    {
      hide FollowingPosts, Selected, SNSServer.Valid;
      SameTimes(c);
      ghost var acc := graph.accounts[c.username];
      timelinePosts := [];
      var left := maxPosts;
      var i := |allPosts| - 1;
      assert allPosts[..|allPosts|] == allPosts;
      while i >= 0 && left > 0
        invariant -1 <= i < |allPosts|
        invariant Completes(timelinePosts, FollowingPosts(acc, allPosts[..i + 1], left),
                            FollowingPosts(acc, allPosts, maxPosts))
      {
        ScanStep(acc, allPosts, i, left);
        var shows := Shows(c, allPosts[i]);
        if shows {
          CollectMore(timelinePosts, [allPosts[i]], FollowingPosts(acc, allPosts[..i], left - 1),
                      FollowingPosts(acc, allPosts, maxPosts));
          timelinePosts := timelinePosts + [allPosts[i]];
          left := left - 1;
        }
        i := i - 1;
      }
      NothingToShow(acc, allPosts[..i + 1], left);
      assert timelinePosts + [] == timelinePosts;
    }

    lemma SameTimes(c: Client)
      requires Valid() && Known(c)
      ensures c.username in graph.accounts
      ensures var acc := graph.accounts[c.username];
              |acc.following| == |c.following| && |acc.times| == |c.times|
    {
      assert Mirrors(c.username);
    }
  }

  lemma AskIsStep(z: Zone, s: R.Server, s': R.Server, r: Request)
    requires s.alive && s'.posts == s.posts && s'.postlog == s.postlog
    requires s'.graph == Serve(s.graph, r) && s'.userinfo == s.userinfo + LogOf(z, s.graph, r)
    requires s'.alive == (OutcomeOf(s.graph, r) != Fault)
    ensures s' == R.Step(z, s, R.Ask(r))
  {
    assert s.userinfo + "" == s.userinfo;
  }

  lemma NothingYet(z: Zone, g: Graph, lines: seq<string>)
    requires lines == []
    ensures ReplayLines(z, g, lines) == Some(g) && Unlines(lines) == ""
  {
  }

  lemma OneLineMore(z: Zone, g: Graph, lines: seq<string>, i: nat)
    requires i < |lines|
    ensures ReplayLines(z, g, lines[..i + 1]) ==
            match ReplayLines(z, g, lines[..i])
            case Some(g') => ReplayLine(z, g', lines[i])
            case None => None
    ensures Unlines(lines[..i + 1]) == Unlines(lines[..i]) + (lines[i] + "\n")
  {
    assert lines[..i + 1][..i] == lines[..i];
  }

  /** A replay that has died stays dead. */
  lemma {:induction false} DeadForever(z: Zone, g: Graph, lines: seq<string>, i: nat)
    requires i <= |lines| && ReplayLines(z, g, lines[..i]).None?
    ensures ReplayLines(z, g, lines).None?
    decreases |lines|
  {
    if i == |lines| {
      assert lines[..i] == lines;
    } else {
      assert lines[..|lines| - 1][..i] == lines[..i];
      DeadForever(z, g, lines[..|lines| - 1], i);
    }
  }

  /** How many lines are replayed before the server dies, or all of them. */
  function Replayed(z: Zone, g: Graph, lines: seq<string>): (n: nat)
    ensures n <= |lines| && ReplayLines(z, g, lines[..n]).Some?
    ensures n == |lines| <==> ReplayLines(z, g, lines).Some?
  {
    assert lines[..|lines|] == lines;
    if ReplayLines(z, g, lines).Some? then |lines|
    else
      var n := Replayed(z, g, lines[..|lines| - 1]);
      assert lines[..|lines| - 1][..n] == lines[..n];
      n
  }

  lemma {:induction false} ReplayedIs(z: Zone, g: Graph, lines: seq<string>, i: nat)
    requires i <= |lines| && ReplayLines(z, g, lines[..i]).Some?
    requires i < |lines| ==> ReplayLines(z, g, lines[..i + 1]).None?
    ensures Replayed(z, g, lines) == i
    decreases |lines|
  {
    if i == |lines| {
      assert lines[..i] == lines;
    } else {
      DeadForever(z, g, lines, i + 1);
      var before := lines[..|lines| - 1];
      assert before[..i] == lines[..i];
      assert i < |before| ==> before[..i + 1] == lines[..i + 1];
      ReplayedIs(z, g, before, i);
    }
  }

  function Read(z: Zone, token: string): seq<Post>
  {
    match ParseToken(z, token)
    case Readable(p) => [p]
    case _ => []
  }

  /** The server survives reading these tokens. */
  predicate PostsLive(z: Zone, g: Graph, tokens: seq<string>)
  {
    var r := ParseTokens(z, tokens);
    r.Some? && R.AuthorsIn(g, r.value)
  }

  /** The posts stored by the time the tokens are read or the server has died:
      one whose author is missing is stored before it kills the server. */
  function Stored(z: Zone, g: Graph, tokens: seq<string>): seq<Post>
  {
    if tokens == [] then []
    else
      var before := tokens[..|tokens| - 1];
      Stored(z, g, before) + if PostsLive(z, g, before) then Read(z, tokens[|tokens| - 1]) else []
  }

  lemma NothingStored(z: Zone, g: Graph, tokens: seq<string>)
    requires tokens == []
    ensures Stored(z, g, tokens) == [] && PostsLive(z, g, tokens)
  {
  }

  /** What a server that lives has stored is what the file says. */
  lemma {:induction false} LivePostsAreStored(z: Zone, g: Graph, tokens: seq<string>)
    requires PostsLive(z, g, tokens)
    ensures Some(Stored(z, g, tokens)) == ParseTokens(z, tokens)
    decreases |tokens|
  {
    if tokens != [] {
      var n := |tokens| - 1;
      ParsePrefix(z, tokens, n);
      var part, all := ParseTokens(z, tokens[..n]).value, ParseTokens(z, tokens).value;
      assert forall k | 0 <= k < |part| :: part[k] == all[k];
      LivePostsAreStored(z, g, tokens[..n]);
      assert part + [] == part;
    }
  }

  /** A start succeeds exactly if neither file kills the server, and what it has
      then read and stored is all of both. */
  lemma RecoverIs(z: Zone, userText: string, postText: string)
    ensures var lines, tokens := GetLines(userText, '\n'), Tokens(postText, "\n\n");
            var g := ReplayLines(z, EMPTY_GRAPH, lines);
            && R.Recover(z, userText, postText) ==
                 (if g.Some? && PostsLive(z, g.value, tokens) then Some((g.value, [] + Stored(z, g.value, tokens)))
                  else None)
            && (g.Some? ==> lines[..Replayed(z, EMPTY_GRAPH, lines)] == lines)
            && (g.Some? && PostsLive(z, g.value, tokens) ==>
                  [] + Stored(z, g.value, tokens) == Stored(z, g.value, tokens))
  {
    hide Tokens, GetLines, ReplayLines;
    var lines, tokens := GetLines(userText, '\n'), Tokens(postText, "\n\n");
    var g := ReplayLines(z, EMPTY_GRAPH, lines);
    assert lines[..|lines|] == lines;
    if g.Some? && PostsLive(z, g.value, tokens) {
      LivePostsAreStored(z, g.value, tokens);
      assert [] + Stored(z, g.value, tokens) == Stored(z, g.value, tokens);
    }
  }

  lemma OneMoreToken(z: Zone, g: Graph, tokens: seq<string>, i: nat)
    requires i < |tokens| && PostsLive(z, g, tokens[..i])
    ensures var done, read := Stored(z, g, tokens[..i]), Read(z, tokens[i]);
            && (PostsLive(z, g, tokens[..i + 1]) <==> !ParseToken(z, tokens[i]).Broken? && R.AuthorsIn(g, read))
            && Stored(z, g, tokens[..i + 1]) == done + read
            && PostsText(z, done + read) == PostsText(z, done) + PostsText(z, read)
  {
    hide ParseToken, PostsText, R.AuthorsIn;
    assert tokens[..i + 1][..i] == tokens[..i];
    LivePostsAreStored(z, g, tokens[..i]);
    var done := Stored(z, g, tokens[..i]);
    LogAppend(z, done, Read(z, tokens[i]));
    AuthorsAppend(g, done, Read(z, tokens[i]));
    assert done + [] == done;
  }

  lemma AuthorsAppend(g: Graph, a: seq<Post>, b: seq<Post>)
    ensures R.AuthorsIn(g, a + b) <==> R.AuthorsIn(g, a) && R.AuthorsIn(g, b)
  {
    assert forall i | 0 <= i < |a| :: (a + b)[i] == a[i];
    assert forall i | 0 <= i < |b| :: (a + b)[|a| + i] == b[i];
  }

  lemma OneText(z: Zone, token: string)
    ensures var r := ParseToken(z, token);
            PostsText(z, Read(z, token)) == if r.Readable? then PostText(z, r.post) else ""
  {
    match ParseToken(z, token) {
      case Readable(p) =>
        assert [p][..0] == [];
        assert "" + PostText(z, p) == PostText(z, p);
      case _ =>
    }
  }

  lemma ParsePrefix(z: Zone, tokens: seq<string>, i: nat)
    requires i <= |tokens|
    ensures var all, part := ParseTokens(z, tokens), ParseTokens(z, tokens[..i]);
            all.Some? ==> part.Some? && part.value <= all.value
  {
    ParseTokensAppend(z, tokens[..i], tokens[i..]);
    assert tokens == tokens[..i] + tokens[i..];
  }

  /** Once a token or an author is bad, nothing more is stored. */
  lemma {:induction false} DeadPosts(z: Zone, g: Graph, tokens: seq<string>, i: nat)
    requires i <= |tokens| && !PostsLive(z, g, tokens[..i])
    ensures !PostsLive(z, g, tokens) && Stored(z, g, tokens) == Stored(z, g, tokens[..i])
    decreases |tokens|
  {
    if i == |tokens| {
      assert tokens[..i] == tokens;
    } else {
      var before := tokens[..|tokens| - 1];
      assert before[..i] == tokens[..i];
      DeadPosts(z, g, before, i);
      DeadStaysDead(z, g, tokens);
      assert Stored(z, g, before) + [] == Stored(z, g, before);
    }
  }

  lemma DeadStaysDead(z: Zone, g: Graph, tokens: seq<string>)
    requires tokens != [] && !PostsLive(z, g, tokens[..|tokens| - 1])
    ensures !PostsLive(z, g, tokens)
  {
    ParsePrefix(z, tokens, |tokens| - 1);
    var part, all := ParseTokens(z, tokens[..|tokens| - 1]), ParseTokens(z, tokens);
    if part.Some? && all.Some? {
      var k :| 0 <= k < |part.value| && part.value[k].username !in g.accounts;
      assert all.value[k] == part.value[k];
    }
  }

  lemma {:induction false} StreamingOnce(cs: seq<Client>)
    requires NoDup(cs)
    ensures NoDup(Streaming(cs))
    decreases |cs|
  {
    if cs != [] {
      var n := |cs| - 1;
      assert cs[n] !in cs[..n];
      StreamingOnce(cs[..n]);
    }
  }

  /** A post is shown once to every user on a timeline who follows its author, and
      to nobody else; the author does not see it. */
  lemma {:induction false} AudienceIs(s: SNSServer, author: string)
    requires s.Valid() && GraphOk(s.graph) && author in s.clients
    ensures NoDup(s.Audience(author)) && s.clients[author] !in s.Audience(author)
    ensures forall f | f in s.clients :: s.clients[f] in s.Audience(author) <==>
                         s.clients[f].streaming && author in s.graph.accounts[f].following
  {
    hide Streaming;
    var names, cs := s.graph.accounts[author].followers, s.clients[author].followers;
    assert s.Mirrors(author) && AccountOk(s.graph, author);
    assert forall i | 0 <= i < |cs| :: cs[i].username == names[i];
    StreamingOnce(cs);
    assert EdgeOk(s.graph, author, author);
    forall f | f in s.clients
      ensures s.clients[f] in cs <==> author in s.graph.accounts[f].following
    {
      assert EdgeOk(s.graph, f, author);
      if f in names {
        var i :| 0 <= i < |names| && names[i] == f;
        assert cs[i] == s.clients[f];
      }
    }
  }

  lemma NotFollowed(clients: Directory, following: seq<Client>, name: string)
    requires NamesTrue(clients) && forall c | c in following :: c.username in clients && clients[c.username] == c
    requires name in clients ==> clients[name] !in following
    ensures name !in Names(following)
  {
    assert forall i | 0 <= i < |following| :: following[i] in following;
  }

  lemma FirstIndex(s: seq<string>, x: string, i: nat)
    requires i < |s| && s[i] == x && x !in s[..i]
    ensures IndexOf(s, x) == i
  {
    var k := IndexOf(s, x);
    assert forall j | 0 <= j < i :: s[j] in s[..i];
    assert forall j | 0 <= j < k :: s[j] in s[..k];
  }
}
