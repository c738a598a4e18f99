/** server/src/SNSServer.cpp: which posts a user sees on joining the timeline. */
module Timeline {
  import opened Social

  /** Written by someone followed, and after the moment of following; the index
      into the times is the index in the following list. */
  predicate Selected(acc: Account, p: Post)
    requires |acc.following| == |acc.times|
  {
    var i := IndexOf(acc.following, p.username);
    i >= 0 && p.timestamp.After(acc.times[i])
  }

  function Reversed(ps: seq<Post>): seq<Post>
  {
    if ps == [] then [] else [ps[|ps| - 1]] + Reversed(ps[..|ps| - 1])
  }

  function Filtered(acc: Account, ps: seq<Post>): seq<Post>
    requires |acc.following| == |acc.times|
  {
    if ps == [] then []
    else (if Selected(acc, ps[0]) then [ps[0]] else []) + Filtered(acc, ps[1..])
  }

  function AtMost(n: int, ps: seq<Post>): seq<Post>
  {
    if n <= 0 then [] else if n < |ps| then ps[..n] else ps
  }

  /** `getFollowingPosts`: the newest `maxPosts` of the selected posts. */
  function FollowingPosts(acc: Account, posts: seq<Post>, maxPosts: int): seq<Post>
    requires |acc.following| == |acc.times|
  {
    AtMost(maxPosts, Filtered(acc, Reversed(posts)))
  }

  /** One step of the scan from the end. */
  lemma ScanStep(acc: Account, posts: seq<Post>, i: nat, n: int)
    requires |acc.following| == |acc.times| && i < |posts| && n > 0
    ensures FollowingPosts(acc, posts[..i + 1], n) ==
            if Selected(acc, posts[i]) then [posts[i]] + FollowingPosts(acc, posts[..i], n - 1)
            else FollowingPosts(acc, posts[..i], n)
  {
    var s := posts[..i + 1];
    assert s[|s| - 1] == posts[i] && s[..|s| - 1] == posts[..i];
    assert Reversed(s)[0] == posts[i] && Reversed(s)[1..] == Reversed(posts[..i]);
    var rest := Filtered(acc, Reversed(posts[..i]));
    assert [] + rest == rest;
  }

  /** A post is shown exactly if it is selected and fewer than `n` selected posts
      are newer. */
  function NewerSelected(acc: Account, posts: seq<Post>, i: nat): nat
    requires |acc.following| == |acc.times| && i < |posts|
  {
    |Filtered(acc, Reversed(posts[i + 1..]))|
  }

  lemma {:induction false} ReversedAppend(a: seq<Post>, b: seq<Post>)
    ensures Reversed(a + b) == Reversed(b) + Reversed(a)
    decreases |b|
  {
    if b == [] {
      assert a + b == a;
    } else {
      var n := |b| - 1;
      assert (a + b)[..|a + b| - 1] == a + b[..n];
      ReversedAppend(a, b[..n]);
    }
  }

  lemma {:induction false} FilteredAppend(acc: Account, a: seq<Post>, b: seq<Post>)
    requires |acc.following| == |acc.times|
    ensures Filtered(acc, a + b) == Filtered(acc, a) + Filtered(acc, b)
    decreases |a|
  {
    if a == [] {
      assert a + b == b;
    } else {
      assert (a + b)[1..] == a[1..] + b;
      FilteredAppend(acc, a[1..], b);
    }
  }

  /** Post `i` is shown exactly if it is selected and fewer than `n` selected
      posts are newer; it then stands after exactly those. */
  lemma ShownIff(acc: Account, posts: seq<Post>, n: nat, i: nat)
    requires |acc.following| == |acc.times| && i < |posts| && Selected(acc, posts[i])
    ensures var shown, k := FollowingPosts(acc, posts, n), NewerSelected(acc, posts, i);
            && |shown| <= n
            && (k < |shown| <==> k < n)
            && (k < n ==> shown[k] == posts[i])
  {
    var newer, older := posts[i + 1..], posts[..i];
    assert posts == older + ([posts[i]] + newer);
    ReversedAppend(older, [posts[i]] + newer);
    ReversedAppend([posts[i]], newer);
    assert [posts[i]][..0] == [] && Reversed([]) == [];
    assert Reversed([posts[i]]) == [posts[i]];
    var front := Reversed(newer) + [posts[i]];
    FilteredAppend(acc, front, Reversed(older));
    FilteredAppend(acc, Reversed(newer), [posts[i]]);
    assert [posts[i]][1..] == [] && Filtered(acc, []) == [];
    assert Filtered(acc, [posts[i]]) == [posts[i]];
  }

  /** Nothing else is shown. */
  lemma {:induction false} FilteredOnly(acc: Account, ps: seq<Post>)
    requires |acc.following| == |acc.times|
    ensures forall p | p in Filtered(acc, ps) :: p in ps && Selected(acc, p)
    decreases |ps|
  {
    if ps != [] {
      FilteredOnly(acc, ps[1..]);
    }
  }

  lemma {:induction false} ReversedOnly(ps: seq<Post>)
    ensures forall p | p in Reversed(ps) :: p in ps
    decreases |ps|
  {
    if ps != [] {
      ReversedOnly(ps[..|ps| - 1]);
    }
  }

  lemma ShownOnlyIf(acc: Account, posts: seq<Post>, n: int)
    requires |acc.following| == |acc.times|
    ensures forall p | p in FollowingPosts(acc, posts, n) :: p in posts && Selected(acc, p)
  {
    FilteredOnly(acc, Reversed(posts));
    ReversedOnly(posts);
  }

  // ---- the same without the search and the order of timestamps ----

  /** The account follows the author, and has done so since before the post. */
  ghost predicate Due(acc: Account, p: Post)
    requires |acc.following| == |acc.times|
  {
    exists k :: 0 <= k < |acc.following| && acc.following[k] == p.username
                && (p.timestamp.seconds > acc.times[k].seconds
                    || (p.timestamp.seconds == acc.times[k].seconds && p.timestamp.nanos > acc.times[k].nanos))
  }

  lemma SelectedIffDue(acc: Account, p: Post)
    requires |acc.following| == |acc.times| && NoDup(acc.following)
    ensures Selected(acc, p) <==> Due(acc, p)
  {
    var i := IndexOf(acc.following, p.username);
    forall k | 0 <= k < |acc.following| && acc.following[k] == p.username ensures i == k {
    }
  }

  ghost predicate Decreasing(at: seq<nat>)
  {
    forall j, k | 0 <= j < k < |at| :: at[j] > at[k]
  }

  /** `at` lists the places of the shown posts. */
  ghost predicate ShownAt(posts: seq<Post>, shown: seq<Post>, at: seq<nat>)
  {
    |at| == |shown| && Decreasing(at) && forall k | 0 <= k < |at| :: at[k] < |posts| && shown[k] == posts[at[k]]
  }

  /** What is shown are due posts, newest first; a due post that is not shown is
      older than all of them, and they are as many as asked for. */
  ghost predicate NewestDue(acc: Account, posts: seq<Post>, n: nat, shown: seq<Post>, at: seq<nat>)
    requires |acc.following| == |acc.times|
  {
    && |shown| <= n && ShownAt(posts, shown, at)
    && (forall k | 0 <= k < |at| :: Due(acc, posts[at[k]]))
    && (forall i: nat | i < |posts| && Due(acc, posts[i]) && i !in at ::
          |shown| == n && forall k | 0 <= k < |at| :: at[k] > i)
  }

  lemma OneMoreShown(acc: Account, older: seq<Post>, p: Post, n: nat, shown: seq<Post>, at: seq<nat>)
    requires |acc.following| == |acc.times| && NewestDue(acc, older, n, shown, at) && Due(acc, p)
    ensures NewestDue(acc, older + [p], n + 1, [p] + shown, [|older|] + at)
  {
    hide Due;
    var posts, at' := older + [p], [|older|] + at;
    assert forall k | 1 <= k < |at'| :: at'[k] == at[k - 1];
    forall i: nat | i < |posts| && Due(acc, posts[i]) && i !in at'
      ensures |shown| == n && forall k | 0 <= k < |at'| :: at'[k] > i
    {
      assert at'[0] in at' && (forall j | j in at :: j in at');
      assert i < |older| && posts[i] == older[i] && i !in at;
    }
  }

  lemma NoneMoreShown(acc: Account, older: seq<Post>, p: Post, n: nat, shown: seq<Post>, at: seq<nat>)
    requires |acc.following| == |acc.times| && NewestDue(acc, older, n, shown, at) && !Due(acc, p)
    ensures NewestDue(acc, older + [p], n, shown, at)
  {
    hide Due;
    assert forall i: nat | i < |older| :: (older + [p])[i] == older[i];
  }

  lemma {:induction false} TimelineIsNewestDue(acc: Account, posts: seq<Post>, n: nat) returns (at: seq<nat>)
    requires |acc.following| == |acc.times| && NoDup(acc.following)
    ensures NewestDue(acc, posts, n, FollowingPosts(acc, posts, n), at)
    decreases |posts|
  {
    if posts == [] || n == 0 {
      NothingToShow(acc, posts, n);
      at := [];
    } else {
      hide FollowingPosts, Due, Selected, NewestDue;
      var i: nat := |posts| - 1;
      assert posts[..i + 1] == posts == posts[..i] + [posts[i]];
      ScanStep(acc, posts, i, n);
      SelectedIffDue(acc, posts[i]);
      if Selected(acc, posts[i]) {
        at := TimelineIsNewestDue(acc, posts[..i], n - 1);
        OneMoreShown(acc, posts[..i], posts[i], n - 1, FollowingPosts(acc, posts[..i], n - 1), at);
        at := [i] + at;
      } else {
        at := TimelineIsNewestDue(acc, posts[..i], n);
        NoneMoreShown(acc, posts[..i], posts[i], n, FollowingPosts(acc, posts[..i], n), at);
      }
    }
  }

  lemma NothingToShow(acc: Account, posts: seq<Post>, n: int)
    requires |acc.following| == |acc.times| && (posts == [] || n <= 0)
    ensures FollowingPosts(acc, posts, n) == []
  {
  }
}
