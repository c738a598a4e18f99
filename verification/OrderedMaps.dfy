/** `std::map<int, V>` iterates in ascending key order. */
module OrderedMaps {
  predicate IsLeast(s: set<int>, m: int)
  {
    m in s && forall x | x in s :: m <= x
  }

  lemma AnyOf<T>(s: set<T>) returns (a: T)
    requires s != {}
    ensures a in s
  {
    a :| a in s;
  }

  lemma {:induction false} HasLeast(s: set<int>)
    requires |s| > 0
    ensures exists m :: IsLeast(s, m)
  {
    var a := AnyOf(s);
    var rest := s - {a};
    if |rest| == 0 {
      assert s == {a};
      assert IsLeast(s, a);
    } else {
      HasLeast(rest);
      var m :| IsLeast(rest, m);
      assert s == rest + {a};
      assert IsLeast(s, if a < m then a else m);
    }
  }

  lemma SameSize<S, T>(m: map<int, S>, m': map<int, T>)
    requires m.Keys == m'.Keys
    ensures |m| == |m'|
  {
    assert |m.Keys| == |m| && |m'.Keys| == |m'|;
  }

  predicate Increasing(ks: seq<int>)
  {
    forall i, j | 0 <= i < j < |ks| :: ks[i] < ks[j]
  }

  function Ascending(s: set<int>): (ks: seq<int>)
    ensures forall k :: k in ks <==> k in s
  {
    if |s| == 0 then []
    else
      HasLeast(s);
      var m :| IsLeast(s, m);
      [m] + Ascending(s - {m})
  }

  lemma {:induction false} AscendingIncreases(s: set<int>)
    ensures Increasing(Ascending(s))
    decreases |s|
  {
    if |s| > 0 {
      HasLeast(s);
      var m :| IsLeast(s, m);
      var rest := Ascending(s - {m});
      AscendingIncreases(s - {m});
      forall j | 0 <= j < |rest| ensures m < rest[j] {
        assert rest[j] in s - {m};
      }
    }
  }
}
