/** The training allow-list and the toggle the training menu applies to it. */
module Training {
  import opened Types

  /** The allow-list the application starts with. */
  const InitialConfig: seq<ObstacleType> := [Normal]

  /** No obstacle type occurs twice. */
  predicate NoDuplicates(s: seq<ObstacleType>) {
    forall i, j :: 0 <= i < j < |s| ==> s[i] != s[j]
  }

  /** r can be obtained from s by deleting elements, the rest keeping their order. */
  predicate IsSubsequence(r: seq<ObstacleType>, s: seq<ObstacleType>)
    decreases |s|
  {
    if r == [] then true
    else if s == [] then false
    else if r[0] == s[0] then IsSubsequence(r[1..], s[1..])
    else IsSubsequence(r, s[1..])
  }

  /** The list filtered to the elements different from t. */
  function Without(s: seq<ObstacleType>, t: ObstacleType): (r: seq<ObstacleType>)
    ensures |r| <= |s|
    ensures t !in r
    ensures forall u :: u != t ==> (u in r <==> u in s)
  {
    if s == [] then []
    else if s[0] == t then Without(s[1..], t)
    else [s[0]] + Without(s[1..], t)
  }

  /** The training menu's toggle: drop every copy of t when it is listed, append it when not. */
  function Toggle(config: seq<ObstacleType>, t: ObstacleType): (r: seq<ObstacleType>)
    ensures t in r <==> t !in config
    ensures forall u :: u != t ==> (u in r <==> u in config)
    ensures t !in config ==> |r| == |config| + 1 && r[..|config|] == config && r[|config|] == t
  {
    if t in config then Without(config, t) else config + [t]
  }

  /** Filtering keeps every other element as often as it occurred and drops every t. */
  lemma {:induction false} WithoutCounts(s: seq<ObstacleType>, t: ObstacleType)
    ensures multiset(Without(s, t)) == multiset(s)[t := 0]
  {
    if s != [] {
      WithoutCounts(s[1..], t);
      assert s == [s[0]] + s[1..];
    }
  }

  /** Filtering keeps the surviving elements in their original order. */
  lemma {:induction false} WithoutIsSubsequence(s: seq<ObstacleType>, t: ObstacleType)
    ensures IsSubsequence(Without(s, t), s)
  {
    if s != [] {
      WithoutIsSubsequence(s[1..], t);
      if s[0] == t {
        SubsequenceOfTail(Without(s[1..], t), s);
      } else {
        var r := [s[0]] + Without(s[1..], t);
        assert r[1..] == Without(s[1..], t);
      }
    }
  }

  /** A subsequence of the tail of s is a subsequence of s. */
  lemma {:induction false} SubsequenceOfTail(r: seq<ObstacleType>, s: seq<ObstacleType>)
    requires s != []
    requires IsSubsequence(r, s[1..])
    ensures IsSubsequence(r, s)
    decreases |s|, |r|
  {
    if r != [] && r[0] == s[0] {
      DropHead(r, s[1..]);
    }
  }

  /** Dropping the first element of a subsequence leaves a subsequence. */
  lemma {:induction false} DropHead(r: seq<ObstacleType>, s: seq<ObstacleType>)
    requires r != []
    requires IsSubsequence(r, s)
    ensures IsSubsequence(r[1..], s)
    decreases |s|, |r|
  {
    if r[0] == s[0] {
      SubsequenceOfTail(r[1..], s);
    } else {
      DropHead(r, s[1..]);
      SubsequenceOfTail(r[1..], s);
    }
  }

  /** Filtering a list that does not hold t changes nothing. */
  lemma {:induction false} WithoutAbsent(s: seq<ObstacleType>, t: ObstacleType)
    requires t !in s
    ensures Without(s, t) == s
  {
    if s != [] {
      assert s[0] != t;
      WithoutAbsent(s[1..], t);
      assert s == [s[0]] + s[1..];
    }
  }

  /** Filtering distributes over concatenation. */
  lemma {:induction false} WithoutConcat(a: seq<ObstacleType>, b: seq<ObstacleType>, t: ObstacleType)
    ensures Without(a + b, t) == Without(a, t) + Without(b, t)
  {
    if a != [] {
      WithoutConcat(a[1..], b, t);
      assert (a + b)[1..] == a[1..] + b;
    } else {
      assert a + b == b;
    }
  }

  /** Filtering a duplicate-free list leaves it duplicate-free. */
  lemma {:induction false} WithoutKeepsNoDuplicates(s: seq<ObstacleType>, t: ObstacleType)
    requires NoDuplicates(s)
    ensures NoDuplicates(Without(s, t))
  {
    if s != [] {
      assert NoDuplicates(s[1..]) by {
        forall i, j | 0 <= i < j < |s[1..]| ensures s[1..][i] != s[1..][j] {
          assert s[1..][i] == s[i + 1] && s[1..][j] == s[j + 1];
        }
      }
      WithoutKeepsNoDuplicates(s[1..], t);
      if s[0] != t {
        var rest := Without(s[1..], t);
        assert s[0] !in s[1..] by {
          forall k | 0 <= k < |s[1..]| ensures s[1..][k] != s[0] {
            assert s[1..][k] == s[k + 1];
          }
        }
        assert s[0] !in rest;
        ConsKeepsNoDuplicates(s[0], rest);
      }
    }
  }

  /** Prepending an element the list lacks keeps it duplicate-free. */
  lemma ConsKeepsNoDuplicates(x: ObstacleType, s: seq<ObstacleType>)
    requires NoDuplicates(s) && x !in s
    ensures NoDuplicates([x] + s)
  {
    var r := [x] + s;
    forall i, j | 0 <= i < j < |r| ensures r[i] != r[j] {
      assert r[j] == s[j - 1];
      if i > 0 {
        assert r[i] == s[i - 1];
      }
    }
  }

  /** Toggling a listed type removes every copy of it and keeps the rest in order. */
  lemma TogglePresent(config: seq<ObstacleType>, t: ObstacleType)
    requires t in config
    ensures multiset(Toggle(config, t)) == multiset(config)[t := 0]
    ensures IsSubsequence(Toggle(config, t), config)
  {
    WithoutCounts(config, t);
    WithoutIsSubsequence(config, t);
  }

  /** Toggling an unlisted type twice gives back exactly the original list. */
  lemma ToggleTwiceRestores(config: seq<ObstacleType>, t: ObstacleType)
    requires t !in config
    ensures Toggle(Toggle(config, t), t) == config
  {
    assert t in config + [t];
    WithoutConcat(config, [t], t);
    WithoutAbsent(config, t);
    assert Without([t], t) == [];
  }

  /** A duplicate-free list stays duplicate-free under a toggle. */
  lemma ToggleKeepsNoDuplicates(config: seq<ObstacleType>, t: ObstacleType)
    requires NoDuplicates(config)
    ensures NoDuplicates(Toggle(config, t))
  {
    if t in config {
      WithoutKeepsNoDuplicates(config, t);
    } else {
      var r := config + [t];
      forall i, j | 0 <= i < j < |r| ensures r[i] != r[j] {
        if j == |config| {
          assert r[i] == config[i];
        } else {
          assert r[i] == config[i] && r[j] == config[j];
        }
      }
    }
  }

  /** The list after toggling each type of ts in turn. */
  function ToggleAll(config: seq<ObstacleType>, ts: seq<ObstacleType>): (r: seq<ObstacleType>)
    decreases |ts|
  {
    if ts == [] then config else ToggleAll(Toggle(config, ts[0]), ts[1..])
  }

  /** Every allow-list the training menu can produce from the initial one is duplicate-free. */
  lemma {:induction false} ReachableConfigsHaveNoDuplicates(config: seq<ObstacleType>, ts: seq<ObstacleType>)
    requires NoDuplicates(config)
    ensures NoDuplicates(ToggleAll(config, ts))
    decreases |ts|
  {
    if ts != [] {
      ToggleKeepsNoDuplicates(config, ts[0]);
      ReachableConfigsHaveNoDuplicates(Toggle(config, ts[0]), ts[1..]);
    }
  }
}
