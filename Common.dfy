/** Values shared by every part of the model: optional values, points in time,
    and the table helpers that stand for the database's row order, LINQ's `Where`
    and `Take`, and the identity column that numbers new rows. */
module Common {

  /** A nullable value. */
  datatype Option<+T> = None | Some(value: T)

  /** The number of 100-nanosecond ticks in a day. */
  const TicksPerDay: int := 864_000_000_000

  /** A time within one day, in ticks. */
  type TimeOfDay = t: int | 0 <= t < TicksPerDay

  /** A point in time. `date` numbers the calendar day (what `DateTime.Date`
      keeps); `timeOfDay` is the time within that day, so every instant has
      exactly one representation. */
  datatype DateTime = DateTime(date: int, timeOfDay: TimeOfDay)

  lemma HasElement(s: set<int>)
    requires s != {}
    ensures exists y :: y in s
  {
    if forall y :: y !in s {
      assert false;
    }
  }

  lemma LeastOf(s: set<int>) returns (m: int)
    requires s != {}
    ensures m in s && forall x :: x in s ==> m <= x
    decreases |s|
  {
    HasElement(s);
    var y :| y in s;
    var smaller := set x | x in s && x < y;
    if smaller == {} {
      m := y;
      forall x | x in s ensures m <= x {
        assert x < y ==> x in smaller;
      }
    } else {
      var larger := s - smaller;
      assert y in larger;
      assert s == smaller + larger && smaller !! larger;
      assert |larger| > 0;
      m := LeastOf(smaller);
      forall x | x in s ensures m <= x {
        assert x < y ==> x in smaller;
      }
    }
  }

  lemma LeastExists(s: set<int>)
    requires s != {}
    ensures exists m :: m in s && forall x :: x in s ==> m <= x
  {
    var m := LeastOf(s);
  }

  /** The smallest key of a non-empty key set. */
  function Least(s: set<int>): (m: int)
    requires s != {}
    ensures m in s && forall x :: x in s ==> m <= x
  {
    LeastExists(s);
    var m :| m in s && forall x :: x in s ==> m <= x; m
  }

  /** The keys of a table in ascending order: the order in which the database
      returns the rows of a table scan that has no `OrderBy`. */
  function SortedKeys(s: set<int>): (r: seq<int>)
    ensures |r| == |s|
    ensures forall k :: k in r <==> k in s
    ensures forall i, j :: 0 <= i < j < |r| ==> r[i] < r[j]
    decreases |s|
  {
    if s == {} then []
    else
      var m := Least(s);
      var rest := SortedKeys(s - {m});
      LeastInFront(s, m, rest);
      [m] + rest
  }

  /** The least key of a set in front of the ascending keys of the rest is the
      ascending keys of the whole set. */
  lemma LeastInFront(s: set<int>, m: int, rest: seq<int>)
    requires m in s && forall x :: x in s ==> m <= x
    requires |rest| == |s - {m}|
    requires forall k :: k in rest <==> k in s - {m}
    requires forall i, j :: 0 <= i < j < |rest| ==> rest[i] < rest[j]
    ensures |[m] + rest| == |s|
    ensures forall k :: k in [m] + rest <==> k in s
    ensures forall i, j :: 0 <= i < j < |[m] + rest| ==> ([m] + rest)[i] < ([m] + rest)[j]
  {
    var r := [m] + rest;
    forall i, j | 0 <= i < j < |r| ensures r[i] < r[j] {
      assert r[j] == rest[j - 1] && r[j] in s - {m};
      if i > 0 { assert r[i] == rest[i - 1]; }
    }
  }

  /** The rows of a table, in ascending key order: row `i` is the record under
      the `i`-th smallest key. */
  function Rows<T>(m: map<int, T>): (r: seq<T>)
    ensures |r| == |m|
    ensures |SortedKeys(m.Keys)| == |r| && forall i :: 0 <= i < |r| ==> r[i] == m[SortedKeys(m.Keys)[i]]
  {
    var ks := SortedKeys(m.Keys);
    assert forall i :: 0 <= i < |ks| ==> ks[i] in m.Keys;
    var r := seq(|ks|, i requires 0 <= i < |ks| => m[ks[i]]);
    r
  }

  /** Every record of a table is one of its rows. */
  lemma RowOfKey<T>(m: map<int, T>, k: int)
    requires k in m
    ensures m[k] in Rows(m)
  {
    var ks := SortedKeys(m.Keys);
    var i :| 0 <= i < |ks| && ks[i] == k;
    assert Rows(m)[i] == m[k];
  }

  /** Every row of a table is the record under some key. */
  lemma KeyOfRow<T>(m: map<int, T>, x: T)
    requires x in Rows(m)
    ensures exists k :: k in m && m[k] == x
  {
    var i :| 0 <= i < |Rows(m)| && Rows(m)[i] == x;
    assert m[SortedKeys(m.Keys)[i]] == x;
  }

  /** In a strictly ascending sequence a smaller element sits at a smaller index. */
  lemma AscendingIndexOrder(ks: seq<int>, a: int, b: int)
    requires forall i, j :: 0 <= i < j < |ks| ==> ks[i] < ks[j]
    requires 0 <= a < |ks| && 0 <= b < |ks| && ks[a] < ks[b]
    ensures a < b
  {
  }

  /** Rows before row `i` are exactly those under keys below the `i`-th key. */
  lemma KeysBeforeIndex<T>(m: map<int, T>, p: T -> bool, i: int)
    requires 0 <= i < |Rows(m)|
    requires forall j :: 0 <= j < i ==> !p(Rows(m)[j])
    ensures forall j :: j in m && j < SortedKeys(m.Keys)[i] ==> !p(m[j])
  {
    var ks := SortedKeys(m.Keys);
    forall j | j in m && j < ks[i] ensures !p(m[j]) {
      var i' :| 0 <= i' < |ks| && ks[i'] == j;
      AscendingIndexOrder(ks, i', i);
      assert Rows(m)[i'] == m[j];
    }
  }

  /** The row `FirstWhere` picks from a table's rows is the record under the
      smallest key that satisfies the condition. */
  lemma FirstRowHasLeastKey<T>(m: map<int, T>, p: T -> bool, first: Option<T>)
    requires first == FirstWhere(Rows(m), p) && first.Some?
    ensures exists k :: k in m && m[k] == first.value && p(m[k]) && forall j :: j in m && j < k ==> !p(m[j])
  {
    var i :| 0 <= i < |Rows(m)| && Rows(m)[i] == first.value && p(Rows(m)[i]) && forall j :: 0 <= j < i ==> !p(Rows(m)[j]);
    KeysBeforeIndex(m, p, i);
    assert m[SortedKeys(m.Keys)[i]] == first.value;
  }

  /** LINQ's `Where`: the elements of `s` that satisfy `p`, in their order. */
  function Filter<T>(s: seq<T>, p: T -> bool): (r: seq<T>)
    ensures |r| <= |s|
    ensures forall i :: 0 <= i < |r| ==> r[i] in s && p(r[i])
    ensures forall i :: 0 <= i < |s| && p(s[i]) ==> s[i] in r
  {
    if s == [] then []
    else if p(s[0]) then [s[0]] + Filter(s[1..], p)
    else Filter(s[1..], p)
  }

  /** Filtering keeps each element at most as often as `s` has it. */
  lemma {:induction false} FilterKeepsAtMost<T>(s: seq<T>, p: T -> bool)
    ensures multiset(Filter(s, p)) <= multiset(s)
  {
    if s != [] {
      assert s == [s[0]] + s[1..];
      FilterKeepsAtMost(s[1..], p);
    }
  }

  /** LINQ's `FirstOrDefault(p)`: the first element of `s` that satisfies `p`, if any. */
  function FirstWhere<T>(s: seq<T>, p: T -> bool): (r: Option<T>)
    ensures r.None? <==> forall i :: 0 <= i < |s| ==> !p(s[i])
    ensures r.Some? ==> exists i :: 0 <= i < |s| && s[i] == r.value && p(s[i]) && forall j :: 0 <= j < i ==> !p(s[j])
  {
    if s == [] then None
    else if p(s[0]) then Some(s[0])
    else
      var r := FirstWhere(s[1..], p);
      assert r.Some? ==> exists i :: 0 <= i < |s| && s[i] == r.value && p(s[i]) && forall j :: 0 <= j < i ==> !p(s[j]) by {
        if r.Some? {
          var i :| 0 <= i < |s| - 1 && s[1..][i] == r.value && p(s[1..][i]) && forall j :: 0 <= j < i ==> !p(s[1..][j]);
          assert forall j :: 0 <= j < i + 1 ==> !p(s[j]) by {
            forall j | 0 <= j < i + 1 ensures !p(s[j]) {
              if j > 0 { assert s[j] == s[1..][j - 1]; }
            }
          }
        }
      }
      assert r.None? ==> forall i :: 0 <= i < |s| ==> !p(s[i]) by {
        if r.None? {
          forall i | 0 <= i < |s| ensures !p(s[i]) {
            if i > 0 { assert s[i] == s[1..][i - 1]; }
          }
        }
      }
      r
  }

  /** A table query with a `Where` and no `OrderBy`: the records satisfying `p`,
      in key order. Every result is a record of the table satisfying `p`, and no
      such record is missed. */
  function Where<T(==)>(m: map<int, T>, p: T -> bool): (r: seq<T>)
    ensures |r| <= |m|
    ensures forall i :: 0 <= i < |r| ==> p(r[i]) && r[i] in m.Values
    ensures forall k :: k in m && p(m[k]) ==> m[k] in r
    ensures multiset(r) <= multiset(Rows(m))
  {
    var r := Filter(Rows(m), p);
    FilterKeepsAtMost(Rows(m), p);
    assert forall i :: 0 <= i < |r| ==> r[i] in m.Values by {
      forall i | 0 <= i < |r| ensures r[i] in m.Values {
        KeyOfRow(m, r[i]);
      }
    }
    assert forall k :: k in m && p(m[k]) ==> m[k] in r by {
      forall k | k in m && p(m[k]) ensures m[k] in r {
        RowOfKey(m, k);
      }
    }
    r
  }

  /** A table query with `FirstOrDefault(p)` and no `OrderBy`: the record under
      the smallest key that satisfies `p`, or none when no record does. */
  function FirstByKey<T>(m: map<int, T>, p: T -> bool): (r: Option<T>)
    ensures r.None? <==> forall k :: k in m ==> !p(m[k])
    ensures r.Some? ==> exists k :: k in m && m[k] == r.value && p(m[k]) && forall j :: j in m && j < k ==> !p(m[j])
  {
    var first := FirstWhere(Rows(m), p);
    if first.None? then
      assert forall k :: k in m ==> !p(m[k]) by {
        forall k | k in m ensures !p(m[k]) {
          RowOfKey(m, k);
        }
      }
      None
    else
      FirstRowHasLeastKey(m, p, first);
      first
  }

  /** LINQ's `Take(n)`: the first `n` elements, or all of them when there are fewer. */
  function Take<T>(s: seq<T>, n: nat): (r: seq<T>)
    ensures |r| <= n && r <= s
    ensures |s| <= n ==> r == s
    ensures n <= |s| ==> |r| == n
  {
    if |s| <= n then s else s[..n]
  }

  /** A prefix holds each element at most as often as the whole. */
  lemma TakeKeepsAtMost<T>(s: seq<T>, n: nat)
    ensures multiset(Take(s, n)) <= multiset(s)
  {
    if n < |s| {
      assert s == s[..n] + s[n..];
    }
  }

  /** No element occurs twice in `s`. */
  predicate NoRepeats<T(==)>(s: seq<T>) {
    forall i, j :: 0 <= i < j < |s| ==> s[i] != s[j]
  }

  /** In a table whose every record carries its own key, no row occurs twice. */
  lemma RowsHaveNoRepeats<T>(m: map<int, T>, key: T -> int)
    requires forall k :: k in m ==> key(m[k]) == k
    ensures NoRepeats(Rows(m))
  {
    var ks := SortedKeys(m.Keys);
    var r := Rows(m);
    forall i, j | 0 <= i < j < |r| ensures r[i] != r[j] {
      assert key(r[i]) == ks[i] && key(r[j]) == ks[j];
    }
  }

  /** A sequence without repeats holds each element at most once. */
  lemma {:induction false} AtMostOnce<T>(s: seq<T>, x: T)
    requires NoRepeats(s)
    ensures multiset(s)[x] <= 1
  {
    if s != [] {
      assert s == [s[0]] + s[1..];
      assert NoRepeats(s[1..]) by {
        forall i, j | 0 <= i < j < |s| - 1 ensures s[1..][i] != s[1..][j] {
          assert s[1..][i] == s[i + 1] && s[1..][j] == s[j + 1];
        }
      }
      AtMostOnce(s[1..], x);
      if s[0] == x {
        assert x !in s[1..] by {
          forall i | 0 <= i < |s| - 1 ensures s[1..][i] != x {
            assert s[1..][i] == s[i + 1];
          }
        }
      }
    }
  }

  /** Whatever holds each element at most as often as a sequence without
      repeats has no repeats either. */
  lemma NoRepeatsBelow<T>(s: seq<T>, r: seq<T>)
    requires NoRepeats(s) && multiset(r) <= multiset(s)
    ensures NoRepeats(r)
  {
    forall i, j | 0 <= i < j < |r| ensures r[i] != r[j] {
      if r[i] == r[j] {
        var x := r[i];
        assert r == r[..j] + r[j..];
        assert x in r[..j] && x in r[j..];
        assert multiset(r)[x] == multiset(r[..j])[x] + multiset(r[j..])[x];
        AtMostOnce(s, x);
        assert false;
      }
    }
  }

  /** A query result that holds each row at most as often as the table, over a
      table whose records carry their own keys, lists every record at most once. */
  lemma ResultHasNoRepeats<T>(m: map<int, T>, key: T -> int, r: seq<T>)
    requires forall k :: k in m ==> key(m[k]) == k
    requires multiset(r) <= multiset(Rows(m))
    ensures NoRepeats(r)
  {
    RowsHaveNoRepeats(m, key);
    NoRepeatsBelow(Rows(m), r);
  }

  /** A table query with a `Where`, no `OrderBy` and a `Take(n)`: at most `n`
      records, each a record of the table satisfying `p`; fewer than `n` only
      when no other record satisfies `p`. */
  function WhereTake<T(==)>(m: map<int, T>, p: T -> bool, n: nat): (r: seq<T>)
    ensures |r| <= n
    ensures forall i :: 0 <= i < |r| ==> p(r[i]) && r[i] in m.Values
    ensures |r| < n ==> forall k :: k in m && p(m[k]) ==> m[k] in r
    ensures multiset(r) <= multiset(Rows(m))
  {
    var all := Where(m, p);
    var r := Take(all, n);
    PrefixOfQuery(m, p, all, n);
    r
  }

  /** The first `n` results of a query keep its guarantees. */
  lemma PrefixOfQuery<T>(m: map<int, T>, p: T -> bool, all: seq<T>, n: nat)
    requires forall i :: 0 <= i < |all| ==> p(all[i]) && all[i] in m.Values
    requires forall k :: k in m && p(m[k]) ==> m[k] in all
    requires multiset(all) <= multiset(Rows(m))
    ensures forall i :: 0 <= i < |Take(all, n)| ==> p(Take(all, n)[i]) && Take(all, n)[i] in m.Values
    ensures |Take(all, n)| < n ==> forall k :: k in m && p(m[k]) ==> m[k] in Take(all, n)
    ensures multiset(Take(all, n)) <= multiset(Rows(m))
  {
    var r := Take(all, n);
    TakeKeepsAtMost(all, n);
    assert forall i :: 0 <= i < |r| ==> r[i] == all[i];
  }

  /** The key the identity column gives a newly added row: above every key in use. */
  function FreshKey<T>(m: map<int, T>): (k: int)
    ensures k > 0 && k !in m
    ensures forall j :: j in m ==> j < k
  {
    var ks := SortedKeys(m.Keys);
    if ks == [] then 1
    else
      var top := ks[|ks| - 1];
      assert forall j :: j in m ==> j <= top by {
        forall j | j in m ensures j <= top {
          var i :| 0 <= i < |ks| && ks[i] == j;
          assert i == |ks| - 1 || ks[i] < ks[|ks| - 1];
        }
      }
      if top + 1 > 0 then top + 1 else 1
  }
}
