/**
 * The newest-first ordering both lists use: a copy sorted with the
 * comparator `time(b) - time(a)`. `Array.prototype.sort` is stable, so items
 * with equal times keep their relative order.
 */
module NewestFirst {

  predicate Descending<T>(s: seq<T>, time: T -> int) {
    forall i, j :: 0 <= i < j < |s| ==> time(s[i]) >= time(s[j])
  }

  /** `x` placed in front of the first item that is not newer than it. */
  function Insert<T>(x: T, s: seq<T>, time: T -> int): (r: seq<T>)
    ensures |r| == |s| + 1
    ensures multiset(r) == multiset(s) + multiset{x}
  {
    if s == [] || time(x) >= time(s[0]) then [x] + s
    else
      assert s == [s[0]] + s[1..];
      [s[0]] + Insert(x, s[1..], time)
  }

  /** Inserting into a newest-first list keeps it newest first. */
  lemma {:induction false} InsertKeepsOrder<T>(x: T, s: seq<T>, time: T -> int)
    requires Descending(s, time)
    ensures Descending(Insert(x, s, time), time)
  {
    if s != [] && time(x) < time(s[0]) {
      var rest := Insert(x, s[1..], time);
      InsertKeepsOrder(x, s[1..], time);
      forall j | 0 <= j < |rest|
        ensures time(s[0]) >= time(rest[j])
      {
        assert rest[j] in multiset(rest);
        if rest[j] != x {
          assert rest[j] in multiset(s[1..]);
          var k :| 0 <= k < |s[1..]| && s[1..][k] == rest[j];
          assert s[k + 1] == rest[j];
        }
      }
      var r := [s[0]] + rest;
      forall i, j | 0 <= i < j < |r|
        ensures time(r[i]) >= time(r[j])
      {
        if i > 0 {
          assert r[i] == rest[i - 1] && r[j] == rest[j - 1];
        } else {
          assert r[j] == rest[j - 1];
        }
      }
    }
  }

  /** The sorted copy. */
  function Sort<T>(s: seq<T>, time: T -> int): (r: seq<T>)
    ensures |r| == |s|
    ensures multiset(r) == multiset(s)
    ensures Descending(r, time)
  {
    if s == [] then []
    else
      assert s == [s[0]] + s[1..];
      InsertKeepsOrder(s[0], Sort(s[1..], time), time);
      Insert(s[0], Sort(s[1..], time), time)
  }

  /** The items with time `t`, in their order. */
  function WithTime<T>(s: seq<T>, time: T -> int, t: int): seq<T> {
    if s == [] then [] else (if time(s[0]) == t then [s[0]] else []) + WithTime(s[1..], time, t)
  }

  lemma {:induction false} InsertKeepsTies<T>(x: T, s: seq<T>, time: T -> int, t: int)
    ensures WithTime(Insert(x, s, time), time, t) == WithTime([x] + s, time, t)
  {
    if s != [] && time(x) < time(s[0]) {
      var rest := Insert(x, s[1..], time);
      InsertKeepsTies(x, s[1..], time, t);
      assert ([s[0]] + rest)[1..] == rest;
      assert ([x] + s[1..])[1..] == s[1..];
      assert ([x] + s)[1..] == s;
    }
  }

  /** Stability: the items that share a time appear in the sorted copy in
      the order they had. */
  lemma {:induction false} SortIsStable<T>(s: seq<T>, time: T -> int, t: int)
    ensures WithTime(Sort(s, time), time, t) == WithTime(s, time, t)
  {
    if s != [] {
      SortIsStable(s[1..], time, t);
      InsertKeepsTies(s[0], Sort(s[1..], time), time, t);
      assert ([s[0]] + Sort(s[1..], time))[1..] == Sort(s[1..], time);
    }
  }
}
