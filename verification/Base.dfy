/** Vocabulary shared by every component of the model. */
module Base {

  datatype Option<+T> = None | Some(value: T)

  /** What an attempted step of a state machine does.  `AssertFails` is a
      failing ASSERT in the kernel: the machine stops. */
  datatype Outcome<+S> = Next(state: S) | Disabled | AssertFails

  ghost predicate Distinct<T>(s: seq<T>) {
    forall i, j :: 0 <= i < j < |s| ==> s[i] != s[j]
  }

  lemma DistinctAppend<T>(s: seq<T>, x: T)
    requires Distinct(s) && x !in s
    ensures Distinct(s + [x])
  {
  }

  /** Adding a new element to a set makes it one larger. */
  lemma CardAdd<T>(s: set<T>, t: set<T>, x: T)
    requires x !in s && t == s + {x}
    ensures |t| == |s| + 1
  {
  }

  lemma {:induction false} CardSubset<T>(s: set<T>, t: set<T>)
    requires s <= t
    ensures |s| <= |t|
  {
    if s == {} {
    } else {
      var x :| x in s;
      CardSubset(s - {x}, t - {x});
    }
  }

  lemma TakeSlice<T>(s: seq<T>, n: nat, a: nat, b: nat)
    requires a <= b <= n <= |s|
    ensures s[..n][a..b] == s[a..b]
  {
    var u, v := s[..n][a..b], s[a..b];
    forall i | 0 <= i < |u| ensures u[i] == v[i] {
      assert u[i] == s[..n][a + i] == s[a + i];
    }
  }

  /** What is on its way, carried from one step to the next. */
  lemma Carry<T>(all: seq<T>, done: seq<T>, going: seq<T>, coming: seq<T>, more: seq<T>, going': seq<T>)
    requires all == done + going && going + coming == more + going'
    ensures all + coming == done + more + going'
  {
    assert all + coming == done + (going + coming);
    assert done + more + going' == done + (more + going');
  }
}
