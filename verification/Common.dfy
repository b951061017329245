/** Small shared vocabulary: an optional value and weighted sums over sequences. */
module Common {

  datatype Option<+T> = None | Some(value: T)

  /** The total weight of a sequence. */
  function Sum<T>(s: seq<T>, f: T -> nat): nat {
    if s == [] then 0 else Sum(s[..|s| - 1], f) + f(s[|s| - 1])
  }

  lemma {:induction false} SumAppend<T>(s: seq<T>, x: T, f: T -> nat)
    ensures Sum(s + [x], f) == Sum(s, f) + f(x)
  {
    assert (s + [x])[..|s|] == s;
  }

  lemma {:induction false} SumUpdate<T>(s: seq<T>, i: nat, x: T, f: T -> nat)
    requires i < |s|
    ensures Sum(s[i := x], f) == Sum(s, f) - f(s[i]) + f(x)
    decreases |s|
  {
    var n := |s| - 1;
    if i == n {
      assert s[i := x][..n] == s[..n];
    } else {
      SumUpdate(s[..n], i, x, f);
      assert s[i := x][..n] == s[..n][i := x];
    }
  }

  lemma {:induction false} SumAtLeast<T>(s: seq<T>, i: nat, f: T -> nat)
    requires i < |s|
    ensures f(s[i]) <= Sum(s, f)
    decreases |s|
  {
    if i < |s| - 1 {
      SumAtLeast(s[..|s| - 1], i, f);
    }
  }

  /** Two different positions both contribute to the total. */
  lemma {:induction false} SumAtLeastTwo<T>(s: seq<T>, i: nat, j: nat, f: T -> nat)
    requires i < j < |s|
    ensures f(s[i]) + f(s[j]) <= Sum(s, f)
    decreases |s|
  {
    if j == |s| - 1 {
      SumAtLeast(s[..|s| - 1], i, f);
    } else {
      SumAtLeastTwo(s[..|s| - 1], i, j, f);
    }
  }

  /** A positive total has a positive contributor. */
  lemma {:induction false} SumPositive<T>(s: seq<T>, f: T -> nat) returns (i: nat)
    requires 0 < Sum(s, f)
    ensures i < |s| && 0 < f(s[i])
    decreases |s|
  {
    if 0 < f(s[|s| - 1]) {
      i := |s| - 1;
    } else {
      i := SumPositive(s[..|s| - 1], f);
    }
  }

  lemma {:induction false} SumMonotone<T>(s: seq<T>, f: T -> nat, g: T -> nat)
    requires forall i :: 0 <= i < |s| ==> f(s[i]) <= g(s[i])
    ensures Sum(s, f) <= Sum(s, g)
    decreases |s|
  {
    if s != [] {
      var t := s[..|s| - 1];
      assert forall i :: 0 <= i < |t| ==> t[i] == s[i];
      SumMonotone(t, f, g);
    }
  }

  // Filters: the elements at some positions, in their order.

  /** `kept` are the elements of `all` at the positions `at`, in their order. */
  ghost predicate ArePicked<T>(all: seq<T>, at: set<nat>, picks: seq<nat>, kept: seq<T>) {
    && |picks| == |kept|
    && (forall i, j :: 0 <= i < j < |picks| ==> picks[i] < picks[j])
    && (forall i :: 0 <= i < |picks| ==> picks[i] < |all| && kept[i] == all[picks[i]])
    && (forall p :: p in picks <==> p in at)
  }

  /** Going on to position `n`, its element is passed over or put at the end. */
  ghost predicate Advances<T>(all: seq<T>, n: nat, at: set<nat>, kept: seq<T>, at': set<nat>, kept': seq<T>)
    requires n < |all|
  {
    && (forall p :: p in at ==> p < n)
    && ((at' == at && kept' == kept) || (at' == at + {n} && kept' == kept + [all[n]]))
  }

  lemma PickOneMore<T>(all: seq<T>, n: nat, at: set<nat>, picks: seq<nat>, kept: seq<T>)
    requires n < |all| && ArePicked(all, at, picks, kept) && forall p :: p in at ==> p < n
    ensures ArePicked(all, at + {n}, picks + [n], kept + [all[n]])
  {
    assert forall i :: 0 <= i < |picks| ==> picks[i] in at;
    assert forall p :: p in picks + [n] <==> p in picks || p == n;
  }

  lemma PickStep<T>(all: seq<T>, n: nat, at: set<nat>, before: seq<nat>, kept: seq<T>, at': set<nat>, kept': seq<T>)
    returns (picks: seq<nat>)
    requires n < |all| && ArePicked(all, at, before, kept) && Advances(all, n, at, kept, at', kept')
    ensures ArePicked(all, at', picks, kept')
  {
    if at' == at && kept' == kept {
      picks := before;
    } else {
      PickOneMore(all, n, at, before, kept);
      picks := before + [n];
    }
  }
}
