/** Types and sequence facts shared by the component models. */
module Common {

  datatype Option<+T> = None | Some(value: T)

  datatype Result<+T, +E> = Ok(value: T) | Err(error: E)

  function Min(a: real, b: real): real {
    if a <= b then a else b
  }

  function Max(a: real, b: real): real {
    if a >= b then a else b
  }

  predicate NoRepeats<T(==)>(s: seq<T>) {
    forall i, j | 0 <= i < j < |s| :: s[i] != s[j]
  }

  /** The last `n` items of `s`; all of `s` when it is shorter, nothing when `n` is not positive. */
  function LastN<T>(s: seq<T>, n: int): (r: seq<T>)
    ensures n >= 0 ==> |r| <= n
    ensures |r| <= |s|
  {
    if n <= 0 then [] else if |s| <= n then s else s[|s| - n..]
  }

  /** How many, and which. */
  lemma LastNIs<T>(s: seq<T>, n: int)
    ensures |LastN(s, n)| == if n <= 0 then 0 else if |s| <= n then |s| else n
    ensures exists before :: s == before + LastN(s, n)
  {
    assert s == s[..|s| - |LastN(s, n)|] + LastN(s, n);
  }

  /** A bounded append (push, then evict the oldest past `n`) computes the last `n` of the unbounded history. */
  lemma LastNAppend<T>(s: seq<T>, x: T, n: nat)
    ensures LastN(s + [x], n) == LastN(LastN(s, n) + [x], n)
  {
    if n > 0 && |s| >= n {
      assert (s + [x])[|s| + 1 - n..] == s[|s| + 1 - n..] + [x];
      assert (LastN(s, n) + [x])[1..] == s[|s| - n..][1..] + [x];
    }
  }

  /** Taking a shorter tail of a tail is the shorter tail of the whole. */
  lemma LastNOfLastN<T>(s: seq<T>, n: nat, m: int)
    ensures LastN(LastN(s, n), m) == LastN(s, if m < n then m else n)
  {
  }

  /** Every one of the last `n` items is in the tail. */
  lemma InTail<T>(s: seq<T>, n: nat, i: nat)
    requires |s| - n <= i < |s|
    ensures s[i] in LastN(s, n)
  {
    assert LastN(s, n)[if |s| <= n then i else i - (|s| - n)] == s[i];
  }

  /** So an item that is not in the tail is further back. */
  lemma OutsideTail<T>(s: seq<T>, n: nat, i: nat)
    requires i < |s| && s[i] !in LastN(s, n)
    ensures |s| - i > n
  {
    forall j: nat | |s| - n <= j < |s|
      ensures s[j] in LastN(s, n)
    {
      InTail(s, n, j);
    }
  }

  /** `a` can be read off `b` in order by leaving items out. */
  ghost predicate Subsequence<T>(a: seq<T>, b: seq<T>)
    decreases |b|
  {
    if a == [] then true
    else if b == [] then false
    else
      || (a[|a| - 1] == b[|b| - 1] && Subsequence(a[..|a| - 1], b[..|b| - 1]))
      || Subsequence(a, b[..|b| - 1])
  }

  /** Positions of `b`, in increasing order, at which `a` is read off. */
  ghost predicate ReadsOff<T>(a: seq<T>, b: seq<T>, at: seq<nat>) {
    && |at| == |a|
    && (forall i | 0 <= i < |at| :: at[i] < |b| && a[i] == b[at[i]])
    && (forall i, j | 0 <= i < j < |at| :: at[i] < at[j])
  }

  lemma {:induction false} SubsequenceMeans<T>(a: seq<T>, b: seq<T>) returns (at: seq<nat>)
    requires Subsequence(a, b)
    ensures ReadsOff(a, b, at)
    decreases |b|
  {
    if a == [] {
      at := [];
    } else if Subsequence(a, b[..|b| - 1]) {
      at := SubsequenceMeans(a, b[..|b| - 1]);
    } else {
      at := SubsequenceMeans(a[..|a| - 1], b[..|b| - 1]);
      at := at + [|b| - 1];
    }
  }

  lemma SubsequenceKeep<T>(a: seq<T>, b: seq<T>, x: T)
    requires Subsequence(a, b)
    ensures Subsequence(a + [x], b + [x])
  {
    assert (a + [x])[..|a|] == a && (b + [x])[..|b|] == b;
  }

  lemma SubsequenceSkip<T>(a: seq<T>, b: seq<T>, x: T)
    requires Subsequence(a, b)
    ensures Subsequence(a, b + [x])
  {
    assert (b + [x])[..|b|] == b;
  }

  lemma {:induction false} SubsetSize<T>(a: set<T>, b: set<T>)
    requires a <= b
    ensures |a| <= |b|
  {
    if a != {} {
      var x :| x in a;
      SubsetSize(a - {x}, b - {x});
    }
  }

  lemma Pick<T>(s: set<T>) returns (x: T)
    requires s != {}
    ensures x in s
  {
    x :| x in s;
  }

  lemma {:induction false} LeastOf(keys: set<int>) returns (k: int)
    requires keys != {}
    ensures k in keys && forall j | j in keys :: k <= j
  {
    var x := Pick(keys);
    k := x;
    if keys - {x} != {} {
      var m := LeastOf(keys - {x});
      k := if x < m then x else m;
    }
    assert forall j | j in keys :: j == x || j in keys - {x};
  }

  lemma {:induction false} GreatestOf(keys: set<int>) returns (k: int)
    requires keys != {}
    ensures k in keys && forall j | j in keys :: j <= k
  {
    var x := Pick(keys);
    k := x;
    if keys - {x} != {} {
      var m := GreatestOf(keys - {x});
      k := if x > m then x else m;
    }
    assert forall j | j in keys :: j == x || j in keys - {x};
  }
}
