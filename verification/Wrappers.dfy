/** What every module uses: optional values, bytes, and one fact about sequences. */
module Wrappers {
  datatype Option<+T> = None | Some(value: T) {
    function GetOr(default: T): T {
      match this
      case Some(v) => v
      case None => default
    }
  }

  type Bytes = seq<bv8>

  lemma Associate<T>(a: seq<T>, b: seq<T>, c: seq<T>)
    ensures (a + b) + c == a + (b + c)
  {
  }

  /** `out` is what `f` reads in `xs`, in order; `at` gives the place of each value read, and misses none. */
  ghost predicate Picks<A, B>(xs: seq<A>, f: A -> Option<B>, out: seq<B>, at: seq<nat>) {
    && |at| == |out|
    && (forall i :: 0 <= i < |at| ==> at[i] < |xs| && f(xs[at[i]]) == Some(out[i]))
    && (forall i, j :: 0 <= i < j < |at| ==> at[i] < at[j])
    && (forall k: nat :: Caught(xs, f, at, k))
  }

  /** If `f` reads something at place `k`, that place is among those given. */
  ghost predicate Caught<A, B>(xs: seq<A>, f: A -> Option<B>, at: seq<nat>, k: nat) {
    k < |xs| && f(xs[k]).Some? ==> k in at
  }

  lemma PicksLast<A, B>(xs: seq<A>, f: A -> Option<B>, out: seq<B>, at: seq<nat>) returns (at': seq<nat>)
    requires xs != [] && Picks(xs[..|xs| - 1], f, out, at)
    ensures at' == if f(xs[|xs| - 1]).Some? then at + [|xs| - 1] else at
    ensures Picks(xs, f, match f(xs[|xs| - 1]) case Some(v) => out + [v] case None => out, at')
  {
    if f(xs[|xs| - 1]).Some? {
      at' := at + [|xs| - 1];
      PicksMore(xs, f, out, at);
    } else {
      at' := at;
      PicksSame(xs, f, out, at);
    }
  }

  lemma PicksSame<A, B>(xs: seq<A>, f: A -> Option<B>, out: seq<B>, at: seq<nat>)
    requires xs != [] && Picks(xs[..|xs| - 1], f, out, at) && f(xs[|xs| - 1]).None?
    ensures Picks(xs, f, out, at)
  {
    var init := xs[..|xs| - 1];
    forall i | 0 <= i < |at|
      ensures at[i] < |xs| && f(xs[at[i]]) == Some(out[i])
    {
      assert init[at[i]] == xs[at[i]];
    }
    forall k: nat
      ensures Caught(xs, f, at, k)
    {
      assert Caught(init, f, at, k);
    }
  }

  lemma PicksMore<A, B>(xs: seq<A>, f: A -> Option<B>, out: seq<B>, at: seq<nat>)
    requires xs != [] && Picks(xs[..|xs| - 1], f, out, at) && f(xs[|xs| - 1]).Some?
    ensures Picks(xs, f, out + [f(xs[|xs| - 1]).value], at + [|xs| - 1])
  {
    var n, init := |xs| - 1, xs[..|xs| - 1];
    var at', out' := at + [n], out + [f(xs[n]).value];
    forall i | 0 <= i < |at'|
      ensures at'[i] < |xs| && f(xs[at'[i]]) == Some(out'[i]) && (i < |at| ==> at'[i] < n)
    {
      if i < |at| {
        assert at[i] < |init| && init[at[i]] == xs[at[i]];
      }
    }
    forall k: nat
      ensures Caught(xs, f, at', k)
    {
      assert Caught(init, f, at, k);
      assert at'[|at|] == n;
    }
  }

  lemma PicksAppend<A, B>(xs: seq<A>, x: A, f: A -> Option<B>, out: seq<B>, at: seq<nat>) returns (at': seq<nat>)
    requires Picks(xs, f, out, at)
    ensures Picks(xs + [x], f, match f(x) case Some(v) => out + [v] case None => out, at')
  {
    assert (xs + [x])[..|xs + [x]| - 1] == xs;
    at' := PicksLast(xs + [x], f, out, at);
  }

  lemma PicksSkip<A, B>(xs: seq<A>, x: A, f: A -> Option<B>, out: seq<B>, at: seq<nat>)
    requires Picks(xs, f, out, at) && f(x).None?
    ensures Picks(xs + [x], f, out, at)
  {
    assert (xs + [x])[..|xs + [x]| - 1] == xs;
    PicksSame(xs + [x], f, out, at);
  }

  /** Where `f` reads something, and which of the values read that is. */
  lemma PickOf<A, B>(xs: seq<A>, f: A -> Option<B>, out: seq<B>, at: seq<nat>, k: nat) returns (i: nat)
    requires Picks(xs, f, out, at) && k < |xs| && f(xs[k]).Some?
    ensures i < |at| && at[i] == k && f(xs[k]) == Some(out[i])
  {
    assert Caught(xs, f, at, k);
    i :| 0 <= i < |at| && at[i] == k;
  }

  /** A value is among those read exactly when `f` reads it somewhere. */
  lemma PicksMembers<A, B(!new)>(xs: seq<A>, f: A -> Option<B>, out: seq<B>, at: seq<nat>)
    requires Picks(xs, f, out, at)
    ensures forall v :: v in out <==> exists k :: 0 <= k < |xs| && f(xs[k]) == Some(v)
  {
    forall v
      ensures v in out <==> exists k :: 0 <= k < |xs| && f(xs[k]) == Some(v)
    {
      if v in out {
        var i :| 0 <= i < |out| && out[i] == v;
        assert f(xs[at[i]]) == Some(v);
      }
      if k :| 0 <= k < |xs| && f(xs[k]) == Some(v) {
        var i := PickOf(xs, f, out, at, k);
      }
    }
  }

  /** `f` reads `r` at place `k` and nothing at a later one. */
  ghost predicate LastAt<A, B>(xs: seq<A>, f: A -> Option<B>, k: nat, r: B) {
    && k < |xs| && f(xs[k]) == Some(r)
    && forall j :: k < j < |xs| ==> f(xs[j]).None?
  }

  /** `r` is the last value `f` reads in `xs`. */
  ghost predicate IsLast<A, B>(xs: seq<A>, f: A -> Option<B>, r: Option<B>) {
    match r
    case Some(v) => exists k :: LastAt(xs, f, k, v)
    case None => forall j :: 0 <= j < |xs| ==> f(xs[j]).None?
  }

  lemma LastStep<A, B>(xs: seq<A>, f: A -> Option<B>, r: Option<B>)
    requires xs != [] && IsLast(xs[..|xs| - 1], f, r)
    ensures IsLast(xs, f, if f(xs[|xs| - 1]).Some? then f(xs[|xs| - 1]) else r)
  {
    var init := xs[..|xs| - 1];
    if f(xs[|xs| - 1]).Some? {
      assert LastAt(xs, f, |xs| - 1, f(xs[|xs| - 1]).value);
    } else if r.Some? {
      var k :| LastAt(init, f, k, r.value);
      assert LastAt(xs, f, k, r.value);
    } else {
      forall j | 0 <= j < |xs| ensures f(xs[j]).None? {
        assert j < |xs| - 1 ==> init[j] == xs[j];
      }
    }
  }

  lemma LastIsUnique<A, B>(xs: seq<A>, f: A -> Option<B>, r: Option<B>, s: Option<B>)
    requires IsLast(xs, f, r) && IsLast(xs, f, s)
    ensures r == s
  {
  }
}
