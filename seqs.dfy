/** Sequence folds shared by the scans over a directory listing. */
module Seqs {
  import opened Base

  /** The defined images of `xs` under `f`, in order: a loop that appends `f(x)` whenever it is defined. */
  function FilterMap<A, B>(f: A -> Option<B>, xs: seq<A>): (ys: seq<B>)
    ensures |ys| <= |xs|
  {
    if xs == [] then []
    else FilterMap(f, xs[..|xs| - 1]) + (match f(xs[|xs| - 1]) case None => [] case Some(y) => [y])
  }

  /** A sequence with no member is empty. */
  lemma EmptyWhenNoMember<T>(s: seq<T>)
    ensures (forall x :: x !in s) ==> s == []
  {
    if s != [] {
      assert s[0] in s;
    }
  }

  /** FilterMap distributes over concatenation, so it keeps the order of its input. */
  lemma {:induction false} FilterMapAppend<A, B>(f: A -> Option<B>, xs: seq<A>, zs: seq<A>)
    ensures FilterMap(f, xs + zs) == FilterMap(f, xs) + FilterMap(f, zs)
  {
    if zs != [] {
      var xz := xs + zs;
      assert xz[..|xz| - 1] == xs + zs[..|zs| - 1];
      FilterMapAppend(f, xs, zs[..|zs| - 1]);
    } else {
      assert xs + zs == xs;
    }
  }

  /** An element is produced exactly when some input maps to it. */
  lemma {:induction false} FilterMapMembership<A, B>(f: A -> Option<B>, xs: seq<A>, y: B)
    ensures y in FilterMap(f, xs) <==> exists i :: 0 <= i < |xs| && f(xs[i]) == Some(y)
  {
    if xs != [] {
      var init := xs[..|xs| - 1];
      FilterMapMembership(f, init, y);
      var inInit := exists i :: 0 <= i < |init| && f(init[i]) == Some(y);
      var inAll := exists i :: 0 <= i < |xs| && f(xs[i]) == Some(y);
      assert inAll <==> inInit || f(xs[|xs| - 1]) == Some(y) by {
        assert forall i :: 0 <= i < |init| ==> init[i] == xs[i];
      }
    }
  }

  /** A FilterMap that maps nothing is empty. */
  lemma {:induction false} FilterMapNone<A, B>(f: A -> Option<B>, xs: seq<A>)
    requires forall i :: 0 <= i < |xs| ==> f(xs[i]).None?
    ensures FilterMap(f, xs) == []
  {
    if xs != [] {
      var init := xs[..|xs| - 1];
      assert forall i :: 0 <= i < |init| ==> init[i] == xs[i];
      FilterMapNone(f, init);
    }
  }

  /** The first defined value of `f` at positions i, i+1, ..., n: a left-to-right search. */
  function FirstDefined<T>(f: nat -> Option<T>, i: nat, n: nat): Option<T>
    decreases n - i
  {
    if f(i).Some? then f(i)
    else if i >= n then None
    else FirstDefined(f, i + 1, n)
  }

  /** The search returns the value at the leftmost defined position, and None when there is none. */
  lemma {:induction false} FirstDefinedLeftmost<T>(f: nat -> Option<T>, i: nat, n: nat)
    requires i <= n
    ensures FirstDefined(f, i, n).Some? ==>
      exists p :: i <= p <= n && f(p) == FirstDefined(f, i, n) && forall q :: i <= q < p ==> f(q).None?
    ensures FirstDefined(f, i, n).None? ==> forall q :: i <= q <= n ==> f(q).None?
    decreases n - i
  {
    if f(i).None? && i < n {
      FirstDefinedLeftmost(f, i + 1, n);
      if FirstDefined(f, i, n).Some? {
        var p :| i + 1 <= p <= n && f(p) == FirstDefined(f, i + 1, n) && forall q :: i + 1 <= q < p ==> f(q).None?;
        assert forall q :: i <= q < p ==> f(q).None?;
      }
    }
  }
}
