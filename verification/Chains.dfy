/** The causes of runtime errors: each error object links to at most one that it replaced, and the link is set in place
    on an object that others may hold too. */
module Chains {
  import opened Values
  import opened Tasks

  type Causes = map<RuntimeError, RuntimeError>

  /** The error `n` links down the chain of `a`. */
  function Follow(c: Causes, a: RuntimeError, n: nat): Option<RuntimeError>
    decreases n
  {
    if n == 0 then Some(a) else if a in c then Follow(c, c[a], n - 1) else None
  }

  /** `b` is `a` itself or in its chain. */
  ghost predicate Linked(c: Causes, a: RuntimeError, b: RuntimeError) {
    exists n: nat :: Follow(c, a, n) == Some(b)
  }

  /** None of the first `n` errors of the chain of `a` is `r`. */
  predicate Avoids(c: Causes, a: RuntimeError, r: RuntimeError, n: nat) {
    forall k: nat | k < n :: Follow(c, a, k) != Some(r)
  }

  /** The chain of `a` comes to `b` before it comes to `r`. */
  ghost predicate LinkedWithout(c: Causes, a: RuntimeError, b: RuntimeError, r: RuntimeError) {
    exists n: nat :: Follow(c, a, n) == Some(b) && Avoids(c, a, r, n)
  }

  /** No chain comes back to where it started: what walks down a chain ends. */
  ghost predicate Acyclic(c: Causes) {
    forall a, n: nat | n > 0 :: Follow(c, a, n) != Some(a)
  }

  lemma {:induction false} FollowParts(c: Causes, a: RuntimeError, n: nat, m: nat)
    requires Follow(c, a, n).Some?
    ensures Follow(c, a, n + m) == Follow(c, Follow(c, a, n).value, m)
    decreases n
  {
    if n > 0 {
      FollowParts(c, c[a], n - 1, m);
    }
  }

  /** A new cause for `r` changes nothing above `r`. */
  lemma {:induction false} FollowAvoiding(c: Causes, a: RuntimeError, r: RuntimeError, cause: RuntimeError, n: nat)
    requires Avoids(c, a, r, n) || Avoids(c[r := cause], a, r, n)
    ensures Follow(c[r := cause], a, n) == Follow(c, a, n)
    decreases n
  {
    if n > 0 {
      assert Follow(c, a, 0) == Some(a) == Follow(c[r := cause], a, 0);
      if a in c {
        AvoidsBelow(c, a, r, n);
        AvoidsBelow(c[r := cause], a, r, n);
        FollowAvoiding(c, c[a], r, cause, n - 1);
      }
    }
  }

  lemma AvoidsBelow(c: Causes, a: RuntimeError, r: RuntimeError, n: nat)
    requires n > 0 && a in c
    ensures Avoids(c, a, r, n) ==> Avoids(c, c[a], r, n - 1)
  {
    forall k: nat | k < n - 1 ensures Follow(c, c[a], k) == Follow(c, a, k + 1) {}
  }

  /** What comes after the last time a chain comes to `r`. */
  lemma {:induction false} AfterLast(c: Causes, r: RuntimeError, a: RuntimeError, n: nat, b: RuntimeError)
    returns (m: nat)
    requires r in c && c[r] == a && Follow(c, a, n) == Some(b) && b != r
    ensures Follow(c, a, m) == Some(b) && Avoids(c, a, r, m)
    decreases n
  {
    if k: nat :| k < n && Follow(c, a, k) == Some(r) {
      FollowParts(c, a, k, n - k);
      m := AfterLast(c, r, a, n - k - 1, b);
    } else {
      m := n;
    }
  }

  /** Setting the cause of `r` to `a`: its chain then contains `b` exactly when it is `b`, or the chain of `a` comes to
      `b` without coming to `r` first. */
  lemma CauseReplaced(c: Causes, r: RuntimeError, a: RuntimeError, b: RuntimeError)
    ensures Linked(c[r := a], r, b) <==> r == b || LinkedWithout(c, a, b, r)
  {
    var c1 := c[r := a];
    if r == b {
      assert Follow(c1, r, 0) == Some(b);
    } else if Linked(c1, r, b) {
      var n: nat :| Follow(c1, r, n) == Some(b);
      assert n > 0;
      var m := AfterLast(c1, r, a, n - 1, b);
      FollowAvoiding(c, a, r, a, m);
      AvoidsBoth(c, a, r, a, m);
    }
    if LinkedWithout(c, a, b, r) {
      var n: nat :| Follow(c, a, n) == Some(b) && Avoids(c, a, r, n);
      FollowAvoiding(c, a, r, a, n);
      assert Follow(c1, r, n + 1) == Follow(c1, a, n);
    }
  }

  lemma AvoidsBoth(c: Causes, a: RuntimeError, r: RuntimeError, cause: RuntimeError, n: nat)
    requires Avoids(c[r := cause], a, r, n)
    ensures Avoids(c, a, r, n)
  {
    forall k: nat | k < n ensures Follow(c, a, k) != Some(r) {
      FollowAvoiding(c, a, r, cause, k);
    }
  }

  /** A chain that contains `r` comes to it a first time. */
  lemma {:induction false} FirstTime(c: Causes, a: RuntimeError, r: RuntimeError, n: nat)
    requires Follow(c, a, n) == Some(r)
    ensures LinkedWithout(c, a, r, r)
    decreases n
  {
    if k: nat :| k < n && Follow(c, a, k) == Some(r) {
      FirstTime(c, a, r, k);
    } else {
      assert Avoids(c, a, r, n);
    }
  }

  /** Setting the cause of `r` to `a` closes a circle exactly when `r` is in the chain of `a` already. */
  lemma CircleIff(c: Causes, r: RuntimeError, a: RuntimeError)
    requires Acyclic(c)
    ensures Acyclic(c[r := a]) <==> !Linked(c, a, r)
  {
    var c1 := c[r := a];
    if Linked(c, a, r) {
      var n: nat :| Follow(c, a, n) == Some(r);
      FirstTime(c, a, r, n);
      var m: nat :| Follow(c, a, m) == Some(r) && Avoids(c, a, r, m);
      FollowAvoiding(c, a, r, a, m);
      assert Follow(c1, r, m + 1) == Some(r);
    } else {
      forall x, n: nat | n > 0 ensures Follow(c1, x, n) != Some(x) {
        if Follow(c1, x, n) == Some(x) {
          OnCircle(c, r, a, x, n);
        }
      }
    }
  }

  lemma OnCircle(c: Causes, r: RuntimeError, a: RuntimeError, x: RuntimeError, n: nat)
    requires Acyclic(c) && n > 0 && Follow(c[r := a], x, n) == Some(x)
    ensures Linked(c, a, r)
  {
    var c1 := c[r := a];
    if Avoids(c1, x, r, n) {
      FollowAvoiding(c, x, r, a, n);
    }
    var k: nat :| k < n && Follow(c1, x, k) == Some(r);
    FollowParts(c1, x, k, n - k);
    FollowParts(c1, r, n - k, k);
    assert Follow(c1, r, n) == Some(r) == Follow(c1, a, n - 1);
    FirstTime(c1, a, r, n - 1);
    var m: nat :| Follow(c1, a, m) == Some(r) && Avoids(c1, a, r, m);
    FollowAvoiding(c, a, r, a, m);
  }

  /** More causes, the old ones unchanged, keep what is linked linked. */
  lemma {:induction false} MoreCauses(c: Causes, c1: Causes, a: RuntimeError, n: nat)
    requires Follow(c, a, n).Some? && forall x | x in c :: x in c1 && c1[x] == c[x]
    ensures Follow(c1, a, n) == Follow(c, a, n)
    decreases n
  {
    if n > 0 {
      MoreCauses(c, c1, c[a], n - 1);
    }
  }

  /** An error without a cause can only be the last of a chain. */
  lemma NotOnTheWay(c: Causes, a: RuntimeError, b: RuntimeError, r: RuntimeError)
    requires Linked(c, a, b) && r !in c
    ensures r == b || LinkedWithout(c, a, b, r)
  {
    var n: nat :| Follow(c, a, n) == Some(b);
    forall k: nat | k < n && Follow(c, a, k) == Some(r) ensures false {
      FollowParts(c, a, k, n - k);
    }
    assert Avoids(c, a, r, n);
  }
}
