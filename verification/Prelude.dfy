/** Small shared vocabulary: optional values, numbers and suffixes of sequences. */
module Prelude {

  datatype Option<+T> = None | Some(value: T)

  /** Python's `x or None` for an optional string, list or dictionary. */
  function NonEmpty<T(==)>(x: Option<seq<T>>): Option<seq<T>> {
    if x == Some([]) then None else x
  }

  function Min(a: int, b: int): int {
    if a <= b then a else b
  }

  function Max(a: int, b: int): int {
    if a >= b then a else b
  }

  function Pow2(k: nat): (p: nat)
    ensures p >= 1
  {
    if k == 0 then 1 else 2 * Pow2(k - 1)
  }

  function Quotient(n: nat, d: nat): nat
    requires d >= 1
  {
    n / d
  }

  lemma DivideUnique(n: nat, d: nat, q: nat, r: nat)
    requires d >= 1 && r < d && n == d * q + r
    ensures n / d == q
  {
    var x := n / d - q;
    assert n == d * (n / d) + n % d;
    assert d * x == r - n % d;
    MultipleIsFar(d, x);
  }

  lemma MultipleIsFar(d: int, x: int)
    requires d >= 0
    ensures x >= 1 ==> d * x >= d
    ensures x <= -1 ==> d * x <= -d
  {
    if x >= 1 {
      assert d * x == d + d * (x - 1);
    } else if x <= -1 {
      assert d * x == -d + d * (x + 1);
    }
  }

  /** The newest `n` elements, or all of them when there are fewer. */
  function LastN<T>(xs: seq<T>, n: nat): seq<T> {
    if |xs| <= n then xs else xs[|xs| - n..]
  }

  /** They are the end of the sequence. */
  lemma LastNLaw<T>(xs: seq<T>, n: nat) returns (gone: nat)
    ensures gone <= |xs| && LastN(xs, n) == xs[gone..] && |LastN(xs, n)| == Min(|xs|, n)
  {
    gone := if |xs| <= n then 0 else |xs| - n;
  }
}

/** Subsequences: what is left of a sequence when some elements are struck out. */
module Subsequences {

  predicate Sub<T(==)>(xs: seq<T>, ys: seq<T>) {
    xs == [] ||
    (ys != [] &&
     (Sub(xs, ys[..|ys| - 1]) ||
      (xs[|xs| - 1] == ys[|ys| - 1] && Sub(xs[..|xs| - 1], ys[..|ys| - 1]))))
  }

  /** The same last element on both sides. */
  lemma SubSnoc<T>(xs: seq<T>, ys: seq<T>, z: T)
    requires Sub(xs, ys)
    ensures Sub(xs + [z], ys + [z]) && Sub(xs, ys + [z])
  {
    assert (xs + [z])[..|xs|] == xs && (ys + [z])[..|ys|] == ys;
  }

  lemma {:induction false} SubRefl<T>(xs: seq<T>)
    ensures Sub(xs, xs)
  {
    if xs == [] {
    } else {
      SubRefl(xs[..|xs| - 1]);
    }
  }

  lemma {:induction false} SubTrans<T>(xs: seq<T>, ys: seq<T>, zs: seq<T>)
    requires Sub(xs, ys) && Sub(ys, zs)
    ensures Sub(xs, zs)
    decreases |zs|
  {
    if xs == [] {
    } else {
      var zs1 := zs[..|zs| - 1];
      if Sub(ys, zs1) {
        SubTrans(xs, ys, zs1);
      } else {
        var ys1 := ys[..|ys| - 1];
        if Sub(xs, ys1) {
          SubTrans(xs, ys1, zs1);
        } else {
          SubTrans(xs[..|xs| - 1], ys1, zs1);
        }
      }
    }
  }

  lemma {:induction false} SubPrefix<T>(p: seq<T>, xs: seq<T>, ys: seq<T>)
    requires Sub(xs, ys)
    ensures Sub(p + xs, p + ys)
    decreases |ys|
  {
    if xs == [] {
      SubLonger(p, ys);
      assert p + xs == p;
    } else {
      var ys1 := ys[..|ys| - 1];
      assert (p + ys)[..|p + ys| - 1] == p + ys1;
      if Sub(xs, ys1) {
        SubPrefix(p, xs, ys1);
      } else {
        SubPrefix(p, xs[..|xs| - 1], ys1);
        assert (p + xs)[..|p + xs| - 1] == p + xs[..|xs| - 1];
      }
    }
  }

  lemma {:induction false} SubLonger<T>(p: seq<T>, ys: seq<T>)
    ensures Sub(p, p + ys)
    decreases |ys|
  {
    if ys == [] {
      SubRefl(p);
      assert p + ys == p;
    } else {
      SubLonger(p, ys[..|ys| - 1]);
      assert (p + ys)[..|p + ys| - 1] == p + ys[..|ys| - 1];
    }
  }

  lemma {:induction false} SubSuffix<T>(xs: seq<T>, k: nat)
    requires k <= |xs|
    ensures Sub(xs[k..], xs)
    decreases |xs|
  {
    if k == |xs| {
    } else {
      var xs1 := xs[..|xs| - 1];
      SubSuffix(xs1, k);
      SubSnoc(xs1[k..], xs1, xs[|xs| - 1]);
      assert xs == xs1 + [xs[|xs| - 1]] && xs[k..] == xs1[k..] + [xs[|xs| - 1]];
    }
  }

  lemma {:induction false} SubMultiset<T>(xs: seq<T>, ys: seq<T>)
    requires Sub(xs, ys)
    ensures multiset(xs) <= multiset(ys) && |xs| <= |ys|
    decreases |ys|
  {
    if xs == [] {
    } else {
      var ys1, y := ys[..|ys| - 1], ys[|ys| - 1];
      assert ys == ys1 + [y];
      if Sub(xs, ys1) {
        SubMultiset(xs, ys1);
      } else {
        SubMultiset(xs[..|xs| - 1], ys1);
        assert xs == xs[..|xs| - 1] + [xs[|xs| - 1]];
      }
    }
  }
}
