// Byte buffers written in place: the runs of bytes a buffer is known to
// hold, the part of it a write may change, and `copy_from_slice` into a
// buffer. The image builders state what they write as an ordered list of
// runs ("facts") and perform it with `WriteAll`.

module Buffers {
  import opened Bytes

  function Repeat(v: byte, n: nat): (r: seq<byte>)
    ensures |r| == n && forall i | 0 <= i < n :: r[i] == v
  {
    seq(n, _ => v)
  }

  /** The bytes of `s` at `at` are `b`. */
  ghost predicate Holds(s: seq<byte>, at: nat, b: seq<byte>)
  {
    at + |b| <= |s| && s[at..at + |b|] == b
  }

  /** `t` is `s` with at most the bytes in [lo, hi) changed. */
  ghost predicate Outside(t: seq<byte>, s: seq<byte>, lo: nat, hi: nat)
  {
    lo <= hi <= |s| && |t| == |s| && t[..lo] == s[..lo] && t[hi..] == s[hi..]
  }

  lemma HoldsKept(s: seq<byte>, t: seq<byte>, lo: nat, hi: nat, at: nat, b: seq<byte>)
    requires Holds(s, at, b) && Outside(t, s, lo, hi)
    requires at + |b| <= lo || hi <= at
    ensures Holds(t, at, b)
  {
    forall k | at <= k < at + |b|
      ensures t[k] == s[k]
    {
      if at + |b| <= lo {
        assert t[k] == t[..lo][k] && s[k] == s[..lo][k];
      } else {
        assert t[k] == t[hi..][k - hi] && s[k] == s[hi..][k - hi];
      }
    }
    assert t[at..at + |b|] == s[at..at + |b|];
  }

  /** Each part of a concatenation holds at its own offset. */
  lemma HoldsParts(x: seq<byte>, y: seq<byte>)
    ensures Holds(x + y, 0, x) && Holds(x + y, |x|, y)
  {
    assert (x + y)[..|x|] == x && (x + y)[|x|..] == y;
  }

  lemma HoldsConcat(s: seq<byte>, at: nat, x: seq<byte>, y: seq<byte>)
    requires Holds(s, at, x) && Holds(s, at + |x|, y)
    ensures Holds(s, at, x + y)
  {
    assert s[at..at + |x| + |y|] == s[at..at + |x|] + s[at + |x|..at + |x| + |y|];
  }

  lemma OutsideGrow(t: seq<byte>, s: seq<byte>, lo: nat, hi: nat, lo2: nat, hi2: nat)
    requires Outside(t, s, lo2, hi2) && lo <= lo2 && hi2 <= hi <= |s|
    ensures Outside(t, s, lo, hi)
  {
    assert t[..lo] == t[..lo2][..lo];
    assert s[..lo] == s[..lo2][..lo];
    assert t[hi..] == t[hi2..][hi - hi2..];
    assert s[hi..] == s[hi2..][hi - hi2..];
  }

  /** The byte runs an image is required to hold: each is an offset and the
      bytes found there. */
  type Fact = (nat, seq<byte>)

  ghost predicate AllHold(s: seq<byte>, facts: seq<Fact>)
  {
    forall i | 0 <= i < |facts| :: Holds(s, facts[i].0, facts[i].1)
  }

  /** Every run of `facts` lies in [x, y). */
  ghost predicate Within(facts: seq<Fact>, x: nat, y: nat)
  {
    forall i | 0 <= i < |facts| :: x <= facts[i].0 && facts[i].0 + |facts[i].1| <= y
  }

  /** A write took `s` to `t`: it established `facts`, all of which lie in
      [lo, hi), and changed nothing outside [lo, hi). */
  ghost predicate Wrote(t: seq<byte>, s: seq<byte>, facts: seq<Fact>, lo: nat, hi: nat)
  {
    AllHold(t, facts) && Within(facts, lo, hi) && Outside(t, s, lo, hi)
  }

  lemma AllKept(s: seq<byte>, t: seq<byte>, lo: nat, hi: nat, facts: seq<Fact>, x: nat, y: nat)
    requires AllHold(s, facts) && Within(facts, x, y) && Outside(t, s, lo, hi)
    requires y <= lo || hi <= x
    ensures AllHold(t, facts)
  {
    forall i | 0 <= i < |facts|
      ensures Holds(t, facts[i].0, facts[i].1)
    {
      HoldsKept(s, t, lo, hi, facts[i].0, facts[i].1);
    }
  }

  /** Sequencing two writes: what the first established survives a second
      write that starts after it, and together they change only [x, e2). */
  lemma StepMany(s0: seq<byte>, s1: seq<byte>, s2: seq<byte>, facts: seq<Fact>, x: nat, e: nat,
                 more: seq<Fact>, at: nat, e2: nat)
    requires AllHold(s1, facts) && Within(facts, x, e) && Outside(s1, s0, x, e)
    requires e <= at
    requires AllHold(s2, more) && Within(more, at, e2) && Outside(s2, s1, at, e2)
    ensures AllHold(s2, facts + more) && Within(facts + more, x, e2) && Outside(s2, s0, x, e2)
  {
    AllKept(s1, s2, at, e2, facts, x, e);
    OutsideGrow(s1, s0, x, e2, x, e);
    OutsideGrow(s2, s1, x, e2, at, e2);
  }

  lemma Step(s0: seq<byte>, s1: seq<byte>, s2: seq<byte>, facts: seq<Fact>, x: nat, e: nat, at: nat, b: seq<byte>)
    requires AllHold(s1, facts) && Within(facts, x, e) && Outside(s1, s0, x, e)
    requires e <= at
    requires Holds(s2, at, b) && Outside(s2, s1, at, at + |b|)
    ensures AllHold(s2, facts + [(at, b)]) && Within(facts + [(at, b)], x, at + |b|) && Outside(s2, s0, x, at + |b|)
  {
    StepMany(s0, s1, s2, facts, x, e, [(at, b)], at, at + |b|);
  }

  /** Two runs written one after the other, the second past the first. */
  lemma TwoWrites(s0: seq<byte>, s1: seq<byte>, s2: seq<byte>, x: nat, b1: seq<byte>, y: nat, b2: seq<byte>)
    requires x + |b1| <= y
    requires Holds(s1, x, b1) && Outside(s1, s0, x, x + |b1|)
    requires Holds(s2, y, b2) && Outside(s2, s1, y, y + |b2|)
    ensures AllHold(s2, [(x, b1), (y, b2)]) && Within([(x, b1), (y, b2)], x, y + |b2|)
    ensures Outside(s2, s0, x, y + |b2|)
  {
    Step(s0, s0, s1, [], x, x, x, b1);
    Step(s0, s1, s2, [(x, b1)], x, x + |b1|, y, b2);
    assert [(x, b1)] + [(y, b2)] == [(x, b1), (y, b2)];
  }

  /** Byte `k` lies in one of the runs of `facts`. */
  ghost predicate Covered(facts: seq<Fact>, k: nat)
  {
    exists i | 0 <= i < |facts| :: facts[i].0 <= k < facts[i].0 + |facts[i].1|
  }

  /** `t` is `s` with no byte changed outside the runs of `facts`. */
  ghost predicate Only(t: seq<byte>, s: seq<byte>, facts: seq<Fact>)
  {
    |t| == |s| && forall k | 0 <= k < |s| && !Covered(facts, k) :: t[k] == s[k]
  }

  lemma CoveredConcat(f1: seq<Fact>, f2: seq<Fact>, k: nat)
    ensures Covered(f1 + f2, k) <==> Covered(f1, k) || Covered(f2, k)
  {
    if Covered(f1 + f2, k) {
      var i :| 0 <= i < |f1 + f2| && (f1 + f2)[i].0 <= k < (f1 + f2)[i].0 + |(f1 + f2)[i].1|;
      if i < |f1| {
        assert (f1 + f2)[i] == f1[i];
      } else {
        assert (f1 + f2)[i] == f2[i - |f1|];
      }
    }
    if Covered(f1, k) {
      var i :| 0 <= i < |f1| && f1[i].0 <= k < f1[i].0 + |f1[i].1|;
      assert (f1 + f2)[i] == f1[i];
    }
    if Covered(f2, k) {
      var i :| 0 <= i < |f2| && f2[i].0 <= k < f2[i].0 + |f2[i].1|;
      assert (f1 + f2)[|f1| + i] == f2[i];
    }
  }

  /** No run of facts that all lie in [x, y) covers a byte outside it. */
  lemma NotCovered(facts: seq<Fact>, x: nat, y: nat, k: nat)
    requires Within(facts, x, y) && (k < x || y <= k)
    ensures !Covered(facts, k)
  {
  }

  lemma NotCoveredPair(x: nat, b1: seq<byte>, y: nat, b2: seq<byte>, k: nat)
    requires k < x || x + |b1| <= k
    requires k < y || y + |b2| <= k
    ensures !Covered([(x, b1), (y, b2)], k)
  {
  }

  lemma NotCoveredJoin(f1: seq<Fact>, f2: seq<Fact>, f3: seq<Fact>, k: nat)
    requires !Covered(f1, k) && !Covered(f2, k) && !Covered(f3, k)
    ensures !Covered(f1 + f2 + f3, k)
  {
    CoveredConcat(f1, f2, k);
    CoveredConcat(f1 + f2, f3, k);
  }

  /** A range no run covers keeps its bytes. */
  lemma KeptRange(t: seq<byte>, s: seq<byte>, facts: seq<Fact>, lo: nat, hi: nat)
    requires Only(t, s, facts) && lo <= hi <= |s|
    requires forall k | lo <= k < hi :: !Covered(facts, k)
    ensures t[lo..hi] == s[lo..hi]
  {
    assert forall k | lo <= k < hi :: t[k] == s[k];
  }

  /** Every byte of `s` outside the runs of `facts` is zero. */
  ghost predicate ZeroOutside(s: seq<byte>, facts: seq<Fact>)
  {
    forall k | 0 <= k < |s| && !Covered(facts, k) :: s[k] == 0
  }

  /** Writes into a zero-filled buffer leave zeros outside their runs. */
  lemma OnlyFromZeros(t: seq<byte>, s: seq<byte>, facts: seq<Fact>)
    requires Only(t, s, facts) && forall k | 0 <= k < |s| :: s[k] == 0
    ensures ZeroOutside(t, facts)
  {
  }

  /** A write framed to one run changes only that run. */
  lemma OnlyOne(t: seq<byte>, s: seq<byte>, at: nat, b: seq<byte>)
    requires Outside(t, s, at, at + |b|)
    ensures Only(t, s, [(at, b)])
  {
    forall k | at <= k < at + |b|
      ensures Covered([(at, b)], k)
    {
      assert [(at, b)][0] == (at, b);
    }
    forall k | 0 <= k < |s| && !Covered([(at, b)], k)
      ensures t[k] == s[k]
    {
      if k < at {
        assert t[k] == t[..at][k] && s[k] == s[..at][k];
      } else {
        assert t[k] == t[at + |b|..][k - at - |b|] && s[k] == s[at + |b|..][k - at - |b|];
      }
    }
  }

  /** Two writes in turn change only the runs of both. */
  lemma OnlyThen(s0: seq<byte>, s1: seq<byte>, s2: seq<byte>, f1: seq<Fact>, f2: seq<Fact>)
    requires Only(s1, s0, f1) && Only(s2, s1, f2)
    ensures Only(s2, s0, f1 + f2)
  {
    forall k | 0 <= k < |s0| && !Covered(f1 + f2, k)
      ensures s2[k] == s0[k]
    {
      CoveredConcat(f1, f2, k);
    }
  }

  lemma OnlyPair(s0: seq<byte>, s1: seq<byte>, s2: seq<byte>, x: nat, b1: seq<byte>, y: nat, b2: seq<byte>)
    requires Only(s1, s0, [(x, b1)]) && Only(s2, s1, [(y, b2)])
    ensures Only(s2, s0, [(x, b1), (y, b2)])
  {
    OnlyThen(s0, s1, s2, [(x, b1)], [(y, b2)]);
    assert [(x, b1)] + [(y, b2)] == [(x, b1), (y, b2)];
  }

  /** `copy_from_slice`: `b` copied into `a` at `at`. */
  method CopyInto(a: array<byte>, at: nat, b: seq<byte>)
    requires at + |b| <= a.Length
    modifies a
    ensures Holds(a[..], at, b) && Outside(a[..], old(a[..]), at, at + |b|)
  {
    var i := 0;
    while i < |b|
      invariant 0 <= i <= |b|
      invariant forall k | 0 <= k < a.Length :: a[k] == (if at <= k < at + i then b[k - at] else old(a[k]))
    {
      a[at + i] := b[i];
      i := i + 1;
    }
    assert a[at..at + |b|] == b;
    assert a[..at] == old(a[..at]);
    assert a[at + |b|..] == old(a[at + |b|..]);
  }


  /** The runs of `facts` lie in [x, e), in increasing order, and none
      overlaps the next. */
  ghost predicate Ordered(facts: seq<Fact>, x: nat, e: nat)
  {
    x <= e && Within(facts, x, e) &&
    forall i | 0 <= i < |facts| - 1 :: facts[i].0 + |facts[i].1| <= facts[i + 1].0
  }

  lemma OrderedConcat(f1: seq<Fact>, f2: seq<Fact>, x: nat, m: nat, e: nat)
    requires Ordered(f1, x, m) && Ordered(f2, m, e)
    ensures Ordered(f1 + f2, x, e)
  {
    var f := f1 + f2;
    forall i | 0 <= i < |f| - 1
      ensures f[i].0 + |f[i].1| <= f[i + 1].0
    {
      if i < |f1| - 1 {
        assert f[i] == f1[i] && f[i + 1] == f1[i + 1];
      } else if i == |f1| - 1 {
        assert f[i] == f1[i] && f[i + 1] == f2[0];
      } else {
        assert f[i] == f2[i - |f1|] && f[i + 1] == f2[i - |f1| + 1];
      }
    }
  }

  /** A sequence of `copy_from_slice` and single-byte stores into the image:
      the runs of `facts`, in order. Afterwards every run holds its bytes and
      nothing outside [x, e) has changed. */
  method WriteAll(a: array<byte>, facts: seq<Fact>, x: nat, e: nat)
    requires Ordered(facts, x, e) && e <= a.Length
    modifies a
    ensures AllHold(a[..], facts) && Outside(a[..], old(a[..]), x, e)
    ensures Only(a[..], old(a[..]), facts)
  {
    ghost var s0 := a[..];
    var i := 0;
    ghost var end := x;
    while i < |facts|
      invariant i <= |facts| && x <= end <= e
      invariant AllHold(a[..], facts[..i]) && Within(facts[..i], x, end) && Outside(a[..], s0, x, end)
      invariant Only(a[..], s0, facts[..i])
      invariant i < |facts| ==> end <= facts[i].0
    {
      ghost var s1 := a[..];
      CopyInto(a, facts[i].0, facts[i].1);
      Step(s0, s1, a[..], facts[..i], x, end, facts[i].0, facts[i].1);
      OnlyOne(a[..], s1, facts[i].0, facts[i].1);
      OnlyThen(s0, s1, a[..], facts[..i], [(facts[i].0, facts[i].1)]);
      assert facts[..i + 1] == facts[..i] + [(facts[i].0, facts[i].1)];
      end := facts[i].0 + |facts[i].1|;
      i := i + 1;
    }
    assert facts[..i] == facts;
    OutsideGrow(a[..], s0, x, e, x, end);
  }

  lemma AllHoldSplit(s: seq<byte>, f1: seq<Fact>, f2: seq<Fact>)
    requires AllHold(s, f1 + f2)
    ensures AllHold(s, f1) && AllHold(s, f2)
  {
    forall i | 0 <= i < |f1|
      ensures Holds(s, f1[i].0, f1[i].1)
    {
      assert (f1 + f2)[i] == f1[i];
    }
    forall i | 0 <= i < |f2|
      ensures Holds(s, f2[i].0, f2[i].1)
    {
      assert (f1 + f2)[|f1| + i] == f2[i];
    }
  }

  lemma HoldsByte(s: seq<byte>, at: nat, v: byte)
    requires Holds(s, at, [v])
    ensures s[at] == v
  {
    assert s[at..at + 1][0] == s[at];
  }

  /** A run inside a run that holds is found at the sum of the offsets. */
  lemma HoldsInside(s: seq<byte>, at: nat, w: seq<byte>, k: nat, b: seq<byte>)
    requires Holds(s, at, w) && Holds(w, k, b)
    ensures Holds(s, at + k, b)
  {
    forall j | 0 <= j < |b|
      ensures s[at + k + j] == b[j]
    {
      assert s[at + k + j] == s[at..at + |w|][k + j] && b[j] == w[k..k + |b|][j];
    }
    assert s[at + k..at + k + |b|] == b;
  }

  /** No run of `facts` meets [lo, hi). */
  ghost predicate Apart(facts: seq<Fact>, lo: nat, hi: nat)
  {
    forall i | 0 <= i < |facts| :: facts[i].0 + |facts[i].1| <= lo || hi <= facts[i].0
  }

  /** Runs that a write does not meet survive it. */
  lemma AllKeptApart(s: seq<byte>, t: seq<byte>, lo: nat, hi: nat, facts: seq<Fact>)
    requires AllHold(s, facts) && Outside(t, s, lo, hi) && Apart(facts, lo, hi)
    ensures AllHold(t, facts)
  {
    forall i | 0 <= i < |facts|
      ensures Holds(t, facts[i].0, facts[i].1)
    {
      HoldsKept(s, t, lo, hi, facts[i].0, facts[i].1);
    }
  }

  /** A zero-filled buffer holds a run of zeros wherever one fits. */
  lemma ZerosHold(s: seq<byte>, at: nat, n: nat)
    requires at + n <= |s| && forall k | 0 <= k < |s| :: s[k] == 0
    ensures Holds(s, at, Repeat(0, n))
  {
    assert s[at..at + n] == Repeat(0, n);
  }

  lemma AllHoldJoin(s: seq<byte>, f1: seq<Fact>, f2: seq<Fact>)
    requires AllHold(s, f1) && AllHold(s, f2)
    ensures AllHold(s, f1 + f2)
  {
    forall i | 0 <= i < |f1 + f2|
      ensures Holds(s, (f1 + f2)[i].0, (f1 + f2)[i].1)
    {
      if i < |f1| {
        assert (f1 + f2)[i] == f1[i];
      } else {
        assert (f1 + f2)[i] == f2[i - |f1|];
      }
    }
  }

  /** Runs drawn from a list that holds hold too, in any order. */
  lemma AllHoldFrom(s: seq<byte>, f: seq<Fact>, g: seq<Fact>)
    requires AllHold(s, f) && forall i | 0 <= i < |g| :: g[i] in f
    ensures AllHold(s, g)
  {
  }
}
