/**
 Bounded sampling. Every result below the bound has the same number of accepted draws, so a uniform
 stream gives a uniform result; and a shuffle reaches every order by exactly one choice of swaps.
 The stream of draws is a parameter.
*/
module Rng {
  import opened Types

  /** How many values a draw has. */
  const WIDTH: nat := 0x1_0000_0000_0000_0000

  function Threshold(w: nat, n: nat): nat
    requires 0 < n <= w
  {
    (w - n) % n
  }

  /** The draw is kept, and yields `r`. */
  predicate Yields(w: nat, n: nat, x: nat, r: nat)
    requires 0 < n <= w
  {
    (x * n) / w == r && (x * n) % w >= Threshold(w, n)
  }

  predicate Kept(w: nat, n: nat, x: nat)
    requires 0 < n <= w
  {
    (x * n) % w >= Threshold(w, n)
  }

  /** The draws that yield `r`. */
  function Draws(w: nat, n: nat, r: nat): set<nat>
    requires 0 < n <= w
  {
    set x: nat | x < w && Yields(w, n, x, r)
  }

  // ---- arithmetic ------------------------------------------------------------------------

  lemma MulSplit(a: int, d: int, n: int)
    ensures (a + d) * n == a * n + d * n
  {
  }

  lemma MulAtLeast(d: nat, n: nat)
    ensures d * n >= 0 && (d > 0 ==> d * n >= n)
  {
    if d > 0 { MulSplit(1, d - 1, n); }
  }

  lemma MulLess(a: int, b: int, n: nat)
    ensures a < b ==> a * n + n <= b * n
    ensures a <= b ==> a * n <= b * n
  {
    if a <= b {
      MulSplit(a, b - a, n);
      MulAtLeast(b - a, n);
    }
  }

  lemma DivParts(a: nat, n: nat)
    requires n > 0
    ensures a == (a / n) * n + a % n
  {
  }

  lemma UniqueDiv(a: nat, n: nat, q: nat, m: nat)
    requires n > 0 && m < n && a == q * n + m
    ensures a / n == q && a % n == m
  {
    DivParts(a, n);
    MulLess(a / n, q, n);
    MulLess(q, a / n, n);
  }

  /** The negated bound, reduced, is what the width leaves over. */
  lemma ThresholdIsRest(w: nat, n: nat)
    requires 0 < n <= w
    ensures Threshold(w, n) == w % n
  {
    DivParts(w, n);
    MulLess(w / n, 1, n);
    assert (w / n - 1) * n == (w / n) * n - n;
    UniqueDiv(w - n, n, w / n - 1, w % n);
  }

  /** Multiples of `n` from `a` on start at `(a + n - 1) / n`. */
  lemma FirstMultiple(a: nat, n: nat, x: nat)
    requires n > 0
    ensures x * n >= a <==> x >= (a + n - 1) / n
  {
    var x0 := (a + n - 1) / n;
    DivParts(a + n - 1, n);
    MulLess(x, x0, n);
    MulLess(x0, x, n);
  }

  /** A draw yields `r` exactly when its multiple lies in a stretch of the width that is a multiple of `n` long. */
  lemma YieldsIsRange(w: nat, n: nat, x: nat, r: nat)
    requires 0 < n <= w
    ensures Yields(w, n, x, r) <==> r * w + w % n <= x * n < (r + 1) * w
  {
    ThresholdIsRest(w, n);
    DivParts(x * n, w);
    assert (r + 1) * w == r * w + w;
    if r * w + w % n <= x * n < (r + 1) * w { UniqueDiv(x * n, w, r, x * n - r * w); }
  }

  lemma YieldsFromTo(w: nat, n: nat, x: nat, r: nat)
    requires 0 < n <= w
    ensures var x0 := (r * w + w % n + n - 1) / n; Yields(w, n, x, r) <==> x0 <= x < x0 + w / n
  {
    var a := r * w + w % n;
    var q := w / n;
    YieldsIsRange(w, n, x, r);
    DivParts(w, n);
    assert (r + 1) * w == a + q * n by { assert (r + 1) * w == r * w + w; }
    FirstMultiple(a, n, x);
    if x >= q {
      assert (x - q) * n == x * n - q * n;
      FirstMultiple(a, n, x - q);
    } else {
      MulLess(x, q, n);
    }
  }

  lemma {:induction false} RangeSize(s: set<nat>, lo: nat, k: nat)
    requires forall x :: x in s <==> lo <= x < lo + k
    ensures |s| == k
    decreases k
  {
    if k == 0 {
      assert s == {};
    } else {
      var last := lo + k - 1;
      RangeSize(s - {last}, lo, k - 1);
      assert s == s - {last} + {last};
    }
  }

  /** Only draws below the width can yield a result below the bound. */
  lemma YieldsSmall(w: nat, n: nat, x: nat, r: nat)
    requires 0 < n <= w && r < n && Yields(w, n, x, r)
    ensures x < w
  {
    YieldsIsRange(w, n, x, r);
    MulLess(r, n, w);
    assert (r + 1) * w == r * w + w;
    assert n * w == w * n;
    MulLess(w, x, n);
  }

  /** Every result has exactly `floor(w / n)` accepted draws. */
  lemma Uniform(w: nat, n: nat, r: nat)
    requires 0 < n <= w && r < n
    ensures |Draws(w, n, r)| == w / n
  {
    hide Yields;
    var x0 := (r * w + w % n + n - 1) / n;
    forall x: int ensures x in Draws(w, n, r) <==> x0 <= x < x0 + w / n {
      if x >= 0 {
        YieldsFromTo(w, n, x, r);
        if Yields(w, n, x, r) { YieldsSmall(w, n, x, r); }
      }
    }
    RangeSize(Draws(w, n, r), x0, w / n);
  }

  /** Every kept draw yields some result below the bound. */
  lemma KeptYields(w: nat, n: nat, x: nat)
    requires 0 < n <= w && x < w && Kept(w, n, x)
    ensures (x * n) / w < n && Yields(w, n, x, (x * n) / w)
  {
    DivParts(x * n, w);
    MulLess(x, w, n);
    assert w * n == n * w;
    MulLess(n, (x * n) / w, w);
  }

  /** The results grow with the draws, from 0 for the lowest kept draws to the highest result for the highest. */
  lemma ResultsGrow(w: nat, n: nat, x: nat, y: nat, r: nat, s: nat)
    requires 0 < n <= w && x in Draws(w, n, r) && y in Draws(w, n, s)
    ensures r <= s <==> x <= y || r == s
    ensures r < s ==> x < y
  {
    YieldsIsRange(w, n, x, r);
    YieldsIsRange(w, n, y, s);
    MulLess(x, y, n);
    MulLess(y, x, n);
    MulLess(r, s, w);
    MulLess(s, r, w);
  }

  // ---- drawing -------------------------------------------------------------------------------

  /** A draw is rejected when it lies in what the width leaves over, in the scale of the bound. */
  lemma KeptWhen(w: nat, n: nat, x: nat)
    requires 0 < n <= w
    ensures Kept(w, n, x) <==> (x * n) % w >= w % n
  {
    ThresholdIsRest(w, n);
  }

  /** The result of a draw is how many widths its multiple holds. */
  lemma ResultIs(w: nat, n: nat, x: nat, r: nat)
    requires 0 < n <= w && Yields(w, n, x, r)
    ensures r * w <= x * n < (r + 1) * w
  {
    YieldsIsRange(w, n, x, r);
  }

  /** Draw until a draw is kept. `used` counts the draws taken; None if the stream ends first. */
  method Below(n: nat, stream: seq<nat>) returns (r: Option<nat>, used: nat)
    requires n <= WIDTH && forall k :: 0 <= k < |stream| ==> stream[k] < WIDTH
    ensures used <= |stream|
    ensures n <= 1 ==> r == Some(0) && used == 0
    ensures n > 1 && r.Some? ==> r.value < n && used > 0 && stream[used - 1] in Draws(WIDTH, n, r.value)
    ensures n > 1 && r.Some? ==>
      && r.value * WIDTH <= stream[used - 1] * n < (r.value + 1) * WIDTH
      && (stream[used - 1] * n) % WIDTH >= WIDTH % n
    ensures n > 1 ==> forall k :: 0 <= k < used - 1 ==> (stream[k] * n) % WIDTH < WIDTH % n
    ensures r.None? ==> n > 1 && used == |stream| && forall k :: 0 <= k < used ==> (stream[k] * n) % WIDTH < WIDTH % n
  {
    hide Kept, Draws;
    used := 0;
    if n <= 1 { return Some(0), 0; }
    var threshold := Threshold(WIDTH, n);
    while used < |stream|
      invariant used <= |stream|
      invariant forall k :: 0 <= k < used ==> (stream[k] * n) % WIDTH < WIDTH % n
    {
      var x := stream[used];
      var m := x * n;
      used := used + 1;
      KeptIs(n, x);
      KeptWhen(WIDTH, n, x);
      if m % WIDTH >= threshold {
        KeptYields(WIDTH, n, x);
        ResultIs(WIDTH, n, x, m / WIDTH);
        YieldsDraws(WIDTH, n, x, m / WIDTH);
        return Some(m / WIDTH), used;
      }
    }
    r := None;
  }

  lemma YieldsDraws(w: nat, n: nat, x: nat, r: nat)
    requires 0 < n <= w && x < w && Yields(w, n, x, r)
    ensures x in Draws(w, n, r)
  {
  }

  lemma KeptIs(n: nat, x: nat)
    requires 0 < n <= WIDTH
    ensures Kept(WIDTH, n, x) <==> (x * n) % WIDTH >= Threshold(WIDTH, n)
  {
  }

  /**
   Uniform in a closed range: the draws of each value are those of its distance from the bottom. The
   number of values of the whole range is one too many for its word: it wraps to 0, a bound for which
   nothing is drawn, so that the whole range always yields its bottom (where overflow is checked, it panics).
  */
  method Range(lo: nat, hi: nat, stream: seq<nat>) returns (r: Option<nat>, used: nat)
    requires hi < WIDTH && forall k :: 0 <= k < |stream| ==> stream[k] < WIDTH
    ensures used <= |stream|
    ensures hi <= lo ==> r == Some(lo) && used == 0
    ensures hi - lo + 1 == WIDTH ==> r == Some(lo) && used == 0
    ensures lo < hi && hi - lo + 1 < WIDTH && r.Some? ==>
      lo <= r.value <= hi && used > 0 && stream[used - 1] in Draws(WIDTH, hi - lo + 1, r.value - lo)
  {
    if hi <= lo { return Some(lo), 0; }
    var b;
    b, used := Below((hi - lo + 1) % WIDTH, stream);
    r := if b.Some? then Some(lo + b.value) else None;
  }

  // ---- shuffling ------------------------------------------------------------------------------

  function Swapped<T>(s: seq<T>, i: nat, j: nat): (t: seq<T>)
    requires i < |s| && j < |s|
    ensures |t| == |s| && multiset(t) == multiset(s)
  {
    s[i := s[j]][j := s[i]]
  }

  /** `js[i]` is the choice made for position `i`. */
  predicate Choices(js: seq<nat>) {
    forall i :: 0 <= i < |js| ==> js[i] <= i
  }

  function Shuffled<T>(s: seq<T>, js: seq<nat>): (t: seq<T>)
    requires |js| == |s| && Choices(js)
    ensures |t| == |s|
    decreases |s|
  {
    if |s| <= 1 then s
    else
      var i := |s| - 1;
      var u := Swapped(s, i, js[i]);
      Shuffled(u[..i], js[..i]) + [u[i]]
  }

  /** The array after positions from `i` on were settled. */
  ghost predicate Settled<T>(was: seq<T>, now: seq<T>, js: seq<nat>, i: nat)
    requires |js| == |was| == |now| && i <= |now| && Choices(js)
  {
    Shuffled(was, js) == Shuffled(now[..i], js[..i]) + now[i..]
  }

  lemma SettleStarts<T>(s: seq<T>, js: seq<nat>)
    requires |js| == |s| && Choices(js)
    ensures Settled(s, s, js, |s|)
  {
    assert s[..|s|] == s && js[..|s|] == js && s[|s|..] == [];
  }

  lemma SettleOne<T>(was: seq<T>, now: seq<T>, js: seq<nat>, i: nat)
    requires |js| == |was| == |now| && 0 < i < |now| && Choices(js)
    requires Settled(was, now, js, i + 1)
    ensures Settled(was, Swapped(now, i, js[i]), js, i)
  {
    var next := Swapped(now, i, js[i]);
    var s := now[..i + 1];
    var u := Swapped(s, i, js[i]);
    assert js[..i + 1][..i] == js[..i];
    assert Shuffled(s, js[..i + 1]) == Shuffled(u[..i], js[..i]) + [u[i]];
    assert u[..i] == next[..i] && u[i] == next[i] && next[i + 1..] == now[i + 1..];
    assert next[i..] == [next[i]] + next[i + 1..];
  }

  lemma SettleEnds<T>(was: seq<T>, now: seq<T>, js: seq<nat>, i: nat)
    requires |js| == |was| == |now| && i <= |now| && Choices(js)
    requires Settled(was, now, js, i) && i <= 1
    ensures now == Shuffled(was, js)
  {
    FewStay(now[..i], js[..i]);
    hide Shuffled;
    assert now == now[..i] + now[i..];
  }

  lemma FewStay<T>(s: seq<T>, js: seq<nat>)
    requires |js| == |s| <= 1 && Choices(js)
    ensures Shuffled(s, js) == s
  {
  }

  method ShuffleInPlace<T>(a: array<T>, js: seq<nat>)
    requires |js| == a.Length && Choices(js)
    modifies a
    ensures a[..] == Shuffled(old(a[..]), js)
  {
    hide Settled, Shuffled;
    var i: nat := a.Length;
    SettleStarts(a[..], js);
    while i > 1
      invariant i <= a.Length && Settled(old(a[..]), a[..], js, i)
    {
      i := i - 1;
      var j := js[i];
      SettleOne(old(a[..]), a[..], js, i);
      ghost var next := Swapped(a[..], i, j);
      a[i], a[j] := a[j], a[i];
      assert a[..] == next;
    }
    SettleEnds(old(a[..]), a[..], js, i);
  }

  ghost predicate NoRepeats<T(!new)>(s: seq<T>) {
    forall i, j :: 0 <= i < j < |s| ==> s[i] != s[j]
  }

  lemma SwapNoRepeats<T(!new)>(s: seq<T>, j: nat)
    requires NoRepeats(s) && j < |s|
    ensures var i := |s| - 1; var u := Swapped(s, i, j); NoRepeats(u[..i]) && u == u[..i] + [u[i]]
  {
  }

  lemma ShuffledStep<T>(s: seq<T>, js: seq<nat>)
    requires |js| == |s| > 1 && Choices(js)
    ensures var i := |s| - 1; var u := Swapped(s, i, js[i]);
      Choices(js[..i]) && u[i] == s[js[i]] && Shuffled(s, js) == Shuffled(u[..i], js[..i]) + [s[js[i]]]
      && multiset(u[..i]) + multiset{u[i]} == multiset(s)
  {
    var i := |s| - 1;
    var u := Swapped(s, i, js[i]);
    assert u == u[..i] + [u[i]];
  }

  lemma {:induction false} ShuffledKeeps<T(!new)>(s: seq<T>, js: seq<nat>)
    requires |js| == |s| && Choices(js)
    ensures multiset(Shuffled(s, js)) == multiset(s)
    decreases |s|
  {
    if |s| > 1 {
      var i := |s| - 1;
      ShuffledStep(s, js);
      ShuffledKeeps(Swapped(s, i, js[i])[..i], js[..i]);
    }
  }

  lemma AppendSame<T>(a: seq<T>, x: T, b: seq<T>, y: T)
    requires a + [x] == b + [y] && |a| == |b|
    ensures a == b && x == y
  {
    assert (a + [x])[..|a|] == a && (b + [y])[..|b|] == b;
    assert (a + [x])[|a|] == x && (b + [y])[|b|] == y;
  }

  lemma SameAt<T(!new)>(s: seq<T>, i: nat, j: nat)
    requires NoRepeats(s) && i < |s| && j < |s| && s[i] == s[j]
    ensures i == j
  {
  }

  lemma ChoiceAt(js: seq<nat>, i: nat)
    requires Choices(js) && i < |js|
    ensures js[i] <= i && Choices(js[..i])
  {
  }

  lemma OneChoice(js: seq<nat>)
    requires Choices(js) && |js| == 1
    ensures js == [0]
  {
  }

  /** Different choices give different orders. */
  lemma {:induction false} ChoicesDiffer<T(!new)>(s: seq<T>, js: seq<nat>, ks: seq<nat>)
    requires |js| == |s| == |ks| && Choices(js) && Choices(ks) && NoRepeats(s) && Shuffled(s, js) == Shuffled(s, ks)
    ensures js == ks
    decreases |s|
  {
    hide Shuffled, Swapped, NoRepeats, Choices;
    if |s| <= 1 {
      if |s| == 1 { OneChoice(js); OneChoice(ks); }
    } else {
      ChoiceAt(js, |s| - 1);
      ChoiceAt(ks, |s| - 1);
      var i := |s| - 1;
      var j, k := js[i], ks[i];
      ShuffledStep(s, js);
      ShuffledStep(s, ks);
      var u, v := Swapped(s, i, j), Swapped(s, i, k);
      AppendSame(Shuffled(u[..i], js[..i]), s[j], Shuffled(v[..i], ks[..i]), s[k]);
      SameAt(s, j, k);
      SwapNoRepeats(s, j);
      ChoicesDiffer(u[..i], js[..i], ks[..i]);
      assert js == js[..i] + [js[i]] && ks == ks[..i] + [ks[i]];
    }
  }

  lemma WithoutLast<T>(s: seq<T>)
    requires |s| > 0
    ensures multiset(s[..|s| - 1]) == multiset(s) - multiset{s[|s| - 1]}
  {
    assert s == s[..|s| - 1] + [s[|s| - 1]];
  }

  lemma RestSame<T>(u: seq<T>, t: seq<T>)
    requires |u| == |t| > 0 && multiset(u) == multiset(t) && u[|u| - 1] == t[|t| - 1]
    ensures multiset(u[..|u| - 1]) == multiset(t[..|t| - 1])
  {
    WithoutLast(u);
    WithoutLast(t);
  }

  lemma SameSize<T>(s: seq<T>, t: seq<T>)
    requires multiset(s) == multiset(t)
    ensures |s| == |t|
  {
    assert |s| == |multiset(s)| == |multiset(t)| == |t|;
  }

  /** Every order is reached. */
  lemma {:induction false} EveryOrderReached<T(!new)>(s: seq<T>, t: seq<T>) returns (js: seq<nat>)
    requires multiset(s) == multiset(t)
    ensures |js| == |s| && Choices(js) && Shuffled(s, js) == t
    decreases |s|
  {
    hide Shuffled, Swapped, Choices;
    SameSize(s, t);
    if |s| <= 1 {
      js := if |s| == 0 then [] else [0];
      if |s| == 1 { OneElement(s, t); }
      ShortShuffle(s, js);
    } else {
      var i := |s| - 1;
      var j := Position(s, t, i);
      var u := Swapped(s, i, j);
      SwappedLast(s, j);
      RestSame(u, t);
      var rest := EveryOrderReached(u[..i], t[..i]);
      js := rest + [j];
      MoreChoices(rest, j);
      LastPlaced(s, t, js, rest, j);
    }
  }

  lemma LastPlaced<T>(s: seq<T>, t: seq<T>, js: seq<nat>, rest: seq<nat>, j: nat)
    requires |s| == |t| > 1 && |rest| == |s| - 1 && j < |s| && s[j] == t[|s| - 1] && js == rest + [j]
    requires Choices(rest) && Choices(js)
    requires Shuffled(Swapped(s, |s| - 1, j)[..|s| - 1], rest) == t[..|s| - 1]
    ensures Shuffled(s, js) == t
  {
    hide Shuffled, Swapped, Choices;
    ShuffledStep(s, js);
    assert js[..|rest|] == rest && js[|rest|] == j;
    assert t == t[..|s| - 1] + [t[|s| - 1]];
  }

  lemma ShortShuffle<T>(s: seq<T>, js: seq<nat>)
    requires |s| <= 1 && js == if |s| == 0 then [] else [0]
    ensures Choices(js) && Shuffled(s, js) == s
  {
  }

  lemma MoreChoices(rest: seq<nat>, j: nat)
    requires Choices(rest) && j <= |rest|
    ensures Choices(rest + [j]) && (rest + [j])[..|rest|] == rest
  {
  }

  lemma Position<T(!new)>(s: seq<T>, t: seq<T>, i: nat) returns (j: nat)
    requires multiset(s) == multiset(t) && i < |t|
    ensures j < |s| && s[j] == t[i]
  {
    assert t[i] in multiset(s);
    j :| j < |s| && s[j] == t[i];
  }

  lemma SwappedLast<T>(s: seq<T>, j: nat)
    requires j < |s|
    ensures var u := Swapped(s, |s| - 1, j); u[|s| - 1] == s[j] && multiset(u) == multiset(s) && |u| == |s|
  {
  }

  lemma OneElement<T>(s: seq<T>, t: seq<T>)
    requires |s| == 1 == |t| && multiset(s) == multiset(t)
    ensures s == t
  {
    assert s[0] in multiset(t);
  }
}
