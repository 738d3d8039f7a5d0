/** Smooth weighted round robin. */
module WeightedRR {
  import opened Basics

  function Sum(xs: seq<int>): int {
    if xs == [] then 0 else Sum(xs[..|xs| - 1]) + xs[|xs| - 1]
  }

  /** Negative weights count as zero. */
  function Clamp(w: int): nat { if w < 0 then 0 else w }

  predicate NonNegative(ws: seq<int>) { forall i :: 0 <= i < |ws| ==> ws[i] >= 0 }

  // ---------------------------------------------------------------- one selection

  function Raised(ws: seq<int>, cur: seq<int>): (r: seq<int>)
    requires |cur| == |ws|
    ensures |r| == |ws|
  {
    seq(|ws|, i requires 0 <= i < |ws| => cur[i] + ws[i])
  }

  /** The first position of a largest element among the first n. */
  function FirstMax(xs: seq<int>, n: nat): (m: nat)
    requires 0 < n <= |xs|
    ensures m < n
  {
    if n == 1 then 0
    else
      var m := FirstMax(xs, n - 1);
      if xs[n - 1] > xs[m] then n - 1 else m
  }

  lemma {:induction false} FirstMaxIsFirstMax(xs: seq<int>, n: nat)
    requires 0 < n <= |xs|
    ensures forall i :: 0 <= i < n ==> xs[i] <= xs[FirstMax(xs, n)]
    ensures forall i :: 0 <= i < FirstMax(xs, n) ==> xs[i] < xs[FirstMax(xs, n)]
  {
    if n > 1 { FirstMaxIsFirstMax(xs, n - 1); }
  }

  /** Adding its weight to each, m is the first with the largest. */
  ghost predicate Leads(ws: seq<int>, cur: seq<int>, m: nat) {
    && |cur| == |ws| && m < |ws|
    && (forall i :: 0 <= i < |ws| ==> cur[i] + ws[i] <= cur[m] + ws[m])
    && (forall i :: 0 <= i < m ==> cur[i] + ws[i] < cur[m] + ws[m])
  }

  /** Each has been raised by its weight, and m alone has paid the sum of all. */
  ghost predicate Pays(ws: seq<int>, cur: seq<int>, m: nat, next: seq<int>) {
    && |next| == |cur| == |ws|
    && forall i :: 0 <= i < |ws| ==> next[i] == cur[i] + ws[i] - if i == m then Sum(ws) else 0
  }

  function Pick(ws: seq<int>, cur: seq<int>): (m: nat)
    requires |cur| == |ws| > 0
    ensures m < |ws|
  {
    FirstMax(Raised(ws, cur), |ws|)
  }

  lemma {:induction false} PickLeads(ws: seq<int>, cur: seq<int>)
    requires |cur| == |ws| > 0
    ensures Leads(ws, cur, Pick(ws, cur))
  {
    var up, m := Raised(ws, cur), Pick(ws, cur);
    FirstMaxIsFirstMax(up, |ws|);
    forall i | 0 <= i < |ws| ensures cur[i] + ws[i] <= cur[m] + ws[m] && (i < m ==> cur[i] + ws[i] < cur[m] + ws[m]) {
      assert up[i] <= up[m];
    }
  }

  function Step(ws: seq<int>, cur: seq<int>): (r: seq<int>)
    requires |cur| == |ws| > 0
    ensures |r| == |ws|
  {
    var m := Pick(ws, cur);
    Raised(ws, cur)[m := Raised(ws, cur)[m] - Sum(ws)]
  }

  lemma {:induction false} StepPays(ws: seq<int>, cur: seq<int>)
    requires |cur| == |ws| > 0
    ensures Pays(ws, cur, Pick(ws, cur), Step(ws, cur))
  {
  }

  /** The balancer object. */
  class Balancer {
    const weights: array<int>
    const currentWeight: array<int>
    var totalWeight: int
    ghost var picks: nat

    ghost predicate Valid()
      reads this, weights, currentWeight
    {
      && weights != currentWeight && weights.Length == currentWeight.Length
      && NonNegative(weights[..]) && totalWeight == Sum(weights[..])
      && (weights.Length == 0 ==> picks == 0)
      && (weights.Length > 0 ==> currentWeight[..] == Current(weights[..], picks))
    }

    constructor (input: seq<int>)
      ensures Valid() && fresh(weights) && fresh(currentWeight) && picks == 0
      ensures weights.Length == |input| && forall i :: 0 <= i < |input| ==>
        weights[i] == if input[i] < 0 then 0 else input[i]
    {
      weights := new int[|input|](i requires 0 <= i < |input| => input[i]);
      currentWeight := new int[|input|](_ => 0);
      picks := 0;
      new;
      var total := 0;
      var i := 0;
      while i < weights.Length
        invariant 0 <= i <= weights.Length == |input| == currentWeight.Length && weights != currentWeight
        invariant forall j :: 0 <= j < i ==> weights[j] == Clamp(input[j])
        invariant forall j :: i <= j < |input| ==> weights[j] == input[j]
        invariant forall j :: 0 <= j < |input| ==> currentWeight[j] == 0
        invariant total == Sum(weights[..i])
        modifies weights
      {
        var wt := weights[i];
        if wt < 0 {
          wt := 0;
          weights[i] := 0;
        }
        assert weights[..i + 1][..i] == weights[..i];
        total := total + wt;
        i := i + 1;
      }
      assert weights[..|input|] == weights[..];
      totalWeight := total;
      assert currentWeight[..] == Zeros(|input|);
    }

    /** Adds every weight to its current weight and finds the first largest. */
    method Raise(ghost cur: seq<int>) returns (maxIdx: nat)
      requires weights != currentWeight && weights.Length == currentWeight.Length > 0 && cur == currentWeight[..]
      modifies currentWeight
      ensures currentWeight[..] == Raised(weights[..], cur) && maxIdx == Pick(weights[..], cur)
    {
      ghost var up := Raised(weights[..], cur);
      maxIdx := 0;
      var i := 0;
      while i < weights.Length
        invariant 0 <= i <= weights.Length
        invariant forall j :: 0 <= j < i ==> currentWeight[j] == up[j]
        invariant forall j :: i <= j < weights.Length ==> currentWeight[j] == cur[j]
        invariant i > 0 ==> maxIdx == FirstMax(up, i)
      {
        currentWeight[i] := currentWeight[i] + weights[i];
        if i == 0 || currentWeight[i] > currentWeight[maxIdx] {
          maxIdx := i;
        }
        i := i + 1;
      }
      assert currentWeight[..] == up;
    }

    /** Takes the sum of all weights off the chosen one. */
    method Pay(ghost cur: seq<int>, maxIdx: nat)
      requires weights != currentWeight && weights.Length == currentWeight.Length == |cur| > 0
      requires totalWeight == Sum(weights[..]) && currentWeight[..] == Raised(weights[..], cur)
      requires maxIdx == Pick(weights[..], cur)
      modifies currentWeight
      ensures currentWeight[..] == Step(weights[..], cur)
      ensures Leads(weights[..], cur, maxIdx) && Pays(weights[..], cur, maxIdx, currentWeight[..])
    {
      PickLeads(weights[..], cur);
      StepPays(weights[..], cur);
      currentWeight[maxIdx] := currentWeight[maxIdx] - totalWeight;
      assert currentWeight[..] == Step(weights[..], cur);
    }

    /** Select among n instances; None stands for the empty instance of the source. */
    method Select(n: nat) returns (idx: Option<nat>)
      requires Valid()
      modifies this`picks, currentWeight
      ensures Valid()
      ensures idx.Some? <==> n == weights.Length && n > 0
      ensures idx.None? ==> picks == old(picks) && currentWeight[..] == old(currentWeight[..])
      ensures idx.Some? ==> picks == old(picks) + 1 && idx.value < n && idx.value == Choice(weights[..], old(picks))
      ensures idx.Some? ==> Leads(weights[..], old(currentWeight[..]), idx.value)
      ensures idx.Some? ==> Pays(weights[..], old(currentWeight[..]), idx.value, currentWeight[..])
    {
      if n == 0 || n != weights.Length { return None; }
      ghost var ws, cur := weights[..], currentWeight[..];
      var maxIdx := Raise(cur);
      assert weights[..] == ws;
      Pay(cur, maxIdx);
      assert weights[..] == ws;
      picks := picks + 1;
      return Some(maxIdx);
    }
  }

  // ---------------------------------------------------------------- runs

  function Zeros(n: nat): (r: seq<int>)
    ensures |r| == n
  {
    seq(n, _ => 0)
  }

  /** The current weights after n selections. */
  function Current(ws: seq<int>, n: nat): (r: seq<int>)
    requires |ws| > 0
    ensures |r| == |ws|
  {
    if n == 0 then Zeros(|ws|) else Step(ws, Current(ws, n - 1))
  }

  /** The index chosen by selection number n, counting from 0. */
  function Choice(ws: seq<int>, n: nat): (m: nat)
    requires |ws| > 0
    ensures m < |ws|
  {
    Pick(ws, Current(ws, n))
  }

  /** Every choice is the first node with the largest raised weight, and only that node pays: the
      sum of all weights. */
  lemma {:induction false} ChoiceLeads(ws: seq<int>, n: nat)
    requires |ws| > 0
    ensures Leads(ws, Current(ws, n), Choice(ws, n))
    ensures Pays(ws, Current(ws, n), Choice(ws, n), Current(ws, n + 1))
  {
    PickLeads(ws, Current(ws, n));
    StepPays(ws, Current(ws, n));
  }

  /** The whole sequence of choices. */
  function Choices(ws: seq<int>): nat -> nat
    requires |ws| > 0
  {
    n => Choice(ws, n)
  }

  /** How often index i occurs among choices from, ..., from + n - 1. */
  function Count(choices: nat -> nat, from: nat, n: nat, i: nat): nat {
    if n == 0 then 0 else Count(choices, from, n - 1, i) + (if choices(from + n - 1) == i then 1 else 0)
  }

  // ---------------------------------------------------------------- sums

  lemma {:induction false} SumUpdate(xs: seq<int>, m: nat, v: int)
    requires m < |xs|
    ensures Sum(xs[m := v]) == Sum(xs) - xs[m] + v
  {
    var n := |xs| - 1;
    if m < n {
      SumUpdate(xs[..n], m, v);
      assert xs[m := v][..n] == xs[..n][m := v];
    } else {
      assert xs[m := v][..n] == xs[..n];
    }
  }

  lemma {:induction false} SumAdd(xs: seq<int>, ys: seq<int>, zs: seq<int>)
    requires |xs| == |ys| == |zs| && forall i :: 0 <= i < |xs| ==> zs[i] == xs[i] + ys[i]
    ensures Sum(zs) == Sum(xs) + Sum(ys)
  {
    if xs != [] {
      SumAdd(xs[..|xs| - 1], ys[..|xs| - 1], zs[..|xs| - 1]);
    }
  }

  lemma {:induction false} SumBounds(xs: seq<int>, low: int)
    requires forall i :: 0 <= i < |xs| ==> xs[i] >= low
    ensures Sum(xs) >= |xs| * low
  {
    if xs != [] {
      SumBounds(xs[..|xs| - 1], low);
      assert |xs| * low == (|xs| - 1) * low + low;
    }
  }

  lemma {:induction false} SumUpper(xs: seq<int>, high: int)
    requires forall i :: 0 <= i < |xs| ==> xs[i] <= high
    ensures Sum(xs) <= |xs| * high
  {
    if xs != [] {
      SumUpper(xs[..|xs| - 1], high);
      assert |xs| * high == (|xs| - 1) * high + high;
    }
  }

  /** All but one element at least low: the one is at most the sum less the others. */
  lemma {:induction false} OneElement(xs: seq<int>, m: nat, low: int)
    requires m < |xs| && forall i :: 0 <= i < |xs| ==> xs[i] >= low
    ensures xs[m] <= Sum(xs) - (|xs| - 1) * low
  {
    SumUpdate(xs, m, low);
    SumBounds(xs[m := low], low);
    assert |xs| * low == (|xs| - 1) * low + low;
  }

  // ---------------------------------------------------------------- the invariant of a run

  /** What one selection does, given current weights that sum to zero. */
  lemma {:induction false} StepFacts(ws: seq<int>, cur: seq<int>)
    requires |cur| == |ws| > 0 && NonNegative(ws) && Sum(ws) > 0 && Sum(cur) == 0
    requires forall i :: 0 <= i < |ws| ==> cur[i] >= 1 - Sum(ws) && (ws[i] == 0 ==> cur[i] <= 0)
    ensures Sum(Step(ws, cur)) == 0 && ws[Pick(ws, cur)] > 0
    ensures forall i :: 0 <= i < |ws| ==>
      && Step(ws, cur)[i] == cur[i] + ws[i] - (if i == Pick(ws, cur) then Sum(ws) else 0)
      && Step(ws, cur)[i] >= 1 - Sum(ws)
  {
    var up := Raised(ws, cur);
    var m := Pick(ws, cur);
    FirstMaxIsFirstMax(up, |up|);
    SumAdd(cur, ws, up);
    SumUpdate(up, m, up[m] - Sum(ws));
    SumUpper(up, up[m]);
    Positive(|up|, up[m]);
  }

  /** A product of a positive number is positive only with a positive factor. */
  lemma {:induction false} Positive(k: int, x: int)
    requires k > 0
    ensures k * x > 0 <==> x > 0
    ensures x >= 0 ==> k * x >= 0
  {
    if x <= 0 { assert k * x <= 0; }
  }

  /** Current weights after n selections, of which count chose each node. */
  ghost predicate Tally(ws: seq<int>, cur: seq<int>, n: nat, choices: nat -> nat) {
    && |cur| == |ws| && Sum(cur) == 0
    && forall i :: 0 <= i < |ws| ==>
      && cur[i] == n * ws[i] - Sum(ws) * Count(choices, 0, n, i)
      && cur[i] >= 1 - Sum(ws)
      && (ws[i] == 0 ==> Count(choices, 0, n, i) == 0)
  }

  lemma {:induction false} TallyStep(ws: seq<int>, cur: seq<int>, n: nat, choices: nat -> nat)
    requires |ws| > 0 && NonNegative(ws) && Sum(ws) > 0
    requires Tally(ws, cur, n, choices) && choices(n) == Pick(ws, cur)
    ensures Tally(ws, Step(ws, cur), n + 1, choices)
  {
    StepFacts(ws, cur);
    var next := Step(ws, cur);
    forall i | 0 <= i < |ws|
      ensures next[i] == (n + 1) * ws[i] - Sum(ws) * Count(choices, 0, n + 1, i)
      ensures ws[i] == 0 ==> Count(choices, 0, n + 1, i) == 0
    {
      Account(ws[i], Sum(ws), n, Count(choices, 0, n, i));
    }
  }

  lemma {:induction false} Account(w: int, total: int, n: nat, c: nat)
    ensures (n + 1) * w - total * c == (n * w - total * c) + w
    ensures (n + 1) * w - total * (c + 1) == (n * w - total * c) + w - total
  {
    assert total * (c + 1) == total * c + total;
    assert (n + 1) * w == n * w + w;
  }

  lemma {:induction false} SumZeros(n: nat)
    ensures Sum(Zeros(n)) == 0
  {
    SumBounds(Zeros(n), 0);
    SumUpper(Zeros(n), 0);
  }

  lemma {:induction false} TallyZero(ws: seq<int>, choices: nat -> nat)
    requires Sum(ws) > 0
    ensures Tally(ws, Zeros(|ws|), 0, choices)
  {
    SumZeros(|ws|);
  }

  /** At every prefix: the current weights sum to zero, each is n * w - W * count, and none falls
      to -W or below; a node of weight zero is never chosen. */
  lemma {:induction false} Balanced(ws: seq<int>, n: nat)
    requires |ws| > 0 && NonNegative(ws) && Sum(ws) > 0
    ensures Tally(ws, Current(ws, n), n, Choices(ws))
  {
    if n == 0 {
      TallyZero(ws, Choices(ws));
    } else {
      Balanced(ws, n - 1);
      TallyStep(ws, Current(ws, n - 1), n - 1, Choices(ws));
    }
  }

  /** The deviation of every node stays within [1 - W, (k - 1)(W - 1)] after any number of
      selections. */
  lemma {:induction false} Deviation(ws: seq<int>, n: nat, i: nat)
    requires |ws| > 0 && NonNegative(ws) && Sum(ws) > 0 && i < |ws|
    ensures 1 - Sum(ws) <= n * ws[i] - Sum(ws) * Count(Choices(ws), 0, n, i) <= (|ws| - 1) * (Sum(ws) - 1)
  {
    Balanced(ws, n);
    OneElement(Current(ws, n), i, 1 - Sum(ws));
    Negate(|ws| - 1, Sum(ws) - 1);
  }

  lemma {:induction false} Negate(a: int, b: int)
    ensures a * -b == -(a * b)
  {
  }

  lemma {:induction false} ZeroWeightNeverChosen(ws: seq<int>, n: nat)
    requires |ws| > 0 && NonNegative(ws) && Sum(ws) > 0
    ensures ws[Choice(ws, n)] > 0
  {
    Balanced(ws, n);
    StepFacts(ws, Current(ws, n));
  }

  // ---------------------------------------------------------------- periodicity

  lemma {:induction false} AllZero(xs: seq<int>)
    requires (forall i :: 0 <= i < |xs| ==> xs[i] >= 0) && Sum(xs) == 0
    ensures xs == Zeros(|xs|)
  {
    forall i | 0 <= i < |xs| ensures xs[i] == 0 { OneElement(xs, i, 0); }
  }

  ghost predicate Divides(total: int, x: int) { exists q: int :: x == total * q }

  lemma {:induction false} Distribute(total: int, a: int, b: int)
    ensures total * a - total * b == total * (a - b)
  {
  }

  /** A multiple of W above -W is not negative. */
  lemma {:induction false} NoNegativeMultiple(total: int, q: int, c: int)
    requires total > 0 && total * q - total * c >= 1 - total
    ensures total * q - total * c >= 0
  {
    Distribute(total, q, c);
    Positive(total, q - c + 1);
    Distribute(total, q - c, -1);
    if q - c < 0 { Positive(total, c - q); Distribute(total, c, q); }
  }

  /** The current weights are back at zero after n selections exactly when W divides n * w for
      every node; so in particular after W selections. */
  lemma {:induction false} BackAtZero(ws: seq<int>, n: nat)
    requires |ws| > 0 && NonNegative(ws) && Sum(ws) > 0
    ensures Current(ws, n) == Zeros(|ws|) <==> forall i :: 0 <= i < |ws| ==> Divides(Sum(ws), n * ws[i])
  {
    Balanced(ws, n);
    TallyAtZero(ws, Current(ws, n), n, Choices(ws));
  }

  lemma {:induction false} TallyAtZero(ws: seq<int>, cur: seq<int>, n: nat, choices: nat -> nat)
    requires Sum(ws) > 0 && Tally(ws, cur, n, choices)
    ensures cur == Zeros(|ws|) <==> forall i :: 0 <= i < |ws| ==> Divides(Sum(ws), n * ws[i])
  {
    if forall i :: 0 <= i < |ws| ==> Divides(Sum(ws), n * ws[i]) {
      forall i | 0 <= i < |ws| ensures cur[i] >= 0 {
        var q :| n * ws[i] == Sum(ws) * q;
        NoNegativeMultiple(Sum(ws), q, Count(choices, 0, n, i));
      }
      AllZero(cur);
    }
    if cur == Zeros(|ws|) {
      forall i | 0 <= i < |ws| ensures Divides(Sum(ws), n * ws[i]) {
        assert cur[i] == 0;
        assert n * ws[i] == Sum(ws) * Count(choices, 0, n, i);
      }
    }
  }

  lemma {:induction false} Repeats(ws: seq<int>, period: nat, n: nat)
    requires |ws| > 0 && Current(ws, period) == Zeros(|ws|)
    ensures Current(ws, period + n) == Current(ws, n)
  {
    if n > 0 {
      Repeats(ws, period, n - 1);
    }
  }

  lemma {:induction false} SameFactor(total: int, w: int, c: int)
    requires total > 0 && total * w - total * c == 0
    ensures w == c
  {
    Distribute(total, w, c);
    Distribute(total, c, w);
    Positive(total, w - c);
    Positive(total, c - w);
  }

  lemma {:induction false} FullTally(ws: seq<int>, cur: seq<int>, choices: nat -> nat)
    requires Sum(ws) > 0 && Tally(ws, cur, Sum(ws), choices) && cur == Zeros(|ws|)
    ensures forall i :: 0 <= i < |ws| ==> Count(choices, 0, Sum(ws), i) == ws[i]
  {
    forall i | 0 <= i < |ws| ensures Count(choices, 0, Sum(ws), i) == ws[i] {
      assert cur[i] == 0;
      SameFactor(Sum(ws), ws[i], Count(choices, 0, Sum(ws), i));
    }
  }

  lemma {:induction false} ZeroAfterTotal(ws: seq<int>)
    requires |ws| > 0 && NonNegative(ws) && Sum(ws) > 0
    ensures Current(ws, Sum(ws)) == Zeros(|ws|)
  {
    BackAtZero(ws, Sum(ws));
  }

  /** After exactly W selections every node has been chosen exactly as often as its weight says
      and all current weights are zero again, so the choices repeat with period W for ever. */
  lemma {:induction false} Period(ws: seq<int>, n: nat)
    requires |ws| > 0 && NonNegative(ws) && Sum(ws) > 0
    ensures Current(ws, Sum(ws)) == Zeros(|ws|)
    ensures forall i :: 0 <= i < |ws| ==> Count(Choices(ws), 0, Sum(ws), i) == ws[i]
    ensures Choice(ws, Sum(ws) + n) == Choice(ws, n)
  {
    ZeroAfterTotal(ws);
    Balanced(ws, Sum(ws));
    FullTally(ws, Current(ws, Sum(ws)), Choices(ws));
    ChoiceRepeats(ws, n);
  }

  lemma {:induction false} ChoiceRepeats(ws: seq<int>, n: nat)
    requires |ws| > 0 && NonNegative(ws) && Sum(ws) > 0
    ensures Choice(ws, Sum(ws) + n) == Choice(ws, n)
  {
    ZeroAfterTotal(ws);
    Repeats(ws, Sum(ws), n);
    SamePick(ws, Current(ws, Sum(ws) + n), Current(ws, n));
  }

  lemma {:induction false} SamePick(ws: seq<int>, a: seq<int>, b: seq<int>)
    requires |a| == |b| == |ws| > 0 && a == b
    ensures Pick(ws, a) == Pick(ws, b)
  {
  }

  lemma {:induction false} CountSplit(choices: nat -> nat, from: nat, a: nat, b: nat, i: nat)
    ensures Count(choices, from, a + b, i) == Count(choices, from, a, i) + Count(choices, from + a, b, i)
  {
    if b > 0 {
      CountSplit(choices, from, a, b - 1, i);
      assert from + a + (b - 1) == from + (a + b) - 1;
    }
  }

  lemma {:induction false} CountRepeats(choices: nat -> nat, period: nat, n: nat, i: nat)
    requires forall k: nat :: choices(period + k) == choices(k)
    ensures Count(choices, period, n, i) == Count(choices, 0, n, i)
  {
    if n > 0 {
      CountRepeats(choices, period, n - 1, i);
      assert choices(period + (n - 1)) == choices(n - 1);
    }
  }

  /** Not only from the start: any W consecutive selections choose every node exactly as often as
      its weight says. */
  lemma {:induction false} AnyWindow(ws: seq<int>, from: nat, i: nat)
    requires |ws| > 0 && NonNegative(ws) && Sum(ws) > 0 && i < |ws|
    ensures Count(Choices(ws), from, Sum(ws), i) == ws[i]
  {
    Period(ws, 0);
    ChoicesRepeat(ws);
    Windows(Choices(ws), Sum(ws), from, i);
  }

  lemma {:induction false} ChoicesRepeat(ws: seq<int>)
    requires |ws| > 0 && NonNegative(ws) && Sum(ws) > 0
    ensures forall k: nat :: Choices(ws)(Sum(ws) + k) == Choices(ws)(k)
  {
    forall k: nat ensures Choices(ws)(Sum(ws) + k) == Choices(ws)(k) { ChoiceRepeats(ws, k); }
  }

  lemma {:induction false} Windows(choices: nat -> nat, total: nat, from: nat, i: nat)
    requires forall k: nat :: choices(total + k) == choices(k)
    ensures Count(choices, from, total, i) == Count(choices, 0, total, i)
  {
    CountSplit(choices, 0, from, total, i);
    CountSplit(choices, 0, total, from, i);
    CountRepeats(choices, total, from, i);
    assert 0 + from == from && 0 + total == total;
  }
}
