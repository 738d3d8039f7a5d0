/** The connection pool of one server address: grows to its limit, then hands its connections out
    in turn and throws away the dead ones it meets on the way. */
module Pool {
  import opened Basics

  type Conn = nat

  /** Whether a connection has been closed, at the k-th look since the call began. */
  type Liveness = (nat, Conn) -> bool

  /** A closed connection never comes back. */
  ghost predicate OnlyDies(dead: Liveness) {
    forall t: nat, u: nat, c: Conn :: t <= u && dead(t, c) ==> dead(u, c)
  }

  predicate Distinct(conns: seq<Conn>) {
    forall i, j :: 0 <= i < j < |conns| ==> conns[i] != conns[j]
  }

  /** What the turn through a full pool ends with. */
  datatype Turn = Picked(rest: seq<Conn>, next: nat, conn: Conn) | AllDead

  function RemoveAt(conns: seq<Conn>, k: nat): seq<Conn>
    requires k < |conns|
  {
    conns[..k] + conns[k + 1..]
  }

  function TakeTurn(conns: seq<Conn>, next: nat, dead: Liveness, t: nat): Turn
    decreases |conns|
  {
    if conns == [] then AllDead
    else
      var k := next % |conns|;
      if !dead(t, conns[k]) then Picked(conns, (k + 1) % |conns|, conns[k])
      else TakeTurn(RemoveAt(conns, k), next, dead, t + 1)
  }

  datatype Fault = Cancelled | PoolClosed | DialFailed

  datatype Acquired = Acquired(conn: Conn) | Failed(fault: Fault)

  class ConnectionPool {
    const maxActive: nat
    var conns: seq<Conn>
    var next: nat
    var closed: bool

    predicate Valid()
      reads this
    {
      1 <= maxActive && |conns| <= maxActive && next < maxActive && Distinct(conns)
    }

    constructor (limit: int)
      ensures Valid() && conns == [] && next == 0 && !closed
      ensures maxActive == if limit <= 0 then 1 else limit
    {
      maxActive := if limit <= 0 then 1 else limit;
      conns, next, closed := [], 0, false;
    }

    /** `dial` is what dialling would give: a connection the pool does not hold, or a failure. */
    method Acquire(cancelled: bool, dial: Option<Conn>, dead: Liveness) returns (r: Acquired)
      requires Valid() && (dial.Some? ==> dial.value !in conns)
      modifies this`conns, this`next
      ensures Valid()
      ensures cancelled ==> r == Failed(Cancelled)
      ensures !cancelled && closed ==> r == Failed(PoolClosed)
      ensures (cancelled || closed) ==> conns == old(conns) && next == old(next)
      ensures !cancelled && !closed && |old(conns)| < maxActive ==>
        Dialled(r, dial, old(conns), conns) && next == old(next)
      ensures !cancelled && !closed && |old(conns)| == maxActive ==>
        match TakeTurn(old(conns), old(next), dead, 0)
        case Picked(rest, n, c) => r == Acquired(c) && conns == rest && next == n
        case AllDead => Dialled(r, dial, [], conns) && next == old(next)
    {
      if cancelled { return Failed(Cancelled); }
      if closed { return Failed(PoolClosed); }
      if |conns| < maxActive {
        if dial.None? { return Failed(DialFailed); }
        conns := conns + [dial.value];
        return Acquired(dial.value);
      }
      var t := 0;
      var i := 0;
      while i < |conns|
        invariant Valid() && i == 0 && next == old(next)
        invariant TakeTurn(conns, next, dead, t) == TakeTurn(old(conns), old(next), dead, 0)
        decreases |conns|
      {
        var idx := (next + i) % |conns|;
        var conn := conns[idx];
        if !dead(t, conn) {
          next := (idx + 1) % |conns|;
          return Acquired(conn);
        }
        StillDistinct(conns, idx);
        t := t + 1;
        conns := RemoveAt(conns, idx);
        if |conns| == 0 { break; }
        i := i - 1;
        i := i + 1;
      }
      if dial.None? { return Failed(DialFailed); }
      conns := conns + [dial.value];
      return Acquired(dial.value);
    }

    method Close()
      requires Valid()
      modifies this`conns, this`closed
      ensures Valid() && closed && conns == if old(closed) then old(conns) else []
    {
      if closed { return; }
      closed := true;
      conns := [];
    }

    /** Any number of calls in a row on a full pool whose connections all stay alive. */
    method AcquireMany(n: nat, dead: Liveness) returns (got: seq<Conn>)
      requires Valid() && !closed && |conns| == maxActive && next < |conns|
      requires forall t: nat, c: Conn :: c in conns ==> !dead(t, c)
      modifies this`conns, this`next
      ensures conns == old(conns) && got == InTurn(conns, old(next), n)
    {
      got := [];
      while |got| < n
        invariant Valid() && conns == old(conns) && |got| <= n
        invariant next == (old(next) + |got|) % |conns| && got == InTurn(conns, old(next), |got|)
      {
        NextTurn(old(next) + |got|, |conns|);
        var r := Acquire(false, None, dead);
        got := got + [r.conn];
      }
    }
  }

  predicate Dialled(r: Acquired, dial: Option<Conn>, before: seq<Conn>, after: seq<Conn>) {
    match dial
    case None => r == Failed(DialFailed) && after == before
    case Some(c) => r == Acquired(c) && after == before + [c]
  }

  // ---------------------------------------------------------------- only the dead are evicted

  /** The connections of conns that are not in gone, in order. */
  function Without(conns: seq<Conn>, gone: set<Conn>): seq<Conn> {
    if conns == [] then []
    else (if conns[0] in gone then [] else [conns[0]]) + Without(conns[1..], gone)
  }

  function Gone(conns: seq<Conn>, rest: seq<Conn>): set<Conn> {
    set c | c in conns && c !in rest
  }

  lemma {:induction false} WithoutConcat(a: seq<Conn>, b: seq<Conn>, gone: set<Conn>)
    ensures Without(a + b, gone) == Without(a, gone) + Without(b, gone)
  {
    if a == [] {
      assert a + b == b;
    } else {
      assert (a + b)[1..] == a[1..] + b;
      WithoutConcat(a[1..], b, gone);
    }
  }

  lemma {:induction false} WithoutSame(conns: seq<Conn>, g: set<Conn>, h: set<Conn>)
    requires forall c :: c in conns ==> (c in g <==> c in h)
    ensures Without(conns, g) == Without(conns, h)
  {
    if conns != [] { WithoutSame(conns[1..], g, h); }
  }

  lemma {:induction false} WithoutNone(conns: seq<Conn>, gone: set<Conn>)
    requires forall c :: c in conns ==> c !in gone
    ensures Without(conns, gone) == conns
  {
    if conns != [] { WithoutNone(conns[1..], gone); }
  }

  /** Taking out the connection at k as well. */
  lemma {:induction false} WithoutOneMore(conns: seq<Conn>, k: nat, rest: seq<Conn>)
    requires Distinct(conns) && k < |conns| && conns[k] !in rest
    ensures Without(conns, Gone(conns, rest)) == Without(RemoveAt(conns, k), Gone(RemoveAt(conns, k), rest))
  {
    var gone := Gone(conns, rest);
    var (a, c, b) := (conns[..k], conns[k], conns[k + 1..]);
    assert conns == a + ([c] + b);
    WithoutConcat(a, [c] + b, gone);
    WithoutConcat([c], b, gone);
    WithoutConcat(a, b, gone);
    assert Without([c], gone) == [];
    WithoutSame(a + b, gone, Gone(a + b, rest));
  }

  /** What a turn that started at time t may do to a full pool: it keeps the order of what it
      keeps, evicts only connections that are dead, and hands out one that was alive when looked
      at; or all were dead. */
  ghost predicate Fair(conns: seq<Conn>, turn: Turn, dead: Liveness, t: nat) {
    match turn
    case AllDead => forall c :: c in conns ==> dead(t + |conns|, c)
    case Picked(rest, n, c) =>
      && rest == Without(conns, Gone(conns, rest))
      && 0 < |rest| <= |conns| && (forall x :: x in rest ==> x in conns)
      && (forall x :: x in Gone(conns, rest) ==> dead(t + (|conns| - |rest|), x))
      && !dead(t + (|conns| - |rest|), c)
  }

  lemma {:induction false} EvictsOnlyDead(conns: seq<Conn>, next: nat, dead: Liveness, t: nat)
    requires Distinct(conns) && OnlyDies(dead)
    ensures Fair(conns, TakeTurn(conns, next, dead, t), dead, t)
    decreases |conns|
  {
    if conns != [] {
      var k := next % |conns|;
      if dead(t, conns[k]) {
        StillDistinct(conns, k);
        EvictsOnlyDead(RemoveAt(conns, k), next, dead, t + 1);
        OneMoreGone(conns, k, TakeTurn(RemoveAt(conns, k), next, dead, t + 1), dead, t);
      } else {
        WithoutNone(conns, Gone(conns, conns));
      }
    }
  }

  lemma {:induction false} StillDistinct(conns: seq<Conn>, k: nat)
    requires Distinct(conns) && k < |conns|
    ensures Distinct(RemoveAt(conns, k)) && conns[k] !in RemoveAt(conns, k)
  {
  }

  lemma {:induction false} OneMoreGone(conns: seq<Conn>, k: nat, turn: Turn, dead: Liveness, t: nat)
    requires Distinct(conns) && OnlyDies(dead) && k < |conns| && dead(t, conns[k])
    requires Fair(RemoveAt(conns, k), turn, dead, t + 1)
    ensures Fair(conns, turn, dead, t)
  {
    var fewer := RemoveAt(conns, k);
    StillDistinct(conns, k);
    match turn
    case AllDead =>
      forall c | c in conns ensures dead(t + |conns|, c) {
        if c != conns[k] { assert c in fewer; }
      }
    case Picked(rest, n, c) =>
      WithoutOneMore(conns, k, rest);
      forall x | x in Gone(conns, rest) ensures dead(t + (|conns| - |rest|), x) {
        if x != conns[k] { assert x in Gone(fewer, rest); }
      }
      forall x | x in rest ensures x in conns { assert x in fewer; }
  }

  /** The connection handed out is in the pool, and the next turn starts right behind it. */
  lemma {:induction false} TurnPasses(conns: seq<Conn>, next: nat, dead: Liveness, t: nat)
    requires TakeTurn(conns, next, dead, t).Picked?
    ensures var p := TakeTurn(conns, next, dead, t);
      p.next < |p.rest| && p.rest[if p.next == 0 then |p.rest| - 1 else p.next - 1] == p.conn
    decreases |conns|
  {
    var k := next % |conns|;
    if dead(t, conns[k]) { TurnPasses(RemoveAt(conns, k), next, dead, t + 1); }
  }

  /** While some connection of a full pool stays alive, no call dials: it gets a pooled
      connection. */
  lemma {:induction false} SparesTheLiving(conns: seq<Conn>, next: nat, dead: Liveness, c: Conn)
    requires Distinct(conns) && OnlyDies(dead) && c in conns && !dead(|conns|, c)
    ensures TakeTurn(conns, next, dead, 0).Picked? && c in TakeTurn(conns, next, dead, 0).rest
  {
    EvictsOnlyDead(conns, next, dead, 0);
    StaysOrDead(conns, TakeTurn(conns, next, dead, 0), dead, c);
  }

  lemma {:induction false} StaysOrDead(conns: seq<Conn>, turn: Turn, dead: Liveness, c: Conn)
    requires OnlyDies(dead) && Fair(conns, turn, dead, 0) && c in conns
    ensures (turn.Picked? && c in turn.rest) || dead(|conns|, c)
  {
    if turn.Picked? && c !in turn.rest {
      assert c in Gone(conns, turn.rest);
    }
  }

  // ---------------------------------------------------------------- whose turn it is

  /** The connections from position i to k are found dead when the turn comes to them. */
  ghost predicate DeadInTurn(conns: seq<Conn>, i: nat, k: nat, dead: Liveness, t: nat)
    requires k <= |conns|
  {
    forall j: nat :: i <= j < k ==> dead(t + (j - i), conns[j])
  }

  lemma {:induction false} OneEvicted(conns: seq<Conn>, next: nat, k: nat, dead: Liveness, t: nat)
    requires next < k <= |conns| && DeadInTurn(conns, next, k, dead, t)
    ensures TakeTurn(conns, next, dead, t) == TakeTurn(RemoveAt(conns, next), next, dead, t + 1)
    ensures DeadInTurn(RemoveAt(conns, next), next, k - 1, dead, t + 1)
    ensures RemoveAt(conns, next)[..next] == conns[..next] && RemoveAt(conns, next)[k - 1..] == conns[k..]
  {
    Remainder(next, |conns|, 0, next);
    assert dead(t + (next - next), conns[next]);
    forall j: nat | next <= j < k - 1 ensures dead(t + 1 + (j - next), RemoveAt(conns, next)[j]) {
      assert dead(t + ((j + 1) - next), conns[j + 1]);
    }
  }

  /** The first living connection from the turn's position to the end of the list gets the turn,
      and everything passed over is gone. */
  lemma {:induction false} FirstInLine(conns: seq<Conn>, next: nat, dead: Liveness, t: nat, k: nat)
    requires next <= k < |conns| && DeadInTurn(conns, next, k, dead, t) && !dead(t + (k - next), conns[k])
    ensures var rest := conns[..next] + conns[k..];
      TakeTurn(conns, next, dead, t) == Picked(rest, (next + 1) % |rest|, conns[k])
    decreases k - next
  {
    if k == next {
      Remainder(next, |conns|, 0, next);
      assert conns[..next] + conns[k..] == conns;
    } else {
      OneEvicted(conns, next, k, dead, t);
      FirstInLine(RemoveAt(conns, next), next, dead, t + 1, k - 1);
    }
  }

  /** If none is alive up to the end of the list, the turn goes on at the front. */
  lemma {:induction false} BackToTheFront(conns: seq<Conn>, next: nat, dead: Liveness, t: nat)
    requires 0 < next <= |conns| && DeadInTurn(conns, next, |conns|, dead, t)
    ensures TakeTurn(conns, next, dead, t) == TakeTurn(conns[..next], next, dead, t + (|conns| - next))
    decreases |conns|
  {
    if next == |conns| {
      assert conns[..next] == conns;
    } else {
      OneEvicted(conns, next, |conns|, dead, t);
      BackToTheFront(RemoveAt(conns, next), next, dead, t + 1);
    }
  }

  /** The j-th position of strides of s from r on: r + s * j. */
  function Position(r: nat, s: nat, j: nat): (p: nat)
    ensures r <= p
  {
    if j == 0 then r else s + Position(r, s, j - 1)
  }

  /** The turn is q times around a list of n, and r further: q * n + r. */
  function Around(q: nat, n: nat, r: nat): nat { if q == 0 then r else n + Around(q - 1, n, r) }

  lemma {:induction false} AroundIs(q: nat, n: nat, r: nat)
    ensures Around(q, n, r) == q * n + r
  {
    if q > 0 { AroundIs(q - 1, n, r); }
  }

  /** In a list that is one shorter the same turn is q further. */
  lemma {:induction false} AroundLess(q: nat, n: nat, r: nat)
    requires n > 0
    ensures Around(q, n, r) == Around(q, n - 1, r + q)
  {
    AroundIs(q, n, r);
    AroundIs(q, n - 1, r + q);
  }

  lemma {:induction false} Shift(r: nat, q: nat, j: nat)
    ensures Position(r, q + 1, j + 1) == Position(r + q, q + 1, j) + 1
  {
    if j > 0 { Shift(r, q, j - 1); }
  }

  predicate DeadAt(conns: seq<Conn>, r: nat, s: nat, j: nat, dead: Liveness, t: nat) {
    Position(r, s, j) < |conns| ==> dead(t + j, conns[Position(r, s, j)])
  }

  /** The first k connections in strides of s from r on are found dead when looked at. */
  ghost predicate DeadInStrides(conns: seq<Conn>, r: nat, s: nat, k: nat, dead: Liveness, t: nat) {
    forall j: nat :: j < k ==> DeadAt(conns, r, s, j, dead, t)
  }

  lemma {:induction false} LooksAt(conns: seq<Conn>, q: nat, r: nat, dead: Liveness, t: nat)
    requires r < |conns|
    ensures var turn := TakeTurn(conns, Around(q, |conns|, r), dead, t);
      if dead(t, conns[r]) then turn == TakeTurn(RemoveAt(conns, r), Around(q, |conns|, r), dead, t + 1)
      else turn.Picked? && turn.conn == conns[r]
  {
    AroundIs(q, |conns|, r);
    Remainder(Around(q, |conns|, r), |conns|, q, r);
  }

  lemma {:induction false} DeadBehind(conns: seq<Conn>, q: nat, r: nat, k: nat, dead: Liveness, t: nat)
    requires r < |conns| && k > 0 && DeadInStrides(conns, r, q + 1, k, dead, t)
    ensures dead(t, conns[r])
    ensures DeadInStrides(RemoveAt(conns, r), r + q, q + 1, k - 1, dead, t + 1)
  {
    assert DeadAt(conns, r, q + 1, 0, dead, t);
    var (fewer, from, s, u) := (RemoveAt(conns, r), r + q, q + 1, t + 1);
    forall j: nat | j < k - 1 ensures DeadAt(fewer, from, s, j, dead, u) {
      Shift(r, q, j);
      assert DeadAt(conns, r, q + 1, j + 1, dead, t) && u + j == t + (j + 1);
    }
  }

  /** With the turn q times around the list and r further, it goes through the list in strides of
      q + 1 from r on: the first living connection it meets gets it. */
  lemma {:induction false} InStrides(conns: seq<Conn>, next: nat, q: nat, r: nat, dead: Liveness, t: nat, k: nat)
    requires r < |conns| && next == Around(q, |conns|, r) && Position(r, q + 1, k) < |conns|
    requires DeadInStrides(conns, r, q + 1, k, dead, t) && !dead(t + k, conns[Position(r, q + 1, k)])
    ensures TakeTurn(conns, next, dead, t).Picked?
    ensures TakeTurn(conns, next, dead, t).conn == conns[Position(r, q + 1, k)]
    decreases k
  {
    if k == 0 {
      LooksAt(conns, q, r, dead, t);
    } else {
      OneMet(conns, next, q, r, dead, t, k);
      SameElement(conns, q, r, k - 1);
      assert (t + 1) + (k - 1) == t + k;
      InStrides(RemoveAt(conns, r), next, q, r + q, dead, t + 1, k - 1);
    }
  }

  lemma {:induction false} SameElement(conns: seq<Conn>, q: nat, r: nat, j: nat)
    requires r < |conns| && Position(r, q + 1, j + 1) < |conns|
    ensures r + q <= Position(r + q, q + 1, j) < |RemoveAt(conns, r)|
    ensures RemoveAt(conns, r)[Position(r + q, q + 1, j)] == conns[Position(r, q + 1, j + 1)]
  {
    Shift(r, q, j);
  }

  /** What strides of q + 1 from r on leave over. */
  function Unvisited(conns: seq<Conn>, r: nat, q: nat): (rest: seq<Conn>)
    ensures |rest| <= |conns|
    decreases |conns|
  {
    if r >= |conns| then conns else Unvisited(RemoveAt(conns, r), r + q, q)
  }

  /** If all it meets are dead, the turn goes on through what the strides left over. */
  lemma {:induction false} AfterStrides(conns: seq<Conn>, next: nat, q: nat, r: nat, dead: Liveness, t: nat)
    requires r < |conns| && next == Around(q, |conns|, r) && DeadInStrides(conns, r, q + 1, |conns|, dead, t)
    ensures var rest := Unvisited(conns, r, q);
      TakeTurn(conns, next, dead, t) == TakeTurn(rest, next, dead, t + (|conns| - |rest|))
    decreases |conns|
  {
    var fewer := RemoveAt(conns, r);
    OneMet(conns, next, q, r, dead, t, |conns|);
    if r + q < |fewer| { AfterStrides(fewer, next, q, r + q, dead, t + 1); }
  }

  lemma {:induction false} OneMet(conns: seq<Conn>, next: nat, q: nat, r: nat, dead: Liveness, t: nat, k: nat)
    requires r < |conns| && next == Around(q, |conns|, r) && k > 0 && DeadInStrides(conns, r, q + 1, k, dead, t)
    ensures var fewer := RemoveAt(conns, r);
      && |fewer| == |conns| - 1 && next == Around(q, |fewer|, r + q)
      && TakeTurn(conns, next, dead, t) == TakeTurn(fewer, next, dead, t + 1)
      && DeadInStrides(fewer, r + q, q + 1, k - 1, dead, t + 1)
  {
    LooksAt(conns, q, r, dead, t);
    DeadBehind(conns, q, r, k, dead, t);
    AroundLess(q, |conns|, r);
  }

  /** Once the turn has found everything dead up to the end of the list, it looks at every second
      connection from the front: the first living one of those gets it. */
  lemma {:induction false} EverySecond(conns: seq<Conn>, next: nat, dead: Liveness, t: nat, k: nat)
    requires next <= |conns| && DeadInTurn(conns, next, |conns|, dead, t) && 2 * k < next
    requires DeadInStrides(conns[..next], 0, 2, k, dead, t + (|conns| - next))
    requires !dead(t + (|conns| - next) + k, conns[2 * k])
    ensures TakeTurn(conns, next, dead, t).Picked? && TakeTurn(conns, next, dead, t).conn == conns[2 * k]
  {
    BackToTheFront(conns, next, dead, t);
    EvenPosition(k);
    InStrides(conns[..next], next, 1, 0, dead, t + (|conns| - next), k);
  }

  lemma {:induction false} EvenPosition(j: nat)
    ensures Position(0, 2, j) == 2 * j
  {
    if j > 0 { EvenPosition(j - 1); }
  }

  /** The same connections are dead throughout the call. */
  ghost predicate Steady(dead: Liveness) {
    forall t: nat, u: nat, c: Conn :: dead(t, c) ==> dead(u, c)
  }

  /** p is the first living position in the circle that starts at next. */
  ghost predicate FirstInCircle(conns: seq<Conn>, next: nat, dead: Liveness, p: nat) {
    && next < |conns| && p < |conns| && !dead(0, conns[p])
    && (forall j: nat :: (if p < next then j < p || j >= next else next <= j < p) && j < |conns| ==> dead(0, conns[j]))
  }

  /** The first living connection in the circle is served exactly if it stands between the turn
      and the end of the list, or at an even position from the front; as long as some even
      position of the front part lives. */
  lemma {:induction false} CircleServed(conns: seq<Conn>, next: nat, dead: Liveness, p: nat)
    requires Distinct(conns) && Steady(dead) && FirstInCircle(conns, next, dead, p)
    requires p < next ==> exists k: nat :: 2 * k < next && !dead(0, conns[2 * k])
    ensures TakeTurn(conns, next, dead, 0).Picked?
    ensures TakeTurn(conns, next, dead, 0).conn == conns[p] <==> p >= next || p % 2 == 0
  {
    if p >= next {
      FirstInLine(conns, next, dead, 0, p);
    } else {
      var m: nat :| 2 * m < next && !dead(0, conns[2 * m]);
      var k := FirstEven(conns, next, dead, m);
      EvenServed(conns, next, dead, k);
      EvenFirst(conns, next, dead, p, k);
    }
  }

  /** The first living even position is the first living one of the circle exactly if that is even. */
  lemma {:induction false} EvenFirst(conns: seq<Conn>, next: nat, dead: Liveness, p: nat, k: nat)
    requires Distinct(conns) && p < next <= |conns| && 2 * k < next && !dead(0, conns[p]) && !dead(0, conns[2 * k])
    requires forall j: nat :: j < p ==> dead(0, conns[j])
    requires forall j: nat :: j < k ==> dead(0, conns[2 * j])
    ensures conns[2 * k] == conns[p] <==> p % 2 == 0
  {
    assert p <= 2 * k;
    assert p % 2 == 0 ==> p == 2 * (p / 2) && p / 2 >= k;
  }

  lemma {:induction false} EvenServed(conns: seq<Conn>, next: nat, dead: Liveness, k: nat)
    requires next < |conns| && 2 * k < next && Steady(dead) && !dead(0, conns[2 * k])
    requires forall j: nat :: next <= j < |conns| ==> dead(0, conns[j])
    requires forall j: nat :: j < k ==> dead(0, conns[2 * j])
    ensures TakeTurn(conns, next, dead, 0).Picked? && TakeTurn(conns, next, dead, 0).conn == conns[2 * k]
  {
    var front, u := conns[..next], |conns| - next;
    forall j: nat | j < k ensures DeadAt(front, 0, 2, j, dead, u) { EvenPosition(j); }
    EverySecond(conns, next, dead, 0, k);
  }

  lemma {:induction false} FirstEven(conns: seq<Conn>, next: nat, dead: Liveness, m: nat) returns (k: nat)
    requires next <= |conns| && 2 * m < next && Steady(dead) && !dead(0, conns[2 * m])
    ensures 2 * k < next && !dead(0, conns[2 * k]) && forall j: nat :: j < k ==> dead(0, conns[2 * j])
  {
    k := 0;
    while dead(0, conns[2 * k])
      invariant k <= m && forall j: nat :: j < k ==> dead(0, conns[2 * j])
      decreases m - k
    {
      k := k + 1;
    }
  }

  /** Odd positions are passed over while an even one lives: 1, though next in the circle, gives
      way to 2. */
  lemma {:induction false} SkipsOne()
    ensures TakeTurn([0, 1, 2, 3], 3, (t, c) => c == 0 || c == 3, 0) == Picked([1, 2], 0, 2)
  {
    var dead: Liveness := (t, c) => c == 0 || c == 3;
    assert RemoveAt([0, 1, 2, 3], 3) == [0, 1, 2];
    assert RemoveAt([0, 1, 2], 0) == [1, 2];
    assert TakeTurn([1, 2], 3, dead, 2) == Picked([1, 2], 0, 2);
  }

  /** The order in which the turn looks at the connections as long as it finds dead ones. */
  function Visits(conns: seq<Conn>, next: nat): (r: seq<Conn>)
    ensures |r| == |conns|
    decreases |conns|
  {
    if conns == [] then []
    else [conns[next % |conns|]] + Visits(RemoveAt(conns, next % |conns|), next)
  }

  lemma {:induction false} VisitsEach(conns: seq<Conn>, next: nat)
    ensures multiset(Visits(conns, next)) == multiset(conns)
    decreases |conns|
  {
    if conns != [] {
      var k := next % |conns|;
      VisitsEach(RemoveAt(conns, k), next);
      assert conns == conns[..k] + [conns[k]] + conns[k + 1..];
    }
  }

  /** For any pool, turn and liveness: the turn goes to the first that is alive when looked at,
      in the order of the visits, and to nobody if there is none. */
  lemma {:induction false} FirstVisited(conns: seq<Conn>, next: nat, dead: Liveness, t: nat, k: nat)
    requires k <= |conns| && forall j: nat :: j < k ==> dead(t + j, Visits(conns, next)[j])
    requires k < |conns| ==> !dead(t + k, Visits(conns, next)[k])
    ensures var turn := TakeTurn(conns, next, dead, t);
      if k < |conns| then turn.Picked? && turn.conn == Visits(conns, next)[k] else turn == AllDead
    decreases |conns|
  {
    if conns != [] && k > 0 {
      var fewer := RemoveAt(conns, next % |conns|);
      assert dead(t + 0, Visits(conns, next)[0]);
      forall j: nat | j < k - 1 ensures dead(t + 1 + j, Visits(fewer, next)[j]) {
        assert dead(t + (j + 1), Visits(conns, next)[j + 1]);
      }
      FirstVisited(fewer, next, dead, t + 1, k - 1);
    }
  }

  lemma {:induction false} OneTakenOut(conns: seq<Conn>, k: nat)
    requires k < |conns|
    ensures multiset(RemoveAt(conns, k)) == multiset(conns) - multiset{conns[k]}
  {
    assert conns == conns[..k] + [conns[k]] + conns[k + 1..];
  }

  /** The first k visited are dead when looked at, and the next is not. */
  ghost predicate DeadBefore(v: seq<Conn>, dead: Liveness, t: nat, k: nat) {
    k < |v| && (forall j: nat :: j < k ==> dead(t + j, v[j])) && !dead(t + k, v[k])
  }

  lemma {:induction false} OneVisited(conns: seq<Conn>, next: nat, dead: Liveness, t: nat, k: nat)
    requires DeadBefore(Visits(conns, next), dead, t, k) && k > 0
    ensures var i := next % |conns|; var fewer := RemoveAt(conns, i);
      && Visits(conns, next) == [conns[i]] + Visits(fewer, next)
      && DeadBefore(Visits(fewer, next), dead, t + 1, k - 1)
      && TakeTurn(conns, next, dead, t) == TakeTurn(fewer, next, dead, t + 1)
  {
    var v, w := Visits(conns, next), Visits(RemoveAt(conns, next % |conns|), next);
    assert dead(t + 0, v[0]);
    forall j: nat | j < k - 1 ensures dead(t + 1 + j, w[j]) { assert dead(t + (j + 1), v[j + 1]); }
    assert !dead(t + 1 + (k - 1), w[k - 1]);
  }

  /** And it leaves in the pool all but those visited before. */
  lemma {:induction false} LeavesTheRest(conns: seq<Conn>, next: nat, dead: Liveness, t: nat, k: nat)
    requires DeadBefore(Visits(conns, next), dead, t, k)
    ensures TakeTurn(conns, next, dead, t).Picked?
    ensures multiset(TakeTurn(conns, next, dead, t).rest) == multiset(conns) - multiset(Visits(conns, next)[..k])
    decreases k
  {
    if k == 0 {
      assert Visits(conns, next)[..0] == [] && !dead(t + 0, Visits(conns, next)[0]);
    } else {
      var i := next % |conns|;
      OneVisited(conns, next, dead, t, k);
      LeavesTheRest(RemoveAt(conns, i), next, dead, t + 1, k - 1);
      OneTakenOut(conns, i);
      FirstAside(conns[i], Visits(RemoveAt(conns, i), next), k - 1);
    }
  }

  lemma {:induction false} FirstAside(c: Conn, w: seq<Conn>, k: nat)
    requires k <= |w|
    ensures multiset(([c] + w)[..k + 1]) == multiset{c} + multiset(w[..k])
  {
    assert ([c] + w)[..k + 1] == [c] + w[..k];
  }

  /** n connections in turn, starting at position start. */
  function InTurn(conns: seq<Conn>, start: nat, n: nat): (r: seq<Conn>)
    requires conns != []
    ensures |r| == n
  {
    seq(n, i requires 0 <= i < n => conns[(start + i) % |conns|])
  }

  lemma {:induction false} NextTurn(x: nat, n: nat)
    requires n > 0
    ensures (x % n + 1) % n == (x + 1) % n && (x % n) % n == x % n
  {
    var q, r := x / n, x % n;
    if r + 1 < n {
      Remainder(x + 1, n, q, r + 1);
      Remainder(r + 1, n, 0, r + 1);
    } else {
      assert x + 1 == (q + 1) * n;
      Remainder(x + 1, n, q + 1, 0);
    }
    Remainder(r, n, 0, r);
  }

  /** Any |conns| calls in a row on a full living pool give every connection exactly once. */
  lemma {:induction false} EachExactlyOnce(conns: seq<Conn>, start: nat)
    requires start < |conns|
    ensures InTurn(conns, start, |conns|) == conns[start..] + conns[..start]
    ensures multiset(InTurn(conns, start, |conns|)) == multiset(conns)
  {
    var n := |conns|;
    var turned := conns[start..] + conns[..start];
    forall i: nat | i < n ensures InTurn(conns, start, n)[i] == turned[i] {
      if start + i < n { Remainder(start + i, n, 0, start + i); } else { Remainder(start + i, n, 1, start + i - n); }
    }
    assert conns == conns[..start] + conns[start..];
  }
}
