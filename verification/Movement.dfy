/** Mobs and pets walk in one-second steps; each step schedules a callback that a later
    movement cancels by changing the token. */
module Movement {

  datatype Point = Point(x: real, y: real)

  // ---------------------------------------------------------------- distance

  function Square(r: real): real {
    r * r
  }

  /** `d` is the Euclidean distance `utils.CalculateDistance` answers. */
  ghost predicate IsDistance(d: real, p: Point, q: Point) {
    d >= 0.0 && Square(d) == Square(q.x - p.x) + Square(q.y - p.y)
  }

  lemma SquareGrows(a: real, b: real)
    requires 0.0 <= a < b
    ensures Square(a) < Square(b)
  {
    Positive(b - a, b + a);
    assert (b - a) * (b + a) == b * (b + a) - a * (b + a);
    assert b * (b + a) == b * b + b * a;
    assert a * (b + a) == a * b + a * a;
  }

  lemma Positive(a: real, b: real)
    requires a > 0.0 && b > 0.0
    ensures a * b > 0.0
  {
  }

  lemma QuotientOf(x: real, y: real, s: real)
    requires s != 0.0 && x * s == y
    ensures y / s == x
  {
    assert (y / s - x) * s == 0.0;
  }

  lemma DistanceUnique(d: real, e: real, p: Point, q: Point)
    requires IsDistance(d, p, q) && IsDistance(e, p, q)
    ensures d == e
  {
    if d < e {
      SquareGrows(d, e);
    } else if e < d {
      SquareGrows(e, d);
    }
  }

  lemma DistanceZero(p: Point)
    ensures IsDistance(0.0, p, p)
  {
  }

  /** One step of length `speed` along the line. */
  function Toward(p: Point, q: Point, speed: real, diff: real): Point
    requires diff != 0.0
  {
    Point(p.x + (q.x - p.x) * speed / diff, p.y + (q.y - p.y) * speed / diff)
  }

  lemma Scaled(a: real, k: real)
    ensures Square(a - a * k) == Square(a) * Square(1.0 - k)
  {
    assert a - a * k == a * (1.0 - k);
    ProductSquare(a, 1.0 - k);
  }

  lemma ProductSquare(a: real, b: real)
    ensures Square(a * b) == Square(a) * Square(b)
  {
    assert (a * b) * (a * b) == (a * a) * (b * b);
  }

  lemma QuotientFirst(a: real, s: real, d: real)
    requires d != 0.0
    ensures a * s / d == a * (s / d)
  {
  }

  /** A far step shortens the way by exactly its length. */
  lemma StepShortens(p: Point, q: Point, speed: real, d: real)
    requires 0.0 < speed < d && IsDistance(d, p, q)
    ensures IsDistance(d - speed, Toward(p, q, speed, d), q)
  {
    var k, dx, dy := speed / d, q.x - p.x, q.y - p.y;
    var r := Toward(p, q, speed, d);
    QuotientFirst(dx, speed, d);
    QuotientFirst(dy, speed, d);
    assert q.x - r.x == dx - dx * k;
    assert q.y - r.y == dy - dy * k;
    Scaled(dx, k);
    Scaled(dy, k);
    var f := Square(1.0 - k);
    assert Square(dx) * f + Square(dy) * f == (Square(dx) + Square(dy)) * f;
    ProductSquare(d, 1.0 - k);
    assert d * (1.0 - k) == d - speed;
  }

  // ---------------------------------------------------------------- movers

  datatype Callback = Callback(token: int, start: Point, end: Point, speed: real)

  /** `shared` movers (pets) hand their own coordinate in as the start, so a step moves it at
      once and a callback starts from wherever it then is. */
  datatype Mover = Mover(shared: bool, coordinate: Point, token: int, moving: bool, pending: seq<Callback>)

  function Without(cs: seq<Callback>, k: nat): seq<Callback>
    requires k < |cs|
  {
    cs[..k] + cs[k + 1..]
  }

  /** One call of the handler, given the distance it measures. */
  function Handled(m: Mover, token: int, start: Point, end: Point, speed: real, diff: real): Mover {
    if diff < 1.0 then m.(coordinate := end, token := 0, moving := false)
    else
      var next := if diff <= speed then end else Toward(start, end, speed, diff);
      m.(coordinate := if m.shared then next else start,
         pending := m.pending + [Callback(token, next, end, speed)])
  }

  datatype Event =
    | Launch(newToken: int, start: Point, end: Point, speed: real, diff: real)
    | Fire(k: nat, diff: real)
    | Retreat

  function StartOf(m: Mover, c: Callback): Point {
    if m.shared then m.coordinate else c.start
  }

  /** Launching draws a token different from the present one; a callback runs only while its
      token is the present one. */
  function Step(m: Mover, e: Event): Mover {
    match e
    case Launch(newToken, start, end, speed, diff) =>
      if newToken == m.token || newToken < 1 then m
      else Handled(m.(token := newToken, moving := true), newToken, start, end, speed, diff)
    case Fire(k, diff) =>
      if k >= |m.pending| then m
      else
        var c, rest := m.pending[k], m.(pending := Without(m.pending, k));
        if c.token == m.token then Handled(rest, c.token, StartOf(m, c), c.end, c.speed, diff) else rest
    case Retreat => m.(token := 0, moving := false)
  }

  function Run(m: Mover, es: seq<Event>): Mover
    decreases |es|
  {
    if es == [] then m else Run(Step(m, es[0]), es[1..])
  }

  // ---------------------------------------------------------------- tokens

  function Count(cs: seq<Callback>, token: int): nat {
    if cs == [] then 0 else Count(cs[..|cs| - 1], token) + (if cs[|cs| - 1].token == token then 1 else 0)
  }

  /** Callbacks that would still run. */
  function Live(m: Mover): nat {
    Count(m.pending, m.token)
  }

  ghost predicate Scheduled(m: Mover) {
    forall i :: 0 <= i < |m.pending| ==> m.pending[i].token >= 1
  }

  lemma {:induction false} CountSplit(a: seq<Callback>, b: seq<Callback>, token: int)
    ensures Count(a + b, token) == Count(a, token) + Count(b, token)
  {
    if b == [] {
      assert a + b == a;
    } else {
      assert (a + b)[..|a + b| - 1] == a + b[..|b| - 1];
      CountSplit(a, b[..|b| - 1], token);
    }
  }

  lemma CountWithout(cs: seq<Callback>, k: nat, token: int)
    requires k < |cs|
    ensures Count(Without(cs, k), token) == Count(cs, token) - (if cs[k].token == token then 1 else 0)
  {
    assert cs == cs[..k] + [cs[k]] + cs[k + 1..];
    CountSplit(cs[..k] + [cs[k]], cs[k + 1..], token);
    CountSplit(cs[..k], [cs[k]], token);
    CountSplit(cs[..k], cs[k + 1..], token);
    assert [cs[k]][..0] == [];
  }

  lemma CountAppend(cs: seq<Callback>, c: Callback, token: int)
    ensures Count(cs + [c], token) == Count(cs, token) + (if c.token == token then 1 else 0)
  {
    assert (cs + [c])[..|cs + [c]| - 1] == cs;
  }

  lemma {:induction false} CountZero(cs: seq<Callback>, token: int)
    ensures Count(cs, token) == 0 <==> forall i :: 0 <= i < |cs| ==> cs[i].token != token
  {
    if cs != [] {
      CountZero(cs[..|cs| - 1], token);
    }
  }

  /** A stale callback changes nothing but its own entry in the timer queue. */
  lemma StaleChangesNothing(m: Mover, k: nat, diff: real)
    requires k < |m.pending| && m.pending[k].token != m.token
    ensures var n := Step(m, Fire(k, diff));
            && (n.coordinate, n.token, n.moving) == (m.coordinate, m.token, m.moving)
            && n.pending == Without(m.pending, k) && Live(n) == Live(m)
  {
    CountWithout(m.pending, k, m.token);
  }

  /** A launch carries a token no scheduled callback has. */
  predicate Fresh(m: Mover, e: Event) {
    e.Launch? ==> Count(m.pending, e.newToken) == 0
  }

  lemma HandledLive(m: Mover, token: int, start: Point, end: Point, speed: real, diff: real)
    requires Scheduled(m) && token >= 1 && token == m.token
    ensures var n := Handled(m, token, start, end, speed, diff);
            Scheduled(n) && Live(n) == if diff < 1.0 then 0 else Live(m) + 1
  {
    var n := Handled(m, token, start, end, speed, diff);
    if diff < 1.0 {
      CountZero(m.pending, 0);
    } else {
      CountAppend(m.pending, n.pending[|m.pending|], token);
    }
  }

  lemma StepScheduled(m: Mover, e: Event)
    requires Scheduled(m) && m.token >= 0
    ensures Scheduled(Step(m, e)) && Step(m, e).token >= 0
  {
  }

  /** With fresh tokens, whatever else happens, at most one movement chain stays alive. */
  lemma StepKeepsSingle(m: Mover, e: Event)
    requires Scheduled(m) && m.token >= 0 && Live(m) <= 1 && Fresh(m, e)
    ensures Live(Step(m, e)) <= 1
  {
    match e
    case Launch(newToken, start, end, speed, diff) =>
      if newToken != m.token && newToken >= 1 {
        HandledLive(m.(token := newToken, moving := true), newToken, start, end, speed, diff);
      }
    case Fire(k, diff) =>
      if k < |m.pending| {
        var c, rest := m.pending[k], m.(pending := Without(m.pending, k));
        CountWithout(m.pending, k, m.token);
        if c.token == m.token {
          HandledLive(rest, c.token, StartOf(m, c), c.end, c.speed, diff);
        }
      }
    case Retreat =>
      CountZero(m.pending, 0);
  }

  /** Drawing a token that differs only from the present one is not enough: a launch that has
      somewhere to go leaves one live chain exactly when no scheduled callback has its token. */
  lemma LaunchSingleIff(m: Mover, e: Event)
    requires Scheduled(m) && e.Launch? && e.newToken != m.token && e.newToken >= 1 && e.diff >= 1.0
    ensures Live(Step(m, e)) <= 1 <==> Fresh(m, e)
  {
    HandledLive(m.(token := e.newToken, moving := true), e.newToken, e.start, e.end, e.speed, e.diff);
  }

  /** An idle mover, launched with a token, called back and launched with the same token again,
      walks two ways at once. */
  lemma OldChainRevives(m: Mover, first: Event, again: Event)
    requires m.pending == [] && first.Launch? && again.Launch?
    requires first.newToken == again.newToken >= 1 && first.newToken != m.token
    requires first.diff >= 1.0 && again.diff >= 1.0
    ensures Live(Step(Step(Step(m, first), Retreat), again)) == 2
  {
    var token := first.newToken;
    HandledLive(m.(token := token, moving := true), token, first.start, first.end, first.speed, first.diff);
    var m1 := Step(m, first);
    var m2 := Step(m1, Retreat);
    assert m2.pending == m1.pending && m1.token == token;
    HandledLive(m2.(token := token, moving := true), token, again.start, again.end, again.speed, again.diff);
  }

  ghost predicate FreshRun(m: Mover, es: seq<Event>)
    decreases |es|
  {
    es != [] ==> Fresh(m, es[0]) && FreshRun(Step(m, es[0]), es[1..])
  }

  lemma {:induction false} RunKeepsSingle(m: Mover, es: seq<Event>)
    requires Scheduled(m) && m.token >= 0 && Live(m) <= 1 && FreshRun(m, es)
    ensures Live(Run(m, es)) <= 1
    decreases |es|
  {
    if es != [] {
      StepScheduled(m, es[0]);
      StepKeepsSingle(m, es[0]);
      RunKeepsSingle(Step(m, es[0]), es[1..]);
    }
  }

  // ---------------------------------------------------------------- arrival

  function Ceiling(r: real): int {
    -((-r).Floor)
  }

  lemma QuotientLess(d: real, speed: real)
    requires 0.0 < speed
    ensures (d - speed) / speed == d / speed - 1.0
    ensures d >= 0.0 ==> d / speed >= 0.0
    ensures d > 0.0 ==> d / speed > 0.0
    ensures d > speed ==> d / speed > 1.0
  {
    assert d / speed * speed == d;
    assert (d / speed - 1.0) * speed == d - speed;
    QuotientOf(d / speed - 1.0, d - speed, speed);
  }

  /** Handler calls until arrival, from a distance. */
  function Calls(d: real, speed: real): nat
    requires 0.0 <= d && 0.0 < speed
    decreases if d > speed then (QuotientLess(d, speed); 1 + (d / speed).Floor) else 0
  {
    if d < 1.0 then 1
    else if d <= speed then 2
    else
      QuotientLess(d, speed);
      QuotientLess(d - speed, speed);
      1 + Calls(d - speed, speed)
  }

  lemma {:induction false} CallsBound(d: real, speed: real)
    requires 0.0 <= d && 0.0 < speed
    ensures 1 <= Calls(d, speed) <= Ceiling(d / speed) + 1
    decreases if d > speed then (QuotientLess(d, speed); 1 + (d / speed).Floor) else 0
  {
    QuotientLess(d, speed);
    if d >= 1.0 && d > speed {
      QuotientLess(d - speed, speed);
      CallsBound(d - speed, speed);
      assert -((d - speed) / speed) == -(d / speed) + 1.0;
    }
  }

  /** The only callback that would still run is the one at index `i`. */
  ghost predicate Sole(m: Mover, i: nat) {
    && i < |m.pending|
    && m.pending[i].token == m.token >= 1
    && forall j :: 0 <= j < |m.pending| && j != i ==> m.pending[j].token != m.token
  }

  /** A live call measures the distance it has left. */
  ghost predicate Measured(m: Mover, e: Event) {
    e.Fire? && (e.k < |m.pending| && m.pending[e.k].token == m.token ==>
      IsDistance(e.diff, StartOf(m, m.pending[e.k]), m.pending[e.k].end))
  }

  ghost predicate MeasuredRun(m: Mover, es: seq<Event>)
    decreases |es|
  {
    es != [] ==> Measured(m, es[0]) && MeasuredRun(Step(m, es[0]), es[1..])
  }

  function LiveFires(m: Mover, es: seq<Event>): nat
    decreases |es|
  {
    if es == [] then 0
    else (if es[0].Fire? && es[0].k < |m.pending| && m.pending[es[0].k].token == m.token then 1 else 0)
         + LiveFires(Step(m, es[0]), es[1..])
  }

  ghost predicate Arrived(m: Mover, end: Point) {
    m.coordinate == end && m.token == 0 && !m.moving
  }

  /** Once arrived, the callbacks left over leave the mover where it is. */
  lemma {:induction false} StaysArrived(m: Mover, es: seq<Event>, end: Point)
    requires Scheduled(m) && Arrived(m, end)
    requires forall i :: 0 <= i < |es| ==> es[i].Fire?
    ensures Arrived(Run(m, es), end) && LiveFires(m, es) == 0
    decreases |es|
  {
    if es != [] {
      StepScheduled(m, es[0]);
      StaysArrived(Step(m, es[0]), es[1..], end);
    }
  }

  /** A retreat stops a mover for good: whatever callbacks are still scheduled, it stays where it was. */
  lemma RetreatStops(m: Mover, es: seq<Event>)
    requires Scheduled(m) && forall i :: 0 <= i < |es| ==> es[i].Fire?
    ensures Arrived(Run(Step(m, Retreat), es), m.coordinate) && LiveFires(Step(m, Retreat), es) == 0
  {
    StaysArrived(Step(m, Retreat), es, m.coordinate);
  }

  /** Where the sole live callback is after one more callback has run. */
  lemma FireSole(m: Mover, i: nat, d: real, e: Event)
    requires Scheduled(m) && Sole(m, i) && e.Fire? && Measured(m, e)
    requires m.pending[i].speed > 0.0 && IsDistance(d, StartOf(m, m.pending[i]), m.pending[i].end)
    ensures var c, n := m.pending[i], Step(m, e);
            if e.k != i then
              var j := if e.k < i then i - 1 else i;
              Sole(n, j) && n.pending[j] == c && StartOf(n, c) == StartOf(m, c)
            else if d < 1.0 then Arrived(n, c.end)
            else
              var j := |m.pending| - 1;
              && Sole(n, j) && n.pending[j].end == c.end && n.pending[j].speed == c.speed
              && IsDistance(if d <= c.speed then 0.0 else d - c.speed, StartOf(n, n.pending[j]), c.end)
  {
    var c := m.pending[i];
    if e.k == i {
      DistanceUnique(d, e.diff, StartOf(m, c), c.end);
      if d >= 1.0 {
        if d <= c.speed {
          DistanceZero(c.end);
        } else {
          StepShortens(StartOf(m, c), c.end, c.speed, d);
        }
      }
    }
  }

  /** However stale callbacks interleave, the mover is exactly at its target once the live
      chain has been called `Calls(d, speed)` more times, and is never called more often. */
  lemma {:induction false} Arrives(m: Mover, i: nat, d: real, es: seq<Event>)
    requires Scheduled(m) && Sole(m, i) && MeasuredRun(m, es)
    requires forall j :: 0 <= j < |es| ==> es[j].Fire?
    requires m.pending[i].speed > 0.0 && IsDistance(d, StartOf(m, m.pending[i]), m.pending[i].end)
    ensures LiveFires(m, es) <= Calls(d, m.pending[i].speed)
    ensures LiveFires(m, es) == Calls(d, m.pending[i].speed) <==> Arrived(Run(m, es), m.pending[i].end)
    decreases |es|
  {
    var c := m.pending[i];
    if es == [] {
      assert !Arrived(m, c.end);
    } else {
      var e, n := es[0], Step(m, es[0]);
      FireSole(m, i, d, e);
      StepScheduled(m, e);
      if e.k != i {
        Arrives(n, if e.k < i then i - 1 else i, d, es[1..]);
      } else if d < 1.0 {
        StaysArrived(n, es[1..], c.end);
      } else {
        Arrives(n, |m.pending| - 1, if d <= c.speed then 0.0 else d - c.speed, es[1..]);
      }
    }
  }

  /** Counting the call made by the launch itself, arrival takes at most ceiling(d / speed) + 1 calls. */
  lemma ArrivesInTime(m: Mover, e: Event, es: seq<Event>)
    requires Scheduled(m) && e.Launch? && e.newToken != m.token && e.newToken >= 1 && Fresh(m, e)
    requires m.shared ==> e.start == m.coordinate
    requires e.speed > 0.0 && IsDistance(e.diff, e.start, e.end)
    requires MeasuredRun(Step(m, e), es) && forall j :: 0 <= j < |es| ==> es[j].Fire?
    ensures 1 + LiveFires(Step(m, e), es) <= Calls(e.diff, e.speed) <= Ceiling(e.diff / e.speed) + 1
    ensures 1 + LiveFires(Step(m, e), es) == Calls(e.diff, e.speed) <==> Arrived(Run(Step(m, e), es), e.end)
  {
    var n := Step(m, e);
    CallsBound(e.diff, e.speed);
    if e.diff < 1.0 {
      StaysArrived(n, es, e.end);
    } else {
      var d := if e.diff <= e.speed then 0.0 else e.diff - e.speed;
      if e.diff <= e.speed {
        DistanceZero(e.end);
      } else {
        StepShortens(e.start, e.end, e.speed, e.diff);
      }
      CountZero(m.pending, e.newToken);
      Arrives(n, |m.pending|, d, es);
    }
  }

  // ---------------------------------------------------------------- on the way

  /** The point of the segment from `p` to `q`, of length `d`, that lies `x` away from `p`. */
  function Along(p: Point, q: Point, d: real, x: real): Point
    requires d > 0.0
  {
    Point(p.x + x / d * (q.x - p.x), p.y + x / d * (q.y - p.y))
  }

  lemma AlongEnds(p: Point, q: Point, d: real)
    requires d > 0.0
    ensures Along(p, q, d, 0.0) == p && Along(p, q, d, d) == q
  {
    assert d / d == 1.0;
  }

  lemma TowardIsAlong(p: Point, q: Point, d: real, x: real)
    requires d > 0.0
    ensures Toward(p, q, x, d) == Along(p, q, d, x)
  {
    QuotientFirst(q.x - p.x, x, d);
    QuotientFirst(q.y - p.y, x, d);
  }

  lemma AlongDistance(p: Point, q: Point, d: real, x: real)
    requires d > 0.0 && IsDistance(d, p, q) && 0.0 <= x <= d
    ensures IsDistance(d - x, Along(p, q, d, x), q)
  {
    AlongEnds(p, q, d);
    if x == d {
      DistanceZero(q);
    } else if x > 0.0 {
      StepShortens(p, q, x, d);
      TowardIsAlong(p, q, d, x);
    }
  }

  /** A step from a point on the way leads on along the way. */
  lemma StepsAlong(p: Point, q: Point, d: real, x: real, speed: real)
    requires d > 0.0 && 0.0 <= x < d
    ensures Toward(Along(p, q, d, x), q, speed, d - x) == Along(p, q, d, x + speed)
  {
    OneCoordinate(p.x, q.x, d, x, speed);
    OneCoordinate(p.y, q.y, d, x, speed);
  }

  lemma OneCoordinate(a: real, b: real, d: real, x: real, speed: real)
    requires d > 0.0 && x < d
    ensures var c := a + x / d * (b - a);
            c + (b - c) * speed / (d - x) == a + (x + speed) / d * (b - a)
  {
    var w := b - a;
    var c := a + x / d * w;
    var k := x / d;
    assert k * d == x;
    assert b - c == w * (1.0 - k);
    assert (1.0 - k) * d == d - x;
    assert (b - c) * speed == w * speed * (1.0 - k);
    Rest(w * speed, 1.0 - k, d, d - x);
    Sums(x, speed, d, w);
  }

  lemma Rest(u: real, r: real, d: real, e: real)
    requires d > 0.0 && e > 0.0 && r * d == e
    ensures u * r / e == u / d
  {
    assert u / d * d == u;
    assert u / d * e == u / d * (r * d) == (u / d * d) * r;
    QuotientOf(u / d, u * r, e);
  }

  lemma Sums(x: real, speed: real, d: real, w: real)
    requires d > 0.0
    ensures (x + speed) / d * w == x / d * w + w * speed / d
  {
    assert (x + speed) / d == x / d + speed / d;
    QuotientFirst(w, speed, d);
  }

  /** How far along the next call leads. */
  function Next(d: real, x: real, speed: real): real {
    if d - x <= speed then d else x + speed
  }

  /** One more callback, seen on the way from `p`: a live call that is not the last one puts a
      mover that shares its coordinate one step on, and any other where that call started. */
  lemma FireOnWay(m: Mover, i: nat, p: Point, d: real, x: real, e: Event)
    requires Scheduled(m) && Sole(m, i) && e.Fire? && Measured(m, e)
    requires m.pending[i].speed > 0.0 && d > 0.0 && IsDistance(d, p, m.pending[i].end) && 0.0 <= x <= d
    requires StartOf(m, m.pending[i]) == Along(p, m.pending[i].end, d, x)
    ensures var c, n := m.pending[i], Step(m, e);
            && (e.k != i ==> n == m.(pending := n.pending))
            && (e.k == i && d - x >= 1.0 ==>
                 && n.pending != [] && n.token == m.token && n.moving == m.moving
                 && StartOf(n, n.pending[|n.pending| - 1]) == Along(p, c.end, d, Next(d, x, c.speed))
                 && n.coordinate == Along(p, c.end, d, if m.shared then Next(d, x, c.speed) else x))
  {
    var c := m.pending[i];
    if e.k == i {
      AlongDistance(p, c.end, d, x);
      DistanceUnique(d - x, e.diff, StartOf(m, c), c.end);
      AlongEnds(p, c.end, d);
      if d - x >= 1.0 && d - x > c.speed {
        StepsAlong(p, c.end, d, x, c.speed);
      }
    }
  }

  /** Live calls so far, as a length. */
  function Steps(k: nat, speed: real): real {
    k as real * speed
  }

  /** Where a walking mover stands after `k` live calls, its next callback starting at `x`. */
  function Stands(m: Mover, p: Point, q: Point, d: real, x: real, speed: real, k: nat): Point
    requires d > 0.0
  {
    if k == 0 then m.coordinate
    else if m.shared then Along(p, q, d, if x + Steps(k, speed) < d then x + Steps(k, speed) else d)
    else Along(p, q, d, x + Steps(k - 1, speed))
  }

  lemma StepsAdd(k: nat, speed: real)
    ensures Steps(k + 1, speed) == Steps(k, speed) + speed
    ensures k > 0 ==> Steps(k, speed) == Steps(k - 1, speed) + speed
    ensures Steps(0, speed) == 0.0
  {
  }

  /** What holds of the count while the mover is under way. */
  predicate UnderWay(d: real, x: real, speed: real, k: nat) {
    x + Steps(k, speed) < d + speed && (k > 0 ==> x + Steps(k - 1, speed) <= d)
  }

  lemma CallsNext(d: real, x: real, speed: real)
    requires 0.0 < speed && x <= d && d - x >= 1.0
    ensures 0.0 <= d - Next(d, x, speed) && Calls(d - x, speed) == Calls(d - Next(d, x, speed), speed) + 1
    ensures d - x <= speed ==> Calls(d - Next(d, x, speed), speed) == 1
  {
    assert d - (x + speed) == d - x - speed;
  }

  /** Counting from one step further on, and one call less, comes to the same point. */
  lemma OneFurther(m: Mover, n: Mover, p: Point, q: Point, d: real, x: real, speed: real, k: nat)
    requires 0.0 < speed && 0.0 <= x <= d && 0.0 < d && d - x >= 1.0 && n.shared == m.shared
    requires n.coordinate == Along(p, q, d, if m.shared then Next(d, x, speed) else x)
    requires UnderWay(d, Next(d, x, speed), speed, k) && (d - x <= speed ==> k == 0)
    ensures UnderWay(d, x, speed, k + 1)
    ensures Stands(n, p, q, d, Next(d, x, speed), speed, k) == Stands(m, p, q, d, x, speed, k + 1)
  {
    StepsAdd(k, speed);
    StepsAdd(0, speed);
  }

  /** What holds after the run, if the mover has not arrived: `k` live calls have come. */
  predicate OnWay(m: Mover, r: Mover, p: Point, q: Point, d: real, x: real, speed: real, k: nat)
    requires d > 0.0
  {
    && UnderWay(d, x, speed, k)
    && r.token == m.token && r.moving == m.moving
    && r.coordinate == Stands(m, p, q, d, x, speed, k)
  }

  lemma {:induction false} WalksOn(m: Mover, i: nat, p: Point, d: real, x: real, es: seq<Event>)
    requires Scheduled(m) && Sole(m, i) && MeasuredRun(m, es)
    requires forall j :: 0 <= j < |es| ==> es[j].Fire?
    requires m.pending[i].speed > 0.0 && d > 0.0 && IsDistance(d, p, m.pending[i].end) && 0.0 <= x <= d
    requires StartOf(m, m.pending[i]) == Along(p, m.pending[i].end, d, x)
    ensures LiveFires(m, es) < Calls(d - x, m.pending[i].speed) ==>
              OnWay(m, Run(m, es), p, m.pending[i].end, d, x, m.pending[i].speed, LiveFires(m, es))
    decreases |es|, 1
  {
    var c := m.pending[i];
    AlongDistance(p, c.end, d, x);
    StepsAdd(0, c.speed);
    if es != [] {
      var e, n := es[0], Step(m, es[0]);
      FireSole(m, i, d - x, e);
      FireOnWay(m, i, p, d, x, e);
      StepScheduled(m, e);
      if e.k != i {
        StaleWalk(m, i, p, d, x, es);
      } else if d - x >= 1.0 {
        LiveWalk(m, i, p, d, x, es);
      } else {
        StaysArrived(n, es[1..], c.end);
      }
    }
  }

  lemma {:induction false} StaleWalk(m: Mover, i: nat, p: Point, d: real, x: real, es: seq<Event>)
    requires Scheduled(m) && Sole(m, i) && MeasuredRun(m, es) && es != [] && es[0].Fire? && es[0].k != i
    requires forall j :: 0 <= j < |es| ==> es[j].Fire?
    requires m.pending[i].speed > 0.0 && d > 0.0 && IsDistance(d, p, m.pending[i].end) && 0.0 <= x <= d
    requires StartOf(m, m.pending[i]) == Along(p, m.pending[i].end, d, x)
    ensures LiveFires(m, es) < Calls(d - x, m.pending[i].speed) ==>
              OnWay(m, Run(m, es), p, m.pending[i].end, d, x, m.pending[i].speed, LiveFires(m, es))
    decreases |es|, 0
  {
    var c, e, n := m.pending[i], es[0], Step(m, es[0]);
    AlongDistance(p, c.end, d, x);
    FireSole(m, i, d - x, e);
    FireOnWay(m, i, p, d, x, e);
    StepScheduled(m, e);
    WalksOn(n, if e.k < i then i - 1 else i, p, d, x, es[1..]);
  }

  lemma {:induction false} LiveWalk(m: Mover, i: nat, p: Point, d: real, x: real, es: seq<Event>)
    requires Scheduled(m) && Sole(m, i) && MeasuredRun(m, es) && es != [] && es[0].Fire? && es[0].k == i
    requires forall j :: 0 <= j < |es| ==> es[j].Fire?
    requires m.pending[i].speed > 0.0 && d > 0.0 && IsDistance(d, p, m.pending[i].end) && 0.0 <= x <= d
    requires StartOf(m, m.pending[i]) == Along(p, m.pending[i].end, d, x) && d - x >= 1.0
    ensures LiveFires(m, es) < Calls(d - x, m.pending[i].speed) ==>
              OnWay(m, Run(m, es), p, m.pending[i].end, d, x, m.pending[i].speed, LiveFires(m, es))
    decreases |es|, 0
  {
    var c, e, n := m.pending[i], es[0], Step(m, es[0]);
    AlongDistance(p, c.end, d, x);
    FireSole(m, i, d - x, e);
    FireOnWay(m, i, p, d, x, e);
    StepScheduled(m, e);
    CallsNext(d, x, c.speed);
    WalksOn(n, |m.pending| - 1, p, d, Next(d, x, c.speed), es[1..]);
    var k := LiveFires(n, es[1..]);
    assert LiveFires(m, es) == k + 1;
    if k < Calls(d - Next(d, x, c.speed), c.speed) {
      OneFurther(m, n, p, c.end, d, x, c.speed, k);
    }
  }

  /** From launch to arrival, stale callbacks interleaved: after `k` live callbacks a mover that keeps
      its own coordinate stands exactly `k` steps along the segment, one that shares it `k + 1` steps
      or on the target, each that much nearer to it and still moving on its token; after the last
      call it is on the target. */
  lemma WhereItStands(m: Mover, e: Event, es: seq<Event>)
    requires Scheduled(m) && e.Launch? && e.newToken != m.token && e.newToken >= 1 && Fresh(m, e)
    requires m.shared ==> e.start == m.coordinate
    requires e.speed > 0.0 && IsDistance(e.diff, e.start, e.end)
    requires MeasuredRun(Step(m, e), es) && forall j :: 0 <= j < |es| ==> es[j].Fire?
    ensures var k, r := LiveFires(Step(m, e), es), Run(Step(m, e), es);
            if 1 + k < Calls(e.diff, e.speed) then
              var x := if !m.shared then Steps(k, e.speed)
                       else if Steps(k + 1, e.speed) < e.diff then Steps(k + 1, e.speed) else e.diff;
              OnSegment(r, e, x)
            else Arrived(r, e.end)
  {
    if 1 + LiveFires(Step(m, e), es) < Calls(e.diff, e.speed) {
      StandsOnSegment(m, e, es);
    } else {
      ArrivesInTime(m, e, es);
    }
  }

  /** Under way, `x` along the segment of the launch and the rest of it from the target. */
  ghost predicate OnSegment(r: Mover, e: Event, x: real)
    requires e.Launch?
  {
    && 0.0 <= x <= e.diff && e.diff > 0.0
    && r.coordinate == Along(e.start, e.end, e.diff, x)
    && IsDistance(e.diff - x, r.coordinate, e.end)
    && r.token == e.newToken && r.moving
  }

  lemma StandsOnSegment(m: Mover, e: Event, es: seq<Event>)
    requires Scheduled(m) && e.Launch? && e.newToken != m.token && e.newToken >= 1 && Fresh(m, e)
    requires m.shared ==> e.start == m.coordinate
    requires e.speed > 0.0 && IsDistance(e.diff, e.start, e.end)
    requires MeasuredRun(Step(m, e), es) && forall j :: 0 <= j < |es| ==> es[j].Fire?
    requires 1 + LiveFires(Step(m, e), es) < Calls(e.diff, e.speed)
    ensures var k := LiveFires(Step(m, e), es);
            OnSegment(Run(Step(m, e), es), e,
                      if !m.shared then Steps(k, e.speed)
                      else if Steps(k + 1, e.speed) < e.diff then Steps(k + 1, e.speed) else e.diff)
  {
    var n, k := Step(m, e), LiveFires(Step(m, e), es);
    LaunchWalks(m, e, es);
    StepsAdd(k, e.speed);
    StepsMonotone(k, e.speed);
    LaunchStands(m, n, e, k);
    AlongDistance(e.start, e.end, e.diff,
                  if !m.shared then Steps(k, e.speed)
                  else if Steps(k + 1, e.speed) < e.diff then Steps(k + 1, e.speed) else e.diff);
  }

  lemma LaunchWalks(m: Mover, e: Event, es: seq<Event>)
    requires Scheduled(m) && e.Launch? && e.newToken != m.token && e.newToken >= 1 && Fresh(m, e)
    requires m.shared ==> e.start == m.coordinate
    requires e.speed > 0.0 && IsDistance(e.diff, e.start, e.end)
    requires MeasuredRun(Step(m, e), es) && forall j :: 0 <= j < |es| ==> es[j].Fire?
    requires 1 + LiveFires(Step(m, e), es) < Calls(e.diff, e.speed)
    ensures e.diff >= 1.0 && (e.diff <= e.speed ==> LiveFires(Step(m, e), es) == 0)
    ensures Step(m, e).token == e.newToken && Step(m, e).moving
    ensures OnWay(Step(m, e), Run(Step(m, e), es), e.start, e.end, e.diff, Next(e.diff, 0.0, e.speed), e.speed,
                  LiveFires(Step(m, e), es))
  {
    CallsNext(e.diff, 0.0, e.speed);
    AlongEnds(e.start, e.end, e.diff);
    TowardIsAlong(e.start, e.end, e.diff, e.speed);
    CountZero(m.pending, e.newToken);
    WalksOn(Step(m, e), |m.pending|, e.start, e.diff, Next(e.diff, 0.0, e.speed), es);
  }

  lemma StepsMonotone(k: nat, speed: real)
    requires speed > 0.0
    ensures Steps(k, speed) >= 0.0
  {
  }

  lemma LaunchStands(m: Mover, n: Mover, e: Event, k: nat)
    requires e.Launch? && n == Step(m, e) && e.newToken != m.token && e.newToken >= 1
    requires e.speed > 0.0 && e.diff >= 1.0
    requires UnderWay(e.diff, Next(e.diff, 0.0, e.speed), e.speed, k) && (e.diff <= e.speed ==> k == 0)
    ensures UnderWay(e.diff, 0.0, e.speed, k + 1)
    ensures Stands(n, e.start, e.end, e.diff, Next(e.diff, 0.0, e.speed), e.speed, k) ==
            Along(e.start, e.end, e.diff,
                  if !m.shared then Steps(k, e.speed)
                  else if Steps(k + 1, e.speed) < e.diff then Steps(k + 1, e.speed) else e.diff)
  {
    StepsAdd(k, e.speed);
    StepsAdd(0, e.speed);
    AlongEnds(e.start, e.end, e.diff);
    TowardIsAlong(e.start, e.end, e.diff, e.speed);
  }

  // ---------------------------------------------------------------- the object

  class Walker {
    const shared: bool
    var coordinate: Point
    var token: int
    var moving: bool
    var pending: seq<Callback>

    constructor (shared: bool, coordinate: Point)
      ensures Current() == Mover(shared, coordinate, 0, false, [])
    {
      this.shared, this.coordinate, token, moving, pending := shared, coordinate, 0, false, [];
    }

    function Current(): Mover
      reads this
    {
      Mover(shared, coordinate, token, moving, pending)
    }

    /** `diff` is the distance measured on entry. */
    method MovementHandler(token: int, start: Point, end: Point, speed: real, diff: real)
      requires IsDistance(diff, start, end)
      modifies this
      ensures Current() == Handled(old(Current()), token, start, end, speed, diff)
    {
      if diff < 1.0 {
        coordinate := end;
        this.token := 0;
        moving := false;
        return;
      }
      coordinate := start;
      var from := start;
      if diff <= speed {
        from := end;
      } else {
        from := Toward(start, end, speed, diff);
      }
      if shared {
        coordinate := from;
      }
      pending := pending + [Callback(token, from, end, speed)];
    }

    /** The timer fires: the callback compares tokens before it does anything. */
    method FireCallback(k: nat, diff: real)
      requires k < |pending|
      requires Measured(Current(), Fire(k, diff))
      modifies this
      ensures Current() == Step(old(Current()), Fire(k, diff))
    {
      var c := pending[k];
      var from := if shared then coordinate else c.start;
      pending := pending[..k] + pending[k + 1..];
      if c.token == token {
        MovementHandler(c.token, from, c.end, c.speed, diff);
      }
    }

    method LaunchMovement(newToken: int, start: Point, end: Point, speed: real, diff: real)
      requires newToken >= 1 && newToken != token && IsDistance(diff, start, end)
      modifies this
      ensures Current() == Step(old(Current()), Launch(newToken, start, end, speed, diff))
    {
      moving := true;
      token := newToken;
      MovementHandler(token, start, end, speed, diff);
    }

    method GoBack()
      modifies this
      ensures Current() == Step(old(Current()), Retreat)
    {
      token := 0;
      moving := false;
    }
  }
}
