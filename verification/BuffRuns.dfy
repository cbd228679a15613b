/** Buff expiry over whole runs: one tick handles the row with the earliest deadline. */
module BuffRuns {
  import opened Prelude
  import opened Stats

  /** Rows are keyed by buff id within one character. */
  ghost predicate Keyed(rows: set<Buff>) {
    forall x, y :: x in rows && y in rows && x.id == y.id ==> x == y
  }

  ghost predicate Earliest(rows: set<Buff>, head: Buff) {
    head in rows && forall x :: x in rows ==> Expiry(head) <= Expiry(x)
  }

  /** What happens to the rows of one character: a new row; a row rewritten in place, be it
      recast, prolonged or cut short; a row dispelled; a rebuild of the stats outside a tick; a
      tick.  A tick names the row its listing happened to start with: ties are broken arbitrarily. */
  datatype Event =
    | Create(buff: Buff)
    | Refresh(buff: Buff)
    | Dispel(id: int)
    | Rebuild(epoch: int)
    | Tick(epoch: int, head: Buff)

  ghost predicate Possible(rows: set<Buff>, e: Event) {
    match e
    case Create(b) => forall x :: x in rows ==> x.id != b.id
    case Refresh(b) => exists x :: x in rows && x.id == b.id
    case Dispel(_) => true
    case Rebuild(_) => true
    case Tick(_, head) => rows != {} ==> Earliest(rows, head)
  }

  function Step(rows: set<Buff>, e: Event): set<Buff> {
    match e
    case Create(b) => rows + {b}
    case Refresh(b) => (set x | x in rows && x.id != b.id) + {b}
    case Dispel(id) => set x | x in rows && x.id != id
    case Rebuild(_) => set x | x in rows && !Stillborn(x)
    case Tick(epoch, head) =>
      if rows == {} || Expiry(head) > epoch then rows
      else set x | x in rows && !Stillborn(x) && x.id != head.id
  }

  function Run(rows: set<Buff>, es: seq<Event>): set<Buff>
    decreases |es|
  {
    if es == [] then rows else Run(Step(rows, es[0]), es[1..])
  }

  ghost predicate PossibleRun(rows: set<Buff>, es: seq<Event>)
    decreases |es|
  {
    es != [] ==> Possible(rows, es[0]) && PossibleRun(Step(rows, es[0]), es[1..])
  }

  /** The steps are the object's: a tick of the handler on a sorted listing. */
  lemma HandlerTick(rows: seq<Buff>, listing: seq<Buff>, epoch: int)
    requires SortedListing(rows, listing) && listing != []
    ensures var all := set x | x in rows;
            && Possible(all, Tick(epoch, listing[0]))
            && Step(all, Tick(epoch, listing[0])) ==
               if Expiry(listing[0]) > epoch then all else set x | x in AfterExpiry(rows, listing[0])
  {
    assert listing[0] in multiset(listing);
    forall x | x in rows ensures Expiry(listing[0]) <= Expiry(x) {
      assert x in multiset(listing);
    }
    AfterExpiryRows(rows, listing[0]);
  }

  // ---------------------------------------------------------------- one tick

  /** What a tick takes: nothing, or the earliest row, which has expired, and with it every
      stillborn row.  So it takes at most one row exactly when no other row is stillborn. */
  lemma TickTakes(rows: set<Buff>, epoch: int, head: Buff)
    requires Keyed(rows) && Possible(rows, Tick(epoch, head)) && rows != {}
    ensures var taken := rows - Step(rows, Tick(epoch, head));
            && (Expiry(head) > epoch ==> taken == {})
            && (Expiry(head) <= epoch ==>
                 && head in taken
                 && (forall x :: x in taken ==> x == head || Stillborn(x))
                 && (|taken| <= 1 <==> forall x :: x in rows && Stillborn(x) ==> x == head))
  {
    var taken := rows - Step(rows, Tick(epoch, head));
    if Expiry(head) <= epoch {
      if forall x :: x in rows && Stillborn(x) ==> x == head {
        assert taken == {head};
      } else {
        var y :| y in rows && Stillborn(y) && y != head;
        assert {head, y} <= taken;
        Within({head, y}, taken);
      }
    }
  }

  /** A tick that takes something takes only expired rows exactly when every stillborn row has
      started. */
  lemma TakesExpiredIff(rows: set<Buff>, epoch: int, head: Buff)
    requires Keyed(rows) && Possible(rows, Tick(epoch, head)) && rows != {} && Expiry(head) <= epoch
    ensures OnlyExpired(rows, Step(rows, Tick(epoch, head)), epoch)
       <==> forall x :: x in rows && Stillborn(x) ==> x.startedAt <= epoch
  {
    if x :| x in rows && Stillborn(x) && x.startedAt > epoch {
      assert x !in Step(rows, Tick(epoch, head));
    }
  }

  ghost predicate OnlyExpired(rows: set<Buff>, left: set<Buff>, epoch: int) {
    forall x :: x in rows && x !in left ==> Expiry(x) <= epoch
  }

  // ---------------------------------------------------------------- the clock

  /** The character's epoch after an event; it never goes back. */
  function Clock(now: int, e: Event): int {
    match e
    case Rebuild(epoch) => epoch
    case Tick(epoch, _) => epoch
    case _ => now
  }

  /** A new row starts at the present epoch; a rewritten one keeps its start or starts now. */
  predicate Timely(now: int, e: Event) {
    match e
    case Create(b) => b.startedAt == now
    case Refresh(b) => b.startedAt <= now
    case _ => Clock(now, e) >= now
  }

  ghost predicate TimelyRun(now: int, es: seq<Event>)
    decreases |es|
  {
    es != [] ==> Timely(now, es[0]) && TimelyRun(Clock(now, es[0]), es[1..])
  }

  ghost predicate Started(rows: set<Buff>, now: int) {
    forall x :: x in rows ==> x.startedAt <= now
  }

  /** No tick and no rebuild of the run takes a row that has not expired. */
  ghost predicate TakesOnlyExpired(rows: set<Buff>, es: seq<Event>)
    decreases |es|
  {
    es != [] ==>
      && (es[0].Tick? || es[0].Rebuild? ==> OnlyExpired(rows, Step(rows, es[0]), es[0].epoch))
      && TakesOnlyExpired(Step(rows, es[0]), es[1..])
  }

  /** Never an unexpired one: over every run in which rows start when they are written. */
  lemma {:induction false} RunTakesOnlyExpired(rows: set<Buff>, now: int, es: seq<Event>)
    requires Keyed(rows) && Started(rows, now) && PossibleRun(rows, es) && TimelyRun(now, es)
    ensures TakesOnlyExpired(rows, es)
    decreases |es|
  {
    if es != [] {
      StepKeyed(rows, es[0]);
      RunTakesOnlyExpired(Step(rows, es[0]), Clock(now, es[0]), es[1..]);
    }
  }

  lemma RunFirst(rows: set<Buff>, now: int, e: Event, es: seq<Event>)
    ensures PossibleRun(rows, [e] + es) <==> Possible(rows, e) && PossibleRun(Step(rows, e), es)
    ensures TimelyRun(now, [e] + es) <==> Timely(now, e) && TimelyRun(Clock(now, e), es)
    ensures Run(rows, [e] + es) == Run(Step(rows, e), es)
  {
    assert ([e] + es)[1..] == es;
  }

  /** But sometimes more than one: a hit cuts both invisibility buffs of a character short, and
      the next tick takes them together. */
  lemma TwoAtOnce(now: int, a: Buff, b: Buff, c: Buff, d: Buff, es: seq<Event>)
    requires a.id == 241 && b.id == 244 && a.startedAt == b.startedAt == now && a.canExpire && b.canExpire
    requires c == a.(duration := 0) && d == b.(duration := 0)
    requires es == [Create(a)] + ([Create(b)] + ([Refresh(c)] + ([Refresh(d)] + [])))
    ensures PossibleRun({}, es) && TimelyRun(now, es) && Run({}, es) == {c, d}
    ensures Possible({c, d}, Tick(now + 1, c)) && Timely(now, Tick(now + 1, c))
    ensures |{c, d}| == 2 && Step({c, d}, Tick(now + 1, c)) == {}
  {
    FourSteps(a, b, c, d);
    var last: seq<Event> := [];
    var three, two, one := [Refresh(d)] + last, [Refresh(c)] + ([Refresh(d)] + last),
                           [Create(b)] + ([Refresh(c)] + ([Refresh(d)] + last));
    RunFirst({b, c}, now, Refresh(d), last);
    RunFirst({a, b}, now, Refresh(c), three);
    RunFirst({a}, now, Create(b), two);
    RunFirst({}, now, Create(a), one);
    LastTick(now + 1, c, d);
  }

  lemma FourSteps(a: Buff, b: Buff, c: Buff, d: Buff)
    requires a.id == c.id != b.id == d.id
    ensures Possible({}, Create(a)) && Step({}, Create(a)) == {a}
    ensures Possible({a}, Create(b)) && Step({a}, Create(b)) == {a, b}
    ensures Possible({a, b}, Refresh(c)) && Step({a, b}, Refresh(c)) == {b, c}
    ensures Possible({b, c}, Refresh(d)) && Step({b, c}, Refresh(d)) == {c, d}
  {
    assert a in {a, b} && b in {b, c};
  }

  lemma LastTick(epoch: int, c: Buff, d: Buff)
    requires c.id != d.id && Stillborn(c) && Stillborn(d) && Expiry(c) == Expiry(d) <= epoch
    ensures Possible({c, d}, Tick(epoch, c)) && |{c, d}| == 2 && Step({c, d}, Tick(epoch, c)) == {}
  {
    assert c in {c, d};
  }

  // ---------------------------------------------------------------- runs

  /** Rows whose deadline has passed at a given time. */
  function Due(rows: set<Buff>, epoch: int): set<Buff> {
    set x | x in rows && Expiry(x) <= epoch
  }

  /** From a time on: ticks are no earlier, and rows written expire later. */
  predicate After(epoch: int, e: Event) {
    match e
    case Create(b) => Expiry(b) > epoch
    case Refresh(b) => Expiry(b) > epoch
    case Dispel(_) => true
    case Rebuild(_) => true
    case Tick(now, _) => now >= epoch
  }

  function Ticks(es: seq<Event>): nat {
    if es == [] then 0 else (if es[0].Tick? then 1 else 0) + Ticks(es[1..])
  }

  lemma StepKeyed(rows: set<Buff>, e: Event)
    requires Keyed(rows) && Possible(rows, e)
    ensures Keyed(Step(rows, e))
  {
  }

  /** A tick takes a due row whenever there is one, and adds none. */
  lemma TickReducesDue(rows: set<Buff>, epoch: int, e: Event)
    requires Keyed(rows) && Possible(rows, e) && After(epoch, e)
    ensures Due(Step(rows, e), epoch) <= Due(rows, epoch)
    ensures e.Tick? && Due(rows, epoch) != {} ==>
              e.head in Due(rows, epoch) && e.head !in Step(rows, e)
    ensures e.Tick? && Due(rows, epoch) != {} && (forall x :: x in rows ==> !Stillborn(x)) ==>
              Due(Step(rows, e), epoch) == Due(rows, epoch) - {e.head}
  {
    if e.Tick? && Due(rows, epoch) != {} {
      var y :| y in Due(rows, epoch);
      assert Expiry(e.head) <= Expiry(y);
    }
  }

  /** However buffs come and go meanwhile, as many ticks as there are due rows clear them all. */
  lemma {:induction false} DueRowsCleared(rows: set<Buff>, epoch: int, es: seq<Event>)
    requires Keyed(rows) && PossibleRun(rows, es)
    requires forall i :: 0 <= i < |es| ==> After(epoch, es[i])
    ensures |Due(Run(rows, es), epoch)| <= if Ticks(es) <= |Due(rows, epoch)| then |Due(rows, epoch)| - Ticks(es) else 0
    ensures Ticks(es) >= |Due(rows, epoch)| ==> Due(Run(rows, es), epoch) == {}
    decreases |es|
  {
    if es != [] {
      var e, next := es[0], Step(rows, es[0]);
      StepKeyed(rows, e);
      TickReducesDue(rows, epoch, e);
      Within(Due(next, epoch), Due(rows, epoch));
      if e.Tick? && Due(rows, epoch) != {} {
        assert Due(next, epoch) <= Due(rows, epoch) - {e.head};
        Within(Due(next, epoch), Due(rows, epoch) - {e.head});
      }
      DueRowsCleared(next, epoch, es[1..]);
    }
  }

  /** If rows are only created and ticked, none of them stillborn, exactly that many ticks are needed. */
  lemma {:induction false} OneRowPerTick(rows: set<Buff>, epoch: int, es: seq<Event>)
    requires Keyed(rows) && PossibleRun(rows, es)
    requires forall i :: 0 <= i < |es| ==> After(epoch, es[i])
    requires forall x :: x in rows ==> !Stillborn(x)
    requires forall i :: 0 <= i < |es| ==> es[i].Tick? || (es[i].Create? && !Stillborn(es[i].buff))
    ensures |Due(Run(rows, es), epoch)| == if Ticks(es) <= |Due(rows, epoch)| then |Due(rows, epoch)| - Ticks(es) else 0
    decreases |es|
  {
    if es != [] {
      var e, next := es[0], Step(rows, es[0]);
      StepKeyed(rows, e);
      TickReducesDue(rows, epoch, e);
      if e.Create? {
        assert Due(next, epoch) == Due(rows, epoch);
      }
      OneRowPerTick(next, epoch, es[1..]);
    }
  }

  /** Earliest deadline first: whatever a tick takes by expiry was due no later than all it leaves. */
  lemma EarliestFirst(rows: set<Buff>, epoch: int, head: Buff, x: Buff, y: Buff)
    requires Keyed(rows) && Possible(rows, Tick(epoch, head))
    requires x in rows && x !in Step(rows, Tick(epoch, head)) && !Stillborn(x)
    requires y in Step(rows, Tick(epoch, head))
    ensures x == head && Expiry(x) <= epoch && Expiry(x) <= Expiry(y)
  {
  }
}
