/** Incremental visibility: each scan sends only what changed, yet the view it maintains is the
    one a full recomputation would give. */
module Sight {
  import opened Prelude

  datatype Message = Appeared(x: int) | Gone(x: int)

  function Apply(view: set<int>, m: Message): set<int> {
    match m
    case Appeared(x) => view + {x}
    case Gone(x) => view - {x}
  }

  /** What a client shows after a series of messages. */
  function Replay(view: set<int>, ms: seq<Message>): set<int> {
    if ms == [] then view else Apply(Replay(view, ms[..|ms| - 1]), ms[|ms| - 1])
  }

  lemma ReplayOne(view: set<int>, ms: seq<Message>, m: Message)
    ensures Replay(view, ms + [m]) == Apply(Replay(view, ms), m)
  {
    assert (ms + [m])[..|ms + [m]| - 1] == ms;
  }

  lemma {:induction false} ReplayAppend(view: set<int>, a: seq<Message>, b: seq<Message>)
    ensures Replay(view, a + b) == Replay(Replay(view, a), b)
  {
    if b == [] {
      assert a + b == a;
    } else {
      assert (a + b)[..|a + b| - 1] == a + b[..|b| - 1];
      ReplayAppend(view, a, b[..|b| - 1]);
    }
  }

  /** Nothing is sent twice. */
  ghost predicate Once(ms: seq<Message>) {
    forall i, j :: 0 <= i < j < |ms| ==> ms[i] != ms[j]
  }

  ghost predicate Distinct(xs: seq<int>) {
    forall i, j :: 0 <= i < j < |xs| ==> xs[i] != xs[j]
  }

  function Contents(ms: seq<Message>): set<Message> {
    set m | m in ms
  }

  lemma {:induction false} OnceCount(ms: seq<Message>)
    requires Once(ms)
    ensures |ms| == |Contents(ms)|
  {
    if ms == [] {
      assert Contents(ms) == {};
    } else {
      var rest, m := ms[..|ms| - 1], ms[|ms| - 1];
      OnceCount(rest);
      assert ms == rest + [m];
      assert Contents(ms) == Contents(rest) + {m} && m !in Contents(rest);
    }
  }

  /** Messages name things by `name`. */
  function Hellos(xs: seq<int>, name: int -> int): seq<Message> {
    seq(|xs|, i requires 0 <= i < |xs| => Appeared(name(xs[i])))
  }

  function Goodbyes(xs: seq<int>, name: int -> int): seq<Message> {
    seq(|xs|, i requires 0 <= i < |xs| => Gone(name(xs[i])))
  }

  /** Every name leads back to what bears it. */
  ghost predicate Injective(name: int -> int) {
    exists bearer: int -> int :: LeadsBack(name, bearer)
  }

  ghost predicate LeadsBack(name: int -> int, bearer: int -> int) {
    forall x :: bearer(name(x)) == x
  }

  lemma ItselfInjective()
    ensures Injective(Itself())
  {
    assert LeadsBack(Itself(), Itself());
  }

  /** A scan that greets `xs` and takes leave of `ys` tells just that. */
  ghost predicate Tells(news: seq<Message>, xs: set<int>, ys: set<int>, name: int -> int) {
    && (forall x :: Appeared(name(x)) in news <==> x in xs)
    && (forall x :: Gone(name(x)) in news <==> x in ys)
    && (forall i :: 0 <= i < |news| ==> NamesOne(news[i], name))
  }

  ghost predicate NamesOne(m: Message, name: int -> int) {
    exists x :: name(x) == m.x
  }

  lemma OneBearer(name: int -> int, x: int, y: int)
    requires Injective(name) && name(x) == name(y)
    ensures x == y
  {
    var bearer :| LeadsBack(name, bearer);
    assert bearer(name(x)) == x && bearer(name(y)) == y;
  }

  lemma OtherName(name: int -> int, x: int, y: int)
    requires Injective(name) && x != y
    ensures name(x) != name(y)
  {
    if name(x) == name(y) {
      OneBearer(name, x, y);
    }
  }

  lemma HelloIn(xs: seq<int>, ys: seq<int>, name: int -> int, x: int)
    requires Injective(name)
    ensures Appeared(name(x)) in Hellos(xs, name) + Goodbyes(ys, name) <==> x in xs
  {
    var news := Hellos(xs, name) + Goodbyes(ys, name);
    if i :| 0 <= i < |news| && news[i] == Appeared(name(x)) {
      OneBearer(name, xs[i], x);
    }
    if i :| 0 <= i < |xs| && xs[i] == x {
      assert news[i] == Appeared(name(x));
    }
  }

  lemma GoodbyeIn(xs: seq<int>, ys: seq<int>, name: int -> int, y: int)
    requires Injective(name)
    ensures Gone(name(y)) in Hellos(xs, name) + Goodbyes(ys, name) <==> y in ys
  {
    var news := Hellos(xs, name) + Goodbyes(ys, name);
    if i :| 0 <= i < |news| && news[i] == Gone(name(y)) {
      OneBearer(name, ys[i - |xs|], y);
    }
    if i :| 0 <= i < |ys| && ys[i] == y {
      assert news[|xs| + i] == Gone(name(y));
    }
  }

  lemma SaidOnce(xs: seq<int>, ys: seq<int>, name: int -> int)
    requires Injective(name) && Distinct(xs) && Distinct(ys)
    ensures Once(Hellos(xs, name) + Goodbyes(ys, name))
  {
    var news := Hellos(xs, name) + Goodbyes(ys, name);
    forall i, j | 0 <= i < j < |news| ensures news[i] != news[j] {
      if j < |xs| {
        OtherName(name, xs[i], xs[j]);
      } else if i >= |xs| {
        OtherName(name, ys[i - |xs|], ys[j - |xs|]);
      }
    }
  }

  lemma NewsAre(xs: seq<int>, ys: seq<int>, name: int -> int)
    requires Injective(name)
    ensures var news := Hellos(xs, name) + Goodbyes(ys, name);
            Tells(news, Ids(xs), Ids(ys), name) && (Distinct(xs) && Distinct(ys) ==> Once(news))
  {
    var news := Hellos(xs, name) + Goodbyes(ys, name);
    forall x ensures Appeared(name(x)) in news <==> x in Ids(xs) {
      HelloIn(xs, ys, name, x);
    }
    forall y ensures Gone(name(y)) in news <==> y in Ids(ys) {
      GoodbyeIn(xs, ys, name, y);
    }
    forall i | 0 <= i < |news| ensures NamesOne(news[i], name) {
      assert news[i].x == name(if i < |xs| then xs[i] else ys[i - |xs|]);
    }
    if Distinct(xs) && Distinct(ys) {
      SaidOnce(xs, ys, name);
    }
  }

  function Greetings(xs: set<int>, name: int -> int): set<Message> {
    set x | x in xs :: Appeared(name(x))
  }

  function Farewells(ys: set<int>, name: int -> int): set<Message> {
    set y | y in ys :: Gone(name(y))
  }

  lemma OneMoreName(xs: set<int>, x: int, name: int -> int)
    requires Injective(name) && x !in xs
    ensures |Greetings(xs + {x}, name)| == |Greetings(xs, name)| + 1
    ensures |Farewells(xs + {x}, name)| == |Farewells(xs, name)| + 1
  {
    if y :| y in xs && name(y) == name(x) {
      OneBearer(name, x, y);
    }
    assert Greetings(xs + {x}, name) == Greetings(xs, name) + {Appeared(name(x))};
    assert Farewells(xs + {x}, name) == Farewells(xs, name) + {Gone(name(x))};
  }

  lemma Member<T>(xs: set<T>) returns (x: T)
    requires |xs| > 0
    ensures x in xs
  {
    x :| x in xs;
  }

  lemma {:induction false} AsManyNames(xs: set<int>, name: int -> int)
    requires Injective(name)
    ensures |Greetings(xs, name)| == |Farewells(xs, name)| == |xs|
    decreases |xs|
  {
    if |xs| == 0 {
      assert Greetings(xs, name) == {} && Farewells(xs, name) == {};
    } else {
      var x := Member(xs);
      AsManyNames(xs - {x}, name);
      OneMoreName(xs - {x}, x, name);
      assert xs == xs - {x} + {x};
    }
  }

  /** So when nothing is said twice, there are as many messages as arrivals and departures. */
  lemma NewsCount(news: seq<Message>, xs: set<int>, ys: set<int>, name: int -> int)
    requires Injective(name) && Tells(news, xs, ys, name) && Once(news)
    ensures |news| == |xs| + |ys|
  {
    forall m | m in Contents(news) ensures m in Greetings(xs, name) + Farewells(ys, name) {
      var i :| 0 <= i < |news| && news[i] == m;
      assert NamesOne(news[i], name);
      var x :| name(x) == m.x;
      assert m == Appeared(name(x)) || m == Gone(name(x));
    }
    assert Contents(news) == Greetings(xs, name) + Farewells(ys, name);
    OnceCount(news);
    AsManyNames(xs, name);
    AsManyNames(ys, name);
  }

  function Ids(xs: seq<int>): set<int> {
    set x | x in xs
  }

  // ---------------------------------------------------------------- players

  /** A nearby character as a scan sees it.  Messages name players by their session id. */
  datatype Neighbour = Neighbour(id: int, pseudoID: int, mounting: bool)

  function NeighbourIds(ns: seq<Neighbour>): set<int> {
    set n | n in ns :: n.id
  }

  function MountedIds(ns: seq<Neighbour>): set<int> {
    set n | n in ns && n.mounting :: n.id
  }

  /** Whom a scan announces: the new and the mounted among those near. */
  function Announced(ns: seq<Neighbour>, known: set<int>): set<int> {
    NeighbourIds(ns) - known + MountedIds(ns)
  }

  lemma AnnouncedNext(ns: seq<Neighbour>, n: Neighbour, known: set<int>)
    ensures NeighbourIds(ns + [n]) == NeighbourIds(ns) + {n.id}
    ensures MountedIds(ns + [n]) == MountedIds(ns) + (if n.mounting then {n.id} else {})
    ensures Announced(ns + [n], known) ==
            if n.mounting || n.id !in known then Announced(ns, known) + {n.id} else Announced(ns, known)
    ensures MountedIds(ns) <= NeighbourIds(ns)
  {
  }

  /** No character is listed twice. */
  ghost predicate Apart(ns: seq<Neighbour>) {
    forall i, j :: 0 <= i < j < |ns| ==> ns[i].id != ns[j].id
  }

  /** Session ids belong to one character each and do not change within the run. */
  ghost predicate Sessions(pseudo: int -> int) {
    Injective(pseudo)
  }

  /** NPCs and drops go by their own ids. */
  function Itself(): int -> int {
    (x: int) => x
  }

  ghost predicate Agree(players: map<int, int>, pseudo: int -> int) {
    forall id :: id in players ==> players[id] == pseudo(id)
  }

  /** The session ids a client shows for a set of characters. */
  function Shown(ids: set<int>, pseudo: int -> int): set<int> {
    set id | id in ids :: pseudo(id)
  }

  lemma ShownWith(ids: set<int>, id: int, pseudo: int -> int)
    ensures Shown(ids + {id}, pseudo) == Shown(ids, pseudo) + {pseudo(id)}
  {
  }

  lemma ShownWithout(ids: set<int>, id: int, pseudo: int -> int)
    requires Sessions(pseudo)
    ensures Shown(ids - {id}, pseudo) == Shown(ids, pseudo) - {pseudo(id)}
  {
  }

  /** One more element, not there before. */
  function Longer(xs: seq<int>, x: int): (r: seq<int>)
    ensures Ids(r) == Ids(xs) + {x}
    ensures Distinct(xs) && x !in Ids(xs) ==> Distinct(r)
  {
    xs + [x]
  }

  lemma LongerIs(xs: seq<int>, x: int, name: int -> int)
    ensures Hellos(Longer(xs, x), name) == Hellos(xs, name) + [Appeared(name(x))]
    ensures Goodbyes(Longer(xs, x), name) == Goodbyes(xs, name) + [Gone(name(x))]
  {
  }

  lemma ApartNext(ns: seq<Neighbour>, n: Neighbour)
    requires Apart(ns + [n])
    ensures Apart(ns) && n.id !in NeighbourIds(ns)
  {
    var more := ns + [n];
    assert more[|ns|] == n;
    forall i, j | 0 <= i < j < |ns| ensures ns[i].id != ns[j].id {
      assert more[i] == ns[i] && more[j] == ns[j];
    }
    forall i | 0 <= i < |ns| ensures ns[i].id != n.id {
      assert more[i] == ns[i];
    }
  }

  /** The state after meeting `ns`, greetings sent to `sent`. */
  ghost predicate Welcomed(now: map<int, int>, known: set<int>, ns: seq<Neighbour>, news: seq<Message>,
                           sent: seq<int>, pseudo: int -> int) {
    && Agree(now, pseudo) && now.Keys == known + NeighbourIds(ns)
    && news == Hellos(sent, pseudo) && Replay(Shown(known, pseudo), news) == Shown(now.Keys, pseudo)
    && Ids(sent) == Announced(ns, known) && (Apart(ns) ==> Distinct(sent))
  }

  lemma SaysHello(view: set<int>, shown: set<int>, sent: seq<int>, id: int, pseudo: int -> int)
    requires Replay(view, Hellos(sent, pseudo)) == Shown(shown, pseudo)
    ensures Hellos(Longer(sent, id), pseudo) == Hellos(sent, pseudo) + [Appeared(pseudo(id))]
    ensures Replay(view, Hellos(Longer(sent, id), pseudo)) == Shown(shown + {id}, pseudo)
  {
    LongerIs(sent, id, pseudo);
    ReplayOne(view, Hellos(sent, pseudo), Appeared(pseudo(id)));
    ShownWith(shown, id, pseudo);
  }

  /** One more neighbour: greeted when it is mounted or out of sight, and remembered either way. */
  lemma WelcomedNext(now: map<int, int>, known: set<int>, ns: seq<Neighbour>, n: Neighbour,
                     news: seq<Message>, sent: seq<int>, pseudo: int -> int)
    requires Welcomed(now, known, ns, news, sent, pseudo) && n.pseudoID == pseudo(n.id)
    ensures if n.mounting || n.id !in now then
              Welcomed(now[n.id := n.pseudoID], known, ns + [n], news + [Appeared(n.pseudoID)],
                       Longer(sent, n.id), pseudo)
            else Welcomed(now, known, ns + [n], news, sent, pseudo)
  {
    AnnouncedNext(ns, n, known);
    if Apart(ns + [n]) {
      ApartNext(ns, n);
    }
    if n.mounting || n.id !in now {
      var more := now[n.id := n.pseudoID];
      SaysHello(Shown(known, pseudo), now.Keys, sent, n.id, pseudo);
      assert more.Keys == now.Keys + {n.id};
      if n.id in now {
        assert Ids(sent) <= NeighbourIds(ns);
      }
    } else {
      assert now.Keys + {n.id} == now.Keys;
    }
  }

  /** The messages of a scan of players: a greeting for each that is near and either out of sight
      before or mounted, a farewell for each that is near no longer, and nothing else. */
  ghost predicate PlayerNews(news: seq<Message>, nearby: seq<Neighbour>, known: set<int>, pseudo: int -> int) {
    && Tells(news, NeighbourIds(nearby) - known + MountedIds(nearby), known - NeighbourIds(nearby), pseudo)
    && (Apart(nearby) ==> Once(news))
  }

  /** The messages of a scan of NPCs or drops: the differences, each once. */
  ghost predicate IdNews(news: seq<Message>, before: set<int>, after: set<int>) {
    Tells(news, after - before, before - after, Itself()) && Once(news)
  }

  lemma PlayerNewsAre(sent: seq<int>, gone: seq<int>, nearby: seq<Neighbour>, known: set<int>, pseudo: int -> int)
    requires Injective(pseudo) && Ids(sent) == Announced(nearby, known) && Ids(gone) == known - NeighbourIds(nearby)
    requires (Apart(nearby) ==> Distinct(sent)) && Distinct(gone)
    ensures PlayerNews(Hellos(sent, pseudo) + Goodbyes(gone, pseudo), nearby, known, pseudo)
  {
    NewsAre(sent, gone, pseudo);
  }

  lemma IdNewsAre(sent: seq<int>, gone: seq<int>, before: set<int>, after: set<int>)
    requires Ids(sent) == after - before && Ids(gone) == before - after && Distinct(sent) && Distinct(gone)
    ensures IdNews(Hellos(sent, Itself()) + Goodbyes(gone, Itself()), before, after)
  {
    ItselfInjective();
    NewsAre(sent, gone, Itself());
  }

  /** The state after forgetting `losers`, farewells sent to `gone`. */
  ghost predicate Dismissed(met: set<int>, now: set<int>, losers: set<int>, news: seq<Message>, gone: seq<int>,
                            pseudo: int -> int) {
    && now == met - losers && Replay(Shown(met, pseudo), news) == Shown(now, pseudo)
    && news == Goodbyes(gone, pseudo) && Ids(gone) == losers && Distinct(gone)
  }

  lemma DismissedNext(met: set<int>, now: set<int>, losers: set<int>, news: seq<Message>, gone: seq<int>,
                      loser: int, pseudo: int -> int)
    requires Sessions(pseudo) && Dismissed(met, now, losers, news, gone, pseudo) && loser !in losers
    ensures Dismissed(met, now - {loser}, losers + {loser}, news + [Gone(pseudo(loser))], Longer(gone, loser), pseudo)
  {
    ShownWithout(now, loser, pseudo);
    ReplayOne(Shown(met, pseudo), news, Gone(pseudo(loser)));
    LongerIs(gone, loser, pseudo);
  }

  lemma PlayersScanned(known: set<int>, nearby: seq<Neighbour>, arrivals: seq<Message>, sent: seq<int>,
                       met: set<int>, departures: seq<Message>, gone: seq<int>, now: set<int>, pseudo: int -> int)
    requires Sessions(pseudo) && met == known + NeighbourIds(nearby)
    requires arrivals == Hellos(sent, pseudo) && Replay(Shown(known, pseudo), arrivals) == Shown(met, pseudo)
    requires Ids(sent) == Announced(nearby, known) && (Apart(nearby) ==> Distinct(sent))
    requires Dismissed(met, now, met - NeighbourIds(nearby), departures, gone, pseudo)
    ensures now == NeighbourIds(nearby)
    ensures Replay(Shown(known, pseudo), arrivals + departures) == Shown(now, pseudo)
    ensures PlayerNews(arrivals + departures, nearby, known, pseudo)
  {
    ReplayAppend(Shown(known, pseudo), arrivals, departures);
    assert met - NeighbourIds(nearby) == known - NeighbourIds(nearby);
    PlayerNewsAre(sent, gone, nearby, known, pseudo);
  }

  // ---------------------------------------------------------------- the object

  /** The mobs of the world: which are dead, and who has each of them in sight. */
  class MobTable {
    var dead: set<int>
    var onSightPlayers: map<int, set<int>>

    constructor (ids: set<int>)
      ensures dead == {} && onSightPlayers == map id | id in ids :: {}
    {
      dead, onSightPlayers := {}, map id | id in ids :: {};
    }
  }

  class Watcher {
    const id: int
    var players: map<int, int>
    var npcs: set<int>
    var drops: set<int>
    var mobs: set<int>

    constructor (id: int)
      ensures this.id == id && players == map[] && npcs == drops == mobs == {}
    {
      this.id, players, npcs, drops, mobs := id, map[], {}, {}, {};
    }

    /** Mounted neighbours are forgotten first, so they are announced again on every scan; of the
        others only those that were out of sight are. */
    method ExplorePlayers(nearby: seq<Neighbour>, ghost pseudo: int -> int) returns (news: seq<Message>)
      requires Sessions(pseudo) && Agree(players, pseudo)
      requires Honest(nearby, pseudo)
      modifies this`players
      ensures players.Keys == NeighbourIds(nearby) && Agree(players, pseudo)
      ensures Replay(Shown(old(players).Keys, pseudo), news) == Shown(players.Keys, pseudo)
      ensures PlayerNews(news, nearby, old(players).Keys, pseudo)
    {
      ghost var known := players.Keys;
      var arrivals, sent := AnnounceNearby(nearby, pseudo);
      ghost var met := players.Keys;
      var departures, gone := ForgetPlayers(players.Keys - NeighbourIds(nearby), pseudo);
      news := arrivals + departures;
      PlayersScanned(known, nearby, arrivals, sent, met, departures, gone, players.Keys, pseudo);
    }

    method ForgetPlayers(losers: set<int>, ghost pseudo: int -> int)
      returns (news: seq<Message>, ghost gone: seq<int>)
      requires Sessions(pseudo) && Agree(players, pseudo) && losers <= players.Keys
      modifies this`players
      ensures Agree(players, pseudo)
      ensures Dismissed(old(players).Keys, players.Keys, losers, news, gone, pseudo)
    {
      var left := losers;
      news, gone := [], [];
      while left != {}
        invariant left <= losers <= old(players).Keys && Agree(players, pseudo)
        invariant Dismissed(old(players).Keys, players.Keys, losers - left, news, gone, pseudo)
        decreases left
      {
        var loser := Pick(left);
        assert losers - (left - {loser}) == losers - left + {loser};
        assert loser in players;
        DismissedNext(old(players).Keys, players.Keys, losers - left, news, gone, loser, pseudo);
        news := news + [Gone(players[loser])];
        gone := Longer(gone, loser);
        players := players - {loser};
        left := left - {loser};
      }
    }

    method AnnounceNearby(nearby: seq<Neighbour>, ghost pseudo: int -> int)
      returns (news: seq<Message>, ghost sent: seq<int>)
      requires Agree(players, pseudo) && Honest(nearby, pseudo)
      modifies this`players
      ensures Welcomed(players, old(players).Keys, nearby, news, sent, pseudo)
    {
      news, sent := [], [];
      for i := 0 to |nearby|
        invariant Welcomed(players, old(players).Keys, nearby[..i], news, sent, pseudo)
      {
        assert nearby[..i + 1] == nearby[..i] + [nearby[i]];
        WelcomedNext(players, old(players).Keys, nearby[..i], nearby[i], news, sent, pseudo);
        var met := Meet(nearby[i]);
        if met {
          news := news + [Appeared(nearby[i].pseudoID)];
          sent := Longer(sent, nearby[i].id);
        }
      }
      assert nearby[..|nearby|] == nearby;
    }

    /** A mounted neighbour counts as new. */
    method Meet(n: Neighbour) returns (met: bool)
      modifies this`players
      ensures met == (n.mounting || n.id !in old(players))
      ensures players == if met then old(players)[n.id := n.pseudoID] else old(players)
    {
      if n.mounting {
        players := players - {n.id};
      }
      if n.id !in players {
        players := players[n.id := n.pseudoID];
        return true;
      }
      return false;
    }

    /** The scan shared by NPCs and drops.  An id in `missing` is near but its record is gone
        by the time it is looked up; the scan passes over it. */
    static method ExploreIds(onSight: set<int>, ids: seq<int>, missing: set<int>)
      returns (after: set<int>, news: seq<Message>)
      ensures after == Ids(ids) - (missing - onSight)
      ensures Replay(onSight, news) == after && IdNews(news, onSight, after)
    {
      var seen, arrivals, sent := AnnounceIds(onSight, ids, missing);
      var departures: seq<Message>;
      ghost var gone: seq<int>;
      after, departures, gone := ForgetIds(seen, seen - Ids(ids));
      ReplayAppend(onSight, arrivals, departures);
      news := arrivals + departures;
      assert Ids(sent) == after - onSight && Ids(gone) == onSight - after;
      IdNewsAre(sent, gone, onSight, after);
    }

    static method AnnounceIds(onSight: set<int>, ids: seq<int>, missing: set<int>)
      returns (seen: set<int>, news: seq<Message>, ghost sent: seq<int>)
      ensures seen == onSight + (Ids(ids) - missing)
      ensures Replay(onSight, news) == seen
      ensures news == Hellos(sent, Itself()) && Ids(sent) == seen - onSight && Distinct(sent)
    {
      seen, news, sent := onSight, [], [];
      for i := 0 to |ids|
        invariant seen == onSight + (Ids(ids[..i]) - missing)
        invariant Replay(onSight, news) == seen
        invariant news == Hellos(sent, Itself()) && Ids(sent) == seen - onSight && Distinct(sent)
      {
        assert Ids(ids[..i + 1]) == Ids(ids[..i]) + {ids[i]} by {
          assert ids[..i + 1] == ids[..i] + [ids[i]];
        }
        if ids[i] !in missing && ids[i] !in seen {
          ReplayOne(onSight, news, Appeared(ids[i]));
          assert seen + {ids[i]} - onSight == seen - onSight + {ids[i]};
          seen := seen + {ids[i]};
          news := news + [Appeared(ids[i])];
          LongerIs(sent, ids[i], Itself());
          sent := Longer(sent, ids[i]);
        }
      }
      assert ids[..|ids|] == ids;
    }

    static method ForgetIds(onSight: set<int>, losers: set<int>)
      returns (after: set<int>, news: seq<Message>, ghost gone: seq<int>)
      requires losers <= onSight
      ensures after == onSight - losers
      ensures Replay(onSight, news) == after
      ensures news == Goodbyes(gone, Itself()) && Ids(gone) == losers && Distinct(gone)
    {
      var left := losers;
      after, news, gone := onSight, [], [];
      while left != {}
        invariant left <= losers && after == onSight - (losers - left)
        invariant Replay(onSight, news) == after
        invariant news == Goodbyes(gone, Itself()) && Ids(gone) == losers - left && Distinct(gone)
        decreases left
      {
        var x := Pick(left);
        ReplayOne(onSight, news, Gone(x));
        assert losers - (left - {x}) == losers - left + {x};
        news := news + [Gone(x)];
        LongerIs(gone, x, Itself());
        gone := Longer(gone, x);
        after := after - {x};
        left := left - {x};
      }
    }

    method ExploreNPCs(ids: seq<int>) returns (news: seq<Message>)
      modifies this`npcs
      ensures npcs == Ids(ids) && Replay(old(npcs), news) == npcs
      ensures IdNews(news, old(npcs), npcs)
    {
      npcs, news := ExploreIds(npcs, ids, {});
    }

    method ExploreDrops(ids: seq<int>, missing: set<int>) returns (news: seq<Message>)
      modifies this`drops
      ensures drops == Ids(ids) - (missing - old(drops)) && Replay(old(drops), news) == drops
      ensures IdNews(news, old(drops), drops)
    {
      drops, news := ExploreIds(drops, ids, missing);
    }

    /** Keeps the living nearby mobs in sight, and this watcher in exactly their lists.  `view` is
        what the client shows on entry.  A mob that died in sight leaves it without a message, so
        a client that showed the mobs in sight goes on doing so exactly when none of those still
        near is dead. */
    method ExploreMobs(table: MobTable, ids: seq<int>, ghost view: set<int>) returns (news: seq<Message>)
      requires Ids(ids) + mobs <= table.onSightPlayers.Keys
      requires forall m :: m in table.onSightPlayers ==> (id in table.onSightPlayers[m] <==> m in mobs)
      modifies this`mobs, table`onSightPlayers
      ensures mobs == Ids(ids) - table.dead
      ensures Listed(table.onSightPlayers, old(table.onSightPlayers), mobs, id)
      ensures Replay(view, news) == view + (mobs - old(mobs)) - (old(mobs) - Ids(ids))
      ensures Tells(news, mobs - old(mobs), old(mobs) - Ids(ids), Itself()) && Once(news)
      ensures view == old(mobs) ==> (Replay(view, news) == mobs <==> old(mobs) * Ids(ids) !! table.dead)
    {
      ghost var before := table.onSightPlayers;
      var arrivals, sent := AnnounceMobs(table, ids, view);
      var departures, gone := ForgetMobs(table, mobs - Ids(ids), before, Replay(view, arrivals));
      ReplayAppend(view, arrivals, departures);
      news := arrivals + departures;
      assert Ids(sent) == mobs - old(mobs) && Ids(gone) == old(mobs) - Ids(ids);
      ItselfInjective();
      NewsAre(sent, gone, Itself());
      if view == old(mobs) {
        assert Replay(view, news) == mobs + (old(mobs) * Ids(ids) * table.dead);
      }
    }

    method AnnounceMobs(table: MobTable, ids: seq<int>, ghost view: set<int>)
      returns (news: seq<Message>, ghost sent: seq<int>)
      requires Ids(ids) + mobs <= table.onSightPlayers.Keys
      requires Listed(table.onSightPlayers, table.onSightPlayers, mobs, id)
      modifies this`mobs, table`onSightPlayers
      ensures mobs == Met(old(mobs), Ids(ids), table.dead)
      ensures Listed(table.onSightPlayers, old(table.onSightPlayers), mobs, id)
      ensures Replay(view, news) == view + (mobs - old(mobs))
      ensures news == Hellos(sent, Itself()) && Ids(sent) == mobs - old(mobs) && Distinct(sent)
    {
      ghost var before, start, near := table.onSightPlayers, mobs, {};
      news, sent := [], [];
      for i := 0 to |ids|
        invariant near == Ids(ids[..i]) && mobs == Met(start, near, table.dead)
        invariant Listed(table.onSightPlayers, before, mobs, id)
        invariant Replay(view, news) == view + (mobs - start)
        invariant news == Hellos(sent, Itself()) && Ids(sent) == mobs - start && Distinct(sent)
      {
        var m := ids[i];
        assert ids[..i + 1] == ids[..i] + [m];
        MetStep(start, near, table.dead, m);
        near := near + {m};
        var met := MeetMob(table, m, before);
        if met {
          ReplayOne(view, news, Appeared(m));
          LongerIs(sent, m, Itself());
          news, sent := news + [Appeared(m)], Longer(sent, m);
        }
      }
      assert ids[..|ids|] == ids;
    }

    method MeetMob(table: MobTable, m: int, ghost before: map<int, set<int>>) returns (met: bool)
      requires m in table.onSightPlayers && Listed(table.onSightPlayers, before, mobs, id)
      modifies this`mobs, table`onSightPlayers
      ensures met == (m !in table.dead && m !in old(mobs))
      ensures mobs == if m in table.dead then old(mobs) - {m} else old(mobs) + {m}
      ensures Listed(table.onSightPlayers, before, mobs, id)
    {
      var ok := m in mobs;
      if m in table.dead && ok {
        mobs := mobs - {m};
        table.onSightPlayers := table.onSightPlayers[m := table.onSightPlayers[m] - {id}];
      } else if m !in table.dead && !ok {
        mobs := mobs + {m};
        table.onSightPlayers := table.onSightPlayers[m := table.onSightPlayers[m] + {id}];
        return true;
      }
      return false;
    }

    method ForgetMobs(table: MobTable, losers: set<int>, ghost before: map<int, set<int>>, ghost view: set<int>)
      returns (news: seq<Message>, ghost gone: seq<int>)
      requires losers <= mobs <= table.onSightPlayers.Keys && Listed(table.onSightPlayers, before, mobs, id)
      modifies this`mobs, table`onSightPlayers
      ensures mobs == old(mobs) - losers && Listed(table.onSightPlayers, before, mobs, id)
      ensures Replay(view, news) == view - losers
      ensures news == Goodbyes(gone, Itself()) && Ids(gone) == losers && Distinct(gone)
    {
      var left := losers;
      news, gone := [], [];
      while left != {}
        invariant left <= losers && mobs == old(mobs) - (losers - left)
        invariant Listed(table.onSightPlayers, before, mobs, id)
        invariant Replay(view, news) == view - (losers - left)
        invariant news == Goodbyes(gone, Itself()) && Ids(gone) == losers - left && Distinct(gone)
        decreases left
      {
        var loser := Pick(left);
        ReplayOne(view, news, Gone(loser));
        LongerIs(gone, loser, Itself());
        assert losers - (left - {loser}) == losers - left + {loser};
        news, gone := news + [Gone(loser)], Longer(gone, loser);
        mobs := mobs - {loser};
        table.onSightPlayers := table.onSightPlayers[loser := table.onSightPlayers[loser] - {id}];
        left := left - {loser};
      }
    }

    /** What this watcher has in sight of players, NPCs and drops. */
    ghost function InSight(): Sighting
      reads this
    {
      Sighting(players.Keys, npcs, drops)
    }

    /** One scan of each kind. */
    method ScanAll(near: Snapshot, ghost pseudo: int -> int) returns (news: News)
      requires Sessions(pseudo) && Agree(players, pseudo) && Honest(near.neighbours, pseudo)
      modifies this`players, this`npcs, this`drops
      ensures Agree(players, pseudo) && Scanned(old(InSight()), near, news, InSight(), pseudo)
    {
      ghost var before := InSight();
      var p := ExplorePlayers(near.neighbours, pseudo);
      var n := ExploreNPCs(near.npcs);
      var d := ExploreDrops(near.drops, near.missing);
      news := News(p, n, d);
      assert players.Keys == NeighbourIds(near.neighbours);
      AllScanned(before, near, news, InSight(), pseudo);
    }

    /** The watching loop: scans one after another, each telling what changed since the one before
        and nothing else.  A client that replays all it was sent, from whatever it showed at the
        start, holds exactly the sets of the last scan. */
    method Watch(scans: seq<Snapshot>, ghost pseudo: int -> int)
      returns (news: News, ghost log: seq<News>, ghost at: seq<Sighting>)
      requires Sessions(pseudo) && Agree(players, pseudo)
      requires forall i :: 0 <= i < |scans| ==> Honest(scans[i].neighbours, pseudo)
      modifies this`players, this`npcs, this`drops
      ensures Told(old(InSight()), at, scans, log, news, InSight(), pseudo)
      ensures scans != [] ==>
                var last := scans[|scans| - 1];
                && players.Keys == NeighbourIds(last.neighbours)
                && npcs == Ids(last.npcs)
                && Ids(last.drops) - last.missing <= drops <= Ids(last.drops)
    {
      news, log, at := News([], [], []), [], [InSight()];
      for i := 0 to |scans|
        invariant Agree(players, pseudo)
        invariant Told(old(InSight()), at, scans[..i], log, news, InSight(), pseudo)
      {
        ghost var before := InSight();
        var more := ScanAll(scans[i], pseudo);
        assert scans[..i + 1] == scans[..i] + [scans[i]];
        ToldNext(old(InSight()), at, scans[..i], log, news, before, scans[i], more, InSight(), pseudo);
        news, log, at := news.Then(more), log + [more], at + [InSight()];
      }
      assert scans[..|scans|] == scans;
      if scans != [] {
        ToldLast(old(InSight()), at, scans, log, news, InSight(), pseudo);
      }
    }
  }

  /** What is near at one scan; the records of the drops in `missing` have vanished. */
  datatype Snapshot = Snapshot(neighbours: seq<Neighbour>, npcs: seq<int>, drops: seq<int>, missing: set<int>)

  datatype Sighting = Sighting(players: set<int>, npcs: set<int>, drops: set<int>)

  /** What a client was sent about each kind. */
  datatype News = News(players: seq<Message>, npcs: seq<Message>, drops: seq<Message>) {
    function Then(next: News): News {
      News(players + next.players, npcs + next.npcs, drops + next.drops)
    }
  }

  function Joined(log: seq<News>): News {
    if log == [] then News([], [], []) else Joined(log[..|log| - 1]).Then(log[|log| - 1])
  }

  lemma JoinedNext(log: seq<News>, more: News)
    ensures Joined(log + [more]) == Joined(log).Then(more)
  {
    assert (log + [more])[..|log + [more]| - 1] == log;
  }

  /** Replaying the news turns what the client showed into what is in sight. */
  ghost predicate Replayed(before: Sighting, news: News, after: Sighting, pseudo: int -> int) {
    && Replay(Shown(before.players, pseudo), news.players) == Shown(after.players, pseudo)
    && Replay(before.npcs, news.npcs) == after.npcs && Replay(before.drops, news.drops) == after.drops
  }

  lemma ReplayedThen(a: Sighting, x: News, b: Sighting, y: News, c: Sighting, pseudo: int -> int)
    requires Replayed(a, x, b, pseudo) && Replayed(b, y, c, pseudo)
    ensures Replayed(a, x.Then(y), c, pseudo)
  {
    ReplayAppend(Shown(a.players, pseudo), x.players, y.players);
    ReplayAppend(a.npcs, x.npcs, y.npcs);
    ReplayAppend(a.drops, x.drops, y.drops);
  }

  /** One scan of each kind: sight becomes what is near, and the news is what changed. */
  ghost predicate Scanned(before: Sighting, near: Snapshot, news: News, after: Sighting, pseudo: int -> int) {
    && after.players == NeighbourIds(near.neighbours) && after.npcs == Ids(near.npcs)
    && after.drops == Ids(near.drops) - (near.missing - before.drops)
    && PlayerNews(news.players, near.neighbours, before.players, pseudo)
    && IdNews(news.npcs, before.npcs, after.npcs) && IdNews(news.drops, before.drops, after.drops)
    && Replayed(before, news, after, pseudo)
  }

  lemma AllScanned(before: Sighting, near: Snapshot, news: News, after: Sighting, pseudo: int -> int)
    requires after.players == NeighbourIds(near.neighbours) && after.npcs == Ids(near.npcs)
    requires after.drops == Ids(near.drops) - (near.missing - before.drops)
    requires PlayerNews(news.players, near.neighbours, before.players, pseudo)
    requires IdNews(news.npcs, before.npcs, after.npcs) && IdNews(news.drops, before.drops, after.drops)
    requires Replayed(before, news, after, pseudo)
    ensures Scanned(before, near, news, after, pseudo)
  {
  }

  /** As many messages as arrivals, mounted neighbours and departures, when no character is listed
      twice. */
  lemma ScanCounts(before: Sighting, near: Snapshot, news: News, after: Sighting, pseudo: int -> int)
    requires Sessions(pseudo) && Scanned(before, near, news, after, pseudo)
    ensures Apart(near.neighbours) ==>
              var ids := NeighbourIds(near.neighbours);
              |news.players| == |ids - before.players + MountedIds(near.neighbours)| + |before.players - ids|
    ensures |news.npcs| == |after.npcs - before.npcs| + |before.npcs - after.npcs|
    ensures |news.drops| == |after.drops - before.drops| + |before.drops - after.drops|
  {
    var ids := NeighbourIds(near.neighbours);
    if Apart(near.neighbours) {
      NewsCount(news.players, ids - before.players + MountedIds(near.neighbours), before.players - ids, pseudo);
    }
    ItselfInjective();
    NewsCount(news.npcs, after.npcs - before.npcs, before.npcs - after.npcs, Itself());
    NewsCount(news.drops, after.drops - before.drops, before.drops - after.drops, Itself());
  }

  /** `at[i]` is in sight before scan `i`, and `log[i]` is what that scan tells. */
  ghost predicate Watched(at: seq<Sighting>, scans: seq<Snapshot>, log: seq<News>, pseudo: int -> int) {
    && |at| == |scans| + 1 && |log| == |scans|
    && forall i :: 0 <= i < |scans| ==> Scanned(at[i], scans[i], log[i], at[i + 1], pseudo)
  }

  /** Sight went from `start` to `now` over these scans, and `news` is all that was told. */
  ghost predicate Told(start: Sighting, at: seq<Sighting>, scans: seq<Snapshot>, log: seq<News>, news: News,
                       now: Sighting, pseudo: int -> int) {
    && Watched(at, scans, log, pseudo) && at[0] == start && at[|scans|] == now
    && news == Joined(log) && Replayed(start, news, now, pseudo)
  }

  lemma ToldNext(start: Sighting, at: seq<Sighting>, scans: seq<Snapshot>, log: seq<News>, news: News,
                 before: Sighting, near: Snapshot, more: News, now: Sighting, pseudo: int -> int)
    requires Told(start, at, scans, log, news, before, pseudo) && Scanned(before, near, more, now, pseudo)
    ensures Told(start, at + [now], scans + [near], log + [more], news.Then(more), now, pseudo)
  {
    WatchedNext(at, scans, log, near, more, now, pseudo);
    JoinedNext(log, more);
    ReplayedThen(start, news, before, more, now, pseudo);
  }

  lemma ToldLast(start: Sighting, at: seq<Sighting>, scans: seq<Snapshot>, log: seq<News>, news: News,
                 now: Sighting, pseudo: int -> int)
    requires Told(start, at, scans, log, news, now, pseudo) && scans != []
    ensures var last := scans[|scans| - 1];
            && now.players == NeighbourIds(last.neighbours) && now.npcs == Ids(last.npcs)
            && Ids(last.drops) - last.missing <= now.drops <= Ids(last.drops)
  {
    var i := |scans| - 1;
    assert Scanned(at[i], scans[i], log[i], at[i + 1], pseudo);
  }

  lemma WatchedNext(at: seq<Sighting>, scans: seq<Snapshot>, log: seq<News>, near: Snapshot, more: News,
                    now: Sighting, pseudo: int -> int)
    requires Watched(at, scans, log, pseudo) && Scanned(at[|scans|], near, more, now, pseudo)
    ensures Watched(at + [now], scans + [near], log + [more], pseudo)
  {
    var at', scans', log' := at + [now], scans + [near], log + [more];
    forall i | 0 <= i < |scans'| ensures Scanned(at'[i], scans'[i], log'[i], at'[i + 1], pseudo) {
      if i < |scans| {
        assert Scanned(at[i], scans[i], log[i], at[i + 1], pseudo);
      }
    }
  }

  ghost predicate Honest(nearby: seq<Neighbour>, pseudo: int -> int) {
    forall n :: n in nearby ==> n.pseudoID == pseudo(n.id)
  }

  /** A sight after meeting some mobs: without the dead, with the living ones among them. */
  function Met(start: set<int>, near: set<int>, dead: set<int>): set<int> {
    start - near * dead + (near - dead)
  }

  lemma MetStep(start: set<int>, near: set<int>, dead: set<int>, m: int)
    ensures var was, now := Met(start, near, dead), Met(start, near + {m}, dead);
            && now == (if m in dead then was - {m} else was + {m})
            && now - start == if m !in dead && m !in was then was - start + {m} else was - start
  {
  }

  /** One watcher's entries in all lists, everybody else's as before. */
  ghost predicate Listed(now: map<int, set<int>>, before: map<int, set<int>>, mobs: set<int>, id: int) {
    && now.Keys == before.Keys
    && forall m :: m in now ==> now[m] == if m in mobs then before[m] + {id} else before[m] - {id}
  }

  // ---------------------------------------------------------------- runs

  /** Sights of all characters, lists of all mobs. */
  datatype World = World(sights: map<int, set<int>>, lists: map<int, set<int>>, dead: set<int>)

  datatype Event = Scan(who: int, nearby: seq<int>) | Die(mob: int) | Respawn(mob: int)

  function Step(w: World, e: Event): World {
    match e
    case Scan(who, nearby) =>
      if who !in w.sights || !(Ids(nearby) <= w.lists.Keys) then w
      else
        var seen := Ids(nearby) - w.dead;
        w.(sights := w.sights[who := seen],
           lists := map m | m in w.lists :: if m in seen then w.lists[m] + {who} else w.lists[m] - {who})
    case Die(mob) => w.(dead := w.dead + {mob})
    case Respawn(mob) => w.(dead := w.dead - {mob})
  }

  function Run(w: World, es: seq<Event>): World
    decreases |es|
  {
    if es == [] then w else Run(Step(w, es[0]), es[1..])
  }

  /** A mob lists a character exactly when the character has it in sight. */
  ghost predicate Mirror(w: World) {
    && (forall c, m :: c in w.sights && m in w.lists ==> (c in w.lists[m] <==> m in w.sights[c]))
    && (forall c :: c in w.sights ==> w.sights[c] <= w.lists.Keys)
    && (forall m :: m in w.lists ==> w.lists[m] <= w.sights.Keys)
  }

  /** Scans by any characters, in any order, with mobs dying and coming back in between, keep
      the mirror exact. */
  lemma {:induction false} RunKeepsMirror(w: World, es: seq<Event>)
    requires Mirror(w)
    ensures Mirror(Run(w, es))
    ensures Run(w, es).sights.Keys == w.sights.Keys && Run(w, es).lists.Keys == w.lists.Keys
    decreases |es|
  {
    if es != [] {
      StepKeepsMirror(w, es[0]);
      RunKeepsMirror(Step(w, es[0]), es[1..]);
    }
  }

  lemma StepKeepsMirror(w: World, e: Event)
    requires Mirror(w)
    ensures Mirror(Step(w, e))
    ensures Step(w, e).sights.Keys == w.sights.Keys && Step(w, e).lists.Keys == w.lists.Keys
  {
  }

  /** After a run that ends with a scan, the scanner sees exactly the living mobs near it. */
  lemma ScanSeesLiving(w: World, es: seq<Event>, who: int, nearby: seq<int>)
    requires Mirror(w) && who in w.sights && Ids(nearby) <= w.lists.Keys
    ensures var r := Run(w, es + [Scan(who, nearby)]);
            && who in r.sights && r.sights[who] == Ids(nearby) - Run(w, es).dead
            && forall m :: m in r.lists ==> (who in r.lists[m] <==> m in nearby && m !in r.dead)
  {
    RunKeepsMirror(w, es);
    RunLast(w, es, Scan(who, nearby));
    StepKeepsMirror(Run(w, es), Scan(who, nearby));
  }

  lemma {:induction false} RunLast(w: World, es: seq<Event>, e: Event)
    ensures Run(w, es + [e]) == Step(Run(w, es), e)
    decreases |es|
  {
    if es == [] {
      assert es + [e] == [e];
      assert Run(w, [e]) == Run(Step(w, e), [e][1..]);
    } else {
      assert (es + [e])[1..] == es[1..] + [e];
      RunLast(Step(w, es[0]), es[1..], e);
    }
  }

  // ---------------------------------------------------------------- the runs of the objects

  ghost predicate Named(watchers: map<int, Watcher>) {
    forall c :: c in watchers ==> watchers[c].id == c
  }

  ghost function Objects(watchers: map<int, Watcher>): set<object> {
    set c | c in watchers :: watchers[c]
  }

  /** The sights and lists as they stand in the objects. */
  ghost function Sights(table: MobTable, watchers: map<int, Watcher>): World
    reads table, Objects(watchers)
  {
    World(map c | c in watchers :: watchers[c].mobs, table.onSightPlayers, table.dead)
  }

  lemma ListedIsStep(w: World, who: int, nearby: seq<int>, now: map<int, set<int>>)
    requires who in w.sights && Ids(nearby) <= w.lists.Keys
    requires Listed(now, w.lists, Ids(nearby) - w.dead, who)
    ensures now == Step(w, Scan(who, nearby)).lists
  {
    var lists := Step(w, Scan(who, nearby)).lists;
    assert lists.Keys == now.Keys;
    forall m | m in now ensures now[m] == lists[m] {
    }
  }

  /** One scan of the object is the step of the runs. */
  method ScanOnce(table: MobTable, watchers: map<int, Watcher>, who: int, nearby: seq<int>)
    requires Named(watchers) && who in watchers && Ids(nearby) <= table.onSightPlayers.Keys
    requires Mirror(Sights(table, watchers))
    modifies table`onSightPlayers, watchers[who]
    ensures Sights(table, watchers) == Step(old(Sights(table, watchers)), Scan(who, nearby))
  {
    var w := watchers[who];
    ghost var was := Sights(table, watchers);
    assert was.sights[who] == w.mobs;
    var news := w.ExploreMobs(table, nearby, {});
    forall c | c in watchers && c != who ensures watchers[c].mobs == was.sights[c] {
      assert watchers[c].id != w.id;
    }
    assert Sights(table, watchers).sights == was.sights[who := w.mobs];
    ListedIsStep(was, who, nearby, table.onSightPlayers);
  }

  /** Any characters scan in any order while mobs die and come back: the objects go through
      exactly the run, so its mirror is theirs. */
  method PlayOut(table: MobTable, watchers: map<int, Watcher>, es: seq<Event>)
    requires Named(watchers) && Mirror(Sights(table, watchers))
    modifies table, Objects(watchers)
    ensures Sights(table, watchers) == Run(old(Sights(table, watchers)), es)
    ensures Mirror(Sights(table, watchers))
  {
    for i := 0 to |es|
      invariant Mirror(Sights(table, watchers))
      invariant Run(Sights(table, watchers), es[i..]) == Run(old(Sights(table, watchers)), es)
    {
      ghost var was := Sights(table, watchers);
      assert es[i..][0] == es[i] && es[i..][1..] == es[i + 1..];
      match es[i] {
        case Scan(who, nearby) =>
          if who in watchers && Ids(nearby) <= table.onSightPlayers.Keys {
            ScanOnce(table, watchers, who, nearby);
          }
        case Die(mob) =>
          table.dead := table.dead + {mob};
        case Respawn(mob) =>
          table.dead := table.dead - {mob};
      }
      assert Sights(table, watchers) == Step(was, es[i]);
      assert Run(was, es[i..]) == Run(Step(was, es[i]), es[i + 1..]);
      StepKeepsMirror(was, es[i]);
    }
  }
}
