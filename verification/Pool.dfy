/** The engine pool: which models stay loaded. Requests, sweeps and clock ticks are atomic
    steps under the pool's lock. */
module Pool {
  type Id = string

  datatype State = State(engines: set<Id>, lru: seq<Id>, lastUsed: map<Id, nat>)

  ghost predicate NoDup(s: seq<Id>) {
    forall i, j :: 0 <= i < j < |s| ==> s[i] != s[j]
  }

  function Elems(s: seq<Id>): set<Id> {
    set x | x in s
  }

  /** `retain(|x| x != id)`. */
  function Remove(s: seq<Id>, id: Id): seq<Id> {
    if s == [] then []
    else Remove(s[..|s| - 1], id) + if s[|s| - 1] == id then [] else [s[|s| - 1]]
  }

  function Touch(lru: seq<Id>, id: Id): seq<Id> {
    Remove(lru, id) + [id]
  }

  /** The eviction loop: drop the least recently used engine while there are too many, and
      give up when the front of the queue is not loaded. */
  function Evict(s: State, max: nat): State
    decreases |s.lru|
  {
    if |s.engines| > max && s.lru != [] && s.lru[0] in s.engines then
      Evict(State(s.engines - {s.lru[0]}, s.lru[1..], s.lastUsed - {s.lru[0]}), max)
    else s
  }

  /** A request for `id` at time `now`; `loads` says whether a model that is not loaded yet is
      known and loads. */
  function Ensure(s: State, id: Id, loads: bool, now: nat, max: nat): State {
    if id in s.engines then State(s.engines, Touch(s.lru, id), s.lastUsed[id := now])
    else if !loads then s
    else Evict(State(s.engines + {id}, Touch(s.lru, id), s.lastUsed[id := now]), max)
  }

  /** Engines with no request for `timeout`; none when sweeping is off. */
  function Due(s: State, now: nat, timeout: Timeout): set<Id> {
    match timeout
    case Never => {}
    case After(t) => set id | id in s.engines && (id !in s.lastUsed || Elapsed(s.lastUsed[id], now) >= t)
  }

  function Elapsed(since: nat, now: nat): nat {
    if now < since then 0 else now - since
  }

  datatype Timeout = Never | After(t: nat)

  /** An idle sweep: due engines are stamped, except the dead ones, which are forgotten but
      stay in the queue. */
  function Sweep(s: State, now: nat, timeout: Timeout, dead: set<Id>): State {
    var due := Due(s, now, timeout);
    var gone := due * dead;
    State(s.engines - gone, s.lru, Stamped(s.lastUsed, due, dead, now))
  }

  /** `done` have been swept: the live ones are stamped, the dead ones removed. */
  function Stamped(m: map<Id, nat>, done: set<Id>, dead: set<Id>, now: nat): map<Id, nat> {
    (m + map id | id in done - dead :: now) - (done * dead)
  }

  lemma StampNext(m: map<Id, nat>, done: set<Id>, dead: set<Id>, now: nat, id: Id)
    requires id !in done
    ensures id in dead ==> Stamped(m, done + {id}, dead, now) == Stamped(m, done, dead, now) - {id}
    ensures id !in dead ==> Stamped(m, done + {id}, dead, now) == Stamped(m, done, dead, now)[id := now]
  {
    var next := done + {id};
    if id in dead {
      assert next - dead == done - dead && next * dead == done * dead + {id};
    } else {
      assert next - dead == (done - dead) + {id} && next * dead == done * dead;
    }
  }

  lemma StampNone(m: map<Id, nat>, dead: set<Id>, now: nat)
    ensures Stamped(m, {}, dead, now) == m
  {
  }

  class ModelPool {
    var engines: set<Id>
    var lru: seq<Id>
    var lastUsed: map<Id, nat>
    const maxLoaded: nat
    const idleTimeout: Timeout

    function Now(): State
      reads this
    {
      State(engines, lru, lastUsed)
    }

    constructor (maxLoaded: nat, idleTimeout: Timeout)
      ensures Now() == State({}, [], map[]) && this.maxLoaded == (if maxLoaded < 1 then 1 else maxLoaded)
    {
      engines, lru, lastUsed := {}, [], map[];
      this.maxLoaded := if maxLoaded < 1 then 1 else maxLoaded;
      this.idleTimeout := idleTimeout;
    }

    method TouchLru(id: Id, now: nat)
      modifies this
      ensures Now() == State(old(engines), Touch(old(lru), id), old(lastUsed)[id := now])
    {
      var kept: seq<Id> := [];
      for k := 0 to |lru|
        invariant kept == Remove(lru[..k], id) && Now() == old(Now())
      {
        assert lru[..k + 1][..k] == lru[..k];
        if lru[k] != id {
          kept := kept + [lru[k]];
        }
      }
      assert lru[..|lru|] == lru;
      lru := kept + [id];
      lastUsed := lastUsed[id := now];
    }

    method EvictIfNeeded()
      modifies this
      ensures Now() == Evict(old(Now()), maxLoaded)
    {
      while |engines| > maxLoaded
        invariant Evict(Now(), maxLoaded) == Evict(old(Now()), maxLoaded)
        decreases |lru|
      {
        if lru == [] || lru[0] !in engines {
          break;
        }
        var id := lru[0];
        lru := lru[1..];
        lastUsed := lastUsed - {id};
        engines := engines - {id};
      }
    }

    method EnsureEngine(id: Id, loads: bool, now: nat) returns (ok: bool)
      modifies this
      ensures Now() == Ensure(old(Now()), id, loads, now, maxLoaded)
      ensures ok == (id in old(engines) || loads)
    {
      if id in engines {
        TouchLru(id, now);
        return true;
      }
      if !loads {
        return false;
      }
      engines := engines + {id};
      TouchLru(id, now);
      EvictIfNeeded();
      ok := true;
    }

    method DueForIdle(now: nat) returns (due: set<Id>)
      ensures due == Due(Now(), now, idleTimeout)
    {
      match idleTimeout
      case Never => due := {};
      case After(t) => due := set id | id in engines && (id !in lastUsed || Elapsed(lastUsed[id], now) >= t);
    }

    /** `dead` are the engines whose threads have ended. */
    method IdleSweep(now: nat, dead: set<Id>) returns (swept: set<Id>)
      modifies this
      ensures Now() == Sweep(old(Now()), now, idleTimeout, dead)
      ensures swept == Due(old(Now()), now, idleTimeout) - dead
    {
      var due := DueForIdle(now);
      hide Stamped, Due;
      swept := {};
      StampNone(lastUsed, dead, now);
      var todo := due;
      ghost var was := Now();
      assert due - todo == {};
      while todo != {}
        invariant todo <= due && lru == was.lru
        invariant swept == (due - todo) - dead
        invariant engines == was.engines - ((due - todo) * dead)
        invariant lastUsed == Stamped(was.lastUsed, due - todo, dead, now)
        decreases |todo|
      {
        var id :| id in todo;
        StampNext(was.lastUsed, due - todo, dead, now, id);
        assert due - (todo - {id}) == (due - todo) + {id};
        todo := todo - {id};
        if id in dead {
          engines := engines - {id};
          lastUsed := lastUsed - {id};
        } else {
          lastUsed := lastUsed[id := now];
          swept := swept + {id};
        }
      }
      assert due - todo == due;
    }
  }

  // ---- facts about the queue ----------------------------------------------------------

  lemma ElemsAppend(a: seq<Id>, b: seq<Id>)
    ensures Elems(a + b) == Elems(a) + Elems(b)
  {
    assert forall x :: x in a + b <==> x in a || x in b;
  }

  lemma ElemsOne(x: Id)
    ensures Elems([x]) == {x} && Elems([]) == {}
  {
  }

  lemma NoDupSnoc(s: seq<Id>, x: Id)
    ensures NoDup(s + [x]) <==> NoDup(s) && x !in Elems(s)
  {
    var all := s + [x];
    if NoDup(all) {
      assert forall i :: 0 <= i < |s| ==> all[i] == s[i] && all[i] != all[|s|];
    }
    if NoDup(s) && x !in Elems(s) {
      assert forall i :: 0 <= i < |s| ==> s[i] in Elems(s);
    }
  }

  lemma {:induction false} RemoveFacts(s: seq<Id>, id: Id)
    requires NoDup(s)
    ensures NoDup(Remove(s, id)) && Elems(Remove(s, id)) == Elems(s) - {id}
    ensures |Remove(s, id)| == |s| - if id in Elems(s) then 1 else 0
  {
    hide Elems, NoDup;
    ElemsOne(id);
    if s != [] {
      var (init, x) := (s[..|s| - 1], s[|s| - 1]);
      assert s == init + [x];
      NoDupSnoc(init, x);
      RemoveFacts(init, id);
      ElemsAppend(init, [x]);
      ElemsOne(x);
      if x != id {
        NoDupSnoc(Remove(init, id), x);
        ElemsAppend(Remove(init, id), [x]);
      } else {
        assert Remove(s, id) == Remove(init, id);
      }
    }
  }

  lemma {:induction false} RemoveAppend(a: seq<Id>, b: seq<Id>, id: Id)
    ensures Remove(a + b, id) == Remove(a, id) + Remove(b, id)
  {
    if b == [] {
      assert a + b == a;
    } else {
      var n := |b| - 1;
      RemoveAppend(a, b[..n], id);
      assert (a + b)[..|a| + n] == a + b[..n];
    }
  }

  lemma TouchFacts(lru: seq<Id>, id: Id)
    requires NoDup(lru)
    ensures NoDup(Touch(lru, id)) && Elems(Touch(lru, id)) == Elems(lru) + {id}
    ensures |Touch(lru, id)| == |lru| + if id in Elems(lru) then 0 else 1
  {
    hide Elems, NoDup, Remove;
    RemoveFacts(lru, id);
    NoDupSnoc(Remove(lru, id), id);
    ElemsAppend(Remove(lru, id), [id]);
    ElemsOne(id);
  }

  lemma {:induction false} NoDupSize(s: seq<Id>)
    requires NoDup(s)
    ensures |Elems(s)| == |s|
  {
    hide Elems, NoDup;
    if s != [] {
      var (init, x) := (s[..|s| - 1], s[|s| - 1]);
      assert s == init + [x];
      NoDupSnoc(init, x);
      NoDupSize(init);
      ElemsAppend(init, [x]);
      ElemsOne(x);
    } else {
      ElemsOne("");
    }
  }

  // ---- what every step keeps --------------------------------------------------------------

  /** Holds over every run of requests and sweeps, with live and dead engines: `RunIsSound`. */
  ghost predicate Sound(s: State) {
    NoDup(s.lru) && s.engines <= Elems(s.lru) && s.lastUsed.Keys == s.engines
  }

  /** One round of the eviction loop. */
  function EvictOne(s: State): State
    requires s.lru != []
  {
    State(s.engines - {s.lru[0]}, s.lru[1..], s.lastUsed - {s.lru[0]})
  }

  lemma EvictOneSound(s: State)
    requires Sound(s) && s.lru != []
    ensures Sound(EvictOne(s))
  {
    assert s.lru == [s.lru[0]] + s.lru[1..];
    ElemsAppend([s.lru[0]], s.lru[1..]);
    ElemsOne(s.lru[0]);
  }

  /** The last of the queue is not evicted. */
  lemma {:induction false} EvictSound(s: State, max: nat)
    requires Sound(s) && 0 < max && s.lru != []
    ensures Sound(Evict(s, max))
    ensures s.lru[|s.lru| - 1] in s.engines ==> s.lru[|s.lru| - 1] in Evict(s, max).engines
    decreases |s.lru|
  {
    hide Elems;
    if |s.engines| > max && s.lru[0] in s.engines {
      EvictOneSound(s);
      NoDupSize(s.lru);
      SubsetSize(s.engines, Elems(s.lru));
      EvictSound(EvictOne(s), max);
    }
  }

  lemma SubsetSize(a: set<Id>, b: set<Id>)
    requires a <= b
    ensures |a| <= |b|
  {
    assert b == a + (b - a);
  }

  /** A request keeps the pool sound, and the model it asked for is loaded when it succeeds. */
  lemma EnsureSound(s: State, id: Id, loads: bool, now: nat, max: nat)
    requires Sound(s) && 0 < max
    ensures Sound(Ensure(s, id, loads, now, max))
    ensures id in s.engines || loads ==> id in Ensure(s, id, loads, now, max).engines
  {
    var touched := State(s.engines + {id}, Touch(s.lru, id), s.lastUsed[id := now]);
    TouchedSound(s, id, now);
    hide Sound, Touch, Evict;
    if id in s.engines {
      assert s.engines + {id} == s.engines;
    } else if loads {
      EvictSound(touched, max);
    }
  }

  lemma TouchedSound(s: State, id: Id, now: nat)
    requires Sound(s)
    ensures Sound(State(s.engines + {id}, Touch(s.lru, id), s.lastUsed[id := now]))
    ensures Touch(s.lru, id) != [] && Touch(s.lru, id)[|Touch(s.lru, id)| - 1] == id
  {
    TouchFacts(s.lru, id);
    hide Elems, NoDup, Remove;
  }

  lemma SweepSound(s: State, now: nat, timeout: Timeout, dead: set<Id>)
    requires Sound(s)
    ensures Sound(Sweep(s, now, timeout, dead))
  {
  }

  /** After a sweep nothing is due before another full timeout has passed; live engines stay. */
  lemma SweepQuiets(s: State, now: nat, t: nat, dead: set<Id>, later: nat)
    requires Sound(s) && now <= later < now + t
    requires forall id :: id in s.lastUsed ==> s.lastUsed[id] <= now
    ensures forall id :: id in Due(Sweep(s, now, After(t), dead), later, After(t)) ==> id !in Due(s, now, After(t))
    ensures s.engines - dead <= Sweep(s, now, After(t), dead).engines
  {
  }

  /** Exactly which engines a sweep touches: one that is loaded and was not used for the timeout
      is forgotten if it is dead and otherwise stamped; every other keeps its stamp. */
  lemma SweptExactly(s: State, now: nat, timeout: Timeout, dead: set<Id>, id: Id)
    requires Sound(s)
    ensures var idle := id in s.engines && timeout.After? && (timeout.t == 0 || s.lastUsed[id] + timeout.t <= now);
            var next := Sweep(s, now, timeout, dead);
      && (id in next.engines <==> id in s.engines && !(idle && id in dead))
      && next.lastUsed.Keys == next.engines
      && (id in next.engines ==> next.lastUsed[id] == if idle then now else s.lastUsed[id])
      && next.lru == s.lru
  {
  }

  lemma {:induction false} EvictKeepsStamps(s: State, max: nat)
    ensures Evict(s, max).engines <= s.engines
    ensures forall x :: x in Evict(s, max).lastUsed ==> x in s.lastUsed && Evict(s, max).lastUsed[x] == s.lastUsed[x]
    decreases |s.lru|
  {
    if |s.engines| > max && s.lru != [] && s.lru[0] in s.engines {
      EvictKeepsStamps(EvictOne(s), max);
    }
  }

  /** A request that is served stamps its own engine and no other. */
  lemma StampedExactly(s: State, id: Id, loads: bool, now: nat, max: nat, x: Id)
    requires Sound(s) && 0 < max && x in Ensure(s, id, loads, now, max).engines
    ensures x in Ensure(s, id, loads, now, max).lastUsed && (x == id || x in s.engines)
    ensures Ensure(s, id, loads, now, max).lastUsed[x]
         == if x == id && (id in s.engines || loads) then now else s.lastUsed[x]
  {
    EnsureSound(s, id, loads, now, max);
    hide Evict, Touch;
    EvictKeepsStamps(State(s.engines + {id}, Touch(s.lru, id), s.lastUsed[id := now]), max);
  }

  // ---- runs of requests and sweeps -------------------------------------------------------

  /** A request, or a tick of the sweep that finds some engines' threads ended. */
  datatype Act = Ask(id: Id, loads: bool, now: nat) | Tick(now: nat, dead: set<Id>)

  function StepPool(s: State, a: Act, max: nat, timeout: Timeout): State {
    match a
    case Ask(id, loads, now) => Ensure(s, id, loads, now, max)
    case Tick(now, dead) => Sweep(s, now, timeout, dead)
  }

  function RunPool(acts: seq<Act>, max: nat, timeout: Timeout): State {
    if acts == [] then State({}, [], map[])
    else StepPool(RunPool(acts[..|acts| - 1], max, timeout), acts[|acts| - 1], max, timeout)
  }

  lemma {:induction false} RunIsSound(acts: seq<Act>, max: nat, timeout: Timeout)
    requires 0 < max
    ensures Sound(RunPool(acts, max, timeout))
  {
    hide Sound, Ensure, Sweep;
    if acts == [] {
      StartIsSound();
    } else {
      var was := RunPool(acts[..|acts| - 1], max, timeout);
      RunIsSound(acts[..|acts| - 1], max, timeout);
      match acts[|acts| - 1]
      case Ask(id, loads, now) => EnsureSound(was, id, loads, now, max);
      case Tick(now, dead) => SweepSound(was, now, timeout, dead);
    }
  }

  lemma StartIsSound()
    ensures Sound(State({}, [], map[]))
  {
  }

  /** The ids of the requests that succeeded, in order. */
  function Served(acts: seq<Act>, max: nat, timeout: Timeout): seq<Id> {
    if acts == [] then []
    else
      var (init, a) := (acts[..|acts| - 1], acts[|acts| - 1]);
      Served(init, max, timeout)
      + if a.Ask? && (a.id in RunPool(init, max, timeout).engines || a.loads) then [a.id] else []
  }

  /** No sweep of the run finds a due engine dead. */
  predicate AllLive(acts: seq<Act>, max: nat, timeout: Timeout) {
    acts == [] ||
    var (init, a) := (acts[..|acts| - 1], acts[|acts| - 1]);
    AllLive(init, max, timeout)
    && (a.Tick? ==> Due(RunPool(init, max, timeout), a.now, timeout) * a.dead == {})
  }

  // ---- without dead engines the pool is the simple LRU -----------------------------------

  /** The distinct ids of a history, by last use. */
  function Recent(h: seq<Id>): seq<Id> {
    if h == [] then [] else Touch(Recent(h[..|h| - 1]), h[|h| - 1])
  }

  function LastN(s: seq<Id>, n: nat): seq<Id> {
    if |s| <= n then s else s[|s| - n..]
  }

  /** The simple LRU: exactly the last `max` distinct ids are loaded. */
  ghost predicate Simple(s: State, h: seq<Id>, max: nat) {
    && s.lru == LastN(Recent(h), max)
    && s.engines == Elems(s.lru) && NoDup(s.lru) && |s.lru| <= max
  }

  lemma {:induction false} RecentFacts(h: seq<Id>)
    ensures NoDup(Recent(h)) && Elems(Recent(h)) == Elems(h)
  {
    hide Elems;
    if h == [] {
      ElemsOne("");
    } else {
      var (init, x) := (h[..|h| - 1], h[|h| - 1]);
      RecentFacts(init);
      TouchFacts(Recent(init), x);
      assert h == init + [x];
      ElemsAppend(init, [x]);
      ElemsOne(x);
    }
  }

  lemma {:induction false} RemoveAbsent(s: seq<Id>, id: Id)
    requires id !in s
    ensures Remove(s, id) == s
  {
    if s != [] {
      RemoveAbsent(s[..|s| - 1], id);
      assert s == s[..|s| - 1] + [s[|s| - 1]];
    }
  }

  lemma RecentSnoc(h: seq<Id>, x: Id)
    ensures Recent(h + [x]) == Touch(Recent(h), x)
  {
    assert (h + [x])[..|h|] == h;
  }

  /** Touching a loaded id. */
  lemma TouchLoaded(r: seq<Id>, x: Id, max: nat)
    requires NoDup(r) && x in LastN(r, max)
    ensures Touch(LastN(r, max), x) == LastN(Touch(r, x), max)
  {
    hide Remove;
    var lru := LastN(r, max);
    var a := r[..|r| - |lru|];
    assert r == a + lru;
    RemoveAppend(a, lru, x);
    RemoveAbsent(a, x);
    RemoveLength(lru, x);
    hide NoDup;
    assert Touch(r, x) == a + Touch(lru, x);
    LastNEnds(a, Touch(lru, x), max);
  }

  lemma LastNEnds(a: seq<Id>, t: seq<Id>, max: nat)
    requires |t| <= max && (a == [] || |t| == max)
    ensures LastN(a + t, max) == t
  {
  }

  lemma RemoveLength(s: seq<Id>, x: Id)
    requires NoDup(s) && x in s
    ensures |Remove(s, x)| == |s| - 1
  {
    RemoveFacts(s, x);
  }

  /** Touching an id that is not loaded, and dropping the front when there are too many. */
  lemma TouchNew(r: seq<Id>, x: Id, max: nat)
    requires x !in LastN(r, max) && 0 < max
    ensures var lru := LastN(r, max);
            && Touch(lru, x) == lru + [x]
            && LastN(Touch(r, x), max) == (if |lru| < max then lru + [x] else (lru + [x])[1..])
  {
    hide Remove;
    var lru := LastN(r, max);
    var a := r[..|r| - |lru|];
    assert r == a + lru;
    RemoveAppend(a, lru, x);
    RemoveAbsent(lru, x);
    assert Touch(r, x) == Remove(a, x) + (lru + [x]);
    if |lru| < max {
      assert a == [];
      RemoveAbsent(a, x);
    }
  }

  lemma EvictSimple(s: State, max: nat)
    requires s.engines == Elems(s.lru) && NoDup(s.lru) && 0 < max && |s.lru| <= max + 1
    ensures Evict(s, max).lru == (if |s.lru| <= max then s.lru else s.lru[1..])
    ensures Evict(s, max).engines == Elems(Evict(s, max).lru)
  {
    hide Elems;
    NoDupSize(s.lru);
    if |s.lru| > max {
      FrontIn(s.lru);
      var next := EvictOne(s);
      assert s.lru == [s.lru[0]] + s.lru[1..];
      ElemsAppend([s.lru[0]], s.lru[1..]);
      ElemsOne(s.lru[0]);
      FrontOut(s.lru);
      assert next.engines == Elems(next.lru);
      NoDupSize(next.lru);
      assert Evict(s, max) == Evict(next, max) == next;
    }
  }

  lemma FrontIn(s: seq<Id>)
    requires s != []
    ensures s[0] in Elems(s)
  {
  }

  lemma FrontOut(s: seq<Id>)
    requires s != [] && NoDup(s)
    ensures s[0] !in Elems(s[1..]) && NoDup(s[1..])
  {
  }

  /** One request keeps the pool the simple LRU of the ids served. */
  lemma SimpleStep(s: State, h: seq<Id>, id: Id, loads: bool, now: nat, max: nat)
    requires Simple(s, h, max) && 0 < max
    ensures Simple(Ensure(s, id, loads, now, max), if id in s.engines || loads then h + [id] else h, max)
  {
    hide Elems, LastN, Evict, Recent, Touch;
    RecentFacts(h);
    RecentSnoc(h, id);
    TouchFacts(s.lru, id);
    InElems(s.lru, id);
    var r := Recent(h);
    if id in s.engines {
      TouchLoaded(r, id, max);
      assert Elems(s.lru) + {id} == Elems(s.lru);
    } else if loads {
      TouchNew(r, id, max);
      var mid := State(s.engines + {id}, Touch(s.lru, id), s.lastUsed[id := now]);
      EvictSimple(mid, max);
      if |mid.lru| > max {
        FrontOut(mid.lru);
      }
    }
  }

  lemma InElems(s: seq<Id>, id: Id)
    ensures id in s <==> id in Elems(s)
  {
  }

  /** After any run of requests, failed ones included, and of sweeps that find no dead engine,
      the queue is the last `max` distinct ids served, in order of last use, without
      duplicates, and exactly these are loaded. */
  lemma {:induction false} RunIsSimple(acts: seq<Act>, max: nat, timeout: Timeout)
    requires 0 < max && AllLive(acts, max, timeout)
    ensures Simple(RunPool(acts, max, timeout), Served(acts, max, timeout), max)
  {
    hide Simple, Ensure, Sweep, Due;
    if acts == [] {
      StartIsSimple(max);
    } else {
      var (init, a) := (acts[..|acts| - 1], acts[|acts| - 1]);
      var (was, h) := (RunPool(init, max, timeout), Served(init, max, timeout));
      RunIsSimple(init, max, timeout);
      assert h + [] == h;
      match a
      case Ask(id, loads, now) => SimpleStep(was, h, id, loads, now, max);
      case Tick(now, dead) => LiveSweep(was, h, now, timeout, dead, max);
    }
  }

  lemma StartIsSimple(max: nat)
    ensures Simple(State({}, [], map[]), [], max)
  {
    ElemsOne("");
  }

  lemma LiveSweep(s: State, h: seq<Id>, now: nat, timeout: Timeout, dead: set<Id>, max: nat)
    requires Simple(s, h, max) && Due(s, now, timeout) * dead == {}
    ensures Simple(Sweep(s, now, timeout, dead), h, max)
  {
    hide Due, Recent, LastN;
    assert s.engines - {} == s.engines;
  }

  // ---- the same, said by positions in the history ------------------------------------------

  function LastUse(h: seq<Id>, x: Id): (k: nat)
    requires x in h
    ensures k < |h| && h[k] == x && forall j :: k < j < |h| ==> h[j] != x
  {
    var n := |h| - 1;
    if h[n] == x then n
    else
      assert h == h[..n] + [h[n]];
      LastUse(h[..n], x)
  }

  ghost predicate ByLastUse(s: seq<Id>, h: seq<Id>) {
    && (forall k :: 0 <= k < |s| ==> s[k] in h)
    && forall i, j :: 0 <= i < j < |s| ==> LastUse(h, s[i]) < LastUse(h, s[j])
  }

  /** Removing an id that occurs once cuts it out where it stands. */
  lemma {:induction false} RemoveCuts(s: seq<Id>, x: Id) returns (k: nat)
    requires NoDup(s) && x in s
    ensures k < |s| && s[k] == x && Remove(s, x) == s[..k] + s[k + 1..]
  {
    var n := |s| - 1;
    if s[n] == x {
      k := n;
      RemoveAbsent(s[..n], x);
    } else {
      assert s == s[..n] + [s[n]];
      k := RemoveCuts(s[..n], x);
      assert Remove(s, x) == Remove(s[..n], x) + [s[n]];
      hide Remove, NoDup;
      CutSnoc(s, k);
    }
  }

  lemma CutSnoc(s: seq<Id>, k: nat)
    requires k < |s| - 1
    ensures var init := s[..|s| - 1];
      init[..k] + init[k + 1..] + [s[|s| - 1]] == s[..k] + s[k + 1..]
  {
    assert s[k + 1..] == s[..|s| - 1][k + 1..] + [s[|s| - 1]];
  }

  lemma RemoveByLastUse(s: seq<Id>, h: seq<Id>, x: Id)
    requires ByLastUse(s, h) && NoDup(s)
    ensures ByLastUse(Remove(s, x), h) && forall k :: 0 <= k < |Remove(s, x)| ==> Remove(s, x)[k] != x
  {
    hide LastUse, Remove;
    if x in s {
      var k := RemoveCuts(s, x);
      var r := Remove(s, x);
      assert forall i :: 0 <= i < |r| ==> r[i] == s[if i < k then i else i + 1];
    } else {
      RemoveAbsent(s, x);
    }
  }

  lemma LastUseSnoc(h: seq<Id>, x: Id, y: Id)
    requires y in h && y != x
    ensures LastUse(h + [x], y) == LastUse(h, y)
  {
    assert (h + [x])[..|h|] == h;
  }

  lemma {:induction false} RecentByLastUse(h: seq<Id>)
    ensures ByLastUse(Recent(h), h)
  {
    hide LastUse, Remove;
    if h != [] {
      var (init, x) := (h[..|h| - 1], h[|h| - 1]);
      RecentByLastUse(init);
      RecentFacts(init);
      RemoveByLastUse(Recent(init), init, x);
      assert h == init + [x];
      TouchByLastUse(Remove(Recent(init), x), init, x);
    }
  }

  lemma TouchByLastUse(r: seq<Id>, h: seq<Id>, x: Id)
    requires ByLastUse(r, h) && forall k :: 0 <= k < |r| ==> r[k] != x
    ensures ByLastUse(r + [x], h + [x])
  {
    hide LastUse;
    var (s, t) := (r + [x], h + [x]);
    forall k | 0 <= k < |r|
      ensures s[k] in t && LastUse(t, s[k]) == LastUse(h, r[k])
    {
      LastUseSnoc(h, x, r[k]);
    }
    assert t[|h|] == x;
    assert LastUse(t, x) == |h|;
  }

  /** A model is loaded exactly when it was served and fewer than `max` other models were
      served since. */
  lemma LoadedExactly(acts: seq<Act>, max: nat, timeout: Timeout, x: Id)
    requires 0 < max && AllLive(acts, max, timeout)
    ensures var h := Served(acts, max, timeout);
            x in RunPool(acts, max, timeout).engines <==> x in h && |Elems(h[LastUse(h, x) + 1..])| < max
  {
    hide Recent, LastUse, RunPool, Served, AllLive;
    var h := Served(acts, max, timeout);
    RunIsSimple(acts, max, timeout);
    RecentFacts(h);
    InElems(Recent(h), x);
    InElems(h, x);
    InElems(LastN(Recent(h), max), x);
    if x in h {
      var p :| 0 <= p < |Recent(h)| && Recent(h)[p] == x;
      RecentByLastUse(h);
      UsedAfter(h, Recent(h), p);
      LastNHas(Recent(h), p, max);
    } else {
      var r := Recent(h);
      assert forall y :: y in LastN(r, max) ==> y in r;
    }
  }

  lemma LastNHas(r: seq<Id>, p: nat, max: nat)
    requires NoDup(r) && p < |r|
    ensures r[p] in LastN(r, max) <==> |r| - p - 1 < max
  {
    if |r| > max && p >= |r| - max {
      assert LastN(r, max)[p - (|r| - max)] == r[p];
    }
  }

  lemma UsedAfter(h: seq<Id>, r: seq<Id>, p: nat)
    requires NoDup(r) && Elems(r) == Elems(h) && ByLastUse(r, h) && p < |r|
    ensures |Elems(h[LastUse(h, r[p]) + 1..])| == |r| - p - 1
  {
    hide LastUse, Elems;
    var cut := LastUse(h, r[p]) + 1;
    var (tail, after) := (h[cut..], r[p + 1..]);
    forall y
      ensures y in Elems(tail) <==> y in Elems(after)
    {
      InElems(tail, y);
      InElems(after, y);
      InElems(r, y);
      InElems(h, y);
      if y in tail {
        var k :| 0 <= k < |tail| && tail[k] == y;
        assert h[cut + k] == y;
        assert y in h;
        var q :| 0 <= q < |r| && r[q] == y;
        assert q > p;
        assert after[q - p - 1] == y;
      }
      if y in after {
        var k :| 0 <= k < |after| && after[k] == y;
        assert r[p + 1 + k] == y;
        assert tail[LastUse(h, y) - cut] == y;
      }
    }
    assert NoDup(after);
    NoDupSize(after);
    assert Elems(tail) == Elems(after);
  }

  // ---- with dead engines -----------------------------------------------------------------

  /** The pool gets back to its limit exactly when none of the ids to be dropped is one whose
      engine died. */
  lemma {:induction false} EvictExactly(s: State, max: nat)
    requires Sound(s)
    ensures |Evict(s, max).engines| <= max
      <==> forall k :: 0 <= k < |s.engines| - max && k < |s.lru| ==> s.lru[k] in s.engines
    decreases |s.lru|
  {
    hide Elems;
    NoDupSize(s.lru);
    SubsetSize(s.engines, Elems(s.lru));
    if |s.engines| > max && s.lru[0] in s.engines {
      EvictOneSound(s);
      var next := EvictOne(s);
      EvictExactly(next, max);
      assert forall k :: 0 <= k < |next.lru| ==> next.lru[k] == s.lru[k + 1] && s.lru[k + 1] != s.lru[0];
      assert forall k :: 0 < k < |s.lru| ==> s.lru[k] == next.lru[k - 1];
    }
  }

  /** A load into a full pool finds the next to go loaded. */
  predicate FrontIsLoaded(s: State, a: Act, max: nat) {
    a.Ask? && a.id !in s.engines && a.loads && |s.engines| == max ==>
      Touch(s.lru, a.id)[0] in s.engines + {a.id}
  }

  lemma LimitStep(s: State, a: Act, max: nat, timeout: Timeout)
    requires Sound(s) && 0 < max && |s.engines| <= max
    ensures |StepPool(s, a, max, timeout).engines| <= max <==> FrontIsLoaded(s, a, max)
  {
    match a
    case Tick(now, dead) =>
      SubsetSize(Sweep(s, now, timeout, dead).engines, s.engines);
    case Ask(id, loads, now) =>
      if id !in s.engines && loads {
        var touched := State(s.engines + {id}, Touch(s.lru, id), s.lastUsed[id := now]);
        TouchedSound(s, id, now);
        hide Sound, Touch, Evict;
        EvictExactly(touched, max);
      }
  }

  predicate WithinLimit(acts: seq<Act>, n: nat, max: nat, timeout: Timeout)
    requires n <= |acts|
  {
    |RunPool(acts[..n], max, timeout).engines| <= max
  }

  predicate FrontLoadedAt(acts: seq<Act>, n: nat, max: nat, timeout: Timeout)
    requires n < |acts|
  {
    FrontIsLoaded(RunPool(acts[..n], max, timeout), acts[n], max)
  }

  lemma LimitAt(acts: seq<Act>, n: nat, max: nat, timeout: Timeout)
    requires 0 < max && n < |acts| && WithinLimit(acts, n, max, timeout)
    ensures WithinLimit(acts, n + 1, max, timeout) <==> FrontLoadedAt(acts, n, max, timeout)
  {
    hide StepPool, FrontIsLoaded, Sound;
    var was := RunPool(acts[..n], max, timeout);
    RunIsSound(acts[..n], max, timeout);
    LimitStep(was, acts[n], max, timeout);
    assert acts[..n + 1][..n] == acts[..n];
  }

  lemma StartWithinLimit(acts: seq<Act>, max: nat, timeout: Timeout)
    ensures WithinLimit(acts, 0, max, timeout)
  {
    assert acts[..0] == [];
  }

  lemma {:induction false} LimitUpTo(acts: seq<Act>, m: nat, max: nat, timeout: Timeout)
    requires 0 < max && m <= |acts|
    ensures (forall n :: 0 <= n <= m ==> WithinLimit(acts, n, max, timeout))
      <==> forall n :: 0 <= n < m ==> FrontLoadedAt(acts, n, max, timeout)
  {
    hide *;
    StartWithinLimit(acts, max, timeout);
    if m > 0 {
      LimitUpTo(acts, m - 1, max, timeout);
      if WithinLimit(acts, m - 1, max, timeout) {
        LimitAt(acts, m - 1, max, timeout);
      }
    }
  }

  /** Over a whole run, dead engines included, the pool keeps its limit exactly when every load
      into a full pool finds the id at the front of the queue loaded. */
  lemma LimitKeptExactly(acts: seq<Act>, max: nat, timeout: Timeout)
    requires 0 < max
    ensures (forall n :: 0 <= n <= |acts| ==> WithinLimit(acts, n, max, timeout))
      <==> forall n :: 0 <= n < |acts| ==> FrontLoadedAt(acts, n, max, timeout)
  {
    LimitUpTo(acts, |acts|, max, timeout);
  }

  /** With room for one, a dead engine in the queue lets two models stay loaded. */
  lemma DeadEngineBreaksLimit()
    ensures var s1 := Ensure(State({}, [], map[]), "a", true, 0, 1);
            var s2 := Sweep(s1, 9, After(5), {"a"});
            var s3 := Ensure(s2, "b", true, 10, 1);
            Ensure(s3, "c", true, 11, 1).engines == {"b", "c"}
  {
    hide Touch;
    var s1 := Ensure(State({}, [], map[]), "a", true, 0, 1);
    TouchFew();
    assert Due(s1, 9, After(5)) == {"a"};
    var s2 := Sweep(s1, 9, After(5), {"a"});
    assert s2.engines == {} && s2.lru == ["a"];
    var s3 := Ensure(s2, "b", true, 10, 1);
    assert s3.engines == {"b"} && s3.lru == ["a", "b"];
  }

  lemma TouchFew()
    ensures Touch([], "a") == ["a"] && Touch(["a"], "b") == ["a", "b"] && Touch(["a", "b"], "c") == ["a", "b", "c"]
  {
    RemoveAbsent(["a"], "b");
    RemoveAbsent(["a", "b"], "c");
  }
}
