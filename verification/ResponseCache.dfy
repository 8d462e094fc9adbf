/**
  The response cache of pool/server.py: `cached`, `_cache_store` and the background refresh.

  Any number of threads run `cached` at once. They share the cache, 64 compute locks picked by
  the hash of the key, four background-refresh slots and the set of keys being refreshed. A
  builder may call `cached` again, so a thread is a stack of frames, one for each call that has
  not returned. Each step below is one atomic action of one thread: a critical section under
  `_resp_cache_lock`, one operation on a compute lock or on the slot semaphore, or the end of a
  builder. The environment picks what a builder answers, whether it raises, when a lock wait
  times out, and whether a refresh thread can be started.
 */
module ResponseCache {
  import opened Prelude

  const RESP_CACHE_MAX := 512
  const EVICTED := RESP_CACHE_MAX / 4
  const BG_SLOTS := 4
  const COMPUTE_LOCKS := 64
  const STALE_TTLS := 5.0
  const STALE_FLOOR_S := 20.0

  /** A cache key with its hash; `hash` is whatever Python's `hash` gives the key. */
  datatype Key = Key(name: string, hash: int)

  type Payload = int

  /** A cache entry: when it was stored, and what. */
  datatype Hit = Hit(ts: real, val: Payload)

  function LockOf(key: Key): nat { key.hash % COMPUTE_LOCKS }

  function Max(x: real, y: real): real { if x >= y then x else y }

  /** How old a copy may be and still stand in for a rebuild. */
  function StaleBound(ttl: real): real { Max(ttl * STALE_TTLS, STALE_FLOOR_S) }

  /** What a call of `cached` ended with. `Raised` is CacheBusy or the builder's own exception. */
  datatype Answer = Value(hit: Hit) | Raised

  /** Where a call of `cached` stands: the next thing it will do. */
  datatype Pc =
    | Lookup                                // read the cache
    | TakeSlot(stale: Hit)                  // ask for a background slot
    | ClaimKey(stale: Hit)                  // slot held: claim the key in _cache_refreshing
    | StartThread(stale: Hit)               // slot held, key claimed
    | ReturnSlot(stale: Hit)                // slot held, key already claimed by another thread
    | WantLock                              // take the compute lock, or try to
    | Recheck(locked: bool)                 // read the cache again
    | Building(locked: bool)                // the builder is running
    | Storing(locked: bool, val: Payload)   // the builder answered
    | Unlocking(locked: bool, answer: Answer)
    | Done(answer: Answer)

  /**
    One call of `cached`. `since` is the clock when it began, `depth` the value of the
    thread-local counter it read before asking for its lock, `lastGood` the copy it found, and
    `past` what it has done so far. `budget` bounds the work its builder may still do: each nested
    call is paid for out of it. A builder that terminates makes finitely many calls, so some budget
    covers it.
   */
  datatype Frame = Frame(
    key: Key, ttl: real, budget: nat, since: real, depth: nat, lastGood: Option<Hit>, pc: Pc, past: seq<Did>)

  /** A step a call took, and what was shared just before it. */
  datatype Did = Did(a: Action, g: Shared)

  /** The body of a refresh thread (`_bg`), or `Request` for a thread that serves requests. */
  datatype Role =
    | Request
    | BgBuilding(key: Key, budget: nat)
    | BgStoring(key: Key, val: Payload)
    | BgReleasing(key: Key)
    | BgDiscarding(key: Key)
    | BgGone

  /** `building` is the thread-local counter `_cache_tls.building`; `frames` grows at its end. */
  datatype Thread = Thread(role: Role, building: nat, frames: seq<Frame>) {
    function Top(): Frame
      requires frames != []
    {
      frames[|frames| - 1]
    }

    function WithTop(f: Frame): Thread
      requires frames != []
    {
      this.(frames := frames[|frames| - 1 := f])
    }

    ghost predicate AtRest() {
      frames == [] && (role == Request || role == BgGone)
    }
  }

  datatype Owner = Owner(thread: nat, frame: nat)

  /**
    What the threads share. `stored` and `made` are the history: every entry ever put in the
    cache, and every payload a builder of a key ever answered. `leaked` and `orphaned` record
    the refreshes whose thread could not be started.
   */
  datatype Shared = Shared(
    cache: map<Key, Hit>,
    locks: map<nat, Owner>,
    slots: int,
    refreshing: set<Key>,
    clock: real,
    leaked: nat,
    orphaned: set<Key>,
    stored: set<(Key, Hit)>,
    made: set<(Key, Payload)>)

  datatype State = State(threads: seq<Thread>, g: Shared)

  /** A step of one call: the call, its thread's counter, what is shared, and the threads it started. */
  datatype Moved = Moved(f: Frame, building: nat, g: Shared, started: seq<Thread>)

  /** A step of one thread. */
  datatype Outcome = Outcome(th: Thread, g: Shared, started: seq<Thread>)

  /** What one thread does next, with what the environment picks for it. */
  datatype Action =
    | Call(key: Key, ttl: real, budget: nat)
    | Look(now: real)
    | AcquireSlot
    | Claim
    | Start
    | StartFails
    | DropSlot
    | TakeLock
    | TimeOut
    | LookAgain(now: real)
    | BuilderAnswers(val: Payload)
    | BuilderRaises
    | Store(now: real, victims: set<Key>)
    | Unlock
    | Return
    | BgAnswers(val: Payload)
    | BgRaises
    | BgStore(now: real, victims: set<Key>)
    | BgRelease
    | BgDiscard

  // ---------------------------------------------------------------------------------------
  // _cache_store

  /** `victims` are the quarter of a full cache that was stored first; none of a cache with room. */
  ghost predicate Evictable(cache: map<Key, Hit>, victims: set<Key>) {
    if |cache| >= RESP_CACHE_MAX then
      && victims <= cache.Keys
      && |victims| == EVICTED
      && forall v, k | v in victims && k in cache.Keys - victims :: cache[v].ts <= cache[k].ts
    else
      victims == {}
  }

  function AfterStore(cache: map<Key, Hit>, victims: set<Key>, key: Key, hit: Hit): map<Key, Hit> {
    (cache - victims)[key := hit]
  }

  /**
    The cache never outgrows its limit, has the new entry and leaves the others as they are. It loses
    none while there is room, and when it is full the 128 oldest.
   */
  lemma StoreKeepsTheLimit(cache: map<Key, Hit>, victims: set<Key>, key: Key, hit: Hit)
    requires |cache| <= RESP_CACHE_MAX && Evictable(cache, victims)
    ensures |AfterStore(cache, victims, key, hit)| <= 512
    ensures |cache| == 512 ==> 384 <= |AfterStore(cache, victims, key, hit)| <= 385
    ensures key in AfterStore(cache, victims, key, hit) && AfterStore(cache, victims, key, hit)[key] == hit
    ensures forall k | k in AfterStore(cache, victims, key, hit) && k != key :: k in cache && AfterStore(cache, victims, key, hit)[k] == cache[k]
    ensures forall k | k in cache && k != key && k !in AfterStore(cache, victims, key, hit) ::
              |cache| == 512
              && forall j | j in cache && j != key && j in AfterStore(cache, victims, key, hit) :: cache[k].ts <= cache[j].ts
  {
    var rest := cache - victims;
    assert rest.Keys == cache.Keys - victims;
    assert |rest.Keys| == |cache.Keys| - |victims|;
    var after := AfterStore(cache, victims, key, hit);
    assert after.Keys == rest.Keys + {key};
    assert |after.Keys| <= |rest.Keys| + 1;
  }

  ghost predicate IsOldest(cache: map<Key, Hit>, key: Key) {
    key in cache && forall k | k in cache :: cache[key].ts <= cache[k].ts
  }

  lemma {:induction false} SomeEntryIsOldest(cache: map<Key, Hit>)
    requires cache.Keys != {}
    ensures exists k :: IsOldest(cache, k)
    decreases |cache.Keys|
  {
    var k :| k in cache;
    var rest := cache - {k};
    if rest.Keys == {} {
      assert cache.Keys == {k};
      assert IsOldest(cache, k);
    } else {
      assert rest.Keys == cache.Keys - {k};
      SomeEntryIsOldest(rest);
      var j :| IsOldest(rest, j);
      assert forall i | i in cache :: i == k || i in rest;
      assert IsOldest(cache, if cache[k].ts <= cache[j].ts then k else j);
    }
  }

  /** Any number of entries can be picked oldest first, whatever the ties. */
  lemma {:induction false} OldestCanBePicked(cache: map<Key, Hit>, n: nat) returns (victims: set<Key>)
    requires n <= |cache.Keys|
    ensures victims <= cache.Keys && |victims| == n
    ensures forall v, k | v in victims && k in cache.Keys - victims :: cache[v].ts <= cache[k].ts
    decreases n
  {
    if n == 0 {
      victims := {};
    } else {
      SomeEntryIsOldest(cache);
      var k :| IsOldest(cache, k);
      var rest := cache - {k};
      assert rest.Keys == cache.Keys - {k};
      var more := OldestCanBePicked(rest, n - 1);
      victims := {k} + more;
      forall v, j | v in victims && j in cache.Keys - victims
        ensures cache[v].ts <= cache[j].ts
      {
        assert j in rest.Keys - more;
        if v != k {
          assert rest[v].ts <= rest[j].ts;
        }
      }
    }
  }

  lemma SomeVictimsExist(cache: map<Key, Hit>) returns (victims: set<Key>)
    ensures Evictable(cache, victims)
  {
    if |cache| >= RESP_CACHE_MAX {
      assert |cache.Keys| == |cache|;
      victims := OldestCanBePicked(cache, EVICTED);
    } else {
      victims := {};
    }
  }

  // ---------------------------------------------------------------------------------------
  // The steps

  /** A call that may be answered at once: a copy younger than its time to live. */
  predicate Fresh(cache: map<Key, Hit>, f: Frame, now: real) {
    f.key in cache && now - cache[f.key].ts < f.ttl
  }

  predicate StandsIn(cache: map<Key, Hit>, f: Frame, now: real) {
    f.key in cache && now - cache[f.key].ts < StaleBound(f.ttl)
  }

  /** The thread is inside a builder: a frame's, or a refresh thread's own. */
  ghost predicate InBuilder(th: Thread) {
    if th.frames == [] then th.role.BgBuilding? else th.Top().pc.Building?
  }

  function BuilderBudget(th: Thread): nat {
    if th.frames != [] then th.Top().budget
    else match th.role case BgBuilding(_, b) => b case _ => 0
  }

  /** A call made from inside a builder, or a new request on a thread that has none. */
  ghost predicate MayCall(th: Thread, budget: nat) {
    (InBuilder(th) && budget < BuilderBudget(th)) || (th.role == Request && th.frames == [])
  }

  /** The lock is free, or the call is nested and will not wait for it. */
  predicate NeedNotWait(g: Shared, building: nat, f: Frame) {
    building > 0 || LockOf(f.key) !in g.locks
  }

  ghost predicate CallEnabled(g: Shared, building: nat, f: Frame, a: Action) {
    match a
    case Look(now) => f.pc == Lookup && f.since <= now <= g.clock
    case AcquireSlot => f.pc.TakeSlot?
    case Claim => f.pc.ClaimKey?
    case Start => f.pc.StartThread?
    case StartFails => f.pc.StartThread?
    case DropSlot => f.pc.ReturnSlot?
    case TakeLock => f.pc == WantLock && NeedNotWait(g, building, f)
    case TimeOut => f.pc == WantLock && building == 0
    case LookAgain(now) => f.pc.Recheck? && f.since <= now <= g.clock
    case BuilderAnswers(_) => f.pc.Building?
    case BuilderRaises => f.pc.Building?
    case Store(now, victims) => f.pc.Storing? && f.since <= now <= g.clock && Evictable(g.cache, victims)
    case Unlock => f.pc.Unlocking?
    case _ => false
  }

  ghost predicate RefreshEnabled(g: Shared, th: Thread, a: Action) {
    match a
    case BgAnswers(_) => th.role.BgBuilding? && th.frames == []
    case BgRaises => th.role.BgBuilding? && th.frames == []
    case BgStore(now, victims) => th.role.BgStoring? && now <= g.clock && Evictable(g.cache, victims)
    case BgRelease => th.role.BgReleasing?
    case BgDiscard => th.role.BgDiscarding?
    case _ => false
  }

  ghost predicate ThreadEnabled(g: Shared, th: Thread, a: Action) {
    || (a.Call? && MayCall(th, a.budget))
    || (a.Return? && th.frames != [] && th.Top().pc.Done?)
    || (th.frames != [] && CallEnabled(g, th.building, th.Top(), a))
    || RefreshEnabled(g, th, a)
  }

  function Insert(g: Shared, key: Key, hit: Hit, victims: set<Key>): Shared {
    g.(cache := AfterStore(g.cache, victims, key, hit), stored := g.stored + {(key, hit)})
  }

  /** What the first critical section of `cached` decides. */
  function DoLook(g: Shared, f: Frame, now: real): Frame {
    if Fresh(g.cache, f, now) then
      f.(pc := Done(Value(g.cache[f.key])))
    else if StandsIn(g.cache, f, now) then
      var h := g.cache[f.key];
      f.(pc := if f.key in g.refreshing then Done(Value(h)) else TakeSlot(h))
    else
      f.(pc := WantLock, lastGood := if f.key in g.cache then Some(g.cache[f.key]) else None)
  }

  /** The last good copy, or an exception when there is none. */
  function Fallback(f: Frame): Answer {
    match f.lastGood case Some(h) => Value(h) case None => Raised
  }

  /** A step of the newest call of a thread, number `me.frame` of thread `me.thread`. */
  ghost function CallMove(g: Shared, me: Owner, building: nat, f: Frame, a: Action): Moved
    requires CallEnabled(g, building, f, a)
  {
    var same := Moved(f, building, g, []);
    match a
    case Look(now) => same.(f := DoLook(g, f, now))
    case AcquireSlot =>
      if g.slots > 0 then same.(f := f.(pc := ClaimKey(f.pc.stale)), g := g.(slots := g.slots - 1))
      else same.(f := f.(pc := Done(Value(f.pc.stale))))
    case Claim =>
      if f.key in g.refreshing then same.(f := f.(pc := ReturnSlot(f.pc.stale)))
      else same.(f := f.(pc := StartThread(f.pc.stale)), g := g.(refreshing := g.refreshing + {f.key}))
    case Start =>
      same.(f := f.(pc := Done(Value(f.pc.stale)), budget := 0),
            started := [Thread(BgBuilding(f.key, f.budget), 0, [])])
    case StartFails =>
      same.(f := f.(pc := Done(Raised)),
            g := g.(leaked := g.leaked + 1, orphaned := g.orphaned + {f.key}))
    case DropSlot =>
      same.(f := f.(pc := Done(Value(f.pc.stale))), g := g.(slots := g.slots + 1))
    case TakeLock =>
      var l := LockOf(f.key);
      same.(f := f.(pc := Recheck(l !in g.locks), depth := building),
            g := if l in g.locks then g else g.(locks := g.locks[l := me]))
    case TimeOut =>
      same.(f := f.(pc := Done(Fallback(f))))
    case LookAgain(now) =>
      if Fresh(g.cache, f, now) then same.(f := f.(pc := Unlocking(f.pc.locked, Value(g.cache[f.key]))))
      else same.(f := f.(pc := Building(f.pc.locked)), building := f.depth + 1)
    case BuilderAnswers(v) =>
      same.(f := f.(pc := Storing(f.pc.locked, v)), g := g.(made := g.made + {(f.key, v)}))
    case BuilderRaises =>
      same.(f := f.(pc := Unlocking(f.pc.locked, Fallback(f))), building := f.depth)
    case Store(now, victims) =>
      var h := Hit(now, f.pc.val);
      same.(f := f.(pc := Unlocking(f.pc.locked, Value(h))), building := f.depth, g := Insert(g, f.key, h, victims))
    case Unlock =>
      same.(f := f.(pc := Done(f.pc.answer)),
            g := if f.pc.locked then g.(locks := g.locks - {LockOf(f.key)}) else g)
    case _ => same
  }

  /** The same, put down in what the call has done. */
  ghost function CallStep(g: Shared, me: Owner, building: nat, f: Frame, a: Action): Moved
    requires CallEnabled(g, building, f, a)
  {
    var m := CallMove(g, me, building, f, a);
    m.(f := m.f.(past := f.past + [Did(a, g)]))
  }

  /** A step of a refresh thread's own code. */
  ghost function RefreshStep(g: Shared, th: Thread, a: Action): Outcome
    requires RefreshEnabled(g, th, a)
  {
    var k := th.role.key;
    match a
    case BgAnswers(v) => Outcome(th.(role := BgStoring(k, v)), g.(made := g.made + {(k, v)}), [])
    case BgRaises => Outcome(th.(role := BgReleasing(k)), g, [])
    case BgStore(now, victims) =>
      Outcome(th.(role := BgReleasing(k)), Insert(g, k, Hit(now, th.role.val), victims), [])
    case BgRelease => Outcome(th.(role := BgDiscarding(k)), g.(slots := g.slots + 1), [])
    case BgDiscard => Outcome(th.(role := BgGone), g.(refreshing := g.refreshing - {k}), [])
    case _ => Outcome(th, g, [])
  }

  /** The builder's thread pays for a nested call out of its budget. */
  function Charge(th: Thread, cost: nat): Thread
    requires cost <= BuilderBudget(th)
  {
    if th.frames != [] then th.WithTop(th.Top().(budget := th.Top().budget - cost))
    else match th.role
      case BgBuilding(k, b) => th.(role := BgBuilding(k, b - cost))
      case _ => th
  }

  function EnterCall(g: Shared, th: Thread, key: Key, ttl: real, budget: nat): Outcome {
    var paid := if budget < BuilderBudget(th) then Charge(th, budget + 1) else th;
    Outcome(paid.(frames := paid.frames + [Frame(key, ttl, budget, g.clock, 0, None, Lookup, [])]), g, [])
  }

  ghost function ThreadStep(g: Shared, t: nat, th: Thread, a: Action): Outcome
    requires ThreadEnabled(g, th, a)
  {
    if th.frames != [] && CallEnabled(g, th.building, th.Top(), a) then
      var m := CallStep(g, Owner(t, |th.frames| - 1), th.building, th.Top(), a);
      Outcome(th.(building := m.building).WithTop(m.f), m.g, m.started)
    else if a.Call? then EnterCall(g, th, a.key, a.ttl, a.budget)
    else if a.Return? then Outcome(th.(frames := th.frames[..|th.frames| - 1]), g, [])
    else RefreshStep(g, th, a)
  }

  ghost predicate Enabled(s: State, t: nat, a: Action) {
    t < |s.threads| && ThreadEnabled(s.g, s.threads[t], a)
  }

  ghost function Next(s: State, t: nat, a: Action): State
    requires Enabled(s, t, a)
  {
    var o := ThreadStep(s.g, t, s.threads[t], a);
    State(s.threads[t := o.th] + o.started, o.g)
  }

  /** One event of a run: a step of a thread, or time passing. */
  datatype Event = Act(thread: nat, action: Action) | Time(now: real)

  ghost predicate Happens(s: State, e: Event) {
    match e
    case Act(t, a) => Enabled(s, t, a)
    case Time(now) => now >= s.g.clock
  }

  ghost function After(s: State, e: Event): State
    requires Happens(s, e)
  {
    match e
    case Act(t, a) => Next(s, t, a)
    case Time(now) => s.(g := s.g.(clock := now))
  }

  ghost predicate Run(s: State, events: seq<Event>)
    decreases |events|
  {
    events == [] || (Happens(s, events[0]) && Run(After(s, events[0]), events[1..]))
  }

  ghost function End(s: State, events: seq<Event>): State
    requires Run(s, events)
    decreases |events|
  {
    if events == [] then s else End(After(s, events[0]), events[1..])
  }

  /** A process that has just started: idle threads, an empty cache, every lock and slot free. */
  ghost predicate Initial(s: State) {
    && (forall t | 0 <= t < |s.threads| :: s.threads[t] == Thread(Request, 0, []))
    && s.g == Shared(map[], map[], BG_SLOTS, {}, s.g.clock, 0, {}, {}, {})
  }

  ghost predicate Reachable(s: State) {
    exists s0, events :: Initial(s0) && Run(s0, events) && End(s0, events) == s
  }
}
