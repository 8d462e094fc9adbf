/**
  What every reachable state of the response cache keeps, and what follows: no deadlock, each
  lock and each refresh slot accounted for, where answers come from, and that all calls return.
 */
module CacheSafety {
  import opened Prelude
  import opened ResponseCache

  // ---------------------------------------------------------------------------------------
  // The invariant

  /** The frame runs its builder, or has its answer in hand and has not left that block yet. */
  predicate CountsAsBuilding(pc: Pc) { pc.Building? || pc.Storing? }

  predicate HoldsLock(f: Frame) {
    match f.pc
    case Recheck(locked) => locked
    case Building(locked) => locked
    case Storing(locked, _) => locked
    case Unlocking(locked, _) => locked
    case _ => false
  }

  predicate PastLock(pc: Pc) { pc.Recheck? || pc.Building? || pc.Storing? || pc.Unlocking? }

  /** How call number `i` of a thread, its newest, stands to the counter of running builders. */
  predicate CallOk(f: Frame, i: int, building: int) {
    && (PastLock(f.pc) ==> f.depth == i && (i == 0 ==> HoldsLock(f)))
    && building == (if CountsAsBuilding(f.pc) then i + 1 else i)
  }

  /** Every call below the newest is inside its builder, and the counter counts the builders. */
  ghost predicate ThreadOk(th: Thread) {
    && (forall i | 0 <= i < |th.frames| - 1 :: th.frames[i].pc.Building? && th.frames[i].depth == i && (i == 0 ==> HoldsLock(th.frames[i])))
    && (if th.frames == [] then th.building == 0 else CallOk(th.Top(), |th.frames| - 1, th.building))
    && (th.role == Request || th.role.BgBuilding? || th.frames == [])
  }

  /** Call number `i` of the thread holds compute lock `l`. */
  predicate Holds(th: Thread, i: nat, l: nat) {
    i < |th.frames| && HoldsLock(th.frames[i]) && LockOf(th.frames[i].key) == l
  }

  ghost predicate LocksMatch(threads: seq<Thread>, locks: map<nat, Owner>) {
    && (forall l | l in locks :: locks[l].thread < |threads| && Holds(threads[locks[l].thread], locks[l].frame, l))
    && (forall t: nat, i: nat, l: nat | t < |threads| && Holds(threads[t], i, l) ::
          l in locks && locks[l] == Owner(t, i))
  }

  ghost predicate LocksOk(s: State) { LocksMatch(s.threads, s.g.locks) }

  function CallSlots(pc: Pc): int { if pc.ClaimKey? || pc.StartThread? || pc.ReturnSlot? then 1 else 0 }

  function RoleSlots(r: Role): int { if r.BgBuilding? || r.BgStoring? || r.BgReleasing? then 1 else 0 }

  /** Slots the thread has taken and not given back. */
  function SlotsHeld(th: Thread): int {
    (if th.frames != [] then CallSlots(th.Top().pc) else 0) + RoleSlots(th.role)
  }

  function CallClaims(f: Frame, k: Key): int { if f.pc.StartThread? && f.key == k then 1 else 0 }

  function RoleClaims(r: Role, k: Key): int {
    if (r.BgBuilding? || r.BgStoring? || r.BgReleasing? || r.BgDiscarding?) && r.key == k then 1 else 0
  }

  /** How often the thread holds a claim on `k` in `_cache_refreshing`. */
  function Claims(th: Thread, k: Key): int {
    (if th.frames != [] then CallClaims(th.Top(), k) else 0) + RoleClaims(th.role, k)
  }

  ghost function ClaimsOn(k: Key): Thread -> int { th => Claims(th, k) }

  ghost predicate SlotsOk(s: State) {
    s.g.slots >= 0 && s.g.slots + Sum(s.threads, SlotsHeld) + s.g.leaked == BG_SLOTS
  }

  function In(k: Key, ks: set<Key>): int { if k in ks then 1 else 0 }

  ghost predicate ClaimsOk(s: State) {
    && s.g.orphaned <= s.g.refreshing
    && forall k: Key ::
         Sum(s.threads, ClaimsOn(k)) + In(k, s.g.orphaned) == In(k, s.g.refreshing)
  }

  /** Step number `i` of the call read the cache, and found this copy. */
  ghost predicate FoundCopy(f: Frame, i: nat, h: Hit) {
    && i < |f.past| && (f.past[i].a.Look? || f.past[i].a.LookAgain?) && f.since <= f.past[i].a.now
    && f.key in f.past[i].g.cache && f.past[i].g.cache[f.key] == h
  }

  /** ... and it was younger than its time to live. */
  ghost predicate FoundFresh(f: Frame, i: nat, h: Hit) {
    FoundCopy(f, i, h) && f.past[i].a.now - h.ts < f.ttl
  }

  /** ... and it was older than that, but not too old to stand in for a rebuild. */
  ghost predicate FoundStale(f: Frame, i: nat, h: Hit) {
    FoundCopy(f, i, h) && f.past[i].a.Look? && f.ttl <= f.past[i].a.now - h.ts < StaleBound(f.ttl)
  }

  /** The step found every slot taken, or the key claimed by another thread, or started a refresh of it. */
  ghost predicate SeesTo(f: Frame, d: Did) {
    || (d.a.AcquireSlot? && d.g.slots <= 0)
    || (d.a.Claim? && f.key in d.g.refreshing)
    || d.a.Start?
  }

  ghost predicate SeenTo(f: Frame) { exists i: nat :: i < |f.past| && SeesTo(f, f.past[i]) }

  ghost predicate ReadFresh(f: Frame, h: Hit) { exists i: nat :: FoundFresh(f, i, h) }

  ghost predicate ReadStale(f: Frame, h: Hit) { exists i: nat :: FoundStale(f, i, h) }

  /** A stale copy, while a refresh of the key was under way, or with one started, or with no slot to start one. */
  ghost predicate ServedStale(f: Frame, h: Hit) {
    || (exists i: nat :: FoundStale(f, i, h) && f.key in f.past[i].g.refreshing)
    || (ReadStale(f, h) && SeenTo(f))
  }

  ghost predicate WasBuilt(f: Frame, v: Payload) { exists i: nat :: i < |f.past| && f.past[i].a == BuilderAnswers(v) }

  ghost predicate WasStored(f: Frame, ts: real) {
    exists i: nat :: i < |f.past| && f.past[i].a.Store? && f.past[i].a.now == ts && f.since <= ts
  }

  /** This call built the payload and stored it. */
  ghost predicate BuiltIt(f: Frame, h: Hit) { WasBuilt(f, h.val) && WasStored(f, h.ts) }

  ghost predicate Failed(f: Frame) {
    exists i: nat :: i < |f.past| && (f.past[i].a.BuilderRaises? || f.past[i].a.TimeOut?)
  }

  ghost predicate FailedToStart(f: Frame) { exists i: nat :: i < |f.past| && f.past[i].a.StartFails? }

  /** The copy its first look found, too old to stand in for a rebuild. */
  ghost predicate ReadOld(f: Frame, h: Hit) {
    exists i: nat :: FoundCopy(f, i, h) && f.past[i].a.Look? && f.past[i].a.now - h.ts >= StaleBound(f.ttl)
  }

  /** Its first look found nothing. */
  ghost predicate ReadNone(f: Frame) {
    exists i: nat :: i < |f.past| && f.past[i].a.Look? && f.key !in f.past[i].g.cache
  }

  /**
    What a call may answer: a fresh copy; a stale one being refreshed; what it built itself; or,
    only when its builder raised or its wait timed out, the copy it found to begin with. It raises
    only when there was no such copy, or when a refresh could not be started.
   */
  ghost predicate AnswerOk(g: Shared, f: Frame, ans: Answer) {
    match ans
    case Value(h) =>
      && (f.key, h) in g.stored
      && (ReadFresh(f, h) || ServedStale(f, h) || BuiltIt(f, h) || (Failed(f) && ReadOld(f, h)))
    case Raised => FailedToStart(f) || (Failed(f) && ReadNone(f))
  }

  /** What the call has in hand so far. */
  ghost predicate HandOk(g: Shared, f: Frame, pc: Pc) {
    match pc
    case TakeSlot(h) => (f.key, h) in g.stored && ReadStale(f, h)
    case ClaimKey(h) => (f.key, h) in g.stored && ReadStale(f, h)
    case StartThread(h) => (f.key, h) in g.stored && ReadStale(f, h)
    case ReturnSlot(h) => (f.key, h) in g.stored && ReadStale(f, h) && SeenTo(f)
    case Storing(_, v) => (f.key, v) in g.made && WasBuilt(f, v)
    case Unlocking(_, ans) => AnswerOk(g, f, ans)
    case Done(ans) => AnswerOk(g, f, ans)
    case _ => true
  }

  /** What its fallback is. */
  ghost predicate FallbackOk(g: Shared, f: Frame) {
    match f.lastGood
    case Some(h) => (f.key, h) in g.stored && ReadOld(f, h)
    case None => f.pc == WantLock || PastLock(f.pc) ==> ReadNone(f)
  }

  ghost predicate FrameOk(g: Shared, f: Frame) {
    f.since <= g.clock && HandOk(g, f, f.pc) && FallbackOk(g, f)
  }

  ghost predicate AnswersOk(g: Shared, th: Thread) {
    && (forall i | 0 <= i < |th.frames| :: FrameOk(g, th.frames[i]))
    && (th.role.BgStoring? ==> (th.role.key, th.role.val) in g.made)
  }

  ghost predicate SharedOk(g: Shared) {
    && |g.cache| <= RESP_CACHE_MAX
    && (forall k | k in g.cache :: (k, g.cache[k]) in g.stored)
    && (forall e | e in g.stored :: e.1.ts <= g.clock && (e.0, e.1.val) in g.made)
  }

  ghost predicate HistoryOk(s: State) {
    SharedOk(s.g) && forall t | 0 <= t < |s.threads| :: AnswersOk(s.g, s.threads[t])
  }

  ghost predicate ThreadsOk(s: State) {
    forall t | 0 <= t < |s.threads| :: ThreadOk(s.threads[t])
  }

  ghost predicate Inv(s: State) {
    ThreadsOk(s) && LocksOk(s) && SlotsOk(s) && ClaimsOk(s) && HistoryOk(s)
  }

  // ---------------------------------------------------------------------------------------
  // Every step keeps it


  /** A step of one call keeps the counter of running builders right. */
  lemma CounterSteps(g: Shared, me: Owner, building: nat, f: Frame, a: Action)
    requires CallEnabled(g, building, f, a) && CallOk(f, me.frame, building)
    ensures var m := CallStep(g, me, building, f, a);
      && CallOk(m.f, me.frame, m.building)
      && |m.started| <= 1 && forall x <- m.started :: ThreadOk(x) && x.frames == []
  {
  }

  lemma ThreadStays(g: Shared, t: nat, th: Thread, a: Action)
    requires ThreadOk(th) && ThreadEnabled(g, th, a)
    ensures ThreadOk(ThreadStep(g, t, th, a).th)
    ensures forall x <- ThreadStep(g, t, th, a).started :: ThreadOk(x) && x.frames == []
  {
    hide ThreadStep, ThreadOk, CallEnabled, RefreshEnabled;
    if th.frames != [] && CallEnabled(g, th.building, th.Top(), a) {
      CallStays(g, t, th, a);
    } else {
      OtherStepsKeepThreads(g, t, th, a);
    }
  }

  lemma CallStays(g: Shared, t: nat, th: Thread, a: Action)
    requires ThreadOk(th) && th.frames != [] && CallEnabled(g, th.building, th.Top(), a)
    ensures ThreadOk(ThreadStep(g, t, th, a).th)
    ensures forall x <- ThreadStep(g, t, th, a).started :: ThreadOk(x) && x.frames == []
  {
    hide CallStep, CallEnabled, CallOk, RefreshEnabled, RefreshStep, EnterCall, MayCall;
    assert CallOk(th.Top(), |th.frames| - 1, th.building);
    CounterSteps(g, Owner(t, |th.frames| - 1), th.building, th.Top(), a);
    var m := CallStep(g, Owner(t, |th.frames| - 1), th.building, th.Top(), a);
    TopStays(th, m.building, m.f);
    hide ThreadOk;
  }

  lemma TopStays(th: Thread, b: nat, f: Frame)
    requires ThreadOk(th) && th.frames != [] && CallOk(f, |th.frames| - 1, b)
    ensures ThreadOk(th.(building := b).WithTop(f))
  {
    hide HoldsLock, CallOk;
  }

  lemma OtherStepsKeepThreads(g: Shared, t: nat, th: Thread, a: Action)
    requires ThreadOk(th) && ThreadEnabled(g, th, a)
    requires th.frames != [] ==> !CallEnabled(g, th.building, th.Top(), a)
    ensures ThreadOk(ThreadStep(g, t, th, a).th) && ThreadStep(g, t, th, a).started == []
  {
    hide CallStep;
  }

  /** A step of one call takes a lock only when it is free, and gives back only one it took. */
  lemma LockSteps(g: Shared, me: Owner, building: nat, f: Frame, a: Action)
    requires CallEnabled(g, building, f, a)
    ensures var m := CallStep(g, me, building, f, a);
      && m.f.key == f.key
      && (if a.TakeLock? && LockOf(f.key) !in g.locks then
            !HoldsLock(f) && HoldsLock(m.f) && m.g.locks == g.locks[LockOf(f.key) := me]
          else if a.Unlock? && HoldsLock(f) then
            !HoldsLock(m.f) && m.g.locks == g.locks - {LockOf(f.key)}
          else
            HoldsLock(m.f) == HoldsLock(f) && m.g.locks == g.locks)
  {
  }

  /** The compute lock of the thread's newest call. */
  function TopLock(th: Thread): nat { if th.frames != [] then LockOf(th.Top().key) else 0 }

  ghost predicate Keeps(th: Thread, th': Thread) {
    forall i: nat, l: nat :: Holds(th', i, l) <==> Holds(th, i, l)
  }

  ghost predicate Takes(th: Thread, th': Thread) {
    forall i: nat, l: nat :: Holds(th', i, l) <==> Holds(th, i, l) || (i == |th.frames| - 1 && l == TopLock(th))
  }

  ghost predicate Gives(th: Thread, th': Thread) {
    forall i: nat, l: nat :: Holds(th', i, l) <==> Holds(th, i, l) && i != |th.frames| - 1
  }

  /** Thread number `t` takes a free lock, gives back the one its newest call holds, or neither. */
  ghost predicate LockMove(t: nat, th: Thread, th': Thread, locks: map<nat, Owner>, locks': map<nat, Owner>) {
    var n := TopLock(th);
    || (locks' == locks && Keeps(th, th'))
    || (th.frames != [] && n !in locks && locks' == locks[n := Owner(t, |th.frames| - 1)] && Takes(th, th'))
    || (th.frames != [] && Holds(th, |th.frames| - 1, n) && locks' == locks - {n} && Gives(th, th'))
  }

  lemma TopLocks(th: Thread, b: nat, f: Frame)
    requires th.frames != [] && f.key == th.Top().key
    ensures var th' := th.(building := b).WithTop(f);
      && (HoldsLock(f) == HoldsLock(th.Top()) ==> Keeps(th, th'))
      && (HoldsLock(f) && !HoldsLock(th.Top()) ==> Takes(th, th'))
      && (!HoldsLock(f) && HoldsLock(th.Top()) ==> Gives(th, th'))
  {
  }

  lemma ThreadLocks(g: Shared, t: nat, th: Thread, a: Action)
    requires ThreadOk(th) && ThreadEnabled(g, th, a)
    ensures LockMove(t, th, ThreadStep(g, t, th, a).th, g.locks, ThreadStep(g, t, th, a).g.locks)
  {
    hide Keeps, Takes, Gives, HoldsLock, ThreadOk;
    if th.frames != [] && CallEnabled(g, th.building, th.Top(), a) {
      var me := Owner(t, |th.frames| - 1);
      LockSteps(g, me, th.building, th.Top(), a);
      var m := CallStep(g, me, th.building, th.Top(), a);
      TopLocks(th, m.building, m.f);
      hide CallStep, CallEnabled;
    } else {
      OtherStepsKeepLocks(g, t, th, a);
    }
  }

  lemma OtherStepsKeepLocks(g: Shared, t: nat, th: Thread, a: Action)
    requires ThreadOk(th) && ThreadEnabled(g, th, a)
    requires th.frames != [] ==> !CallEnabled(g, th.building, th.Top(), a)
    ensures ThreadStep(g, t, th, a).g.locks == g.locks && Keeps(th, ThreadStep(g, t, th, a).th)
  {
    hide CallStep;
  }

  lemma KeepsMatch(threads: seq<Thread>, t: nat, th': Thread, locks: map<nat, Owner>)
    requires LocksMatch(threads, locks) && t < |threads| && Keeps(threads[t], th')
    ensures LocksMatch(threads[t := th'], locks)
  {
    hide Holds;
  }

  lemma TakesMatch(threads: seq<Thread>, t: nat, th': Thread, locks: map<nat, Owner>)
    requires LocksMatch(threads, locks) && t < |threads| && threads[t].frames != [] && Takes(threads[t], th')
    requires TopLock(threads[t]) !in locks
    ensures LocksMatch(threads[t := th'], locks[TopLock(threads[t]) := Owner(t, |threads[t].frames| - 1)])
  {
    hide Holds, TopLock;
  }

  lemma GivesMatch(threads: seq<Thread>, t: nat, th': Thread, locks: map<nat, Owner>)
    requires LocksMatch(threads, locks) && t < |threads| && threads[t].frames != [] && Gives(threads[t], th')
    requires Holds(threads[t], |threads[t].frames| - 1, TopLock(threads[t]))
    ensures LocksMatch(threads[t := th'], locks - {TopLock(threads[t])})
  {
    hide TopLock;
  }

  lemma NewThreadsHoldNothing(threads: seq<Thread>, started: seq<Thread>, locks: map<nat, Owner>)
    requires LocksMatch(threads, locks) && forall x <- started :: x.frames == []
    ensures LocksMatch(threads + started, locks)
  {
  }

  lemma LockMoveKeepsMatch(
      threads: seq<Thread>, t: nat, th': Thread, started: seq<Thread>, locks: map<nat, Owner>, locks': map<nat, Owner>)
    requires LocksMatch(threads, locks) && t < |threads|
    requires LockMove(t, threads[t], th', locks, locks')
    requires forall x <- started :: x.frames == []
    ensures LocksMatch(threads[t := th'] + started, locks')
  {
    hide Keeps, Takes, Gives, LocksMatch, TopLock, Holds;
    if locks' == locks && Keeps(threads[t], th') {
      KeepsMatch(threads, t, th', locks);
    } else if threads[t].frames != [] && TopLock(threads[t]) !in locks
        && locks' == locks[TopLock(threads[t]) := Owner(t, |threads[t].frames| - 1)] && Takes(threads[t], th') {
      TakesMatch(threads, t, th', locks);
    } else {
      GivesMatch(threads, t, th', locks);
    }
    NewThreadsHoldNothing(threads[t := th'], started, locks');
  }

  lemma LocksStay(s: State, t: nat, a: Action)
    requires ThreadsOk(s) && LocksOk(s) && Enabled(s, t, a)
    ensures LocksOk(Next(s, t, a))
  {
    hide ThreadStep, LockMove, LocksMatch, ThreadEnabled, ThreadOk;
    ThreadStays(s.g, t, s.threads[t], a);
    ThreadLocks(s.g, t, s.threads[t], a);
    var o := ThreadStep(s.g, t, s.threads[t], a);
    LockMoveKeepsMatch(s.threads, t, o.th, o.started, s.g.locks, o.g.locks);
  }

  /**
    A refresh slot moves between the pool and the call or thread that holds it. Only a start that
    fails loses one.
   */
  lemma SlotSteps(g: Shared, me: Owner, building: nat, f: Frame, a: Action)
    requires CallEnabled(g, building, f, a) && g.slots >= 0
    ensures var m := CallStep(g, me, building, f, a);
      && m.g.slots >= 0
      && |m.started| <= 1
      && m.g.slots + CallSlots(m.f.pc) + Sum(m.started, SlotsHeld) == g.slots + CallSlots(f.pc) - (if a.StartFails? then 1 else 0)
      && m.g.leaked == g.leaked + (if a.StartFails? then 1 else 0)
  {
  }

  lemma ThreadSlots(g: Shared, t: nat, th: Thread, a: Action)
    requires ThreadOk(th) && ThreadEnabled(g, th, a) && g.slots >= 0
    ensures var o := ThreadStep(g, t, th, a);
      && o.g.slots >= 0
      && |o.started| <= 1
      && o.g.slots + SlotsHeld(o.th) + Sum(o.started, SlotsHeld) == g.slots + SlotsHeld(th) - (if a.StartFails? then 1 else 0)
      && o.g.leaked == g.leaked + (if a.StartFails? then 1 else 0)
  {
    if th.frames != [] && CallEnabled(g, th.building, th.Top(), a) {
      SlotSteps(g, Owner(t, |th.frames| - 1), th.building, th.Top(), a);
      hide CallStep, CallEnabled, CallSlots, RoleSlots, ThreadOk;
    } else {
      OtherStepsSlots(g, t, th, a);
      hide ThreadStep, SlotsHeld, ThreadOk;
    }
  }

  lemma OtherStepsSlots(g: Shared, t: nat, th: Thread, a: Action)
    requires ThreadOk(th) && ThreadEnabled(g, th, a)
    requires th.frames != [] ==> !CallEnabled(g, th.building, th.Top(), a)
    ensures var o := ThreadStep(g, t, th, a);
      && o.started == [] && !a.StartFails? && o.g.slots >= g.slots && o.g.leaked == g.leaked && o.g.orphaned == g.orphaned
      && o.g.slots + SlotsHeld(o.th) == g.slots + SlotsHeld(th)
  {
    hide CallStep, Evictable, AfterStore;
  }

  /** The calls and refresh threads that have claimed a key own that claim alone. */
  ghost predicate OwnClaims(g: Shared, th: Thread) {
    forall k: Key :: Claims(th, k) > 0 ==> k in g.refreshing && k !in g.orphaned
  }

  /** What one step of a call does to the claims on `k`. */
  ghost predicate CallBalance(g: Shared, f: Frame, m: Moved, k: Key) {
    && |m.started| <= 1
    && CallClaims(m.f, k) + Sum(m.started, ClaimsOn(k)) + In(k, m.g.orphaned) - In(k, m.g.refreshing)
       == CallClaims(f, k) + In(k, g.orphaned) - In(k, g.refreshing)
    && ((k in g.orphaned || CallClaims(f, k) > 0 ==> k in g.refreshing) ==>
        (k in m.g.orphaned ==> k in m.g.refreshing))
  }

  /** The steps that claim a key, hand the claim to a thread, or lose it. */
  lemma RefreshCallSteps(g: Shared, me: Owner, building: nat, f: Frame, a: Action, k: Key)
    requires CallEnabled(g, building, f, a) && (CallClaims(f, f.key) > 0 ==> f.key !in g.orphaned)
    requires a.Claim? || a.Start? || a.StartFails?
    ensures CallBalance(g, f, CallStep(g, me, building, f, a), k)
    ensures k in CallStep(g, me, building, f, a).g.orphaned <==> k in g.orphaned || (a.StartFails? && k == f.key)
  {
  }

  lemma OtherCallSteps(g: Shared, me: Owner, building: nat, f: Frame, a: Action, k: Key)
    requires CallEnabled(g, building, f, a)
    requires !(a.Claim? || a.Start? || a.StartFails?)
    ensures var m := CallStep(g, me, building, f, a);
      m.started == [] && !m.f.pc.StartThread? && !f.pc.StartThread?
      && m.g.orphaned == g.orphaned && m.g.refreshing == g.refreshing
  {
    hide AfterStore, Evictable;
  }

  /** A claim is made, handed to the refresh thread or, only when its start fails, left behind for good. */
  lemma ClaimSteps(g: Shared, me: Owner, building: nat, f: Frame, a: Action, k: Key)
    requires CallEnabled(g, building, f, a) && (CallClaims(f, f.key) > 0 ==> f.key !in g.orphaned)
    ensures CallBalance(g, f, CallStep(g, me, building, f, a), k)
    ensures k in CallStep(g, me, building, f, a).g.orphaned <==> k in g.orphaned || (a.StartFails? && k == f.key)
  {
    if a.Claim? || a.Start? || a.StartFails? {
      RefreshCallSteps(g, me, building, f, a, k);
    } else {
      OtherCallSteps(g, me, building, f, a, k);
      hide CallStep, CallEnabled;
    }
  }

  ghost predicate ClaimsBalance(g: Shared, th: Thread, o: Outcome, k: Key) {
    && Claims(o.th, k) + Sum(o.started, ClaimsOn(k)) + In(k, o.g.orphaned) - In(k, o.g.refreshing)
       == Claims(th, k) + In(k, g.orphaned) - In(k, g.refreshing)
    && |o.started| <= 1
    && (k in o.g.orphaned ==> k in o.g.refreshing)
  }

  lemma OtherStepsClaim(g: Shared, t: nat, th: Thread, a: Action, k: Key)
    requires ThreadOk(th) && ThreadEnabled(g, th, a) && OwnClaims(g, th) && g.orphaned <= g.refreshing
    requires th.frames != [] ==> !CallEnabled(g, th.building, th.Top(), a)
    ensures ClaimsBalance(g, th, ThreadStep(g, t, th, a), k)
  {
    hide CallStep;
    if a == BgDiscard {
      assert Claims(th, th.role.key) > 0;
    }
  }

  lemma CallsClaim(g: Shared, me: Owner, th: Thread, a: Action, k: Key)
    requires th.frames != [] && CallEnabled(g, th.building, th.Top(), a)
    requires OwnClaims(g, th) && g.orphaned <= g.refreshing
    ensures var m := CallStep(g, me, th.building, th.Top(), a);
      ClaimsBalance(g, th, Outcome(th.(building := m.building).WithTop(m.f), m.g, m.started), k)
  {
    assert Claims(th, th.Top().key) >= CallClaims(th.Top(), th.Top().key);
    assert Claims(th, k) >= CallClaims(th.Top(), k);
    ClaimSteps(g, me, th.building, th.Top(), a, k);
    hide CallStep, CallEnabled, RoleClaims, CallClaims;
  }

  lemma ThreadClaims(g: Shared, t: nat, th: Thread, a: Action, k: Key)
    requires ThreadOk(th) && ThreadEnabled(g, th, a) && OwnClaims(g, th) && g.orphaned <= g.refreshing
    ensures ClaimsBalance(g, th, ThreadStep(g, t, th, a), k)
  {
    hide ThreadOk, ClaimsBalance, OwnClaims, CallStep, CallEnabled, RefreshStep, EnterCall;
    if th.frames != [] && CallEnabled(g, th.building, th.Top(), a) {
      CallsClaim(g, Owner(t, |th.frames| - 1), th, a, k);
    } else {
      OtherStepsClaim(g, t, th, a, k);
    }
  }

  lemma CallOrphans(g: Shared, me: Owner, building: nat, f: Frame, a: Action)
    requires CallEnabled(g, building, f, a)
    ensures CallStep(g, me, building, f, a).g.orphaned == g.orphaned + (if a.StartFails? then {f.key} else {})
  {
    hide Evictable, AfterStore, DoLook;
  }

  /** Only a start that fails orphans a key. */
  lemma ThreadOrphans(g: Shared, t: nat, th: Thread, a: Action)
    requires ThreadOk(th) && ThreadEnabled(g, th, a)
    ensures ThreadStep(g, t, th, a).g.orphaned == g.orphaned + (if a.StartFails? then {th.Top().key} else {})
  {
    if th.frames != [] && CallEnabled(g, th.building, th.Top(), a) {
      CallOrphans(g, Owner(t, |th.frames| - 1), th.building, th.Top(), a);
      hide CallStep, CallEnabled, ThreadOk;
    } else {
      OtherStepsSlots(g, t, th, a);
      hide ThreadStep, ThreadOk, SlotsHeld;
    }
  }

  /** A sum over the threads changes by what one thread's step changes. */
  lemma SumNext(threads: seq<Thread>, t: nat, th': Thread, started: seq<Thread>, f: Thread -> int)
    requires t < |threads| && |started| <= 1
    ensures Sum(threads[t := th'] + started, f) == Sum(threads, f) - f(threads[t]) + f(th') + Sum(started, f)
  {
    SumUpdate(threads, t, th', f);
    if started != [] {
      assert started == [started[0]];
      SumAppend(threads[t := th'], started[0], f);
    } else {
      assert threads[t := th'] + started == threads[t := th'];
    }
  }

  lemma SlotsStay(s: State, t: nat, a: Action)
    requires ThreadsOk(s) && SlotsOk(s) && Enabled(s, t, a)
    ensures SlotsOk(Next(s, t, a))
  {
    hide ThreadStep, ThreadOk;
    ThreadSlots(s.g, t, s.threads[t], a);
    var o := ThreadStep(s.g, t, s.threads[t], a);
    SumNext(s.threads, t, o.th, o.started, SlotsHeld);
  }

  lemma ClaimsAreOwn(s: State, t: nat)
    requires ClaimsOk(s) && t < |s.threads|
    ensures OwnClaims(s.g, s.threads[t])
  {
    forall k: Key | Claims(s.threads[t], k) > 0
      ensures k in s.g.refreshing && k !in s.g.orphaned
    {
      SumAtLeastOne(s.threads, t, ClaimsOn(k));
    }
  }

  lemma ClaimsStay(s: State, t: nat, a: Action)
    requires ThreadsOk(s) && ClaimsOk(s) && Enabled(s, t, a)
    ensures ClaimsOk(Next(s, t, a))
    ensures Next(s, t, a).g.orphaned == s.g.orphaned + (if a.StartFails? then {s.threads[t].Top().key} else {})
  {
    ThreadOrphans(s.g, t, s.threads[t], a);
    hide ThreadStep, ThreadOk;
    ClaimsAreOwn(s, t);
    var o := ThreadStep(s.g, t, s.threads[t], a);
    forall k: Key
      ensures Sum(Next(s, t, a).threads, ClaimsOn(k)) + In(k, o.g.orphaned) == In(k, o.g.refreshing)
      ensures k in o.g.orphaned ==> k in o.g.refreshing
    {
      ThreadClaims(s.g, t, s.threads[t], a, k);
      SumNext(s.threads, t, o.th, o.started, ClaimsOn(k));
    }
  }

  /** Nothing is ever taken out of the history. */
  predicate Grows(g: Shared, g': Shared) {
    g.stored <= g'.stored && g.made <= g'.made && g.clock <= g'.clock
  }

  lemma InsertKeepsShared(g: Shared, key: Key, hit: Hit, victims: set<Key>)
    requires SharedOk(g) && Evictable(g.cache, victims) && hit.ts <= g.clock && (key, hit.val) in g.made
    ensures SharedOk(Insert(g, key, hit, victims)) && Grows(g, Insert(g, key, hit, victims))
  {
    StoreKeepsTheLimit(g.cache, victims, key, hit);
  }

  lemma SharedSteps(g: Shared, me: Owner, building: nat, f: Frame, a: Action)
    requires SharedOk(g) && FrameOk(g, f) && CallEnabled(g, building, f, a)
    ensures SharedOk(CallStep(g, me, building, f, a).g) && Grows(g, CallStep(g, me, building, f, a).g)
  {
    if a.Store? {
      InsertKeepsShared(g, f.key, Hit(a.now, f.pc.val), a.victims);
      hide FallbackOk, AnswerOk, ReadStale, SeenTo, WasBuilt, Evictable, AfterStore, DoLook, Insert, SharedOk, Grows;
    } else {
      OtherCallsShared(g, me, building, f, a);
      hide *;
    }
  }

  lemma OtherCallsShared(g: Shared, me: Owner, building: nat, f: Frame, a: Action)
    requires SharedOk(g) && CallEnabled(g, building, f, a) && !a.Store?
    ensures SharedOk(CallStep(g, me, building, f, a).g) && Grows(g, CallStep(g, me, building, f, a).g)
  {
    hide Evictable, DoLook, Insert;
  }

  /** The same call, having done more. */
  ghost predicate HasDoneMore(f: Frame, f': Frame) {
    && f'.key == f.key && f'.ttl == f.ttl && f'.since == f.since
    && |f.past| <= |f'.past| && forall i | 0 <= i < |f.past| :: f'.past[i] == f.past[i]
  }

  lemma ReadsKept(f: Frame, f': Frame, h: Hit)
    requires HasDoneMore(f, f')
    ensures ReadFresh(f, h) ==> ReadFresh(f', h)
    ensures ReadStale(f, h) ==> ReadStale(f', h)
    ensures ReadOld(f, h) ==> ReadOld(f', h)
    ensures ReadNone(f) ==> ReadNone(f')
    ensures ServedStale(f, h) ==> ServedStale(f', h)
  {
    forall i: nat | FoundCopy(f, i, h) ensures FoundCopy(f', i, h) {}
    forall i: nat | FoundFresh(f, i, h) ensures FoundFresh(f', i, h) {}
    forall i: nat | FoundStale(f, i, h) ensures FoundStale(f', i, h) {}
    DeedsKept(f, f', h);
    if ReadOld(f, h) {
      var i: nat :| FoundCopy(f, i, h) && f.past[i].a.Look? && f.past[i].a.now - h.ts >= StaleBound(f.ttl);
      assert FoundCopy(f', i, h) && f'.past[i].a.Look?;
    }
    if ReadNone(f) {
      var i: nat :| i < |f.past| && f.past[i].a.Look? && f.key !in f.past[i].g.cache;
      assert f'.past[i].a.Look?;
    }
    hide SeenTo, FoundStale, FoundFresh, FoundCopy;
  }

  lemma DeedsKept(f: Frame, f': Frame, h: Hit)
    requires HasDoneMore(f, f')
    ensures SeenTo(f) ==> SeenTo(f')
    ensures BuiltIt(f, h) ==> BuiltIt(f', h)
    ensures WasBuilt(f, h.val) ==> WasBuilt(f', h.val)
    ensures Failed(f) ==> Failed(f')
    ensures FailedToStart(f) ==> FailedToStart(f')
  {
    BuildsKept(f, f', h);
    FailuresKept(f, f');
    hide WasBuilt, WasStored, Failed, FailedToStart;
    if SeenTo(f) {
      var i: nat :| i < |f.past| && SeesTo(f, f.past[i]);
      assert SeesTo(f', f'.past[i]);
    }
  }

  lemma BuildsKept(f: Frame, f': Frame, h: Hit)
    requires HasDoneMore(f, f')
    ensures WasBuilt(f, h.val) ==> WasBuilt(f', h.val)
    ensures WasStored(f, h.ts) ==> WasStored(f', h.ts)
  {
    if WasBuilt(f, h.val) {
      var i: nat :| i < |f.past| && f.past[i].a == BuilderAnswers(h.val);
      assert f'.past[i].a == BuilderAnswers(h.val);
    }
    if WasStored(f, h.ts) {
      var i: nat :| i < |f.past| && f.past[i].a.Store? && f.past[i].a.now == h.ts && f.since <= h.ts;
      assert f'.past[i].a.Store?;
    }
  }

  lemma FailuresKept(f: Frame, f': Frame)
    requires HasDoneMore(f, f')
    ensures Failed(f) ==> Failed(f')
    ensures FailedToStart(f) ==> FailedToStart(f')
  {
    forall i | 0 <= i < |f.past| ensures f'.past[i].a == f.past[i].a {}
    if Failed(f) {
      var i: nat :| i < |f.past| && (f.past[i].a.BuilderRaises? || f.past[i].a.TimeOut?);
      assert f'.past[i].a == f.past[i].a;
    }
    if FailedToStart(f) {
      var i: nat :| i < |f.past| && f.past[i].a.StartFails?;
      assert f'.past[i].a.StartFails?;
    }
  }

  lemma AnswerKept(g: Shared, g': Shared, f: Frame, f': Frame, ans: Answer)
    requires AnswerOk(g, f, ans) && HasDoneMore(f, f') && g.stored <= g'.stored
    ensures AnswerOk(g', f', ans)
  {
    var h := match ans case Value(h) => h case Raised => Hit(0.0, 0);
    ReadsKept(f, f', h);
    DeedsKept(f, f', h);
    hide HasDoneMore, ReadFresh, ServedStale, BuiltIt, Failed, FailedToStart, ReadOld, ReadNone;
  }

  lemma FallbackKept(g: Shared, g': Shared, f: Frame, f': Frame)
    requires FallbackOk(g, f) && HasDoneMore(f, f') && g.stored <= g'.stored && f'.lastGood == f.lastGood
    requires f'.pc == WantLock || PastLock(f'.pc) ==> f.pc == WantLock || PastLock(f.pc)
    ensures FallbackOk(g', f')
  {
    var h := match f.lastGood case Some(h) => h case None => Hit(0.0, 0);
    ReadsKept(f, f', h);
    hide HasDoneMore, ReadOld, ReadNone;
  }

  /** The first look at the cache. */
  lemma LookSteps(g: Shared, me: Owner, building: nat, f: Frame, a: Action)
    requires SharedOk(g) && FrameOk(g, f) && CallEnabled(g, building, f, a) && a.Look?
    ensures var m := CallStep(g, me, building, f, a);
      FrameOk(m.g, m.f) && m.started == []
  {
    var f' := CallStep(g, me, building, f, a).f;
    var n := |f.past|;
    assert f'.past[n] == Did(a, g);
    if f.key in g.cache {
      var h := g.cache[f.key];
      assert FoundCopy(f', n, h);
      assert Fresh(g.cache, f, a.now) ==> FoundFresh(f', n, h);
      assert !Fresh(g.cache, f, a.now) && StandsIn(g.cache, f, a.now) ==> FoundStale(f', n, h);
      if f.lastGood.Some? {
        ReadsKept(f, f', f.lastGood.value);
      }
    } else {
      assert ReadNone(f');
    }
    hide FoundCopy, FoundFresh, FoundStale;
  }

  /** The second, with the compute lock or without it. */
  lemma LookAgainSteps(g: Shared, me: Owner, building: nat, f: Frame, a: Action)
    requires SharedOk(g) && FrameOk(g, f) && CallEnabled(g, building, f, a) && a.LookAgain?
    ensures var m := CallStep(g, me, building, f, a);
      FrameOk(m.g, m.f) && m.started == []
  {
    var f' := CallStep(g, me, building, f, a).f;
    var n := |f.past|;
    assert f'.past[n] == Did(a, g);
    assert Fresh(g.cache, f, a.now) ==> FoundFresh(f', n, g.cache[f.key]);
    FallbackKept(g, g, f, f');
    hide FoundCopy, FoundFresh, FallbackOk;
  }

  /** The steps of starting a refresh, each with the stale copy in hand. */
  lemma RefreshingSteps(g: Shared, me: Owner, building: nat, f: Frame, a: Action)
    requires FrameOk(g, f) && CallEnabled(g, building, f, a)
    requires a.AcquireSlot? || a.Claim? || a.DropSlot?
    ensures var m := CallStep(g, me, building, f, a);
      FrameOk(m.g, m.f) && m.started == []
  {
    var m := CallStep(g, me, building, f, a);
    assert m.f.past[|f.past|] == Did(a, g);
    assert SeesTo(f, Did(a, g)) ==> SeesTo(m.f, m.f.past[|f.past|]) && SeenTo(m.f);
    ReadsKept(f, m.f, f.pc.stale);
    DeedsKept(f, m.f, f.pc.stale);
    FallbackKept(g, m.g, f, m.f);
    hide *;
    MoveOfRefresh(g, me, building, f, a);
  }

  lemma MoveOfRefresh(g: Shared, me: Owner, building: nat, f: Frame, a: Action)
    requires FrameOk(g, f) && CallEnabled(g, building, f, a)
    requires a.AcquireSlot? || a.Claim? || a.DropSlot?
    requires var m := CallStep(g, me, building, f, a);
      && (SeesTo(f, Did(a, g)) ==> SeenTo(m.f)) && FallbackOk(m.g, m.f)
      && (ReadStale(f, f.pc.stale) ==> ReadStale(m.f, f.pc.stale)) && (SeenTo(f) ==> SeenTo(m.f))
    ensures var m := CallStep(g, me, building, f, a);
      FrameOk(m.g, m.f) && m.started == []
  {
    hide ReadStale, SeenTo, FallbackOk;
  }

  lemma StartingSteps(g: Shared, me: Owner, building: nat, f: Frame, a: Action)
    requires FrameOk(g, f) && CallEnabled(g, building, f, a)
    requires a.Start? || a.StartFails?
    ensures var m := CallStep(g, me, building, f, a);
      FrameOk(m.g, m.f) && forall x <- m.started :: AnswersOk(m.g, x)
  {
    var m := CallStep(g, me, building, f, a);
    assert m.f.past[|f.past|] == Did(a, g);
    assert a.StartFails? ==> FailedToStart(m.f);
    assert a.Start? ==> SeesTo(m.f, m.f.past[|f.past|]) && SeenTo(m.f);
    ReadsKept(f, m.f, f.pc.stale);
    DeedsKept(f, m.f, f.pc.stale);
    FallbackKept(g, m.g, f, m.f);
    hide *;
    MoveOfStart(g, me, building, f, a);
  }

  lemma MoveOfStart(g: Shared, me: Owner, building: nat, f: Frame, a: Action)
    requires FrameOk(g, f) && CallEnabled(g, building, f, a)
    requires a.Start? || a.StartFails?
    requires var m := CallStep(g, me, building, f, a);
      && (a.StartFails? ==> FailedToStart(m.f)) && (a.Start? ==> SeenTo(m.f)) && FallbackOk(m.g, m.f)
      && (ReadStale(f, f.pc.stale) ==> ReadStale(m.f, f.pc.stale)) && (SeenTo(f) ==> SeenTo(m.f))
    ensures var m := CallStep(g, me, building, f, a);
      FrameOk(m.g, m.f) && forall x <- m.started :: AnswersOk(m.g, x)
  {
    hide ReadStale, SeenTo, FailedToStart, FallbackOk, ReadFresh, BuiltIt, Failed, ReadOld, ReadNone;
  }

  /** Taking the lock and building, with the fallback in hand. */
  lemma BuildingSteps(g: Shared, me: Owner, building: nat, f: Frame, a: Action)
    requires FrameOk(g, f) && CallEnabled(g, building, f, a)
    requires a.TakeLock? || a.TimeOut? || a.BuilderAnswers? || a.BuilderRaises?
    ensures var m := CallStep(g, me, building, f, a);
      FrameOk(m.g, m.f) && m.started == []
  {
    var m := CallStep(g, me, building, f, a);
    assert m.f.past[|f.past|] == Did(a, g);
    assert a.TimeOut? || a.BuilderRaises? ==> Failed(m.f);
    assert a.BuilderAnswers? ==> WasBuilt(m.f, a.val);
    FallbackKept(g, m.g, f, m.f);
    ReadsKept(f, m.f, Hit(0.0, 0));
    hide *;
    MoveOfBuild(g, me, building, f, a);
  }

  lemma MoveOfBuild(g: Shared, me: Owner, building: nat, f: Frame, a: Action)
    requires FrameOk(g, f) && CallEnabled(g, building, f, a)
    requires a.TakeLock? || a.TimeOut? || a.BuilderAnswers? || a.BuilderRaises?
    requires var m := CallStep(g, me, building, f, a);
      && (a.TimeOut? || a.BuilderRaises? ==> Failed(m.f)) && (a.BuilderAnswers? ==> WasBuilt(m.f, a.val))
      && FallbackOk(m.g, m.f) && (ReadNone(f) ==> ReadNone(m.f))
    ensures var m := CallStep(g, me, building, f, a);
      FrameOk(m.g, m.f) && m.started == []
  {
    hide Failed, WasBuilt, ReadOld, ReadNone, ReadStale, SeenTo, FailedToStart, ReadFresh, BuiltIt, ServedStale;
  }

  lemma UnlockSteps(g: Shared, me: Owner, building: nat, f: Frame, a: Action)
    requires FrameOk(g, f) && CallEnabled(g, building, f, a) && a.Unlock?
    ensures var m := CallStep(g, me, building, f, a);
      FrameOk(m.g, m.f) && m.started == []
  {
    var m := CallStep(g, me, building, f, a);
    FallbackKept(g, m.g, f, m.f);
    AnswerKept(g, m.g, f, m.f, f.pc.answer);
    hide AnswerOk, FallbackOk, HasDoneMore;
  }

  lemma StoreSteps(g: Shared, me: Owner, building: nat, f: Frame, a: Action)
    requires SharedOk(g) && FrameOk(g, f) && CallEnabled(g, building, f, a) && a.Store?
    ensures var m := CallStep(g, me, building, f, a);
      FrameOk(m.g, m.f) && m.started == []
  {
    hide Evictable, AfterStore, SharedOk;
    var m := CallStep(g, me, building, f, a);
    assert m.f.past[|f.past|] == Did(a, g);
    var h := Hit(a.now, f.pc.val);
    DeedsKept(f, m.f, h);
    assert WasStored(m.f, a.now);
    FallbackKept(g, m.g, f, m.f);
    hide WasBuilt, WasStored, FallbackOk, HasDoneMore, SeenTo, Failed, FailedToStart, ReadFresh, ServedStale, ReadOld;
  }

  /** A call answers only with what it read or built, and raises only without a copy to fall back on. */
  lemma AnswerSteps(g: Shared, me: Owner, building: nat, f: Frame, a: Action)
    requires SharedOk(g) && FrameOk(g, f) && CallEnabled(g, building, f, a)
    ensures var m := CallStep(g, me, building, f, a);
      FrameOk(m.g, m.f) && forall x <- m.started :: AnswersOk(m.g, x)
  {
    hide FrameOk, CallStep, SharedOk;
    if a.Look? {
      LookSteps(g, me, building, f, a);
    } else if a.LookAgain? {
      LookAgainSteps(g, me, building, f, a);
    } else if a.Store? {
      StoreSteps(g, me, building, f, a);
    } else if a.AcquireSlot? || a.Claim? || a.DropSlot? {
      RefreshingSteps(g, me, building, f, a);
    } else if a.Start? || a.StartFails? {
      StartingSteps(g, me, building, f, a);
    } else if a.Unlock? {
      UnlockSteps(g, me, building, f, a);
    } else {
      BuildingSteps(g, me, building, f, a);
    }
  }

  /** What the history said about a call it still says. */
  lemma FramesKept(g: Shared, g': Shared, th: Thread)
    requires Grows(g, g') && AnswersOk(g, th)
    ensures AnswersOk(g', th)
  {
  }

  lemma ThreadAnswers(g: Shared, t: nat, th: Thread, a: Action)
    requires ThreadOk(th) && SharedOk(g) && AnswersOk(g, th) && ThreadEnabled(g, th, a)
    ensures var o := ThreadStep(g, t, th, a);
      SharedOk(o.g) && Grows(g, o.g) && AnswersOk(o.g, o.th) && forall x <- o.started :: AnswersOk(o.g, x)
  {
    hide ThreadStep, ThreadOk, SharedOk, Grows, AnswersOk, CallEnabled, RefreshEnabled;
    if th.frames != [] && CallEnabled(g, th.building, th.Top(), a) {
      CallsAnswer(g, t, th, a);
    } else {
      OtherStepsAnswer(g, t, th, a);
    }
  }

  lemma CallsAnswer(g: Shared, t: nat, th: Thread, a: Action)
    requires SharedOk(g) && AnswersOk(g, th) && th.frames != [] && CallEnabled(g, th.building, th.Top(), a)
    ensures var o := ThreadStep(g, t, th, a);
      SharedOk(o.g) && Grows(g, o.g) && AnswersOk(o.g, o.th) && forall x <- o.started :: AnswersOk(o.g, x)
  {
    var me := Owner(t, |th.frames| - 1);
    assert FrameOk(g, th.Top());
    hide CallStep, CallEnabled, RefreshEnabled, RefreshStep, EnterCall, SharedOk, Grows, FrameOk, AnswersOk;
    SharedSteps(g, me, th.building, th.Top(), a);
    AnswerSteps(g, me, th.building, th.Top(), a);
    var m := CallStep(g, me, th.building, th.Top(), a);
    FramesKept(g, m.g, th);
    TopAnswers(m.g, th, m.building, m.f);
  }

  lemma TopAnswers(g: Shared, th: Thread, b: nat, f: Frame)
    requires AnswersOk(g, th) && FrameOk(g, f) && th.frames != []
    ensures AnswersOk(g, th.(building := b).WithTop(f))
  {
    hide FrameOk;
  }

  lemma OtherStepsAnswer(g: Shared, t: nat, th: Thread, a: Action)
    requires ThreadOk(th) && SharedOk(g) && AnswersOk(g, th) && ThreadEnabled(g, th, a)
    requires th.frames != [] ==> !CallEnabled(g, th.building, th.Top(), a)
    ensures var o := ThreadStep(g, t, th, a);
      SharedOk(o.g) && Grows(g, o.g) && AnswersOk(o.g, o.th) && o.started == []
  {
    hide CallStep, Evictable, AfterStore, Insert;
    if a.BgStore? {
      InsertKeepsShared(g, th.role.key, Hit(a.now, th.role.val), a.victims);
    }
    var o := ThreadStep(g, t, th, a);
    FramesKept(g, o.g, th);
  }

  lemma HistoryStays(s: State, t: nat, a: Action)
    requires ThreadsOk(s) && HistoryOk(s) && Enabled(s, t, a)
    ensures HistoryOk(Next(s, t, a))
  {
    hide ThreadStep, ThreadOk, AnswersOk, SharedOk, Grows;
    ThreadAnswers(s.g, t, s.threads[t], a);
    var o := ThreadStep(s.g, t, s.threads[t], a);
    forall th | th in s.threads ensures AnswersOk(o.g, th) { FramesKept(s.g, o.g, th); }
  }

  lemma ThreadsStay(s: State, t: nat, a: Action)
    requires ThreadsOk(s) && Enabled(s, t, a)
    ensures ThreadsOk(Next(s, t, a))
  {
    hide ThreadStep, ThreadOk;
    ThreadStays(s.g, t, s.threads[t], a);
  }

  lemma EventKeepsInv(s: State, e: Event)
    requires Inv(s) && Happens(s, e)
    ensures Inv(After(s, e))
  {
    match e
    case Act(t, a) =>
      hide Next, Enabled, ThreadsOk, LocksOk, SlotsOk, ClaimsOk, HistoryOk;
      ThreadsStay(s, t, a);
      LocksStay(s, t, a);
      SlotsStay(s, t, a);
      ClaimsStay(s, t, a);
      HistoryStays(s, t, a);
    case Time(now) =>
      var s' := After(s, e);
      forall th | th in s.threads ensures AnswersOk(s'.g, th) { FramesKept(s.g, s'.g, th); }
  }

  lemma {:induction false} RunKeepsInv(s: State, events: seq<Event>)
    requires Inv(s) && Run(s, events)
    ensures Inv(End(s, events))
    decreases |events|
  {
    if events != [] {
      EventKeepsInv(s, events[0]);
      RunKeepsInv(After(s, events[0]), events[1..]);
    }
  }

  lemma {:induction false} SumOfZeros(threads: seq<Thread>, f: Thread -> int)
    requires forall t | 0 <= t < |threads| :: f(threads[t]) == 0
    ensures Sum(threads, f) == 0
  {
    if threads != [] {
      SumOfZeros(threads[1..], f);
    }
  }

  lemma InitialInv(s: State)
    requires Initial(s)
    ensures Inv(s)
  {
    SumOfZeros(s.threads, SlotsHeld);
    forall k: Key {
      SumOfZeros(s.threads, ClaimsOn(k));
    }
  }

  /** Every state a run can reach, whatever the threads, builders and the environment do. */
  lemma ReachableInv(s: State)
    requires Reachable(s)
    ensures Inv(s)
  {
    var s0, events :| Initial(s0) && Run(s0, events) && End(s0, events) == s;
    InitialInv(s0);
    RunKeepsInv(s0, events);
  }

  // ---------------------------------------------------------------------------------------
  // No deadlock

  /** The thread's newest call waits for a compute lock that is taken. */
  ghost predicate Blocked(s: State, t: nat) {
    && t < |s.threads| && s.threads[t].frames != []
    && s.threads[t].Top().pc == WantLock
    && !NeedNotWait(s.g, s.threads[t].building, s.threads[t].Top())
  }

  /** A step that is neither a new call nor a wait giving up. */
  ghost predicate Moves(s: State, t: nat, a: Action) {
    Enabled(s, t, a) && !a.Call? && !a.TimeOut?
  }

  /** A call that waits holds no compute lock, in any of the calls of its thread. */
  lemma WaitingHoldsNoLock(s: State, t: nat, i: nat, l: nat)
    requires Reachable(s) && Blocked(s, t)
    ensures !Holds(s.threads[t], i, l)
    ensures forall n | n in s.g.locks :: s.g.locks[n].thread != t
  {
    ReachableInv(s);
    assert ThreadOk(s.threads[t]);
    assert |s.threads[t].frames| == 1;
  }

  /** What a call that is not waiting can do next; a builder can end at any time. */
  function NextOf(pc: Pc, now: real, victims: set<Key>): Action {
    match pc
    case Lookup => Look(now)
    case TakeSlot(_) => AcquireSlot
    case ClaimKey(_) => Claim
    case StartThread(_) => Start
    case ReturnSlot(_) => DropSlot
    case WantLock => TakeLock
    case Recheck(_) => LookAgain(now)
    case Building(_) => BuilderRaises
    case Storing(_, _) => Store(now, victims)
    case Unlocking(_, _) => Unlock
    case Done(_) => Return
  }

  lemma BusyCallMoves(g: Shared, building: nat, f: Frame, victims: set<Key>)
    requires f.since <= g.clock && Evictable(g.cache, victims)
    requires f.pc == WantLock ==> NeedNotWait(g, building, f)
    ensures f.pc.Done? || CallEnabled(g, building, f, NextOf(f.pc, g.clock, victims))
  {
    hide Evictable, NeedNotWait;
  }

  lemma BusyThreadMoves(s: State, t: nat)
    requires t < |s.threads| && AnswersOk(s.g, s.threads[t]) && !s.threads[t].AtRest() && !Blocked(s, t)
    ensures exists a :: Moves(s, t, a)
  {
    var th := s.threads[t];
    var victims := SomeVictimsExist(s.g.cache);
    hide Evictable;
    if th.frames != [] {
      BusyCallMoves(s.g, th.building, th.Top(), victims);
      hide CallEnabled;
      assert Moves(s, t, NextOf(th.Top().pc, s.g.clock, victims));
    } else {
      hide CallEnabled;
      var a := match th.role
        case BgBuilding(_, _) => BgRaises
        case BgStoring(_, _) => BgStore(s.g.clock, victims)
        case BgReleasing(_) => BgRelease
        case _ => BgDiscard;
      assert Moves(s, t, a);
    }
  }

  /**
    The owner of a taken compute lock can always take a step, however many locks it holds and
    whatever it is waiting to build: so nobody waits for a thread that waits.
   */
  lemma LockHoldersMove(s: State, l: nat)
    requires Reachable(s) && l in s.g.locks
    ensures !Blocked(s, s.g.locks[l].thread)
    ensures exists a :: Moves(s, s.g.locks[l].thread, a)
  {
    ReachableInv(s);
    var t := s.g.locks[l].thread;
    assert Holds(s.threads[t], s.g.locks[l].frame, l);
    if Blocked(s, t) {
      WaitingHoldsNoLock(s, t, s.g.locks[l].frame, l);
    }
    BusyThreadMoves(s, t);
  }

  /** While any call or refresh is unfinished some thread can move, without any wait timing out. */
  lemma NoDeadlock(s: State, t: nat)
    requires Reachable(s) && t < |s.threads| && !s.threads[t].AtRest()
    ensures exists u: nat, a :: Moves(s, u, a)
  {
    ReachableInv(s);
    if Blocked(s, t) {
      LockHoldersMove(s, LockOf(s.threads[t].Top().key));
    } else {
      BusyThreadMoves(s, t);
    }
  }

  /** A call about to give its lock back is the one on record as having taken it. */
  lemma UnlockIsByTheTaker(s: State, t: nat)
    requires Reachable(s) && t < |s.threads| && s.threads[t].frames != []
    requires s.threads[t].Top().pc.Unlocking? && s.threads[t].Top().pc.locked
    ensures TopLock(s.threads[t]) in s.g.locks
    ensures s.g.locks[TopLock(s.threads[t])] == Owner(t, |s.threads[t].frames| - 1)
  {
    ReachableInv(s);
    assert Holds(s.threads[t], |s.threads[t].frames| - 1, TopLock(s.threads[t]));
  }

  lemma OtherLocksKept(g: Shared, t: nat, th: Thread, a: Action, l: nat)
    requires ThreadOk(th) && ThreadEnabled(g, th, a) && l in g.locks
    requires !(a == Unlock && HoldsLock(th.Top()) && l == TopLock(th))
    ensures var o := ThreadStep(g, t, th, a); l in o.g.locks && o.g.locks[l] == g.locks[l]
  {
    if th.frames != [] && CallEnabled(g, th.building, th.Top(), a) {
      LockSteps(g, Owner(t, |th.frames| - 1), th.building, th.Top(), a);
      hide CallStep, CallEnabled, ThreadOk, HoldsLock;
    } else {
      OtherStepsKeepLocks(g, t, th, a);
      hide CallStep, ThreadStep, ThreadOk, Keeps;
    }
  }

  /** Once taken, a lock stays with the call that took it until that very call gives it back. */
  lemma LockStaysWithItsTaker(s: State, t: nat, a: Action, l: nat)
    requires Reachable(s) && Enabled(s, t, a) && l in s.g.locks
    requires !(a == Unlock && s.g.locks[l] == Owner(t, |s.threads[t].frames| - 1))
    ensures l in Next(s, t, a).g.locks && Next(s, t, a).g.locks[l] == s.g.locks[l]
  {
    hide Reachable, SlotsOk, ClaimsOk, HistoryOk, LocksMatch, ThreadEnabled, ThreadStep;
    ReachableInv(s);
    var th := s.threads[t];
    assert ThreadOk(th);
    hide ThreadOk;
    if a == Unlock {
      UnlockEnabled(s.g, th);
      if HoldsLock(th.Top()) && l == TopLock(th) {
        UnlockIsByTheTaker(s, t);
      }
    }
    OtherLocksKept(s.g, t, th, a, l);
  }

  lemma UnlockEnabled(g: Shared, th: Thread)
    requires ThreadEnabled(g, th, Unlock)
    ensures th.frames != [] && th.Top().pc.Unlocking?
  {
  }
}
