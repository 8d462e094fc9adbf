/**
  What follows from the invariant of the response cache: every call returns, the refresh slots
  add up, refreshes do not pile up, and an answer comes from a build of its own key.
 */
module CacheOutcomes {
  import opened Prelude
  import opened ResponseCache
  import opened CacheSafety

  // ---------------------------------------------------------------------------------------
  // Every call returns

  function Rank(pc: Pc): int {
    match pc
    case Lookup => 16
    case TakeSlot(_) => 14
    case ClaimKey(_) => 12
    case StartThread(_) => 10
    case ReturnSlot(_) => 4
    case WantLock => 9
    case Recheck(_) => 8
    case Building(_) => 6
    case Storing(_, _) => 4
    case Unlocking(_, _) => 3
    case Done(_) => 2
  }

  /** An upper bound on the steps a call can still take, its nested calls included. */
  function CallWeight(f: Frame): int { 20 * f.budget + Rank(f.pc) }

  function RoleWeight(r: Role): int {
    match r
    case BgBuilding(_, b) => 20 * b + 5
    case BgStoring(_, _) => 4
    case BgReleasing(_) => 3
    case BgDiscarding(_) => 2
    case _ => 0
  }

  ghost function Weight(th: Thread): int { Sum(th.frames, CallWeight) + RoleWeight(th.role) }

  ghost function Measure(s: State): int { Sum(s.threads, Weight) }

  lemma CallStepWeighsLess(g: Shared, me: Owner, building: nat, f: Frame, a: Action)
    requires CallEnabled(g, building, f, a)
    ensures var m := CallStep(g, me, building, f, a);
      |m.started| <= 1 && CallWeight(m.f) + Sum(m.started, Weight) < CallWeight(f)
  {
    hide Evictable, Insert, Fresh, StandsIn, Sum;
    var m := CallStep(g, me, building, f, a);
    if a == Start {
      var bg := Thread(BgBuilding(f.key, f.budget), 0, []);
      SumAppend([], bg, Weight);
      assert [] + [bg] == m.started;
      EmptySum(Weight);
      EmptySum(CallWeight);
    } else {
      EmptySum(Weight);
    }
  }

  lemma EmptySum<T>(f: T -> int)
    ensures Sum([], f) == 0
  {
  }

  lemma SumDropLast<T>(ts: seq<T>, f: T -> int)
    requires ts != []
    ensures Sum(ts[..|ts| - 1], f) == Sum(ts, f) - f(ts[|ts| - 1])
  {
    SumAppend(ts[..|ts| - 1], ts[|ts| - 1], f);
    assert ts[..|ts| - 1] + [ts[|ts| - 1]] == ts;
  }

  /** A new request: a call that no running builder makes and pays for. */
  ghost predicate NewRequest(th: Thread, a: Action) { a.Call? && !InBuilder(th) }

  lemma StepWeighsLess(g: Shared, t: nat, th: Thread, a: Action)
    requires ThreadEnabled(g, th, a) && !NewRequest(th, a)
    ensures var o := ThreadStep(g, t, th, a);
      |o.started| <= 1 && Weight(o.th) + Sum(o.started, Weight) < Weight(th)
  {
    hide CallStep, Sum, RefreshEnabled, Weight;
    if th.frames != [] && CallEnabled(g, th.building, th.Top(), a) {
      var me := Owner(t, |th.frames| - 1);
      CallStepWeighsLess(g, me, th.building, th.Top(), a);
      var m := CallStep(g, me, th.building, th.Top(), a);
      SumUpdate(th.frames, |th.frames| - 1, m.f, CallWeight);
      WeightIs(th);
      WeightIs(ThreadStep(g, t, th, a).th);
    } else {
      OtherStepsWeighLess(g, t, th, a);
      EmptySum(Weight);
    }
  }

  lemma WeightIs(th: Thread)
    ensures Weight(th) == Sum(th.frames, CallWeight) + RoleWeight(th.role)
  {
  }

  lemma OtherStepsWeighLess(g: Shared, t: nat, th: Thread, a: Action)
    requires ThreadEnabled(g, th, a) && !NewRequest(th, a)
    requires th.frames != [] ==> !CallEnabled(g, th.building, th.Top(), a)
    ensures var o := ThreadStep(g, t, th, a);
      o.started == [] && Weight(o.th) < Weight(th)
  {
    hide CallStep, Sum;
    if a.Return? {
      SumDropLast(th.frames, CallWeight);
    } else if a.Call? {
      var paid := Charge(th, a.budget + 1);
      if th.frames != [] {
        SumUpdate(th.frames, |th.frames| - 1, paid.Top(), CallWeight);
      }
      var o := ThreadStep(g, t, th, a);
      SumAppend(paid.frames, o.th.Top(), CallWeight);
    }
  }

  lemma WeightIsNotNegative(s: State)
    ensures Measure(s) >= 0
  {
    forall th | th in s.threads ensures Weight(th) >= 0 {
      SumNonNegative(th.frames, CallWeight);
    }
    SumNonNegative(s.threads, Weight);
  }

  /** How many of the events are steps of threads, and not time passing. */
  function Steps(events: seq<Event>): nat {
    if events == [] then 0 else (if events[0].Act? then 1 else 0) + Steps(events[1..])
  }

  ghost predicate OnlyOldRequests(s: State, events: seq<Event>)
    requires Run(s, events)
    decreases |events|
  {
    events != [] ==>
      && (events[0].Act? ==> !NewRequest(s.threads[events[0].thread], events[0].action))
      && OnlyOldRequests(After(s, events[0]), events[1..])
  }

  lemma {:induction false} WorkRunsOut(s: State, events: seq<Event>)
    requires Run(s, events) && OnlyOldRequests(s, events)
    ensures Steps(events) + Measure(End(s, events)) <= Measure(s)
    decreases |events|
  {
    if events != [] {
      var s' := After(s, events[0]);
      WorkRunsOut(s', events[1..]);
      match events[0]
      case Act(t, a) =>
        hide ThreadStep, Weight, ThreadEnabled;
        StepWeighsLess(s.g, t, s.threads[t], a);
        var o := ThreadStep(s.g, t, s.threads[t], a);
        SumNext(s.threads, t, o.th, o.started, Weight);
      case Time(_) =>
    }
  }

  /**
    Every call returns. From any state of any run, if no further request comes in, at most
    `Measure(s)` steps are left; and when no thread can move any more - lock waits need not time
    out for it - every call has returned and every refresh is over.
   */
  lemma EveryCallReturns(s: State, events: seq<Event>)
    requires Reachable(s) && Run(s, events) && OnlyOldRequests(s, events)
    ensures Steps(events) <= Measure(s)
    ensures (forall t: nat, a :: !Moves(End(s, events), t, a)) ==> forall th <- End(s, events).threads :: th.AtRest()
  {
    WorkRunsOut(s, events);
    var e := End(s, events);
    WeightIsNotNegative(e);
    if forall t: nat, a :: !Moves(e, t, a) {
      ReachableFrom(s, events);
      forall th | th in e.threads ensures th.AtRest() {
        var t: nat :| t < |e.threads| && e.threads[t] == th;
        if !th.AtRest() {
          NoDeadlock(e, t);
        }
      }
    }
  }

  lemma {:induction false} RunsJoin(s: State, first: seq<Event>, second: seq<Event>)
    requires Run(s, first) && Run(End(s, first), second)
    ensures Run(s, first + second) && End(s, first + second) == End(End(s, first), second)
    decreases |first|
  {
    if first == [] {
      assert first + second == second;
    } else {
      assert (first + second)[1..] == first[1..] + second;
      RunsJoin(After(s, first[0]), first[1..], second);
    }
  }

  lemma ReachableFrom(s: State, events: seq<Event>)
    requires Reachable(s) && Run(s, events)
    ensures Reachable(End(s, events))
  {
    var s0, before :| Initial(s0) && Run(s0, before) && End(s0, before) == s;
    RunsJoin(s0, before, events);
  }

  // ---------------------------------------------------------------------------------------
  // Refreshes

  predicate StartFailed(e: Event) { e.Act? && e.action.StartFails? }

  function FailedStarts(events: seq<Event>): (n: nat)
    ensures n == 0 <==> forall i | 0 <= i < |events| :: !StartFailed(events[i])
  {
    if events == [] then 0 else (if StartFailed(events[0]) then 1 else 0) + FailedStarts(events[1..])
  }

  /** Somewhere in the run a refresh of `k` could not be started. */
  ghost predicate StartFailedFor(s: State, events: seq<Event>, k: Key)
    requires Run(s, events)
    decreases |events|
  {
    && events != []
    && ((StartFailed(events[0]) && s.threads[events[0].thread].Top().key == k) || StartFailedFor(After(s, events[0]), events[1..], k))
  }

  lemma EventTallies(s: State, e: Event)
    requires Inv(s) && Happens(s, e)
    ensures After(s, e).g.leaked == s.g.leaked + (if StartFailed(e) then 1 else 0)
    ensures After(s, e).g.orphaned == s.g.orphaned + (if StartFailed(e) then {s.threads[e.thread].Top().key} else {})
  {
    match e
    case Act(t, a) =>
      ThreadSlots(s.g, t, s.threads[t], a);
      ThreadOrphans(s.g, t, s.threads[t], a);
      hide ThreadStep, ThreadOk, LocksMatch, AnswersOk, SharedOk;
    case Time(_) =>
  }

  /** The tallies are exactly the starts that failed in the run. */
  lemma {:induction false} TalliesAreFailedStarts(s: State, events: seq<Event>, k: Key)
    requires Inv(s) && Run(s, events)
    ensures End(s, events).g.leaked == s.g.leaked + FailedStarts(events)
    ensures k in End(s, events).g.orphaned <==> k in s.g.orphaned || StartFailedFor(s, events, k)
    decreases |events|
  {
    if events != [] {
      hide Inv, Happens, After;
      EventTallies(s, events[0]);
      EventKeepsInv(s, events[0]);
      TalliesAreFailedStarts(After(s, events[0]), events[1..], k);
    }
  }

  /**
    Each slot taken is given back exactly once, on every path but one. In any run the four slots
    are free, or held by one call or refresh thread each, or were lost to a thread that could not
    be started, one for each such failure; so none is missing if and only if no start failed.
   */
  lemma SlotsAddUp(s0: State, events: seq<Event>)
    requires Initial(s0) && Run(s0, events)
    ensures var s := End(s0, events);
      && 0 <= s.g.slots && s.g.slots + Sum(s.threads, SlotsHeld) + FailedStarts(events) == 4
      && (s.g.slots + Sum(s.threads, SlotsHeld) == 4 <==> forall i | 0 <= i < |events| :: !StartFailed(events[i]))
  {
    InitialInv(s0);
    TalliesAreFailedStarts(s0, events, Key("", 0));
    RunKeepsInv(s0, events);
  }

  /** A refresh thread is running its builder. */
  function Refreshing(th: Thread): int { if th.role.BgBuilding? then 1 else 0 }

  lemma AtMostFourRefreshes(s: State)
    requires Reachable(s)
    ensures Sum(s.threads, Refreshing) <= 4
  {
    ReachableInv(s);
    SumMonotone(s.threads, Refreshing, SlotsHeld);
  }

  /** A thread still has its claim on `k`: from the claim to the discard, past the slot's release. */
  lemma OneRefreshPerKey(s: State, t: nat, u: nat, k: Key)
    requires Reachable(s) && t < u < |s.threads|
    ensures Claims(s.threads[t], k) + Claims(s.threads[u], k) <= 1
    ensures Claims(s.threads[t], k) <= 1
    ensures Claims(s.threads[t], k) == 1 ==> k in s.g.refreshing
  {
    ReachableInv(s);
    SumAtLeastTwo(s.threads, t, u, ClaimsOn(k));
    SumAtLeastOne(s.threads, t, ClaimsOn(k));
  }

  /**
    A key is marked as being refreshed exactly when a thread will clear the mark or a refresh of the
    key once could not be started. In that case no thread ever has a claim on it again.
   */
  lemma MarkedKeysAreRefreshed(s0: State, events: seq<Event>, k: Key)
    requires Initial(s0) && Run(s0, events)
    ensures var s := End(s0, events);
      var claimed := exists t | 0 <= t < |s.threads| :: Claims(s.threads[t], k) > 0;
      && (k in s.g.refreshing <==> claimed || StartFailedFor(s0, events, k))
      && !(claimed && StartFailedFor(s0, events, k))
  {
    InitialInv(s0);
    TalliesAreFailedStarts(s0, events, k);
    RunKeepsInv(s0, events);
    var s := End(s0, events);
    if forall t | 0 <= t < |s.threads| :: Claims(s.threads[t], k) <= 0 {
      SumOfZeros(s.threads, ClaimsOn(k));
    } else {
      var t :| 0 <= t < |s.threads| && Claims(s.threads[t], k) > 0;
      ClaimsAreOwn(s, t);
    }
  }

  // ---------------------------------------------------------------------------------------
  // A slot that is lost

  const SOME_KEY := Key("pool", 0)

  function Alone(): State { State([Thread(Request, 0, [])], Shared(map[], map[], BG_SLOTS, {}, 0.0, 0, {}, {}, {})) }

  /** One thread, serving one call of `SOME_KEY`, which has come to `pc`. */
  ghost predicate At(s: State, pc: Pc) {
    && |s.threads| == 1 && s.threads[0].role == Request && |s.threads[0].frames| == 1
    && var f := s.threads[0].Top();
      f.key == SOME_KEY && f.ttl == 5.0 && f.since == s.g.clock && f.pc == pc
  }

  /** `cache` is what is stored, no key is marked, no slot is taken. */
  ghost predicate Holding(g: Shared, cache: map<Key, Hit>, clock: real) {
    g.cache == cache && g.slots == BG_SLOTS && g.refreshing == {} && g.clock == clock
  }

  ghost predicate Idle(s: State) { s.threads == [Thread(Request, 0, [])] }

  lemma OneMore(s: State, events: seq<Event>, e: Event)
    requires Run(s, events) && Happens(End(s, events), e)
    ensures Run(s, events + [e]) && End(s, events + [e]) == After(End(s, events), e)
  {
    hide Happens, After;
    var t := End(s, events);
    assert Run(After(t, e), []);
    assert [e][1..] == [];
    assert Run(t, [e]) && End(t, [e]) == After(t, e);
    RunsJoin(s, events, [e]);
  }

  /** Some run from `Alone()` ends in `s`; in it `failed` starts failed. */
  ghost predicate Comes(events: seq<Event>, s: State, failed: nat) {
    Run(Alone(), events) && End(Alone(), events) == s && FailedStarts(events) == failed
  }

  lemma {:induction false} OneMoreCount(events: seq<Event>, e: Event)
    ensures FailedStarts(events + [e]) == FailedStarts(events) + (if StartFailed(e) then 1 else 0)
  {
    if events == [] {
      assert [] + [e] == [e] && [e][1..] == [];
      assert FailedStarts([]) == 0;
    } else {
      assert (events + [e])[1..] == events[1..] + [e];
      OneMoreCount(events[1..], e);
    }
  }

  lemma Take(events: seq<Event>, s: State, e: Event, n: nat) returns (more: seq<Event>, next: State)
    requires Comes(events, s, n) && Happens(s, e)
    ensures next == After(s, e) && Comes(more, next, n + (if StartFailed(e) then 1 else 0))
  {
    more, next := events + [e], After(s, e);
    OneMore(Alone(), events, e);
    OneMoreCount(events, e);
  }

  /** A step of the one call. */
  lemma Step(events: seq<Event>, s: State, a: Action, n: nat) returns (more: seq<Event>, next: State)
    requires Comes(events, s, n) && |s.threads| == 1 && s.threads[0].role == Request && |s.threads[0].frames| == 1
    requires !a.Start? && CallEnabled(s.g, s.threads[0].building, s.threads[0].Top(), a)
    ensures var m := CallStep(s.g, Owner(0, 0), s.threads[0].building, s.threads[0].Top(), a);
      next.threads == [Thread(Request, m.building, [m.f])] && next.g == m.g
    ensures Comes(more, next, n + (if a.StartFails? then 1 else 0))
  {
    NoneStarted(s.g, s.threads[0].building, s.threads[0].Top(), a);
    hide CallEnabled, CallStep, Comes;
    var m := CallStep(s.g, Owner(0, 0), s.threads[0].building, s.threads[0].Top(), a);
    var o := ThreadStep(s.g, 0, s.threads[0], a);
    assert o.th.frames == [m.f] && o.started == [];
    more, next := Take(events, s, Act(0, a), n);
    assert next.threads == [o.th];
  }

  lemma NoneStarted(g: Shared, building: nat, f: Frame, a: Action)
    requires CallEnabled(g, building, f, a) && !a.Start?
    ensures CallStep(g, Owner(0, 0), building, f, a).started == []
  {
  }

  /** A call of `SOME_KEY` made by the idle thread. */
  lemma Asks(events: seq<Event>, s: State, n: nat) returns (more: seq<Event>, next: State)
    requires Comes(events, s, n) && Idle(s)
    ensures At(next, Lookup) && next.threads[0].building == 0 && next.g == s.g && Comes(more, next, n)
  {
    hide Comes, CallMove;
    more, next := Take(events, s, Act(0, Call(SOME_KEY, 5.0, 0)), n);
  }

  lemma Answered(events: seq<Event>, s: State, ans: Answer, n: nat) returns (more: seq<Event>, next: State)
    requires Comes(events, s, n) && At(s, Done(ans)) && s.threads[0].building == 0
    ensures Idle(next) && next.g == s.g && Comes(more, next, n)
  {
    hide Comes, CallMove;
    more, next := Take(events, s, Act(0, Return), n);
  }

  /** The key is looked up in vain. */
  lemma Misses() returns (events: seq<Event>, s: State)
    ensures Comes(events, s, 0) && At(s, WantLock) && Holding(s.g, map[], 0.0) && s.g.locks == map[] && s.threads[0].building == 0
  {
    hide Comes, Happens, After;
    assert Comes([], Alone(), 0) by { StartHere(); }
    events, s := Asks([], Alone(), 0);
    events, s := Step(events, s, Look(0.0), 0);
  }

  /** The lock is taken, and the builder started. */
  lemma MissesAndBuilds() returns (events: seq<Event>, s: State)
    ensures Comes(events, s, 0) && At(s, Building(true)) && Holding(s.g, map[], 0.0) && s.threads[0].Top().depth == 0
  {
    hide Comes, Happens, After;
    events, s := Misses();
    events, s := Step(events, s, TakeLock, 0);
    assert At(s, Pc.Recheck(true)) && Holding(s.g, map[], 0.0) && s.threads[0].Top().depth == 0;
    events, s := Step(events, s, LookAgain(0.0), 0);
  }

  lemma StartHere()
    ensures Comes([], Alone(), 0)
  {
  }

  /** The payload 7 is stored at time 0; then ten seconds pass. */
  lemma BuildsAndStores() returns (events: seq<Event>, s: State)
    ensures Comes(events, s, 0) && Idle(s) && Holding(s.g, map[SOME_KEY := Hit(0.0, 7)], 10.0)
  {
    hide Comes;
    events, s := MissesAndBuilds();
    assert AfterStore(map[], {}, SOME_KEY, Hit(0.0, 7)) == map[SOME_KEY := Hit(0.0, 7)];
    events, s := StoresSeven(events, s);
    events, s := Answered(events, s, Value(Hit(0.0, 7)), 0);
    hide CallMove;
    events, s := Take(events, s, Time(10.0), 0);
  }

  lemma StoresSeven(events: seq<Event>, s: State) returns (more: seq<Event>, next: State)
    requires Comes(events, s, 0) && At(s, Building(true)) && Holding(s.g, map[], 0.0) && s.threads[0].Top().depth == 0
    ensures At(next, Done(Value(Hit(0.0, 7)))) && next.threads[0].building == 0 && Comes(more, next, 0)
    ensures Holding(next.g, AfterStore(map[], {}, SOME_KEY, Hit(0.0, 7)), 0.0)
  {
    hide Comes, Happens, After, AfterStore;
    more, next := Step(events, s, BuilderAnswers(7), 0);
    assert Evictable(next.g.cache, {});
    more, next := Step(more, next, ResponseCache.Store(0.0, {}), 0);
    more, next := Step(more, next, Unlock, 0);
  }

  /**
    It happens. A copy ten seconds old is past its five seconds to live, the call takes a slot and
    claims the key, and the thread cannot be started: when all is at rest again a slot is missing
    and the key is still marked, with nobody to clear it.
   */
  lemma ASlotCanBeLost() returns (events: seq<Event>, s: State)
    ensures Initial(Alone()) && Run(Alone(), events) && End(Alone(), events) == s && FailedStarts(events) == 1
    ensures (forall th <- s.threads :: th.AtRest()) && s.g.slots == 3 && SOME_KEY in s.g.refreshing
  {
    events, s := BuildsAndStores();
    hide Happens, After;
    events, s := Asks(events, s, 0);
    events, s := FailsToStart(events, s);
    events, s := Answered(events, s, Raised, 1);
  }

  lemma GetsSlot(events: seq<Event>, s: State) returns (more: seq<Event>, next: State)
    requires Comes(events, s, 0) && At(s, Lookup) && s.threads[0].building == 0
    requires Holding(s.g, map[SOME_KEY := Hit(0.0, 7)], 10.0)
    ensures At(next, ClaimKey(Hit(0.0, 7))) && next.threads[0].building == 0 && Comes(more, next, 0)
    ensures next.g == s.g.(slots := BG_SLOTS - 1)
  {
    hide Comes, Happens, After;
    more, next := Step(events, s, Look(10.0), 0);
    assert At(next, TakeSlot(Hit(0.0, 7))) && next.g == s.g;
    more, next := Step(more, next, AcquireSlot, 0);
  }

  lemma FailsToStart(events: seq<Event>, s: State) returns (more: seq<Event>, next: State)
    requires Comes(events, s, 0) && At(s, Lookup) && s.threads[0].building == 0
    requires Holding(s.g, map[SOME_KEY := Hit(0.0, 7)], 10.0)
    ensures At(next, Done(Raised)) && next.threads[0].building == 0 && Comes(more, next, 1)
    ensures next.g.slots == BG_SLOTS - 1 && SOME_KEY in next.g.refreshing
  {
    hide Comes, Happens, After;
    more, next := GetsSlot(events, s);
    more, next := Step(more, next, Claim, 0);
    assert At(next, StartThread(Hit(0.0, 7)));
    more, next := Step(more, next, StartFails, 0);
  }

  // ---------------------------------------------------------------------------------------
  // Answers

  /**
    What a call answers with is a payload built for its own key, and it has come by it in one of four
    ways: from the cache, younger than its time to live when it looked; from the cache, older than
    that but within the stale bound when it looked, while the key was being refreshed, or having
    started a refresh of it, or finding no slot to start one; by building and storing it itself; or, when its builder raised
    or its wait for the lock timed out, the older copy it found to begin with. It raises only if
    there was none, or if the refresh thread could not be started.
   */
  lemma AnswersAreFromTheirKey(s: State, t: nat, i: nat)
    requires Reachable(s) && t < |s.threads| && i < |s.threads[t].frames| && s.threads[t].frames[i].pc.Done?
    ensures var f := s.threads[t].frames[i];
      match f.pc.answer
      case Value(h) =>
        && (f.key, h) in s.g.stored && (f.key, h.val) in s.g.made
        && (ReadFresh(f, h) || ServedStale(f, h) || BuiltIt(f, h) || (Failed(f) && ReadOld(f, h)))
      case Raised => FailedToStart(f) || (Failed(f) && ReadNone(f))
  {
    ReachableInv(s);
    assert AnswersOk(s.g, s.threads[t]);
    hide ReadFresh, ServedStale, BuiltIt, Failed, ReadOld, FailedToStart, ReadNone;
  }

  lemma {:induction false} RunSplits(s: State, events: seq<Event>)
    requires Run(s, events) && events != []
    ensures var n := |events| - 1;
      && Run(s, events[..n]) && Happens(End(s, events[..n]), events[n])
      && End(s, events) == After(End(s, events[..n]), events[n])
    decreases |events|
  {
    hide Happens, After;
    if |events| == 1 {
      assert events[..0] == [];
      assert End(After(s, events[0]), events[1..]) == After(s, events[0]);
    } else {
      var s' := After(s, events[0]);
      RunSplits(s', events[1..]);
      assert events[1..][..|events| - 2] == events[..|events| - 1][1..];
    }
  }

  /** The run had this step of thread `t`, and then this was shared. */
  ghost predicate Happened(s0: State, events: seq<Event>, t: nat, d: Did) {
    exists n: nat :: n < |events| && events[n] == Act(t, d.a) && Run(s0, events[..n]) && End(s0, events[..n]).g == d.g
  }

  lemma StepAddsOne(g: Shared, t: nat, th: Thread, a: Action, i: nat, j: nat)
    requires ThreadEnabled(g, th, a)
    requires var o := ThreadStep(g, t, th, a); i < |o.th.frames| && j < |o.th.frames[i].past|
    ensures var d := ThreadStep(g, t, th, a).th.frames[i].past[j];
      d == Did(a, g) || (i < |th.frames| && j < |th.frames[i].past| && d == th.frames[i].past[j])
    ensures forall x <- ThreadStep(g, t, th, a).started :: x.frames == []
  {
    hide CallMove;
    if th.frames != [] && CallEnabled(g, th.building, th.Top(), a) {
      PastOfMove(g, Owner(t, |th.frames| - 1), th.building, th.Top(), a);
    }
  }

  lemma PastOfMove(g: Shared, me: Owner, building: nat, f: Frame, a: Action)
    requires CallEnabled(g, building, f, a)
    ensures CallMove(g, me, building, f, a).f.past == f.past
    ensures forall x <- CallMove(g, me, building, f, a).started :: x.frames == []
  {
  }

  /** What a call has put down as done, its thread did in the run, with that shared at the time. */
  lemma {:induction false} PastHappened(s0: State, events: seq<Event>, t: nat, i: nat, j: nat)
    requires Initial(s0) && Run(s0, events)
    requires var s := End(s0, events); t < |s.threads| && i < |s.threads[t].frames| && j < |s.threads[t].frames[i].past|
    ensures Happened(s0, events, t, End(s0, events).threads[t].frames[i].past[j])
    decreases |events|
  {
    if events != [] {
      RunSplits(s0, events);
      var n := |events| - 1;
      var before, e := End(s0, events[..n]), events[n];
      var d := End(s0, events).threads[t].frames[i].past[j];
      hide ThreadStep, ThreadEnabled;
      if e.Act? {
        var o := ThreadStep(before.g, e.thread, before.threads[e.thread], e.action);
        if e.thread == t {
          StepAddsOne(before.g, t, before.threads[t], e.action, i, j);
        } else if o.th.frames != [] && o.th.frames[0].past != [] {
          StepAddsOne(before.g, e.thread, before.threads[e.thread], e.action, 0, 0);
        }
      }
      if e.Act? && e.thread == t && d == Did(e.action, before.g) {
        assert events[n] == Act(t, d.a);
      } else {
        PastHappened(s0, events[..n], t, i, j);
        var m: nat :| m < n && events[..n][m] == Act(t, d.a) && Run(s0, events[..n][..m]) && End(s0, events[..n][..m]).g == d.g;
        assert events[..n][..m] == events[..m];
        assert events[m] == Act(t, d.a);
      }
    }
  }

  /**
    Two calls that build one key at the same time: at least one of them was made from inside
    another builder and went ahead without the compute lock.
   */
  lemma BuildsOfOneKey(s: State, t: nat, i: nat, u: nat, j: nat)
    requires Reachable(s) && t < |s.threads| && i < |s.threads[t].frames| && u < |s.threads| && j < |s.threads[u].frames|
    requires (t, i) != (u, j)
    requires var f, h := s.threads[t].frames[i], s.threads[u].frames[j];
      f.key == h.key && CountsAsBuilding(f.pc) && CountsAsBuilding(h.pc)
    ensures (i > 0 && !HoldsLock(s.threads[t].frames[i])) || (j > 0 && !HoldsLock(s.threads[u].frames[j]))
  {
    hide Reachable, SlotsOk, ClaimsOk, HistoryOk;
    ReachableInv(s);
    assert ThreadOk(s.threads[t]) && ThreadOk(s.threads[u]);
    hide Inv, ThreadsOk;
    LocksOfInv(s);
    TwoBuildersOneLock(s.threads, s.g.locks, t, i, u, j);
  }

  lemma LocksOfInv(s: State)
    requires Inv(s)
    ensures LocksMatch(s.threads, s.g.locks)
  {
    hide LocksMatch, ThreadsOk, SlotsOk, ClaimsOk, HistoryOk;
  }

  lemma TwoBuildersOneLock(threads: seq<Thread>, locks: map<nat, Owner>, t: nat, i: nat, u: nat, j: nat)
    requires LocksMatch(threads, locks) && t < |threads| && i < |threads[t].frames| && u < |threads| && j < |threads[u].frames|
    requires ThreadOk(threads[t]) && ThreadOk(threads[u]) && (t, i) != (u, j)
    requires var f, h := threads[t].frames[i], threads[u].frames[j];
      f.key == h.key && CountsAsBuilding(f.pc) && CountsAsBuilding(h.pc)
    ensures (i > 0 && !HoldsLock(threads[t].frames[i])) || (j > 0 && !HoldsLock(threads[u].frames[j]))
  {
    BuilderAtBottomHolds(threads[t], i);
    BuilderAtBottomHolds(threads[u], j);
    hide ThreadOk, HoldsLock, CountsAsBuilding;
    var f, h := threads[t].frames[i], threads[u].frames[j];
    assert HoldsLock(f) ==> Holds(threads[t], i, LockOf(f.key));
    assert HoldsLock(h) ==> Holds(threads[u], j, LockOf(h.key));
  }

  lemma BuilderAtBottomHolds(th: Thread, i: nat)
    requires ThreadOk(th) && i < |th.frames| && CountsAsBuilding(th.frames[i].pc)
    ensures i == 0 ==> HoldsLock(th.frames[i])
  {
  }

  /**
    A call waits exactly for a call whose key falls on the same of the 64 locks: where it waits there
    is one that holds the lock, and no two calls of such keys hold it at once.
   */
  lemma WaitsOnlyForItsLock(s: State, t: nat)
    requires Reachable(s) && Blocked(s, t)
    ensures exists u: nat, i: nat :: HoldsLockAt(s, u, i) && SameLock(s.threads[u].frames[i].key, s.threads[t].Top().key)
  {
    hide Reachable, SlotsOk, ClaimsOk, HistoryOk, ThreadsOk;
    ReachableInv(s);
    var l := LockOf(s.threads[t].Top().key);
    var me := s.g.locks[l];
    assert Holds(s.threads[me.thread], me.frame, l);
    assert HoldsLockAt(s, me.thread, me.frame);
  }

  ghost predicate HoldsLockAt(s: State, t: nat, i: nat) {
    t < |s.threads| && i < |s.threads[t].frames| && HoldsLock(s.threads[t].frames[i])
  }

  predicate SameLock(k: Key, j: Key) { k.hash % 64 == j.hash % 64 }

  lemma OneHolderToALock(s: State, t: nat, i: nat, u: nat, j: nat)
    requires Reachable(s) && HoldsLockAt(s, t, i) && HoldsLockAt(s, u, j)
    requires SameLock(s.threads[t].frames[i].key, s.threads[u].frames[j].key)
    ensures t == u && i == j
  {
    hide Reachable, SlotsOk, ClaimsOk, HistoryOk, ThreadsOk;
    ReachableInv(s);
    var l := LockOf(s.threads[t].frames[i].key);
    assert Holds(s.threads[t], i, l) && Holds(s.threads[u], j, l);
  }

  /** The cache stays within its limit. */
  lemma CacheStaysSmall(s: State)
    requires Reachable(s)
    ensures |s.g.cache| <= 512
  {
    ReachableInv(s);
  }
}
