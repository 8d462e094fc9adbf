/**
  What a run of the response cache leaves in the cache, told from its events: a build that answered
  is stored, stays until another one is stored under its key or it is evicted, and is what later
  calls get while it is young enough. Refreshes therefore renew the copy they were started for.
 */
module CacheFreshness {
  import opened Prelude
  import opened ResponseCache
  import opened CacheSafety
  import opened CacheOutcomes

  // ---------------------------------------------------------------------------------------
  // What one event does to an entry

  /** The thread has a payload for `k` in hand, from a refresh or from the build of its newest call. */
  ghost predicate HasInHand(th: Thread, a: Action, k: Key, v: Payload) {
    || (a.BgStore? && th.role == BgStoring(k, v))
    || (a.Store? && th.frames != [] && th.Top().key == k && th.Top().pc.Storing? && th.Top().pc.val == v)
  }

  predicate IsStore(a: Action) { a.Store? || a.BgStore? }

  /** The event stores `v` under `k` at `now`. */
  ghost predicate Puts(s: State, e: Event, k: Key, v: Payload, now: real)
    requires Happens(s, e)
  {
    e.Act? && IsStore(e.action) && e.action.now == now && HasInHand(s.threads[e.thread], e.action, k, v)
  }

  /** The event stores something under `k`, or drops `k` to make room. */
  ghost predicate Touches(s: State, e: Event, k: Key)
    requires Happens(s, e)
  {
    e.Act? && IsStore(e.action) && (k in e.action.victims || exists v :: HasInHand(s.threads[e.thread], e.action, k, v))
  }

  lemma StoreInCall(g: Shared, me: Owner, building: nat, f: Frame, a: Action)
    requires CallEnabled(g, building, f, a) && a.Store?
    ensures CallStep(g, me, building, f, a).g.cache == (g.cache - a.victims)[f.key := Hit(a.now, f.pc.val)]
  {
    hide Evictable;
  }

  lemma OtherCallsKeepCache(g: Shared, me: Owner, building: nat, f: Frame, a: Action)
    requires CallEnabled(g, building, f, a) && !a.Store?
    ensures CallStep(g, me, building, f, a).g.cache == g.cache
  {
    hide Evictable, Insert, DoLook;
  }

  /** Only a step that stores changes the cache: it drops its victims and puts what it has in hand. */
  lemma CacheOfStep(g: Shared, t: nat, th: Thread, a: Action, k: Key, v: Payload)
    requires ThreadEnabled(g, th, a)
    ensures !IsStore(a) ==> ThreadStep(g, t, th, a).g.cache == g.cache
    ensures IsStore(a) && HasInHand(th, a, k, v) ==>
              ThreadStep(g, t, th, a).g.cache == (g.cache - a.victims)[k := Hit(a.now, v)]
  {
    hide CallStep, CallMove, Evictable, Insert, AfterStore;
    if th.frames != [] && CallEnabled(g, th.building, th.Top(), a) {
      var me := Owner(t, |th.frames| - 1);
      if a.Store? {
        StoreInCall(g, me, th.building, th.Top(), a);
      } else {
        OtherCallsKeepCache(g, me, th.building, th.Top(), a);
      }
    } else {
      CacheOfRefresh(g, t, th, a);
    }
  }

  lemma CacheOfRefresh(g: Shared, t: nat, th: Thread, a: Action)
    requires ThreadEnabled(g, th, a)
    requires th.frames != [] ==> !CallEnabled(g, th.building, th.Top(), a)
    ensures var o := ThreadStep(g, t, th, a);
      && (!a.BgStore? ==> o.g.cache == g.cache)
      && (a.BgStore? ==> th.role.BgStoring? && o.g.cache == (g.cache - a.victims)[th.role.key := Hit(a.now, th.role.val)])
    ensures !a.Store?
  {
    hide CallStep, CallMove, Evictable;
  }

  /** A step that stores always has something in hand. */
  lemma StoresHaveSomething(g: Shared, th: Thread, a: Action) returns (k: Key, v: Payload)
    requires ThreadEnabled(g, th, a) && IsStore(a)
    ensures HasInHand(th, a, k, v)
  {
    hide Evictable;
    if a.BgStore? {
      k, v := th.role.key, th.role.val;
    } else {
      k, v := th.Top().key, th.Top().pc.val;
    }
  }

  /** A payload that is stored is there at once, with the time it was stored. */
  lemma PutIsThere(s: State, e: Event, k: Key, v: Payload, now: real)
    requires Happens(s, e) && Puts(s, e, k, v, now)
    ensures k in After(s, e).g.cache && After(s, e).g.cache[k] == Hit(now, v)
  {
    hide ThreadStep, ThreadEnabled, HasInHand;
    CacheOfStep(s.g, e.thread, s.threads[e.thread], e.action, k, v);
  }

  /** What an event does not touch it leaves as it is. */
  lemma UntouchedStays(s: State, e: Event, k: Key)
    requires Happens(s, e) && !Touches(s, e, k)
    ensures k in After(s, e).g.cache <==> k in s.g.cache
    ensures k in s.g.cache ==> After(s, e).g.cache[k] == s.g.cache[k]
  {
    hide ThreadStep, ThreadEnabled, HasInHand;
    if e.Act? {
      var th, a := s.threads[e.thread], e.action;
      if IsStore(a) {
        var k', v' := StoresHaveSomething(s.g, th, a);
        assert k' != k;
        CacheOfStep(s.g, e.thread, th, a, k', v');
      } else {
        CacheOfStep(s.g, e.thread, th, a, k, 0);
      }
    }
  }

  // ---------------------------------------------------------------------------------------
  // Over runs

  /** No event of the run stores under `k` or evicts it. */
  ghost predicate Untouched(s: State, events: seq<Event>, k: Key)
    requires Run(s, events)
    decreases |events|
  {
    events != [] ==> !Touches(s, events[0], k) && Untouched(After(s, events[0]), events[1..], k)
  }

  /** An entry stands until an event stores under its key again or evicts it. */
  lemma {:induction false} EntryStands(s: State, events: seq<Event>, k: Key)
    requires Run(s, events) && Untouched(s, events, k)
    ensures k in End(s, events).g.cache <==> k in s.g.cache
    ensures k in s.g.cache ==> End(s, events).g.cache[k] == s.g.cache[k]
    decreases |events|
  {
    if events != [] {
      hide Happens, After, Touches;
      UntouchedStays(s, events[0], k);
      EntryStands(After(s, events[0]), events[1..], k);
    }
  }

  /** Somewhere in the run `v` was stored under `k` at `now`, and nothing touched `k` after that. */
  ghost predicate LastPut(s: State, events: seq<Event>, k: Key, v: Payload, now: real)
    requires Run(s, events)
    decreases |events|
  {
    && events != []
    && var s' := After(s, events[0]);
      || (Puts(s, events[0], k, v, now) && Untouched(s', events[1..], k))
      || LastPut(s', events[1..], k, v, now)
  }

  lemma {:induction false} LastPutIsThere(s: State, events: seq<Event>, k: Key, v: Payload, now: real)
    requires Run(s, events) && LastPut(s, events, k, v, now)
    ensures k in End(s, events).g.cache && End(s, events).g.cache[k] == Hit(now, v)
    decreases |events|
  {
    hide Happens, After, Puts;
    var s' := After(s, events[0]);
    if LastPut(s', events[1..], k, v, now) {
      LastPutIsThere(s', events[1..], k, v, now);
    } else {
      PutIsThere(s, events[0], k, v, now);
      EntryStands(s', events[1..], k);
    }
  }

  /** An entry was there before and not touched, or put there by a step of the run. */
  lemma {:induction false} EntryWasPut(s: State, events: seq<Event>, k: Key)
    requires Run(s, events) && k in End(s, events).g.cache
    ensures var h := End(s, events).g.cache[k];
      || (Untouched(s, events, k) && k in s.g.cache)
      || LastPut(s, events, k, h.val, h.ts)
    decreases |events|
  {
    if events != [] {
      hide Happens, After, Puts, Touches;
      var e, s' := events[0], After(s, events[0]);
      var h := End(s, events).g.cache[k];
      EntryWasPut(s', events[1..], k);
      if Untouched(s', events[1..], k) && k in s'.g.cache {
        EntryStands(s', events[1..], k);
        if Touches(s, e, k) {
          TouchedIsPut(s, e, k);
        } else {
          UntouchedStays(s, e, k);
        }
      }
    }
  }

  /** A key that an event touches and leaves in the cache is the one it stored under. */
  lemma TouchedIsPut(s: State, e: Event, k: Key)
    requires Happens(s, e) && Touches(s, e, k) && k in After(s, e).g.cache
    ensures var h := After(s, e).g.cache[k];
      Puts(s, e, k, h.val, h.ts)
  {
    hide ThreadStep, ThreadEnabled;
    var th, a := s.threads[e.thread], e.action;
    var k', v' := StoresHaveSomething(s.g, th, a);
    hide HasInHand;
    CacheOfStep(s.g, e.thread, th, a, k', v');
    if k' != k {
      OneInHand(th, a, k', v');
    }
  }

  lemma OneInHand(th: Thread, a: Action, k: Key, v: Payload)
    requires HasInHand(th, a, k, v)
    ensures forall k', v' | HasInHand(th, a, k', v') :: k' == k && v' == v
  {
  }

  /**
    What is in the cache is exactly what was put there last: in any run of a fresh process a key has
    the payload `v` of time `now` if and only if some event stored that under the key and no later one
    stored under it or evicted it.
   */
  lemma CacheIsWhatWasPut(s0: State, events: seq<Event>, k: Key, v: Payload, now: real)
    requires Initial(s0) && Run(s0, events)
    ensures k in End(s0, events).g.cache && End(s0, events).g.cache[k] == Hit(now, v) <==> LastPut(s0, events, k, v, now)
  {
    hide Run, End, LastPut, Untouched;
    if LastPut(s0, events, k, v, now) {
      LastPutIsThere(s0, events, k, v, now);
    } else if k in End(s0, events).g.cache {
      EntryWasPut(s0, events, k);
    }
  }

  // ---------------------------------------------------------------------------------------
  // A refresh renews the copy

  /** In a step of another thread nothing happens to this one. */
  lemma OthersLeaveThread(s: State, e: Event, t: nat)
    requires Happens(s, e) && t < |s.threads| && (e.Act? ==> e.thread != t)
    ensures t < |After(s, e).threads| && After(s, e).threads[t] == s.threads[t]
  {
    hide ThreadStep, ThreadEnabled;
  }

  /** A refresh thread that has its answer does nothing but store it. */
  lemma OnlyStores(g: Shared, th: Thread, a: Action)
    requires ThreadOk(th) && th.role.BgStoring? && ThreadEnabled(g, th, a)
    ensures a.BgStore? && HasInHand(th, a, th.role.key, th.role.val)
  {
    hide Evictable;
  }

  lemma AnswersPutInHand(s: State, t: nat, v: Payload)
    requires Happens(s, Act(t, BgAnswers(v)))
    ensures var k := s.threads[t].role.key;
      t < |After(s, Act(t, BgAnswers(v))).threads| && After(s, Act(t, BgAnswers(v))).threads[t].role == BgStoring(k, v)
  {
    hide CallMove, CallStep;
  }

  /** Event number `n` of the run is this thread's store of `v` under `k`. */
  ghost predicate StoredAt(s: State, events: seq<Event>, n: nat, t: nat, k: Key, v: Payload) {
    && n < |events| && events[n].Act? && events[n].thread == t && events[n].action.BgStore?
    && Run(s, events[..n]) && Happens(End(s, events[..n]), events[n])
    && Puts(End(s, events[..n]), events[n], k, v, events[n].action.now)
  }

  lemma StoredAtLater(s: State, events: seq<Event>, n: nat, t: nat, k: Key, v: Payload)
    requires Run(s, events) && events != [] && StoredAt(After(s, events[0]), events[1..], n, t, k, v)
    ensures StoredAt(s, events, n + 1, t, k, v)
  {
    hide Happens, After, Puts;
    assert events[..n + 1][1..] == events[1..][..n];
    assert events[..n + 1][0] == events[0];
  }

  /** The thread still has `v` in hand, or has stored it. */
  ghost predicate StillOrStored(s: State, events: seq<Event>, t: nat, k: Key, v: Payload)
    requires Run(s, events)
  {
    || (t < |End(s, events).threads| && End(s, events).threads[t].role == BgStoring(k, v))
    || exists n: nat :: StoredAt(s, events, n, t, k, v)
  }

  lemma {:induction false} HandIsStored(s: State, events: seq<Event>, t: nat, k: Key, v: Payload)
    requires Inv(s) && Run(s, events) && t < |s.threads| && s.threads[t].role == BgStoring(k, v)
    ensures StillOrStored(s, events, t, k, v)
    decreases |events|
  {
    if events != [] {
      var e := events[0];
      if e.Act? && e.thread == t {
        StoresFirst(s, events, t, k, v);
      } else {
        EventKeepsInv(s, e);
        OthersLeaveThread(s, e, t);
        hide Happens, After, Inv, StoredAt;
        HandIsStored(After(s, e), events[1..], t, k, v);
        if n: nat :| StoredAt(After(s, e), events[1..], n, t, k, v) {
          StoredAtLater(s, events, n, t, k, v);
        }
      }
    }
  }

  lemma StoresFirst(s: State, events: seq<Event>, t: nat, k: Key, v: Payload)
    requires Inv(s) && Run(s, events) && t < |s.threads| && s.threads[t].role == BgStoring(k, v)
    requires events != [] && events[0].Act? && events[0].thread == t
    ensures StoredAt(s, events, 0, t, k, v)
  {
    assert ThreadOk(s.threads[t]);
    hide ThreadOk, LocksOk, SlotsOk, ClaimsOk, HistoryOk, ThreadStep, ThreadEnabled;
    OnlyStores(s.g, s.threads[t], events[0].action);
    assert events[..0] == [];
  }

  /**
    The answer of a refresh is stored. Once the builder of a refresh of `k` has answered `v`, whatever
    happens then, its thread still has `v` to store, or there is an event at which it stored `v` under
    `k`. It does not end without that.
   */
  lemma RefreshStores(s: State, t: nat, v: Payload, events: seq<Event>)
    requires Reachable(s) && Happens(s, Act(t, BgAnswers(v))) && Run(After(s, Act(t, BgAnswers(v))), events)
    ensures StillOrStored(After(s, Act(t, BgAnswers(v))), events, t, s.threads[t].role.key, v)
  {
    hide Happens, After, Inv, StillOrStored;
    AnswersPutInHand(s, t, v);
    ReachableInv(s);
    EventKeepsInv(s, Act(t, BgAnswers(v)));
    assert s.threads[t].role.BgBuilding? by { IsBuilding(s, t, v); }
    HandIsStored(After(s, Act(t, BgAnswers(v))), events, t, s.threads[t].role.key, v);
  }

  lemma IsBuilding(s: State, t: nat, v: Payload)
    requires Happens(s, Act(t, BgAnswers(v)))
    ensures t < |s.threads| && s.threads[t].role.BgBuilding?
  {
  }

  /** The thread's newest call is for `k`. */
  ghost predicate NewestIs(s: State, t: nat, k: Key, ttl: real) {
    t < |s.threads| && s.threads[t].frames != [] && s.threads[t].Top().key == k && s.threads[t].Top().ttl == ttl
  }

  /** The thread's newest call is over, and this is its answer. */
  ghost predicate IsServed(s: State, t: nat, h: Hit) {
    t < |s.threads| && s.threads[t].frames != [] && s.threads[t].Top().pc == Done(Value(h))
  }

  /** A look that finds a copy younger than its time to live ends the call with that copy. */
  lemma YoungCopyIsServed(s: State, t: nat, at: real, k: Key, ttl: real)
    requires Happens(s, Act(t, Look(at))) && NewestIs(s, t, k, ttl)
    requires k in s.g.cache && at - s.g.cache[k].ts < ttl
    ensures IsServed(After(s, Act(t, Look(at))), t, s.g.cache[k])
  {
  }

  /** ... and so does the second look, once the call has given back the compute lock it may hold. */
  lemma YoungCopyIsServedAgain(s: State, t: nat, at: real, k: Key, ttl: real)
    requires Happens(s, Act(t, LookAgain(at))) && NewestIs(s, t, k, ttl)
    requires k in s.g.cache && at - s.g.cache[k].ts < ttl
    ensures var s' := After(s, Act(t, LookAgain(at)));
      Happens(s', Act(t, Unlock)) && IsServed(After(s', Act(t, Unlock)), t, s.g.cache[k])
  {
    hide Evictable, Insert, InBuilder, BuilderBudget, Charge;
    var th := s.threads[t];
    var m := CallStep(s.g, Owner(t, |th.frames| - 1), th.building, th.Top(), LookAgain(at));
    var s' := After(s, Act(t, LookAgain(at)));
    assert s'.threads[t].Top() == m.f;
    assert CallEnabled(s'.g, s'.threads[t].building, s'.threads[t].Top(), Unlock);
  }

  /**
    A refresh renews the copy. A refresh of `k` whose builder answered `v` stores it at `now`; for as
    long as no event stores under `k` again or evicts it, a call that looks less than its time to
    live later gets `v`, whatever else the threads have done meanwhile.
   */
  lemma RenewedCopyIsServed(
      s: State, t: nat, v: Payload, meanwhile: seq<Event>, s1: State, now: real, victims: set<Key>,
      later: seq<Event>, s2: State, u: nat, at: real, ttl: real)
    requires Reachable(s) && Happens(s, Act(t, BgAnswers(v))) && s.threads[t].role.BgBuilding?
    requires Run(After(s, Act(t, BgAnswers(v))), meanwhile) && s1 == End(After(s, Act(t, BgAnswers(v))), meanwhile)
    requires var k, stores := s.threads[t].role.key, Act(t, BgStore(now, victims));
      && Happens(s1, stores) && Run(After(s1, stores), later) && s2 == End(After(s1, stores), later)
      && Untouched(After(s1, stores), later, k)
      && NewestIs(s2, u, k, ttl)
    requires Happens(s2, Act(u, Look(at))) && at - now < ttl
    ensures IsServed(After(s2, Act(u, Look(at))), u, Hit(now, v))
  {
    var k := s.threads[t].role.key;
    hide *;
    AnswersPutInHand(s, t, v);
    ReachableInv(s);
    EventKeepsInv(s, Act(t, BgAnswers(v)));
    StaysInHand(After(s, Act(t, BgAnswers(v))), meanwhile, t, k, v);
    ServedFromHere(s1, t, k, v, now, victims, later, s2, u, at, ttl);
  }

  lemma ServedFromHere(
      s: State, t: nat, k: Key, v: Payload, now: real, victims: set<Key>, later: seq<Event>, s2: State, u: nat, at: real, ttl: real)
    requires t < |s.threads| && (s.threads[t].role == BgStoring(k, v) || Spent(s.threads[t].role))
    requires var stores := Act(t, BgStore(now, victims));
      && Happens(s, stores) && Run(After(s, stores), later) && Untouched(After(s, stores), later, k)
      && s2 == End(After(s, stores), later)
    requires Happens(s2, Act(u, Look(at))) && NewestIs(s2, u, k, ttl) && at - now < ttl
    ensures IsServed(After(s2, Act(u, Look(at))), u, Hit(now, v))
  {
    hide *;
    var stores := Act(t, BgStore(now, victims));
    StoresWhatItHas(s, t, k, v, now, victims);
    PutIsThere(s, stores, k, v, now);
    EntryStands(After(s, stores), later, k);
    YoungCopyIsServed(s2, u, at, k, ttl);
  }

  /** A refresh thread that has stored its answer, or never got one. */
  predicate Spent(r: Role) { r.BgReleasing? || r.BgDiscarding? || r.BgGone? }

  lemma RefreshEnds(g: Shared, t: nat, th: Thread, a: Action)
    requires ThreadOk(th) && ThreadEnabled(g, th, a)
    ensures th.role.BgStoring? || Spent(th.role) ==> Spent(ThreadStep(g, t, th, a).th.role)
  {
    hide Evictable, CallStep;
  }

  /** What a refresh thread has in hand does not change under it. */
  lemma {:induction false} StaysInHand(s: State, events: seq<Event>, t: nat, k: Key, v: Payload)
    requires Inv(s) && Run(s, events) && t < |s.threads|
    requires s.threads[t].role == BgStoring(k, v) || Spent(s.threads[t].role)
    ensures t < |End(s, events).threads|
    ensures End(s, events).threads[t].role == BgStoring(k, v) || Spent(End(s, events).threads[t].role)
    decreases |events|
  {
    if events != [] {
      var e := events[0];
      EventKeepsInv(s, e);
      if e.Act? && e.thread == t {
        assert ThreadOk(s.threads[t]);
        hide ThreadStep, ThreadEnabled, ThreadOk, LocksOk, SlotsOk, ClaimsOk, HistoryOk;
        RefreshEnds(s.g, t, s.threads[t], e.action);
      } else {
        OthersLeaveThread(s, e, t);
      }
      hide Happens, After, Inv;
      StaysInHand(After(s, e), events[1..], t, k, v);
    }
  }

  lemma StoresWhatItHas(s: State, t: nat, k: Key, v: Payload, now: real, victims: set<Key>)
    requires t < |s.threads| && (s.threads[t].role == BgStoring(k, v) || Spent(s.threads[t].role))
    requires Happens(s, Act(t, BgStore(now, victims)))
    ensures Puts(s, Act(t, BgStore(now, victims)), k, v, now)
  {
  }

  /** A call that stores, stores what its own builder answered, under its own key. */
  lemma CallStoresWhatItBuilt(s: State, t: nat, now: real, victims: set<Key>) returns (v: Payload)
    requires Reachable(s) && Happens(s, Act(t, ResponseCache.Store(now, victims)))
    ensures WasBuilt(s.threads[t].Top(), v)
    ensures Puts(s, Act(t, ResponseCache.Store(now, victims)), s.threads[t].Top().key, v, now)
  {
    ReachableInv(s);
    v := s.threads[t].Top().pc.val;
    assert AnswersOk(s.g, s.threads[t]);
    assert FrameOk(s.g, s.threads[t].Top());
    hide WasBuilt, FallbackOk, Evictable, Inv, Reachable;
  }

  // ---------------------------------------------------------------------------------------
  // How old an answer may be, and when a call builds

  /** How old the copy was when step number `i` of the call found it. */
  ghost function AgeAt(f: Frame, i: nat, h: Hit): real
    requires FoundCopy(f, i, h)
  {
    f.past[i].a.now - h.ts
  }

  /** A copy the call found is served, unless the call failed, only within its time to live or five of them or 20 s. */
  lemma AgesAreBounded(s: State, t: nat, i: nat, h: Hit)
    requires Reachable(s) && t < |s.threads| && i < |s.threads[t].frames|
    requires s.threads[t].frames[i].pc == Done(Value(h))
    ensures var f := s.threads[t].frames[i];
      || (WasBuilt(f, h.val) && WasStored(f, h.ts))
      || (exists n: nat :: FoundCopy(f, n, h) && AgeAt(f, n, h) < f.ttl)
      || (exists n: nat :: FoundCopy(f, n, h) && f.ttl <= AgeAt(f, n, h) && (AgeAt(f, n, h) < f.ttl * 5.0 || AgeAt(f, n, h) < 20.0))
      || (Failed(f) && exists n: nat :: FoundCopy(f, n, h) && f.ttl * 5.0 <= AgeAt(f, n, h) && 20.0 <= AgeAt(f, n, h))
  {
    var f := s.threads[t].frames[i];
    AnswersAreFromTheirKey(s, t, i);
    hide Reachable, FoundCopy, Failed, WasBuilt, WasStored, SeenTo;
    if ReadFresh(f, h) {
      var n: nat :| FoundFresh(f, n, h);
      assert FoundCopy(f, n, h) && AgeAt(f, n, h) < f.ttl;
    } else if ServedStale(f, h) {
      var n: nat :| FoundStale(f, n, h);
      assert FoundCopy(f, n, h) && f.ttl <= AgeAt(f, n, h);
    } else if !BuiltIt(f, h) {
      var n: nat :| FoundCopy(f, n, h) && f.past[n].a.Look? && f.past[n].a.now - h.ts >= StaleBound(f.ttl);
      assert FoundCopy(f, n, h) && 20.0 <= AgeAt(f, n, h);
    }
  }

  /** The call found no copy within its time to live at its second look, with the lock in hand. */
  ghost predicate LookedInVain(f: Frame) {
    exists i: nat :: i < |f.past| && InVain(f, f.past[i])
  }

  ghost predicate InVain(f: Frame, d: Did) {
    d.a.LookAgain? && (f.key in d.g.cache ==> d.a.now - d.g.cache[f.key].ts >= f.ttl)
  }

  predicate HasBuilt(f: Frame) {
    f.pc.Building? || f.pc.Storing? || exists i: nat :: i < |f.past| && f.past[i].a.BuilderAnswers?
  }

  /** A call runs its builder only after that. */
  ghost predicate BuildsForCause(f: Frame) { HasBuilt(f) ==> LookedInVain(f) }

  lemma StepBuildsForCause(g: Shared, me: Owner, building: nat, f: Frame, a: Action)
    requires CallEnabled(g, building, f, a) && BuildsForCause(f)
    ensures var m := CallStep(g, me, building, f, a);
      BuildsForCause(m.f) && forall x <- m.started :: x.frames == []
  {
    hide Evictable, Insert, StandsIn;
    var m := CallStep(g, me, building, f, a);
    assert HasDoneMore(f, m.f);
    if LookedInVain(f) {
      var i: nat :| i < |f.past| && InVain(f, f.past[i]);
      assert InVain(m.f, m.f.past[i]);
    } else if HasBuilt(m.f) {
      assert m.f.past[|f.past|] == Did(a, g);
      assert InVain(m.f, m.f.past[|f.past|]);
    }
  }

  ghost predicate ThreadBuildsForCause(th: Thread) { forall f <- th.frames :: BuildsForCause(f) }

  lemma PaidForCause(f: Frame, budget: nat)
    requires BuildsForCause(f)
    ensures BuildsForCause(f.(budget := budget))
  {
    var f' := f.(budget := budget);
    if HasBuilt(f') {
      var i: nat :| i < |f.past| && InVain(f, f.past[i]);
      assert InVain(f', f'.past[i]);
    }
  }

  lemma ThreadStepForCause(g: Shared, t: nat, th: Thread, a: Action)
    requires ThreadEnabled(g, th, a) && ThreadBuildsForCause(th)
    ensures ThreadBuildsForCause(ThreadStep(g, t, th, a).th)
    ensures forall x <- ThreadStep(g, t, th, a).started :: ThreadBuildsForCause(x)
  {
    hide CallStep, CallEnabled, RefreshEnabled, BuildsForCause;
    if th.frames != [] && CallEnabled(g, th.building, th.Top(), a) {
      StepBuildsForCause(g, Owner(t, |th.frames| - 1), th.building, th.Top(), a);
    } else if a.Call? {
      if th.frames != [] && a.budget < BuilderBudget(th) {
        PaidForCause(th.Top(), th.Top().budget - (a.budget + 1));
      }
      NewCallHasNotBuilt(Frame(a.key, a.ttl, a.budget, g.clock, 0, None, Lookup, []));
    }
  }

  lemma NewCallHasNotBuilt(f: Frame)
    requires f.past == [] && f.pc == Lookup
    ensures BuildsForCause(f)
  {
  }

  lemma {:induction false} RunBuildsForCause(s: State, events: seq<Event>)
    requires Run(s, events) && forall th <- s.threads :: ThreadBuildsForCause(th)
    ensures forall th <- End(s, events).threads :: ThreadBuildsForCause(th)
    decreases |events|
  {
    if events != [] {
      hide ThreadStep, ThreadEnabled, ThreadBuildsForCause;
      if events[0].Act? {
        ThreadStepForCause(s.g, events[0].thread, s.threads[events[0].thread], events[0].action);
      }
      RunBuildsForCause(After(s, events[0]), events[1..]);
    }
  }

  /**
    Nothing is built while a fresh copy is there: every call that runs or has run its builder looked
    again first, and found no copy within its time to live.
   */
  lemma BuildsOnlyForCause(s: State, t: nat, i: nat)
    requires Reachable(s) && t < |s.threads| && i < |s.threads[t].frames| && HasBuilt(s.threads[t].frames[i])
    ensures var f := s.threads[t].frames[i];
      exists n: nat :: n < |f.past| && InVain(f, f.past[n])
  {
    var s0, events :| Initial(s0) && Run(s0, events) && End(s0, events) == s;
    hide Run, End, HasBuilt, InVain;
    RunBuildsForCause(s0, events);
    assert s.threads[t] in s.threads && ThreadBuildsForCause(s.threads[t]);
    assert BuildsForCause(s.threads[t].frames[i]);
  }

  // ---------------------------------------------------------------------------------------
  // Payloads are what builders answered

  /** A builder of `k` answers `v`: that of the thread's newest call, or of the refresh it runs. */
  ghost predicate Answers(s: State, e: Event, k: Key, v: Payload)
    requires Happens(s, e)
  {
    && e.Act?
    && var th := s.threads[e.thread];
      || (e.action == BuilderAnswers(v) && th.frames != [] && th.Top().key == k)
      || (e.action == BgAnswers(v) && th.role.BgBuilding? && th.role.key == k)
  }

  lemma AnswersAreMade(s: State, e: Event, k: Key, v: Payload)
    requires Happens(s, e)
    ensures (k, v) in After(s, e).g.made <==> (k, v) in s.g.made || Answers(s, e, k, v)
  {
    if e.Act? {
      MadeByStep(s.g, e.thread, s.threads[e.thread], e.action);
      hide ThreadStep, ThreadEnabled;
    }
  }

  /** What a step adds to the payloads ever answered. */
  ghost function Adds(th: Thread, a: Action): set<(Key, Payload)> {
    if a.BuilderAnswers? && th.frames != [] then {(th.Top().key, a.val)}
    else if a.BgAnswers? && th.role.BgBuilding? then {(th.role.key, a.val)}
    else {}
  }

  lemma MadeByCall(g: Shared, me: Owner, building: nat, f: Frame, a: Action)
    requires CallEnabled(g, building, f, a)
    ensures CallStep(g, me, building, f, a).g.made == g.made + (if a.BuilderAnswers? then {(f.key, a.val)} else {})
  {
    hide Evictable, AfterStore, DoLook;
  }

  lemma MadeByStep(g: Shared, t: nat, th: Thread, a: Action)
    requires ThreadEnabled(g, th, a)
    ensures ThreadStep(g, t, th, a).g.made == g.made + Adds(th, a)
  {
    hide CallStep, Evictable, AfterStore;
    if th.frames != [] && CallEnabled(g, th.building, th.Top(), a) {
      MadeByCall(g, Owner(t, |th.frames| - 1), th.building, th.Top(), a);
    }
  }

  ghost predicate Answered(s: State, events: seq<Event>, k: Key, v: Payload)
    requires Run(s, events)
    decreases |events|
  {
    events != [] && (Answers(s, events[0], k, v) || Answered(After(s, events[0]), events[1..], k, v))
  }

  lemma {:induction false} MadeIsAnswered(s: State, events: seq<Event>, k: Key, v: Payload)
    requires Run(s, events)
    ensures (k, v) in End(s, events).g.made <==> (k, v) in s.g.made || Answered(s, events, k, v)
    decreases |events|
  {
    if events != [] {
      hide Happens, After, Answers;
      AnswersAreMade(s, events[0], k, v);
      MadeIsAnswered(After(s, events[0]), events[1..], k, v);
    }
  }

  /** In any run of a fresh process, whatever is in the cache under `k` a builder of `k` answered. */
  lemma CachedWasAnswered(s0: State, events: seq<Event>, k: Key)
    requires Initial(s0) && Run(s0, events) && k in End(s0, events).g.cache
    ensures Answered(s0, events, k, End(s0, events).g.cache[k].val)
  {
    InitialInv(s0);
    RunKeepsInv(s0, events);
    var h := End(s0, events).g.cache[k];
    MadeIsAnswered(s0, events, k, h.val);
    CachedIsMade(End(s0, events), k);
    hide Run, End, Answered, Inv;
  }

  lemma CachedIsMade(s: State, k: Key)
    requires Inv(s) && k in s.g.cache
    ensures (k, s.g.cache[k].val) in s.g.made
  {
    hide ThreadsOk, LocksOk, SlotsOk, ClaimsOk, AnswersOk;
    var e := (k, s.g.cache[k]);
    assert e in s.g.stored;
  }
}
