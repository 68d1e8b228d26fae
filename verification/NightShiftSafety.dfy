/** What every step of the night shift keeps: mutual exclusion, coherent temporaries, and the stock. */
module NightShiftSafety {
  import opened NightShift

  /** Worker v has locked what its program counter says it has. */
  ghost predicate HoldsItsOwn(s: Shop, v: nat)
    requires Shaped(s) && v < |s.workers|
  {
    var p, k := s.program, s.workers[v];
    && (HoldsLow(p, k.pc) ==> s.mutexes[MutexOf(p, k.lo)] == Held(v))
    && (HoldsHigh(p, k.pc) ==> s.mutexes[MutexOf(p, k.hi)] == Held(v))
  }

  /** Mutex m, if locked, is locked by a worker whose program counter says so. */
  ghost predicate Accounted(s: Shop, m: nat)
    requires Shaped(s) && m < MAX_SHELVES
  {
    s.mutexes[m].Held? ==>
      var p, w := s.program, s.mutexes[m].owner;
      && w < |s.workers|
      && (|| (HoldsLow(p, s.workers[w].pc) && m == MutexOf(p, s.workers[w].lo))
          || (HoldsHigh(p, s.workers[w].pc) && m == MutexOf(p, s.workers[w].hi)))
  }

  /** A worker's temporaries agree with the shelves it has locked. */
  ghost predicate Sound(p: Program, shelves: seq<int>, k: Worker)
    requires Active(k.pc) ==> k.lo < k.hi < |shelves|
  {
    && (k.pc == LoadHigh ==> shelves[k.lo] == k.x)
    && (k.pc == StoreLow ==> shelves[k.lo] == k.x && shelves[k.hi] == k.y)
    && (k.pc == StoreHigh ==> shelves[k.lo] == k.y && shelves[k.hi] == k.y)
    && (p == CompareInside ==>
          && (k.pc == ReadHigh ==> k.seen == shelves[k.lo])
          && (k.pc == LoadLow || k.pc == LoadHigh ==> shelves[k.lo] > shelves[k.hi])
          && (k.pc == StoreLow || k.pc == StoreHigh ==> k.x > k.y))
  }

  ghost predicate SoundAt(s: Shop, v: nat)
    requires Shaped(s) && v < |s.workers|
  {
    Sound(s.program, s.shelves, s.workers[v])
  }

  ghost predicate Inv(s: Shop) {
    && Shaped(s)
    && (forall v :: 0 <= v < |s.workers| ==> HoldsItsOwn(s, v))
    && (forall m :: 0 <= m < MAX_SHELVES ==> Accounted(s, m))
    && (forall v :: 0 <= v < |s.workers| ==> SoundAt(s, v))
  }

  lemma InitialInv(s: Shop)
    requires Initial(s)
    ensures Inv(s)
  {}

  /** Picking shelves and leaving for good: nothing is locked before or after. */
  lemma {:induction false} IdleStepKeepsInv(s: Shop, w: nat, k: Worker)
    requires Inv(s) && w < |s.workers| && s.workers[w].pc == Idle
    requires k.pc == Exited || k.pc == WantLow || (k.pc == ReadLow && s.program == CompareBefore)
    requires Active(k.pc) ==> k.lo < k.hi < |s.shelves|
    ensures Inv(s.(workers := s.workers[w := k]))
  {
    var t := s.(workers := s.workers[w := k]);
    forall m | 0 <= m < MAX_SHELVES
      ensures Accounted(t, m)
    {
      assert Accounted(s, m);
    }
    forall v | 0 <= v < |s.workers|
      ensures HoldsItsOwn(t, v) && SoundAt(t, v)
    {
      assert HoldsItsOwn(s, v) && SoundAt(s, v);
    }
  }

  lemma {:induction false} DieKeepsInv(s: Shop, w: nat)
    requires Inv(s) && Enabled(s, Die(w))
    ensures Inv(Apply(s, Die(w)))
  {
    var t := Apply(s, Die(w));
    forall m | 0 <= m < MAX_SHELVES
      ensures Accounted(t, m)
    {
      assert Accounted(s, m);
    }
    forall v | 0 <= v < |s.workers|
      ensures HoldsItsOwn(t, v) && SoundAt(t, v)
    {
      assert HoldsItsOwn(s, v) && SoundAt(s, v);
    }
  }

  lemma {:induction false} AdvanceKeepsAccounted(s: Shop, w: nat, m: nat)
    requires Shaped(s) && Enabled(s, Advance(w)) && m < MAX_SHELVES && Accounted(s, m) && HoldsItsOwn(s, w)
    ensures Accounted(Apply(s, Advance(w)), m)
  {
    var t, k := Apply(s, Advance(w)), s.workers[w];
    if m != MutexOf(s.program, k.lo) && m != MutexOf(s.program, k.hi) {
      assert t.mutexes[m] == s.mutexes[m];
    }
  }

  lemma {:induction false} AdvanceKeepsHolder(s: Shop, w: nat, v: nat)
    requires Shaped(s) && Enabled(s, Advance(w)) && v < |s.workers| && HoldsItsOwn(s, v) && HoldsItsOwn(s, w)
    ensures HoldsItsOwn(Apply(s, Advance(w)), v)
  {
    if v != w {
      assert Apply(s, Advance(w)).workers[v] == s.workers[v];
    }
  }

  /** Two workers never hold the same shelf, so neither sees the other's stores there. */
  lemma {:induction false} AdvanceKeepsSound(s: Shop, w: nat, v: nat)
    requires Shaped(s) && Enabled(s, Advance(w)) && v < |s.workers|
    requires HoldsItsOwn(s, v) && HoldsItsOwn(s, w) && SoundAt(s, v) && SoundAt(s, w)
    ensures SoundAt(Apply(s, Advance(w)), v)
  {
    if v != w {
      assert Apply(s, Advance(w)).workers[v] == s.workers[v];
    }
  }

  lemma {:induction false} AdvanceKeepsInv(s: Shop, w: nat)
    requires Inv(s) && Enabled(s, Advance(w))
    ensures Inv(Apply(s, Advance(w)))
  {
    var t := Apply(s, Advance(w));
    assert HoldsItsOwn(s, w) && SoundAt(s, w);
    forall m | 0 <= m < MAX_SHELVES
      ensures Accounted(t, m)
    {
      AdvanceKeepsAccounted(s, w, m);
    }
    forall v | 0 <= v < |s.workers|
      ensures HoldsItsOwn(t, v) && SoundAt(t, v)
    {
      AdvanceKeepsHolder(s, w, v);
      AdvanceKeepsSound(s, w, v);
    }
  }

  lemma {:induction false} StepKeepsInv(s: Shop, a: Action)
    requires Inv(s) && Enabled(s, a)
    ensures Inv(Apply(s, a))
  {
    match a
    case Pick(w, i, j) => IdleStepKeepsInv(s, w, Apply(s, a).workers[w]);
    case Leave(w) => IdleStepKeepsInv(s, w, Apply(s, a).workers[w]);
    case Die(w) => DieKeepsInv(s, w);
    case Advance(w) => AdvanceKeepsInv(s, w);
    case Wake => ManagerKeepsInv(s, Apply(s, a));
    case Scan => ManagerKeepsInv(s, Apply(s, a));
    case Stop => ManagerKeepsInv(s, Apply(s, a));
  }

  /** The manager touches neither shelves nor mutexes nor workers. */
  lemma {:induction false} ManagerKeepsInv(s: Shop, t: Shop)
    requires Inv(s) && Shaped(t) && t == s.(manager := t.manager, run := t.run)
    ensures Inv(t)
  {
    forall m | 0 <= m < MAX_SHELVES
      ensures Accounted(t, m)
    {
      assert Accounted(s, m);
    }
    forall v | 0 <= v < |s.workers|
      ensures HoldsItsOwn(t, v) && SoundAt(t, v)
    {
      assert HoldsItsOwn(s, v) && SoundAt(s, v);
    }
  }

  /** The locking discipline holds in every state of every run, whoever dies and wherever. */
  lemma {:induction false} RunKeepsInv(s: Shop, run: seq<Action>)
    requires Inv(s) && Legal(s, run)
    ensures Inv(After(s, run))
    decreases |run|
  {
    if run != [] {
      StepKeepsInv(s, run[0]);
      RunKeepsInv(Apply(s, run[0]), run[1..]);
    }
  }
}
