/**
 The UID-tracking expectations (pkg/controller/controller_utils.go): what every interleaving of the
 tracked operations with ExpectCreations, CreationObserved and checks keeps true of the two stores.
 */
module UidExpectations {
  import opened Wrappers
  import opened Expectations
  import opened ExpectationHistory
  import opened ExpectationCounters

  /** The operations in play: deletions are announced and observed only through the tracker. */
  predicate TrackedUse(a: Action) {
    && (a.SetExpectations? ==> a.del == 0)     // ExpectCreations, promoted from the embedded interface
    && (a.Adjust? ==> a.del == 0)              // CreationObserved
  }

  ghost predicate ThreadOk(s: State, t: Tid) {
    var pc := At(s, t);
    && Locked(s, t)
    && (pc.AddingAdd? || pc.AddingDel? ==> pc.del == 0)
  }

  ghost predicate ObjOk(s: State, r: Ref) {
    r < |s.objs| && !s.objs[r].tracked ==> s.objs[r].del <= 0
  }

  /** The entry of k counts the UIDs still awaited, up to the update the lock holder has under way. */
  ghost predicate EntryOk(s: State, p: Pc, k: Key) {
    k in s.store ==>
      && s.store[k] < |s.objs|
      && var o, u := s.objs[s.store[k]], |Uids(s, k)|;
         && o.key == k
         && (if p == UidCounting(k) then true
             else if p == UidForgetting(k) || p == UidDeleting(k, false) then !o.tracked
             else if p.UidRemoving? && p.key == k then o.del <= u - 1 && (o.tracked ==> o.del == u - 1)
             else o.del <= u && (o.tracked ==> o.del == u))
  }

  /** The UID being observed is still awaited, and the object in hand is k's or has been replaced. */
  ghost predicate HolderOk(s: State, p: Pc) {
    && (p.UidFound? || p.UidAddingAdd? || p.UidAddingDel? || p.UidRemoving? ==> p.uid in Uids(s, p.key))
    && (p.UidAddingAdd? || p.UidAddingDel? ==>
          && p.ref < |s.objs| && s.objs[p.ref].key == p.key
          && (p.key in s.store && s.store[p.key] < |s.objs| ==>
                s.store[p.key] == p.ref || !s.objs[s.store[p.key]].tracked))
  }

  ghost predicate UidInv(s: State) {
    && (forall t :: ThreadOk(s, t))
    && (forall r :: ObjOk(s, r))
    && (forall k :: EntryOk(s, Holder(s), k))
    && HolderOk(s, Holder(s))
  }

  // ----- every step keeps it -----

  /** The step touches neither the UID sets, the lock nor any entry's deletions. */
  ghost predicate Uneventful(s: State, s': State) {
    && s'.uids == s.uids && s'.lock == s.lock
    && s'.store == s.store && |s'.objs| == |s.objs|
    && forall r :: 0 <= r < |s.objs| ==>
         s'.objs[r].key == s.objs[r].key && s'.objs[r].del == s.objs[r].del && s'.objs[r].tracked == s.objs[r].tracked
  }

  lemma {:induction false} PlainIsQuiet(s: State, a: Action)
    requires Enabled(s, a) && !IsUid(a) && !Instant(a)
    requires ThreadOk(s, a.t)
    ensures Uneventful(s, PlainNext(s, a))
  {
    match a
    case Check(_, _) =>
    case LoadAdd(_) =>
    case LoadDel(_) =>
    case Adjust(_, _, _, _) =>
    case AddToAdd(_) =>
    case AddToDel(_) =>
  }

  lemma {:induction false} PlainActorOk(s: State, a: Action)
    requires Enabled(s, a) && TrackedUse(a) && !IsUid(a) && !Instant(a)
    requires ThreadOk(s, a.t)
    ensures ThreadOk(PlainNext(s, a), a.t) && !HoldsLock(At(s, a.t))
  {
    match a
    case Check(_, _) =>
    case LoadAdd(_) =>
    case LoadDel(_) =>
    case Adjust(_, _, _, _) =>
    case AddToAdd(_) =>
    case AddToDel(_) =>
  }

  lemma {:induction false} QuietKeeps(s: State, s': State, p: Pc, k: Key)
    requires Uneventful(s, s') && EntryOk(s, p, k) && HolderOk(s, p)
    ensures EntryOk(s', p, k) && HolderOk(s', p)
  {
    assert Uids(s', k) == Uids(s, k);
    if p.UidFound? || p.UidAddingAdd? || p.UidAddingDel? || p.UidRemoving? {
      assert Uids(s', p.key) == Uids(s, p.key);
    }
  }

  lemma {:induction false} QuietInv(s: State, a: Action)
    requires UidInv(s) && Enabled(s, a) && TrackedUse(a) && !IsUid(a) && !Instant(a)
    ensures UidInv(PlainNext(s, a))
  {
    var s' := PlainNext(s, a);
    assert ThreadOk(s, a.t);
    PlainIsQuiet(s, a);
    PlainActorOk(s, a);
    forall t ensures ThreadOk(s', t) && (s.lock == Some(t) ==> At(s', t) == At(s, t)) {
      assert ThreadOk(s, t);
      if t != a.t { PlainOthersStay(s, a, t); }
    }
    assert Holder(s') == Holder(s);
    forall r ensures ObjOk(s', r) {
      assert ObjOk(s, r);
    }
    forall k ensures EntryOk(s', Holder(s), k) && HolderOk(s', Holder(s)) {
      assert EntryOk(s, Holder(s), k);
      QuietKeeps(s, s', Holder(s), k);
    }
    assert HolderOk(s', Holder(s)) by {
      QuietKeeps(s, s', Holder(s), "");
    }
  }

  /** ExpectCreations replaces the entry by one that awaits no deletions, whatever the UID set says. */
  lemma {:induction false} SetKeeps(s: State, k: Key, add: int, j: Key)
    requires UidInv(s)
    ensures var s' := Put(s, Exp(k, add, 0, false));
            EntryOk(s', Holder(s), j) && HolderOk(s', Holder(s))
  {
    var p, s' := Holder(s), Put(s, Exp(k, add, 0, false));
    assert EntryOk(s, p, j) && HolderOk(s, p);
    assert s'.objs[|s.objs|] == Exp(k, add, 0, false);
    assert Uids(s', j) == Uids(s, j);
    if p.UidFound? || p.UidAddingAdd? || p.UidAddingDel? || p.UidRemoving? {
      assert EntryOk(s, p, p.key) && Uids(s', p.key) == Uids(s, p.key);
    }
  }

  lemma {:induction false} SetInv(s: State, k: Key, add: int)
    requires UidInv(s)
    ensures UidInv(Put(s, Exp(k, add, 0, false)))
  {
    var s' := Put(s, Exp(k, add, 0, false));
    assert Holder(s') == Holder(s);
    forall t ensures ThreadOk(s', t) {
      assert ThreadOk(s, t);
    }
    forall r ensures ObjOk(s', r) {
      assert ObjOk(s, r);
    }
    forall j ensures EntryOk(s', Holder(s'), j) {
      SetKeeps(s, k, add, j);
    }
    SetKeeps(s, k, add, "");
  }

  lemma {:induction false} DropInv(s: State, k: Key)
    requires UidInv(s)
    ensures UidInv(s.(store := s.store - {k}))
  {
    var s' := s.(store := s.store - {k});
    assert Holder(s') == Holder(s);
    forall t ensures ThreadOk(s', t) {
      assert ThreadOk(s, t);
    }
    forall r ensures ObjOk(s', r) {
      assert ObjOk(s, r);
    }
    forall j ensures EntryOk(s', Holder(s'), j) {
      assert EntryOk(s, Holder(s), j);
    }
  }

  lemma {:induction false} UidActorOk(s: State, a: Action)
    requires IsUid(a) && Enabled(s, a) && ThreadOk(s, a.t)
    ensures ThreadOk(UidNext(s, a), a.t)
  {
    UidActorLocked(s, a);
  }

  lemma {:induction false} UidThreads(s: State, a: Action, t: Tid)
    requires IsUid(a) && Enabled(s, a) && ThreadOk(s, t) && ThreadOk(s, a.t)
    ensures ThreadOk(UidNext(s, a), t)
  {
    if t != a.t {
      UidLock(s, a);
      UidOthersStay(s, a, t);
    } else {
      UidActorOk(s, a);
    }
  }

  lemma {:induction false} UidHolder(s: State, a: Action)
    requires IsUid(a) && Enabled(s, a) && ThreadOk(s, a.t)
    ensures Holder(s) == if HoldsLock(At(s, a.t)) then At(s, a.t) else Idle
    ensures var s' := UidNext(s, a); Holder(s') == if HoldsLock(At(s', a.t)) then At(s', a.t) else Idle
  {
    UidLock(s, a);
    UidActorOk(s, a);
  }

  lemma {:induction false} UidObjects(s: State, a: Action, r: Ref)
    requires IsUid(a) && Enabled(s, a) && ObjOk(s, r)
    ensures ObjOk(UidNext(s, a), r)
  {
  }

  /** The part of the invariant that a step of the lock holder uses to preserve the entry of k. */
  ghost predicate Local(s: State, t: Tid, k: Key) {
    var p := Holder(s);
    && ThreadOk(s, t) && HolderOk(s, p)
    && EntryOk(s, p, k) && (HoldsLock(p) ==> EntryOk(s, p, p.key))
    && (k in s.store ==> ObjOk(s, s.store[k]))
  }

  ghost predicate EntryKept(s: State, k: Key) {
    EntryOk(s, Holder(s), k) && HolderOk(s, Holder(s))
  }

  lemma {:induction false} ExpectEntries(s: State, a: Action, k: Key)
    requires (a.UidExpect? || a.UidCount?) && Enabled(s, a) && Local(s, a.t, k)
    ensures EntryKept(UidNext(s, a), k)
  {
    UidHolder(s, a);
  }

  lemma {:induction false} ObserveEntries(s: State, a: Action, k: Key)
    requires a.UidObserve? && Enabled(s, a) && Local(s, a.t, k)
    ensures EntryKept(UidNext(s, a), k)
  {
    UidHolder(s, a);
  }

  lemma {:induction false} LookUpEntries(s: State, a: Action, k: Key)
    requires (a.UidLookUp? || a.UidAddToAdd?) && Enabled(s, a) && Local(s, a.t, k)
    ensures EntryKept(UidNext(s, a), k)
  {
    UidHolder(s, a);
  }

  lemma {:induction false} LowerEntries(s: State, a: Action, k: Key)
    requires a.UidAddToDel? && Enabled(s, a) && Local(s, a.t, k)
    ensures EntryKept(UidNext(s, a), k)
  {
    UidHolder(s, a);
  }

  lemma {:induction false} RemoveEntries(s: State, a: Action, k: Key)
    requires a.UidRemove? && Enabled(s, a) && Local(s, a.t, k)
    ensures EntryKept(UidNext(s, a), k)
  {
    UidHolder(s, a);
  }

  lemma {:induction false} DeleteEntries(s: State, a: Action, k: Key)
    requires (a.UidDelete? || a.UidDeleteEntry? || a.UidForget?) && Enabled(s, a) && Local(s, a.t, k)
    ensures EntryKept(UidNext(s, a), k)
  {
    UidHolder(s, a);
  }

  lemma {:induction false} UidEntries(s: State, a: Action, k: Key)
    requires UidInv(s) && IsUid(a) && Enabled(s, a)
    ensures EntryKept(UidNext(s, a), k)
  {
    assert Local(s, a.t, k) by {
      var p := Holder(s);
      assert ThreadOk(s, a.t) && EntryOk(s, p, k);
      if HoldsLock(p) { assert EntryOk(s, p, p.key); }
      if k in s.store { assert ObjOk(s, s.store[k]); }
    }
    if a.UidExpect? || a.UidCount? {
      ExpectEntries(s, a, k);
    } else if a.UidObserve? {
      ObserveEntries(s, a, k);
    } else if a.UidLookUp? || a.UidAddToAdd? {
      LookUpEntries(s, a, k);
    } else if a.UidAddToDel? {
      LowerEntries(s, a, k);
    } else if a.UidRemove? {
      RemoveEntries(s, a, k);
    } else {
      DeleteEntries(s, a, k);
    }
  }

  lemma {:induction false} UidInvStep(s: State, a: Action)
    requires UidInv(s) && Enabled(s, a) && TrackedUse(a)
    ensures UidInv(Next(s, a))
  {
    if IsUid(a) {
      forall t ensures ThreadOk(UidNext(s, a), t) {
        assert ThreadOk(s, t) && ThreadOk(s, a.t);
        UidThreads(s, a, t);
      }
      forall r ensures ObjOk(UidNext(s, a), r) {
        assert ObjOk(s, r);
        UidObjects(s, a, r);
      }
      forall k ensures EntryOk(UidNext(s, a), Holder(UidNext(s, a)), k) {
        UidEntries(s, a, k);
      }
      assert HolderOk(UidNext(s, a), Holder(UidNext(s, a))) by {
        UidEntries(s, a, "");
      }
    } else if a.SetExpectations? {
      SetInv(s, a.key, a.add);
    } else if a.DeleteExpectations? {
      DropInv(s, a.key);
    } else {
      QuietInv(s, a);
    }
  }

  lemma {:induction false} UidInvAlways(states: seq<State>, acts: seq<Action>, i: nat)
    requires IsRun(states, acts) && i < |states|
    requires forall j :: 0 <= j < |acts| ==> TrackedUse(acts[j])
    ensures UidInv(states[i])
  {
    if i > 0 {
      UidInvAlways(states, acts, i - 1);
      assert IsStep(states, acts, i - 1);
      UidInvStep(states[i - 1], acts[i - 1]);
    }
  }

  // ----- what it means -----

  /**
   In every state of every such run in which no tracked operation is under way: no entry awaits more deletions
   than there are UIDs of the last announced list still to be observed, and an entry made by ExpectDeletions
   awaits exactly those. Repeated and unknown delete events therefore never count, and its deletions are
   fulfilled exactly when every UID of the list has been observed.
   */
  lemma {:induction false} DeletionsCountUids(states: seq<State>, acts: seq<Action>, i: nat, k: Key)
    requires IsRun(states, acts) && i < |states|
    requires forall j :: 0 <= j < |acts| ==> TrackedUse(acts[j])
    requires states[i].lock.None? && k in states[i].store
    ensures states[i].store[k] < |states[i].objs| && Made(acts, i, k).Some?
    ensures var del := states[i].objs[states[i].store[k]].del;
            && del <= |Awaited(acts, i, k)|
            && (acts[Made(acts, i, k).value].UidCount? ==>
                  del == |Awaited(acts, i, k)| && (del <= 0 <==> AllObserved(acts, i, k)))
  {
    UidInvAlways(states, acts, i);
    assert EntryOk(states[i], Holder(states[i]), k);
    UidsAreAwaited(states, acts, i, k);
    NoneAwaited(acts, i, k);
    EntryFollowsCalls(Dels, states, acts, i, k);
  }

  /**
   Exactly when an entry tells the truth about deletions, that is, awaits none just when every announced UID
   has been observed: unless ExpectCreations stored it last while some announced UID was still to come.
   */
  lemma {:induction false} DeletionsToldTrulyIff(states: seq<State>, acts: seq<Action>, i: nat, k: Key)
    requires IsRun(states, acts) && i < |states|
    requires forall j :: 0 <= j < |acts| ==> TrackedUse(acts[j])
    requires states[i].lock.None? && k in states[i].store
    ensures states[i].store[k] < |states[i].objs| && Made(acts, i, k).Some?
    ensures var del := states[i].objs[states[i].store[k]].del;
            (del <= 0 <==> AllObserved(acts, i, k)) <==>
            (acts[Made(acts, i, k).value].UidCount? || AllObserved(acts, i, k))
  {
    DeletionsCountUids(states, acts, i, k);
    EntryFollowsCalls(Dels, states, acts, i, k);
    UidInvAlways(states, acts, i);
    assert ObjOk(states[i], states[i].store[k]);
  }

  /** ExpectCreations forgets the pending deletions: the entry is fulfilled while a UID is still awaited. */
  lemma {:induction false} CreationsForgetDeletions(k: Key, u: Uid) returns (states: seq<State>, acts: seq<Action>)
    ensures IsRun(states, acts) && forall j :: 0 <= j < |acts| ==> TrackedUse(acts[j])
    ensures var s := states[|acts|];
            && s.lock.None? && k in s.store && s.store[k] < |s.objs|
            && Fulfilled(s.objs[s.store[k]]) && u in Uids(s, k)
  {
    acts := [UidExpect(0, k, [u]), UidCount(0), SetExpectations(k, 0, 0)];
    var s1 := Next(Init, acts[0]);
    var s2 := Next(s1, acts[1]);
    var s3 := Next(s2, acts[2]);
    states := [Init, s1, s2, s3];
  }
}
