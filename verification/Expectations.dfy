/**
 Controller expectations (pkg/controller/controller_utils.go) as an interleaving of atomic steps.
 One step is one access to a store, one atomic load or one atomic add; the steps of different
 threads mix freely, except that the UID-tracking operations hold the uidStoreLock throughout.
 */
module Expectations {
  import opened Wrappers

  type Key = string
  type Uid = string
  type Tid = nat
  /** Which ControlleeExpectations object: its position in the sequence of all objects ever made. */
  type Ref = nat

  /** `tracked` records who made the object: the UID-tracking ExpectDeletions, or anyone else. */
  datatype Exp = Exp(key: Key, add: int, del: int, tracked: bool)

  /** Where a thread is inside an operation. */
  datatype Pc =
    | Idle
    // SatisfiedExpectations has looked the object up; Fulfilled loads add, then del
    | LoadingAdd(ref: Ref)
    | LoadingDel(ref: Ref)
    | Answered(ref: Ref, fulfilled: bool)
    // LowerExpectations or RaiseExpectations has looked the object up; Add adds to add, then to del
    | AddingAdd(ref: Ref, add: int, del: int)
    | AddingDel(ref: Ref, del: int)
    // UIDTrackingControllerExpectations.ExpectDeletions has stored the UID set
    | UidCounting(key: Key)
    // UIDTrackingControllerExpectations.DeletionObserved has found the UID in the set
    | UidFound(key: Key, uid: Uid)
    | UidAddingAdd(key: Key, uid: Uid, ref: Ref)
    | UidAddingDel(key: Key, uid: Uid, ref: Ref)
    | UidRemoving(key: Key, uid: Uid)
    // UIDTrackingControllerExpectations.DeleteExpectations
    | UidDeleting(key: Key, found: bool)
    | UidForgetting(key: Key)

  datatype State = State(
    objs: seq<Exp>,
    store: map<Key, Ref>,
    uids: map<Key, set<Uid>>,
    lock: Option<Tid>,
    pc: map<Tid, Pc>)

  const Init: State := State([], map[], map[], None, map[])

  datatype Action =
    | SetExpectations(key: Key, add: int, del: int)      // also ExpectCreations and plain ExpectDeletions
    | DeleteExpectations(key: Key)                       // the plain one; the tracked one is UidDelete
    | Check(t: Tid, key: Key)                            // SatisfiedExpectations looks the key up
    | LoadAdd(t: Tid)
    | LoadDel(t: Tid)
    | Adjust(t: Tid, key: Key, add: int, del: int)       // Lower or Raise looks the key up; signed amounts
    | AddToAdd(t: Tid)
    | AddToDel(t: Tid)
    | UidExpect(t: Tid, key: Key, deleted: seq<Uid>)
    | UidCount(t: Tid)
    | UidObserve(t: Tid, key: Key, uid: Uid)
    | UidLookUp(t: Tid)
    | UidAddToAdd(t: Tid)
    | UidAddToDel(t: Tid)
    | UidRemove(t: Tid)
    | UidDelete(t: Tid, key: Key)
    | UidDeleteEntry(t: Tid)
    | UidForget(t: Tid)

  function At(s: State, t: Tid): Pc {
    if t in s.pc then s.pc[t] else Idle
  }

  function Uids(s: State, k: Key): set<Uid> {
    if k in s.uids then s.uids[k] else {}
  }

  function ToSet(us: seq<Uid>): set<Uid> {
    set u | u in us
  }

  predicate Free(s: State, t: Tid) {
    At(s, t).Idle? || At(s, t).Answered?
  }

  predicate Enabled(s: State, a: Action) {
    match a
    case SetExpectations(_, _, _) => true
    case DeleteExpectations(_) => true
    case Check(t, _) => Free(s, t)
    case LoadAdd(t) => At(s, t).LoadingAdd? && At(s, t).ref < |s.objs|
    case LoadDel(t) => At(s, t).LoadingDel? && At(s, t).ref < |s.objs|
    case Adjust(t, _, _, _) => Free(s, t)
    case AddToAdd(t) => At(s, t).AddingAdd? && At(s, t).ref < |s.objs|
    case AddToDel(t) => At(s, t).AddingDel? && At(s, t).ref < |s.objs|
    case UidExpect(t, _, _) => Free(s, t) && s.lock.None?
    case UidCount(t) => At(s, t).UidCounting?
    case UidObserve(t, _, _) => Free(s, t) && s.lock.None?
    case UidLookUp(t) => At(s, t).UidFound?
    case UidAddToAdd(t) => At(s, t).UidAddingAdd? && At(s, t).ref < |s.objs|
    case UidAddToDel(t) => At(s, t).UidAddingDel? && At(s, t).ref < |s.objs|
    case UidRemove(t) => At(s, t).UidRemoving?
    case UidDelete(t, _) => Free(s, t) && s.lock.None?
    case UidDeleteEntry(t) => At(s, t).UidDeleting?
    case UidForget(t) => At(s, t).UidForgetting?
  }

  function Put(s: State, e: Exp): State {
    s.(objs := s.objs + [e], store := s.store[e.key := |s.objs|])
  }

  predicate IsUid(a: Action) {
    a.UidExpect? || a.UidCount? || a.UidObserve? || a.UidLookUp? || a.UidAddToAdd? || a.UidAddToDel? ||
    a.UidRemove? || a.UidDelete? || a.UidDeleteEntry? || a.UidForget?
  }

  /** One store access of any thread, which leaves the thread where it was. */
  predicate Instant(a: Action) {
    a.SetExpectations? || a.DeleteExpectations?
  }

  /** The steps of the plain ControllerExpectations. */
  function PlainNext(s: State, a: Action): State
    requires Enabled(s, a) && !IsUid(a)
  {
    match a
    case SetExpectations(k, add, del) => Put(s, Exp(k, add, del, false))
    case DeleteExpectations(k) => s.(store := s.store - {k})
    case Check(t, k) =>
      // no entry: the controller is simply synced
      if k in s.store then s.(pc := s.pc[t := LoadingAdd(s.store[k])]) else s.(pc := s.pc[t := Idle])
    case LoadAdd(t) =>
      var r := At(s, t).ref;
      if s.objs[r].add <= 0 then s.(pc := s.pc[t := LoadingDel(r)]) else s.(pc := s.pc[t := Answered(r, false)])
    case LoadDel(t) =>
      var r := At(s, t).ref;
      s.(pc := s.pc[t := Answered(r, s.objs[r].del <= 0)])
    case Adjust(t, k, add, del) =>
      if k in s.store then s.(pc := s.pc[t := AddingAdd(s.store[k], add, del)]) else s.(pc := s.pc[t := Idle])
    case AddToAdd(t) =>
      var AddingAdd(r, add, del) := At(s, t);
      s.(objs := s.objs[r := s.objs[r].(add := s.objs[r].add + add)], pc := s.pc[t := AddingDel(r, del)])
    case AddToDel(t) =>
      var AddingDel(r, del) := At(s, t);
      s.(objs := s.objs[r := s.objs[r].(del := s.objs[r].del + del)], pc := s.pc[t := Idle])
  }

  /** The steps taken under the uidStoreLock. */
  function UidNext(s: State, a: Action): State
    requires Enabled(s, a) && IsUid(a)
  {
    match a
    case UidExpect(t, k, deleted) =>
      s.(uids := s.uids[k := ToSet(deleted)], lock := Some(t), pc := s.pc[t := UidCounting(k)])
    case UidCount(t) =>
      var k := At(s, t).key;
      Put(s, Exp(k, 0, |Uids(s, k)|, true)).(lock := None, pc := s.pc[t := Idle])
    case UidObserve(t, k, u) =>
      if u in Uids(s, k) then s.(lock := Some(t), pc := s.pc[t := UidFound(k, u)])
      else s.(pc := s.pc[t := Idle])
    case UidLookUp(t) =>
      var UidFound(k, u) := At(s, t);
      if k in s.store then s.(pc := s.pc[t := UidAddingAdd(k, u, s.store[k])])
      else s.(pc := s.pc[t := UidRemoving(k, u)])
    case UidAddToAdd(t) =>
      // adds -0
      var UidAddingAdd(k, u, r) := At(s, t);
      s.(pc := s.pc[t := UidAddingDel(k, u, r)])
    case UidAddToDel(t) =>
      var UidAddingDel(k, u, r) := At(s, t);
      s.(objs := s.objs[r := s.objs[r].(del := s.objs[r].del - 1)], pc := s.pc[t := UidRemoving(k, u)])
    case UidRemove(t) =>
      var UidRemoving(k, u) := At(s, t);
      s.(uids := s.uids[k := Uids(s, k) - {u}], lock := None, pc := s.pc[t := Idle])
    case UidDelete(t, k) =>
      s.(lock := Some(t), pc := s.pc[t := UidDeleting(k, k in s.store)])
    case UidDeleteEntry(t) =>
      var UidDeleting(k, found) := At(s, t);
      s.(store := if found then s.store - {k} else s.store, pc := s.pc[t := UidForgetting(k)])
    case UidForget(t) =>
      var k := At(s, t).key;
      s.(uids := s.uids - {k}, lock := None, pc := s.pc[t := Idle])
  }

  function Next(s: State, a: Action): State
    requires Enabled(s, a)
  {
    if IsUid(a) then UidNext(s, a) else PlainNext(s, a)
  }

  // ----- runs -----

  ghost predicate IsRun(states: seq<State>, acts: seq<Action>) {
    && |states| == |acts| + 1
    && states[0] == Init
    && forall i: nat :: i < |acts| ==> IsStep(states, acts, i)
  }

  ghost predicate IsStep(states: seq<State>, acts: seq<Action>, i: nat)
    requires i < |acts| < |states|
  {
    Enabled(states[i], acts[i]) && states[i + 1] == Next(states[i], acts[i])
  }

  // ----- what a check answers -----

  /** The add counter is never raised; what happens to the del counter is free. */
  predicate NoAddRaise(a: Action) {
    a.Adjust? ==> a.add <= 0
  }

  predicate Fulfilled(e: Exp) {
    e.add <= 0 && e.del <= 0
  }

  /** Thread t is the one taking the step. */
  predicate Acts(a: Action, t: Tid) {
    !Instant(a) && a.t == t
  }

  lemma {:induction false} PlainOthersStay(s: State, a: Action, t: Tid)
    requires Enabled(s, a) && !Acts(a, t) && !IsUid(a)
    ensures At(PlainNext(s, a), t) == At(s, t)
  {
  }

  lemma {:induction false} UidOthersStay(s: State, a: Action, t: Tid)
    requires Enabled(s, a) && !Acts(a, t) && IsUid(a)
    ensures At(UidNext(s, a), t) == At(s, t)
  {
  }

  lemma {:induction false} OthersStay(s: State, a: Action, t: Tid)
    requires Enabled(s, a) && !Acts(a, t)
    ensures At(Next(s, a), t) == At(s, t)
  {
    if IsUid(a) { UidOthersStay(s, a, t); } else { PlainOthersStay(s, a, t); }
  }

  /** A reference in range; a pending amount that does not raise; a passed first load that stays passed. */
  predicate PcOk(objs: seq<Exp>, pc: Pc) {
    match pc
    case Idle => true
    case LoadingAdd(r) => r < |objs|
    case LoadingDel(r) => r < |objs| && objs[r].add <= 0
    case Answered(r, _) => r < |objs|
    case AddingAdd(r, add, _) => r < |objs| && add <= 0
    case AddingDel(r, _) => r < |objs|
    case UidCounting(_) => true
    case UidFound(_, _) => true
    case UidAddingAdd(_, _, r) => r < |objs|
    case UidAddingDel(_, _, r) => r < |objs|
    case UidRemoving(_, _) => true
    case UidDeleting(_, _) => true
    case UidForgetting(_) => true
  }

  ghost predicate CheckInv(s: State) {
    && StoreOk(s)
    && (forall t :: PcOk(s.objs, At(s, t)))
  }

  /** Objects are never dropped, and their add counters never rise. */
  ghost predicate Lowered(objs: seq<Exp>, objs': seq<Exp>) {
    |objs| <= |objs'| && forall r :: 0 <= r < |objs| ==> objs'[r].add <= objs[r].add
  }

  ghost predicate StoreOk(s: State) {
    forall k :: k in s.store ==> s.store[k] < |s.objs|
  }

  lemma {:induction false} PlainStepOk(s: State, a: Action)
    requires StoreOk(s) && (!Instant(a) ==> PcOk(s.objs, At(s, a.t)))
    requires Enabled(s, a) && NoAddRaise(a) && !IsUid(a)
    ensures Lowered(s.objs, PlainNext(s, a).objs) && StoreOk(PlainNext(s, a))
    ensures !Instant(a) ==> PcOk(PlainNext(s, a).objs, At(PlainNext(s, a), a.t))
  {
    match a
    case SetExpectations(_, _, _) =>
    case DeleteExpectations(_) =>
    case Check(_, _) =>
    case LoadAdd(_) =>
    case LoadDel(_) =>
    case Adjust(_, _, _, _) =>
    case AddToAdd(_) =>
    case AddToDel(_) =>
  }

  /** These steps touch neither the objects nor the store. */
  lemma {:induction false} UidThreadStepOk(s: State, a: Action)
    requires IsUid(a) && !a.UidCount? && !a.UidAddToDel? && !a.UidDeleteEntry?
    requires StoreOk(s) && PcOk(s.objs, At(s, a.t)) && Enabled(s, a)
    ensures Lowered(s.objs, UidNext(s, a).objs) && StoreOk(UidNext(s, a))
    ensures PcOk(UidNext(s, a).objs, At(UidNext(s, a), a.t))
  {
    assert UidNext(s, a).objs == s.objs && UidNext(s, a).store == s.store;
  }

  lemma {:induction false} UidStoreStepOk(s: State, a: Action)
    requires a.UidCount? || a.UidAddToDel? || a.UidDeleteEntry?
    requires StoreOk(s) && PcOk(s.objs, At(s, a.t)) && Enabled(s, a)
    ensures Lowered(s.objs, UidNext(s, a).objs) && StoreOk(UidNext(s, a))
    ensures PcOk(UidNext(s, a).objs, At(UidNext(s, a), a.t))
  {
  }

  lemma {:induction false} UidStepOk(s: State, a: Action)
    requires IsUid(a) && StoreOk(s) && PcOk(s.objs, At(s, a.t)) && Enabled(s, a)
    ensures Lowered(s.objs, UidNext(s, a).objs) && StoreOk(UidNext(s, a))
    ensures PcOk(UidNext(s, a).objs, At(UidNext(s, a), a.t))
  {
    if a.UidCount? || a.UidAddToDel? || a.UidDeleteEntry? {
      UidStoreStepOk(s, a);
    } else {
      UidThreadStepOk(s, a);
    }
  }

  lemma {:induction false} CheckInvStep(s: State, a: Action)
    requires CheckInv(s) && Enabled(s, a) && NoAddRaise(a)
    ensures CheckInv(Next(s, a))
  {
    if !Instant(a) {
      assert PcOk(s.objs, At(s, a.t));
    }
    if IsUid(a) { UidStepOk(s, a); } else { PlainStepOk(s, a); }
    forall t ensures PcOk(Next(s, a).objs, At(Next(s, a), t)) {
      assert PcOk(s.objs, At(s, t));
      if !Acts(a, t) {
        OthersStay(s, a, t);
      }
    }
  }

  lemma {:induction false} CheckInvAlways(states: seq<State>, acts: seq<Action>, i: nat)
    requires IsRun(states, acts) && i < |states|
    requires forall j :: 0 <= j < |acts| ==> NoAddRaise(acts[j])
    ensures CheckInv(states[i])
  {
    if i > 0 {
      CheckInvAlways(states, acts, i - 1);
      assert IsStep(states, acts, i - 1);
      CheckInvStep(states[i - 1], acts[i - 1]);
    }
  }

  /**
   Fulfilled reads the two counters at different moments, yet its answer is the truth about the object
   at the moment of the load that decides it: the first load if that already says no, else the second.
   */
  lemma {:induction false} AnswerIsTrueWhenDecided(states: seq<State>, acts: seq<Action>, i: nat)
    requires IsRun(states, acts) && i < |acts|
    requires forall j :: 0 <= j < |acts| ==> NoAddRaise(acts[j])
    requires acts[i].LoadAdd? || acts[i].LoadDel?
    requires At(states[i + 1], acts[i].t).Answered?
    ensures var Answered(r, b) := At(states[i + 1], acts[i].t);
            r < |states[i].objs| && b == Fulfilled(states[i].objs[r])
  {
    CheckInvAlways(states, acts, i);
    assert PcOk(states[i].objs, At(states[i], acts[i].t));
    assert IsStep(states, acts, i);
  }

  predicate Checking(pc: Pc) {
    pc.LoadingAdd? || pc.LoadingDel?
  }

  lemma {:induction false} StillChecking(s: State, a: Action, t: Tid)
    requires Enabled(s, a) && Checking(At(Next(s, a), t)) && !(a.Check? && a.t == t)
    ensures Checking(At(s, t)) && At(s, t).ref == At(Next(s, a), t).ref
  {
    if !Acts(a, t) {
      OthersStay(s, a, t);
    } else if IsUid(a) {
      UidActorNotChecking(s, a);
    }
  }

  lemma {:induction false} UidActorNotChecking(s: State, a: Action)
    requires Enabled(s, a) && IsUid(a)
    ensures !Checking(At(UidNext(s, a), a.t))
  {
  }

  /** The object a check is looking at was the key's entry when the check began. */
  lemma {:induction false} CheckedEntry(states: seq<State>, acts: seq<Action>, i: nat, t: Tid) returns (p: nat)
    requires IsRun(states, acts) && i < |states|
    requires Checking(At(states[i], t))
    ensures p < i && acts[p].Check? && acts[p].t == t
    ensures acts[p].key in states[p].store && states[p].store[acts[p].key] == At(states[i], t).ref
    ensures forall j :: p < j <= i ==> Checking(At(states[j], t))
  {
    var a := acts[i - 1];
    assert IsStep(states, acts, i - 1);
    if a.Check? && a.t == t {
      p := i - 1;
    } else {
      StillChecking(states[i - 1], a, t);
      p := CheckedEntry(states, acts, i - 1, t);
    }
  }

  /** One whole check, from looking the key up to its answer. */
  lemma {:induction false} CheckIsLinearizable(states: seq<State>, acts: seq<Action>, i: nat) returns (p: nat)
    requires IsRun(states, acts) && i < |acts|
    requires forall j :: 0 <= j < |acts| ==> NoAddRaise(acts[j])
    requires acts[i].LoadAdd? || acts[i].LoadDel?
    requires At(states[i + 1], acts[i].t).Answered?
    ensures p < i && acts[p].Check? && acts[p].t == acts[i].t && acts[p].key in states[p].store
    ensures var r := states[p].store[acts[p].key];
            r < |states[i].objs| &&
            At(states[i + 1], acts[i].t) == Answered(r, Fulfilled(states[i].objs[r]))
  {
    AnswerIsTrueWhenDecided(states, acts, i);
    assert IsStep(states, acts, i);
    p := CheckedEntry(states, acts, i, acts[i].t);
  }

  // ----- which adjustments keep checks sound -----

  /** A run that adjusts counters only by amounts p allows. */
  ghost predicate Allowed(p: (int, int) -> bool, acts: seq<Action>) {
    forall j :: 0 <= j < |acts| && acts[j].Adjust? ==> p(acts[j].add, acts[j].del)
  }

  /** Step i is a load that decides a check. */
  ghost predicate Decides(states: seq<State>, acts: seq<Action>, i: nat) {
    && i < |acts| < |states| && (acts[i].LoadAdd? || acts[i].LoadDel?)
    && At(states[i + 1], acts[i].t).Answered?
  }

  /** The answer given at step i is the truth about the object at that moment. */
  ghost predicate Truthful(states: seq<State>, acts: seq<Action>, i: nat)
    requires Decides(states, acts, i)
  {
    var Answered(r, b) := At(states[i + 1], acts[i].t);
    r < |states[i].objs| && b == Fulfilled(states[i].objs[r])
  }

  /** If the answer given at step i is yes, the object has been fulfilled at some moment up to then. */
  ghost predicate Founded(states: seq<State>, acts: seq<Action>, i: nat)
    requires Decides(states, acts, i)
  {
    var Answered(r, b) := At(states[i + 1], acts[i].t);
    b ==> exists j :: 0 <= j <= i && r < |states[j].objs| && Fulfilled(states[j].objs[r])
  }

  ghost predicate AlwaysTruthful(p: (int, int) -> bool) {
    forall states, acts, i :: IsRun(states, acts) && Allowed(p, acts) && Decides(states, acts, i) ==> Truthful(states, acts, i)
  }

  ghost predicate AlwaysFounded(p: (int, int) -> bool) {
    forall states, acts, i :: IsRun(states, acts) && Allowed(p, acts) && Decides(states, acts, i) ==> Founded(states, acts, i)
  }

  ghost predicate NeverFulfilled(states: seq<State>) {
    forall i :: 0 <= i < |states| ==> |states[i].objs| > 0 ==> !Fulfilled(states[i].objs[0])
  }

  /** Every adjustment so far was by the one pair of amounts. */
  ghost predicate OnlyBy(acts: seq<Action>, x: int, d: int) {
    forall j :: 0 <= j < |acts| && acts[j].Adjust? ==> acts[j].add == x && acts[j].del == d
  }

  ghost predicate Misleading(states: seq<State>, acts: seq<Action>, x: int, d: int) {
    IsRun(states, acts) && NeverFulfilled(states) && OnlyBy(acts, x, d)
  }

  lemma {:induction false} Extend(states: seq<State>, acts: seq<Action>, a: Action, x: int, d: int)
    returns (states': seq<State>, acts': seq<Action>)
    requires Misleading(states, acts, x, d) && Enabled(states[|acts|], a) && (a.Adjust? ==> a.add == x && a.del == d)
    requires var s' := Next(states[|acts|], a); |s'.objs| > 0 ==> !Fulfilled(s'.objs[0])
    ensures Misleading(states', acts', x, d) && |acts'| > 0 && acts'[|acts'| - 1] == a
    ensures states'[|acts'|] == Next(states[|acts|], a)
  {
    states', acts' := states + [Next(states[|acts|], a)], acts + [a];
    forall i: nat | i < |acts'| ensures IsStep(states', acts', i) {
      if i < |acts| {
        assert IsStep(states, acts, i);
      }
    }
  }

  /** The one object, with thread 1 between its two loads. */
  ghost predicate BetweenLoads(s: State, k: Key, e: Exp) {
    s.objs == [e] && k in s.store && s.store[k] == 0 && At(s, 1) == LoadingDel(0)
  }

  /** One tracked deletion announced, and nothing else going on. */
  ghost predicate OneAnnounced(s: State, k: Key, u: Uid) {
    && s.objs == [Exp(k, 0, 1, true)] && s.store == map[k := 0] && s.uids == map[k := {u}]
    && s.lock.None? && s.pc == map[0 := Idle]
  }

  lemma {:induction false} Announced(k: Key, u: Uid, x: int, d: int) returns (states: seq<State>, acts: seq<Action>)
    ensures Misleading(states, acts, x, d) && OneAnnounced(states[|acts|], k, u)
  {
    states, acts := Extend([Init], [], UidExpect(0, k, [u]), x, d);
    var s := states[|acts|];
    assert s == Init.(uids := map[k := {u}], lock := Some(0), pc := map[0 := UidCounting(k)]) by {
      assert ToSet([u]) == {u};
    }
    states, acts := Extend(states, acts, UidCount(0), x, d);
  }

  lemma {:induction false} CheckBegun(k: Key, u: Uid, x: int, d: int) returns (states: seq<State>, acts: seq<Action>)
    ensures Misleading(states, acts, x, d)
    ensures var s := states[|acts|];
            && s.objs == [Exp(k, 0, 1, true)] && s.store == map[k := 0] && Uids(s, k) == {u} && s.lock.None?
            && s.pc == map[0 := Idle, 1 := LoadingAdd(0)]
  {
    states, acts := Announced(k, u, x, d);
    states, acts := Extend(states, acts, Check(1, k), x, d);
  }

  lemma {:induction false} FirstLoadPassed(k: Key, u: Uid, x: int, d: int) returns (states: seq<State>, acts: seq<Action>)
    ensures Misleading(states, acts, x, d)
    ensures var s := states[|acts|];
            && BetweenLoads(s, k, Exp(k, 0, 1, true)) && Uids(s, k) == {u} && s.lock.None?
            && At(s, 2) == Idle && At(s, 3) == Idle
  {
    states, acts := CheckBegun(k, u, x, d);
    states, acts := Extend(states, acts, LoadAdd(1), x, d);
  }

  lemma {:induction false} RaiseBegun(k: Key, u: Uid, x: int, d: int) returns (states: seq<State>, acts: seq<Action>)
    ensures Misleading(states, acts, x, d)
    ensures var s := states[|acts|];
            && BetweenLoads(s, k, Exp(k, 0, 1, true)) && Uids(s, k) == {u} && s.lock.None?
            && At(s, 2) == AddingAdd(0, x, d) && At(s, 3) == Idle
  {
    states, acts := FirstLoadPassed(k, u, x, d);
    states, acts := Extend(states, acts, Adjust(2, k, x, d), x, d);
  }

  lemma {:induction false} RaisedMeanwhile(k: Key, u: Uid, x: int, d: int) returns (states: seq<State>, acts: seq<Action>)
    requires x > 0
    ensures Misleading(states, acts, x, d)
    ensures var s := states[|acts|];
            BetweenLoads(s, k, Exp(k, x, 1, true)) && Uids(s, k) == {u} && s.lock.None? && At(s, 3) == Idle
  {
    states, acts := RaiseBegun(k, u, x, d);
    states, acts := Extend(states, acts, AddToAdd(2), x, d);
  }

  lemma {:induction false} ObservedMeanwhile(k: Key, u: Uid, x: int, d: int) returns (states: seq<State>, acts: seq<Action>)
    requires x > 0
    ensures Misleading(states, acts, x, d)
    ensures var s := states[|acts|]; BetweenLoads(s, k, Exp(k, x, 1, true)) && At(s, 3) == UidAddingAdd(k, u, 0)
  {
    states, acts := RaisedMeanwhile(k, u, x, d);
    states, acts := Extend(states, acts, UidObserve(3, k, u), x, d);
    states, acts := Extend(states, acts, UidLookUp(3), x, d);
  }

  lemma {:induction false} DeletedMeanwhile(k: Key, u: Uid, x: int, d: int) returns (states: seq<State>, acts: seq<Action>)
    requires x > 0
    ensures Misleading(states, acts, x, d) && BetweenLoads(states[|acts|], k, Exp(k, x, 0, true))
  {
    states, acts := ObservedMeanwhile(k, u, x, d);
    states, acts := Extend(states, acts, UidAddToAdd(3), x, d);
    states, acts := Extend(states, acts, UidAddToDel(3), x, d);
  }

  /**
   Every raise of the add counter can mislead a check: in some run whose only adjustments are by (x, d), the
   answer is yes although the object was never fulfilled.
   */
  lemma {:induction false} RaiseBreaksChecks(k: Key, u: Uid, x: int, d: int) returns (states: seq<State>, acts: seq<Action>)
    requires x > 0
    ensures IsRun(states, acts) && NeverFulfilled(states) && OnlyBy(acts, x, d)
    ensures |acts| > 0 && acts[|acts| - 1] == LoadDel(1) && At(states[|acts|], 1) == Answered(0, true)
  {
    states, acts := DeletedMeanwhile(k, u, x, d);
    states, acts := Extend(states, acts, LoadDel(1), x, d);
  }

  lemma {:induction false} RaiseIsUnfounded(p: (int, int) -> bool, x: int, d: int)
    requires p(x, d) && x > 0
    ensures !AlwaysFounded(p) && !AlwaysTruthful(p)
  {
    var states, acts := RaiseBreaksChecks("", "", x, d);
    var i := |acts| - 1;
    assert Allowed(p, acts) && Decides(states, acts, i);
    assert !Founded(states, acts, i);
    assert !Truthful(states, acts, i);
  }

  /**
   Exactly which adjustments keep checks sound, in every interleaving: those that never raise the add counter.
   Then each answer is the truth at the load that decides it; otherwise some answer is yes although the
   object never was fulfilled.
   */
  lemma {:induction false} ChecksAreSoundIff(p: (int, int) -> bool)
    ensures AlwaysTruthful(p) <==> forall add, del :: p(add, del) ==> add <= 0
    ensures AlwaysFounded(p) <==> forall add, del :: p(add, del) ==> add <= 0
  {
    if x, d :| p(x, d) && x > 0 {
      RaiseIsUnfounded(p, x, d);
    } else {
      forall states, acts, i | IsRun(states, acts) && Allowed(p, acts) && Decides(states, acts, i)
        ensures Truthful(states, acts, i) && Founded(states, acts, i)
      {
        AnswerIsTrueWhenDecided(states, acts, i);
      }
    }
  }
}
