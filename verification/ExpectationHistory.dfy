/**
 What the stores hold, told from the calls alone (pkg/controller/controller_utils.go): which call made the
 entry of a key, what its counters are after the calls that reached it, and which UIDs are still awaited.
 Nothing here looks at a state; the lemmas say that in every run the states agree.
 */
module ExpectationHistory {
  import opened Wrappers
  import opened Expectations

  // ----- the operations of a thread -----

  /** The first step of an operation. */
  predicate Begins(a: Action) {
    a.Check? || a.Adjust? || a.UidExpect? || a.UidObserve? || a.UidDelete?
  }

  /** The operation that thread t began last, before step i. */
  function Begun(acts: seq<Action>, i: nat, t: Tid): (q: Option<nat>)
    requires i <= |acts|
    ensures q.Some? ==> q.value < i && Begins(acts[q.value]) && acts[q.value].t == t
  {
    if i == 0 then None
    else if Begins(acts[i - 1]) && acts[i - 1].t == t then Some(i - 1)
    else Begun(acts, i - 1, t)
  }

  /** The key of the operation that thread t is in before step i. */
  function OpKey(acts: seq<Action>, i: nat, t: Tid): Key
    requires i <= |acts|
  {
    match Begun(acts, i, t)
    case Some(q) => acts[q].key
    case None => ""
  }

  // ----- entries -----

  /** The step stores a new object. */
  predicate Stores(a: Action) {
    a.SetExpectations? || a.UidCount?
  }

  function StoreKey(acts: seq<Action>, p: nat): Key
    requires p < |acts| && Stores(acts[p])
  {
    if acts[p].SetExpectations? then acts[p].key else OpKey(acts, p, acts[p].t)
  }

  /** The number of objects made before step i. */
  function Ordinal(acts: seq<Action>, i: nat): nat
    requires i <= |acts|
  {
    if i == 0 then 0 else Ordinal(acts, i - 1) + if Stores(acts[i - 1]) then 1 else 0
  }

  /** Step j takes the entry of k out; the tracked DeleteExpectations does if it found one when it began. */
  predicate Removes(acts: seq<Action>, j: nat, k: Key)
    requires j < |acts|
    decreases j
  {
    || acts[j] == DeleteExpectations(k)
    || (acts[j].UidDeleteEntry? &&
        match Begun(acts, j, acts[j].t)
        case Some(q) => acts[q].key == k && Made(acts, q, k).Some?
        case None => false)
  }

  /** The step that made the entry which k has before step i. */
  function Made(acts: seq<Action>, i: nat, k: Key): (p: Option<nat>)
    requires i <= |acts|
    ensures p.Some? ==> p.value < i && Stores(acts[p.value]) && StoreKey(acts, p.value) == k
    decreases i
  {
    if i == 0 then None
    else if Stores(acts[i - 1]) && StoreKey(acts, i - 1) == k then Some(i - 1)
    else if Removes(acts, i - 1, k) then None
    else Made(acts, i - 1, k)
  }

  /** It is the last step that stored something for k, and nothing has taken it out since. */
  lemma {:induction false} MadeIsLast(acts: seq<Action>, i: nat, k: Key, p: nat)
    requires p < i <= |acts| && Stores(acts[p]) && StoreKey(acts, p) == k
    ensures Made(acts, i, k) == Some(p) <==>
            forall j :: p < j < i ==> !(Stores(acts[j]) && StoreKey(acts, j) == k) && !Removes(acts, j, k)
  {
    if p < i - 1 {
      MadeIsLast(acts, i - 1, k, p);
    }
  }

  // ----- counters -----

  datatype Counter = Adds | Dels

  function Count(c: Counter, e: Exp): int {
    match c
    case Adds => e.add
    case Dels => e.del
  }

  /** What the object made by step p starts with: the amounts given, or one deletion for each different UID. */
  function Given(c: Counter, acts: seq<Action>, p: nat): int
    requires p < |acts| && Stores(acts[p])
  {
    if acts[p].SetExpectations? then (match c case Adds => acts[p].add case Dels => acts[p].del)
    else if c == Adds then 0
    else
      match Begun(acts, p, acts[p].t)
      case Some(q) => if acts[q].UidExpect? then |set u | u in acts[q].deleted| else 0
      case None => 0
  }

  /** The step looks an entry up in order to change its counters. */
  predicate Calls(a: Action) {
    a.Adjust? || a.UidLookUp?
  }

  /** By how much: a tracked observation takes one off the deletions. */
  function Amount(c: Counter, a: Action): int
    requires Calls(a)
  {
    match c
    case Adds => if a.Adjust? then a.add else 0
    case Dels => if a.Adjust? then a.del else -1
  }

  function CallKey(acts: seq<Action>, q: nat): Key
    requires q < |acts| && Calls(acts[q])
  {
    if acts[q].Adjust? then acts[q].key else OpKey(acts, q, acts[q].t)
  }

  /** The object the call found, named by the step that made it. */
  function Target(acts: seq<Action>, q: nat): Option<nat>
    requires q < |acts| && Calls(acts[q])
  {
    Made(acts, q, CallKey(acts, q))
  }

  /** The call that thread t made last, before step i. */
  function LastCall(acts: seq<Action>, i: nat, t: Tid): (q: Option<nat>)
    requires i <= |acts|
    ensures q.Some? ==> q.value < i && Calls(acts[q.value]) && acts[q.value].t == t
  {
    if i == 0 then None
    else if Calls(acts[i - 1]) && acts[i - 1].t == t then Some(i - 1)
    else LastCall(acts, i - 1, t)
  }

  /** The step is the atomic add to the counter. */
  predicate Applies(c: Counter, a: Action) {
    match c
    case Adds => a.AddToAdd?
    case Dels => a.AddToDel? || a.UidAddToDel?
  }

  ghost predicate AppliedAt(c: Counter, acts: seq<Action>, j: nat, q: nat)
    requires j < |acts|
  {
    Applies(c, acts[j]) && LastCall(acts, j, acts[j].t) == Some(q)
  }

  /** Before step i the amount of call q has been added. */
  ghost predicate Applied(c: Counter, acts: seq<Action>, i: nat, q: nat)
    requires i <= |acts|
  {
    exists j :: 0 <= j < i && AppliedAt(c, acts, j, q)
  }

  ghost predicate CallsOn(acts: seq<Action>, q: nat, p: nat)
    requires q < |acts|
  {
    Calls(acts[q]) && Target(acts, q) == Some(p)
  }

  ghost function Part(c: Counter, acts: seq<Action>, i: nat, p: nat, q: nat): int
    requires q < |acts| && i <= |acts|
  {
    if CallsOn(acts, q, p) && Applied(c, acts, i, q) then Amount(c, acts[q]) else 0
  }

  ghost function Parts(c: Counter, acts: seq<Action>, i: nat, p: nat, m: nat): int
    requires m <= |acts| && i <= |acts|
  {
    if m == 0 then 0 else Parts(c, acts, i, p, m - 1) + Part(c, acts, i, p, m - 1)
  }

  /** The counter of the object made by step p, before step i: what it was given and what has been added since. */
  ghost function Value(c: Counter, acts: seq<Action>, i: nat, p: nat): int
    requires i <= |acts| && p < |acts| && Stores(acts[p])
  {
    Given(c, acts, p) + Parts(c, acts, i, p, i)
  }

  /** All amounts of the calls that found the object. */
  ghost function Total(c: Counter, acts: seq<Action>, p: nat, m: nat): int
    requires m <= |acts|
  {
    if m == 0 then 0 else Total(c, acts, p, m - 1) + if CallsOn(acts, m - 1, p) then Amount(c, acts[m - 1]) else 0
  }

  /** All by which those calls lower the counter. */
  ghost function Lowering(c: Counter, acts: seq<Action>, p: nat, m: nat): nat
    requires m <= |acts|
  {
    if m == 0 then 0
    else
      Lowering(c, acts, p, m - 1) +
      if CallsOn(acts, m - 1, p) && Amount(c, acts[m - 1]) < 0 then -Amount(c, acts[m - 1]) else 0
  }

  // ----- UIDs -----

  /** The last tracked ExpectDeletions for k that has not been forgotten since. */
  function LastAnnounced(acts: seq<Action>, i: nat, k: Key): (a: Option<nat>)
    requires i <= |acts|
    ensures a.Some? ==> a.value < i && acts[a.value].UidExpect? && acts[a.value].key == k
  {
    if i == 0 then None
    else if acts[i - 1].UidExpect? && acts[i - 1].key == k then Some(i - 1)
    else if acts[i - 1].UidForget? && OpKey(acts, i - 1, acts[i - 1].t) == k then None
    else LastAnnounced(acts, i - 1, k)
  }

  /** A deletion of the UID was observed after step a. */
  predicate Observed(acts: seq<Action>, a: nat, i: nat, k: Key, u: Uid)
    requires i <= |acts|
  {
    exists j :: a < j < i && acts[j].UidObserve? && acts[j].key == k && acts[j].uid == u
  }

  /** The UIDs of the last announcement that have not been observed since. */
  function Awaited(acts: seq<Action>, i: nat, k: Key): set<Uid>
    requires i <= |acts|
  {
    match LastAnnounced(acts, i, k)
    case None => {}
    case Some(a) => set u | u in acts[a].deleted && !Observed(acts, a, i, k, u)
  }

  predicate AllObserved(acts: seq<Action>, i: nat, k: Key)
    requires i <= |acts|
  {
    match LastAnnounced(acts, i, k)
    case None => true
    case Some(a) => forall u :: u in acts[a].deleted ==> Observed(acts, a, i, k, u)
  }

  lemma {:induction false} NoneAwaited(acts: seq<Action>, i: nat, k: Key)
    requires i <= |acts|
    ensures |Awaited(acts, i, k)| <= 0 <==> AllObserved(acts, i, k)
  {
    match LastAnnounced(acts, i, k)
    case None =>
    case Some(a) =>
      if AllObserved(acts, i, k) {
        assert Awaited(acts, i, k) == {};
      } else {
        var u :| u in acts[a].deleted && !Observed(acts, a, i, k, u);
        assert u in Awaited(acts, i, k);
      }
  }

  // ----- the lock -----

  predicate HoldsLock(pc: Pc) {
    pc.UidCounting? || pc.UidFound? || pc.UidAddingAdd? || pc.UidAddingDel? || pc.UidRemoving? ||
    pc.UidDeleting? || pc.UidForgetting?
  }

  /** What the lock holder is doing; Idle when nobody holds the lock. */
  function Holder(s: State): Pc {
    if s.lock.Some? then At(s, s.lock.value) else Idle
  }

  ghost predicate Locked(s: State, t: Tid) {
    HoldsLock(At(s, t)) <==> s.lock == Some(t)
  }

  lemma {:induction false} PlainKeepsLock(s: State, a: Action)
    requires Enabled(s, a) && !IsUid(a) && !Instant(a) && Locked(s, a.t)
    ensures PlainNext(s, a).lock == s.lock && !HoldsLock(At(s, a.t)) && !HoldsLock(At(PlainNext(s, a), a.t))
  {
    match a
    case Check(_, _) =>
    case LoadAdd(_) =>
    case LoadDel(_) =>
    case Adjust(_, _, _, _) =>
    case AddToAdd(_) =>
    case AddToDel(_) =>
  }

  lemma {:induction false} UidActorLocked(s: State, a: Action)
    requires IsUid(a) && Enabled(s, a) && Locked(s, a.t)
    ensures Locked(UidNext(s, a), a.t)
  {
    var s' := UidNext(s, a);
    assert At(s', a.t) == s'.pc[a.t];
    match a
    case UidExpect(t, k, _) => assert s'.lock == Some(t) && s'.pc[t] == UidCounting(k);
    case UidCount(t) => assert s'.lock == None && s'.pc[t] == Idle;
    case UidObserve(t, k, u) =>
    case UidLookUp(t) => assert s'.lock == s.lock && HoldsLock(s'.pc[t]);
    case UidAddToAdd(t) => assert s'.lock == s.lock && HoldsLock(s'.pc[t]);
    case UidAddToDel(t) => assert s'.lock == s.lock && HoldsLock(s'.pc[t]);
    case UidRemove(t) => assert s'.lock == None && s'.pc[t] == Idle;
    case UidDelete(t, k) => assert s'.lock == Some(t) && HoldsLock(s'.pc[t]);
    case UidDeleteEntry(t) => assert s'.lock == s.lock && HoldsLock(s'.pc[t]);
    case UidForget(t) => assert s'.lock == None && s'.pc[t] == Idle;
  }

  lemma {:induction false} UidLock(s: State, a: Action)
    requires IsUid(a) && Enabled(s, a) && Locked(s, a.t)
    ensures s.lock.None? || s.lock == Some(a.t)
    ensures UidNext(s, a).lock.None? || UidNext(s, a).lock == Some(a.t)
  {
  }

  lemma {:induction false} LockedStep(s: State, a: Action, t: Tid)
    requires Enabled(s, a) && Locked(s, t) && (!Instant(a) ==> Locked(s, a.t))
    ensures Locked(Next(s, a), t)
  {
    if !Acts(a, t) {
      OthersStay(s, a, t);
    }
    if IsUid(a) {
      UidLock(s, a);
      UidActorLocked(s, a);
    } else if !Instant(a) {
      PlainKeepsLock(s, a);
    }
  }

  lemma {:induction false} LockedAlways(states: seq<State>, acts: seq<Action>, i: nat, t: Tid)
    requires IsRun(states, acts) && i < |states|
    ensures Locked(states[i], t)
  {
    if i > 0 {
      LockedAlways(states, acts, i - 1, t);
      if !Instant(acts[i - 1]) {
        LockedAlways(states, acts, i - 1, acts[i - 1].t);
      }
      assert IsStep(states, acts, i - 1);
      LockedStep(states[i - 1], acts[i - 1], t);
    }
  }

  // ----- threads and entries are where the calls say -----

  /** What k's entry was at step q is object r. */
  ghost predicate AimsAt(acts: seq<Action>, q: nat, k: Key, r: Ref)
    requires q <= |acts|
  {
    Made(acts, q, k).Some? && r == Ordinal(acts, Made(acts, q, k).value)
  }

  ghost predicate InCheck(acts: seq<Action>, i: nat, t: Tid, r: Ref)
    requires i <= |acts|
  {
    match Begun(acts, i, t)
    case Some(q) => acts[q].Check? && AimsAt(acts, q, acts[q].key, r)
    case None => false
  }

  ghost predicate InObserve(acts: seq<Action>, i: nat, t: Tid, k: Key, u: Uid)
    requires i <= |acts|
  {
    match Begun(acts, i, t)
    case Some(q) => acts[q].UidObserve? && acts[q].key == k && acts[q].uid == u
    case None => false
  }

  /** The call of thread t found object r, and the given amounts are still to be added. */
  ghost predicate InCall(acts: seq<Action>, i: nat, t: Tid, tracked: bool, r: Ref, pending: set<Counter>)
    requires i <= |acts|
  {
    match LastCall(acts, i, t)
    case None => false
    case Some(q) =>
      && acts[q].UidLookUp? == tracked && AimsAt(acts, q, CallKey(acts, q), r)
      && forall c :: c in pending ==> !Applied(c, acts, i, q)
  }

  ghost predicate PcFits(acts: seq<Action>, i: nat, t: Tid, pc: Pc)
    requires i <= |acts|
  {
    match pc
    case Idle => true
    case LoadingAdd(r) => InCheck(acts, i, t, r)
    case LoadingDel(r) => InCheck(acts, i, t, r)
    case Answered(_, _) => true
    case AddingAdd(r, add, del) =>
      InCall(acts, i, t, false, r, {Adds, Dels}) &&
      var a := acts[LastCall(acts, i, t).value]; a.Adjust? && a.add == add && a.del == del
    case AddingDel(r, del) =>
      InCall(acts, i, t, false, r, {Dels}) &&
      var a := acts[LastCall(acts, i, t).value]; a.Adjust? && a.del == del
    case UidCounting(k) => InExpect(acts, i, t, k)
    case UidFound(k, u) => InObserve(acts, i, t, k, u)
    case UidAddingAdd(k, u, r) => InObserve(acts, i, t, k, u) && InCall(acts, i, t, true, r, {Dels})
    case UidAddingDel(k, u, r) => InObserve(acts, i, t, k, u) && InCall(acts, i, t, true, r, {Dels})
    case UidRemoving(k, u) => InObserve(acts, i, t, k, u)
    case UidDeleting(k, found) => InDelete(acts, i, t, k) && found == Made(acts, Begun(acts, i, t).value, k).Some?
    case UidForgetting(k) => InDelete(acts, i, t, k)
  }

  ghost predicate InExpect(acts: seq<Action>, i: nat, t: Tid, k: Key)
    requires i <= |acts|
  {
    match Begun(acts, i, t)
    case Some(q) => acts[q].UidExpect? && acts[q].key == k
    case None => false
  }

  ghost predicate InDelete(acts: seq<Action>, i: nat, t: Tid, k: Key)
    requires i <= |acts|
  {
    match Begun(acts, i, t)
    case Some(q) => acts[q].UidDelete? && acts[q].key == k
    case None => false
  }

  ghost predicate EntryFits(s: State, acts: seq<Action>, i: nat, k: Key)
    requires i <= |acts|
  {
    if k in s.store then AimsAt(acts, i, k, s.store[k]) else Made(acts, i, k).None?
  }

  ghost predicate Fits(s: State, acts: seq<Action>, i: nat)
    requires i <= |acts|
  {
    && |s.objs| == Ordinal(acts, i)
    && (forall k :: EntryFits(s, acts, i, k))
    && (forall t :: PcFits(acts, i, t, At(s, t)))
  }

  lemma {:induction false} StillUnapplied(c: Counter, acts: seq<Action>, i: nat, q: nat)
    requires i < |acts| && !Applied(c, acts, i, q) && !AppliedAt(c, acts, i, q)
    ensures !Applied(c, acts, i + 1, q)
  {
  }

  lemma {:induction false} NewUnapplied(c: Counter, acts: seq<Action>, q: nat)
    requires q < |acts|
    ensures !Applied(c, acts, q + 1, q)
  {
  }

  /** The steps of other threads leave a thread where its own calls have put it. */
  lemma {:induction false} OthersFit(acts: seq<Action>, i: nat, t: Tid, pc: Pc)
    requires i < |acts| && PcFits(acts, i, t, pc) && !Acts(acts[i], t)
    ensures PcFits(acts, i + 1, t, pc)
  {
    assert Begun(acts, i + 1, t) == Begun(acts, i, t) && LastCall(acts, i + 1, t) == LastCall(acts, i, t);
    if LastCall(acts, i, t).Some? {
      var q := LastCall(acts, i, t).value;
      forall c | !Applied(c, acts, i, q) ensures !Applied(c, acts, i + 1, q) {
        StillUnapplied(c, acts, i, q);
      }
    }
  }

  lemma {:induction false} BeginningFits(s: State, acts: seq<Action>, i: nat)
    requires i < |acts| && Enabled(s, acts[i]) && Begins(acts[i]) && EntryFits(s, acts, i, acts[i].key)
    ensures PcFits(acts, i + 1, acts[i].t, At(Next(s, acts[i]), acts[i].t))
  {
    NewUnapplied(Adds, acts, i);
    NewUnapplied(Dels, acts, i);
  }

  lemma {:induction false} LookUpFits(s: State, acts: seq<Action>, i: nat)
    requires i < |acts| && Enabled(s, acts[i]) && acts[i].UidLookUp? && PcFits(acts, i, acts[i].t, At(s, acts[i].t))
    requires EntryFits(s, acts, i, At(s, acts[i].t).key)
    ensures PcFits(acts, i + 1, acts[i].t, At(Next(s, acts[i]), acts[i].t))
  {
    NewUnapplied(Dels, acts, i);
  }

  lemma {:induction false} AddingFits(s: State, acts: seq<Action>, i: nat)
    requires i < |acts| && Enabled(s, acts[i]) && (acts[i].AddToAdd? || acts[i].UidAddToAdd?)
    requires PcFits(acts, i, acts[i].t, At(s, acts[i].t))
    ensures PcFits(acts, i + 1, acts[i].t, At(Next(s, acts[i]), acts[i].t))
  {
    StillUnapplied(Dels, acts, i, LastCall(acts, i, acts[i].t).value);
  }

  lemma {:induction false} EndingFits(s: State, acts: seq<Action>, i: nat)
    requires i < |acts| && Enabled(s, acts[i]) && !Instant(acts[i]) && !Begins(acts[i])
    requires !acts[i].UidLookUp? && !acts[i].AddToAdd? && !acts[i].UidAddToAdd?
    requires PcFits(acts, i, acts[i].t, At(s, acts[i].t))
    ensures PcFits(acts, i + 1, acts[i].t, At(Next(s, acts[i]), acts[i].t))
  {
    var t := acts[i].t;
    assert Begun(acts, i + 1, t) == Begun(acts, i, t);
    match acts[i]
    case LoadAdd(_) =>
    case LoadDel(_) =>
    case AddToDel(_) =>
    case UidCount(_) =>
    case UidAddToDel(_) =>
    case UidRemove(_) =>
    case UidDeleteEntry(_) =>
    case UidForget(_) =>
  }

  lemma {:induction false} ThreadsFit(s: State, acts: seq<Action>, i: nat, t: Tid)
    requires i < |acts| && Enabled(s, acts[i]) && Fits(s, acts, i)
    ensures PcFits(acts, i + 1, t, At(Next(s, acts[i]), t))
  {
    assert PcFits(acts, i, t, At(s, t));
    var a := acts[i];
    if !Acts(a, t) {
      OthersStay(s, a, t);
      OthersFit(acts, i, t, At(s, t));
    } else if Begins(a) {
      assert EntryFits(s, acts, i, a.key);
      BeginningFits(s, acts, i);
    } else if a.UidLookUp? {
      assert EntryFits(s, acts, i, At(s, t).key);
      LookUpFits(s, acts, i);
    } else if a.AddToAdd? || a.UidAddToAdd? {
      AddingFits(s, acts, i);
    } else {
      EndingFits(s, acts, i);
    }
  }

  lemma {:induction false} StoringFits(s: State, acts: seq<Action>, i: nat, k: Key)
    requires i < |acts| && Enabled(s, acts[i]) && Stores(acts[i])
    requires |s.objs| == Ordinal(acts, i) && EntryFits(s, acts, i, k)
    requires acts[i].UidCount? ==> PcFits(acts, i, acts[i].t, At(s, acts[i].t))
    ensures var s' := Next(s, acts[i]); |s'.objs| == Ordinal(acts, i + 1) && EntryFits(s', acts, i + 1, k)
  {
    if acts[i].UidCount? {
      assert StoreKey(acts, i) == At(s, acts[i].t).key;
    }
  }

  lemma {:induction false} RemovingFits(s: State, acts: seq<Action>, i: nat, k: Key)
    requires i < |acts| && Enabled(s, acts[i]) && (acts[i].DeleteExpectations? || acts[i].UidDeleteEntry?)
    requires |s.objs| == Ordinal(acts, i) && EntryFits(s, acts, i, k)
    requires acts[i].UidDeleteEntry? ==> PcFits(acts, i, acts[i].t, At(s, acts[i].t))
    ensures var s' := Next(s, acts[i]); |s'.objs| == Ordinal(acts, i + 1) && EntryFits(s', acts, i + 1, k)
  {
  }

  /** No other step touches the store or makes an object. */
  lemma {:induction false} PlainStoreStays(s: State, a: Action)
    requires Enabled(s, a) && !IsUid(a) && !Instant(a)
    ensures PlainNext(s, a).store == s.store && |PlainNext(s, a).objs| == |s.objs|
  {
  }

  lemma {:induction false} UidStoreStays(s: State, a: Action)
    requires Enabled(s, a) && IsUid(a) && !a.UidCount? && !a.UidDeleteEntry?
    ensures UidNext(s, a).store == s.store && |UidNext(s, a).objs| == |s.objs|
  {
  }

  lemma {:induction false} EntriesFit(s: State, acts: seq<Action>, i: nat, k: Key)
    requires i < |acts| && Enabled(s, acts[i]) && Fits(s, acts, i)
    ensures var s' := Next(s, acts[i]); |s'.objs| == Ordinal(acts, i + 1) && EntryFits(s', acts, i + 1, k)
  {
    var a := acts[i];
    assert EntryFits(s, acts, i, k);
    if !Instant(a) {
      assert PcFits(acts, i, a.t, At(s, a.t));
    }
    if Stores(a) {
      StoringFits(s, acts, i, k);
    } else if a.DeleteExpectations? || a.UidDeleteEntry? {
      RemovingFits(s, acts, i, k);
    } else if IsUid(a) {
      UidStoreStays(s, a);
    } else {
      PlainStoreStays(s, a);
    }
  }

  lemma {:induction false} FitsAlways(states: seq<State>, acts: seq<Action>, i: nat)
    requires IsRun(states, acts) && i < |states|
    ensures Fits(states[i], acts, i)
  {
    if i > 0 {
      var s := states[i - 1];
      FitsAlways(states, acts, i - 1);
      assert IsStep(states, acts, i - 1);
      forall k ensures |states[i].objs| == Ordinal(acts, i) && EntryFits(states[i], acts, i, k) {
        EntriesFit(s, acts, i - 1, k);
      }
      forall t ensures PcFits(acts, i, t, At(states[i], t)) {
        ThreadsFit(s, acts, i - 1, t);
      }
      EntriesFit(s, acts, i - 1, "");
    }
  }

  // ----- the UID sets are what the announcements and observations say -----

  /** The UID whose observation the lock holder has under way. */
  function InHand(pc: Pc, k: Key): set<Uid> {
    if (pc.UidFound? || pc.UidAddingAdd? || pc.UidAddingDel? || pc.UidRemoving?) && pc.key == k then {pc.uid} else {}
  }

  ghost predicate UidsFit(s: State, acts: seq<Action>, i: nat, k: Key)
    requires i <= |acts|
  {
    && Uids(s, k) == Awaited(acts, i, k) + InHand(Holder(s), k)
    && Awaited(acts, i, k) !! InHand(Holder(s), k)
    && (Holder(s) == UidCounting(k) ==> Begun(acts, i, s.lock.value) == LastAnnounced(acts, i, k))
    && (Holder(s) == UidCounting(k) ==>
          LastAnnounced(acts, i, k).Some? &&
          Awaited(acts, i, k) == set u | u in acts[LastAnnounced(acts, i, k).value].deleted)
  }

  /** Steps that neither announce, observe nor forget leave what is awaited alone. */
  lemma {:induction false} AwaitedStays(acts: seq<Action>, i: nat, k: Key)
    requires i < |acts| && !acts[i].UidExpect? && !acts[i].UidObserve? && !acts[i].UidForget?
    ensures LastAnnounced(acts, i + 1, k) == LastAnnounced(acts, i, k)
    ensures Awaited(acts, i + 1, k) == Awaited(acts, i, k)
  {
    ObservedStays(acts, i, k);
  }

  lemma {:induction false} ObservedStays(acts: seq<Action>, i: nat, k: Key)
    requires i < |acts| && (acts[i].UidObserve? ==> acts[i].key != k)
    ensures forall a: nat, u: Uid :: Observed(acts, a, i + 1, k, u) <==> Observed(acts, a, i, k, u)
  {
    forall a: nat, u: Uid | Observed(acts, a, i, k, u) ensures Observed(acts, a, i + 1, k, u) {
      var j :| a < j < i && acts[j].UidObserve? && acts[j].key == k && acts[j].uid == u;
      assert a < j < i + 1;
    }
  }

  lemma {:induction false} PlainUidsFit(s: State, acts: seq<Action>, i: nat, k: Key)
    requires i < |acts| && Enabled(s, acts[i]) && !IsUid(acts[i]) && UidsFit(s, acts, i, k)
    requires s.lock.Some? ==> Locked(s, s.lock.value)
    requires !Instant(acts[i]) ==> Locked(s, acts[i].t)
    ensures UidsFit(Next(s, acts[i]), acts, i + 1, k)
  {
    AwaitedStays(acts, i, k);
    if !Instant(acts[i]) {
      PlainKeepsLock(s, acts[i]);
    }
    if s.lock.Some? {
      PlainOthersStay(s, acts[i], s.lock.value);
    }
    PlainUidsStay(s, acts[i]);
  }

  lemma {:induction false} PlainUidsStay(s: State, a: Action)
    requires Enabled(s, a) && !IsUid(a)
    ensures PlainNext(s, a).uids == s.uids && PlainNext(s, a).lock == s.lock
  {
  }

  lemma {:induction false} ExpectUidsFit(s: State, acts: seq<Action>, i: nat, k: Key)
    requires i < |acts| && Enabled(s, acts[i]) && acts[i].UidExpect? && UidsFit(s, acts, i, k)
    ensures UidsFit(Next(s, acts[i]), acts, i + 1, k)
  {
    var s' := Next(s, acts[i]);
    assert Holder(s') == UidCounting(acts[i].key) && Holder(s) == Idle;
    ObservedStays(acts, i, k);
    if acts[i].key == k {
      assert Awaited(acts, i + 1, k) == set u | u in acts[i].deleted;
    } else {
      assert Awaited(acts, i + 1, k) == Awaited(acts, i, k);
    }
  }

  lemma {:induction false} ObserveUidsFit(s: State, acts: seq<Action>, i: nat, k: Key)
    requires i < |acts| && Enabled(s, acts[i]) && acts[i].UidObserve? && UidsFit(s, acts, i, k)
    ensures UidsFit(Next(s, acts[i]), acts, i + 1, k)
  {
    var s', u := Next(s, acts[i]), acts[i].uid;
    assert Holder(s) == Idle;
    assert LastAnnounced(acts, i + 1, k) == LastAnnounced(acts, i, k);
    if acts[i].key == k {
      ObservedGrows(acts, i, k);
      assert Awaited(acts, i + 1, k) == Awaited(acts, i, k) - {u};
      assert Uids(s', k) == Uids(s, k);
    } else {
      ObservedStays(acts, i, k);
      assert Awaited(acts, i + 1, k) == Awaited(acts, i, k);
    }
  }

  lemma {:induction false} ObservedGrows(acts: seq<Action>, i: nat, k: Key)
    requires i < |acts| && acts[i].UidObserve? && acts[i].key == k
    ensures forall a: nat, u: Uid ::
              a < i ==> (Observed(acts, a, i + 1, k, u) <==> Observed(acts, a, i, k, u) || u == acts[i].uid)
  {
    forall a: nat, u: Uid | a < i && Observed(acts, a, i, k, u) ensures Observed(acts, a, i + 1, k, u) {
      var j :| a < j < i && acts[j].UidObserve? && acts[j].key == k && acts[j].uid == u;
      assert a < j < i + 1;
    }
  }

  lemma {:induction false} ForgetUidsFit(s: State, acts: seq<Action>, i: nat, k: Key)
    requires i < |acts| && Enabled(s, acts[i]) && acts[i].UidForget? && UidsFit(s, acts, i, k)
    requires Locked(s, acts[i].t) && PcFits(acts, i, acts[i].t, At(s, acts[i].t))
    ensures UidsFit(Next(s, acts[i]), acts, i + 1, k)
  {
    var s' := Next(s, acts[i]);
    assert Holder(s') == Idle && Holder(s) == At(s, acts[i].t);
    assert OpKey(acts, i, acts[i].t) == At(s, acts[i].t).key;
    ObservedStays(acts, i, k);
    if At(s, acts[i].t).key != k {
      assert Awaited(acts, i + 1, k) == Awaited(acts, i, k);
    }
  }

  /** The other steps under the lock touch no set, and what is in hand stays in hand. */
  lemma {:induction false} HandStays(s: State, a: Action, k: Key)
    requires Enabled(s, a) && IsUid(a) && Locked(s, a.t)
    requires !a.UidExpect? && !a.UidObserve? && !a.UidForget? && !a.UidRemove?
    ensures var s' := UidNext(s, a);
            s'.uids == s.uids && InHand(Holder(s'), k) == InHand(Holder(s), k) && !Holder(s').UidCounting?
  {
    assert Holder(s) == if a.UidDelete? then Idle else At(s, a.t);
    match a
    case UidCount(_) =>
    case UidLookUp(_) =>
    case UidAddToAdd(_) =>
    case UidAddToDel(_) =>
    case UidDelete(_, _) =>
    case UidDeleteEntry(_) =>
  }

  lemma {:induction false} RemoveUidsFit(s: State, acts: seq<Action>, i: nat, k: Key)
    requires i < |acts| && Enabled(s, acts[i]) && acts[i].UidRemove? && UidsFit(s, acts, i, k) && Locked(s, acts[i].t)
    ensures UidsFit(Next(s, acts[i]), acts, i + 1, k)
  {
    var s', pc := Next(s, acts[i]), At(s, acts[i].t);
    AwaitedStays(acts, i, k);
    assert Holder(s') == Idle && Holder(s) == pc;
    if pc.key == k {
      assert Uids(s', k) == Uids(s, k) - {pc.uid};
    }
  }

  lemma {:induction false} HolderUidsFit(s: State, acts: seq<Action>, i: nat, k: Key)
    requires i < |acts| && Enabled(s, acts[i]) && IsUid(acts[i]) && UidsFit(s, acts, i, k)
    requires !acts[i].UidExpect? && !acts[i].UidObserve? && !acts[i].UidForget?
    requires Locked(s, acts[i].t)
    ensures UidsFit(Next(s, acts[i]), acts, i + 1, k)
  {
    if acts[i].UidRemove? {
      RemoveUidsFit(s, acts, i, k);
    } else {
      AwaitedStays(acts, i, k);
      HandStays(s, acts[i], k);
    }
  }

  lemma {:induction false} UidsFitStep(s: State, acts: seq<Action>, i: nat, k: Key)
    requires i < |acts| && Enabled(s, acts[i]) && UidsFit(s, acts, i, k)
    requires s.lock.Some? ==> Locked(s, s.lock.value)
    requires !Instant(acts[i]) ==> Locked(s, acts[i].t) && PcFits(acts, i, acts[i].t, At(s, acts[i].t))
    ensures UidsFit(Next(s, acts[i]), acts, i + 1, k)
  {
    if !IsUid(acts[i]) {
      PlainUidsFit(s, acts, i, k);
    } else if acts[i].UidExpect? {
      ExpectUidsFit(s, acts, i, k);
    } else if acts[i].UidObserve? {
      ObserveUidsFit(s, acts, i, k);
    } else if acts[i].UidForget? {
      ForgetUidsFit(s, acts, i, k);
    } else {
      HolderUidsFit(s, acts, i, k);
    }
  }

  /** What the two invariants above say of the thread that takes step i. */
  lemma {:induction false} ActorInRun(states: seq<State>, acts: seq<Action>, i: nat)
    requires IsRun(states, acts) && i < |acts| && !Instant(acts[i])
    ensures Locked(states[i], acts[i].t) && PcFits(acts, i, acts[i].t, At(states[i], acts[i].t))
  {
    LockedAlways(states, acts, i, acts[i].t);
    FitsAlways(states, acts, i);
  }

  lemma {:induction false} UidsFitAlways(states: seq<State>, acts: seq<Action>, i: nat, k: Key)
    requires IsRun(states, acts) && i < |states|
    ensures UidsFit(states[i], acts, i, k)
  {
    if i > 0 {
      UidsFitAlways(states, acts, i - 1, k);
      if states[i - 1].lock.Some? {
        LockedAlways(states, acts, i - 1, states[i - 1].lock.value);
      }
      if !Instant(acts[i - 1]) {
        ActorInRun(states, acts, i - 1);
      }
      assert IsStep(states, acts, i - 1);
      UidsFitStep(states[i - 1], acts, i - 1, k);
    }
  }

  /** While no tracked operation is under way, the UID set of a key is just what its announcement still awaits. */
  lemma {:induction false} UidsAreAwaited(states: seq<State>, acts: seq<Action>, i: nat, k: Key)
    requires IsRun(states, acts) && i < |states| && states[i].lock.None?
    ensures Uids(states[i], k) == Awaited(acts, i, k)
  {
    UidsFitAlways(states, acts, i, k);
  }
}
