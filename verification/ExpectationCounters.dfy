/**
 The counters of an entry as a ledger of calls (pkg/controller/controller_utils.go), and what a check can
 therefore answer.
 */
module ExpectationCounters {
  import opened Wrappers
  import opened Expectations
  import opened ExpectationHistory

  // ----- the counters are what the calls say -----

  ghost predicate ObjectFits(c: Counter, s: State, acts: seq<Action>, i: nat, p: nat)
    requires p < i <= |acts| && Stores(acts[p])
  {
    var r := Ordinal(acts, p);
    && r < |s.objs| && s.objs[r].key == StoreKey(acts, p) && s.objs[r].tracked == acts[p].UidCount?
    && Count(c, s.objs[r]) == Value(c, acts, i, p)
  }

  lemma {:induction false} OrdinalGrows(acts: seq<Action>, p: nat, i: nat)
    requires p < i <= |acts| && Stores(acts[p])
    ensures Ordinal(acts, p) < Ordinal(acts, i)
  {
    if p < i - 1 {
      OrdinalGrows(acts, p, i - 1);
    }
  }

  /** If the amount of one call at most changes from unapplied to applied, so does the sum. */
  lemma {:induction false} PartsChange(c: Counter, acts: seq<Action>, i: nat, p: nat, m: nat, q0: Option<nat>)
    requires m <= i < |acts|
    requires forall q :: 0 <= q < i ==> (AppliedAt(c, acts, i, q) <==> q0 == Some(q))
    requires q0.Some? ==> q0.value < i && CallsOn(acts, q0.value, p) && !Applied(c, acts, i, q0.value)
    ensures Parts(c, acts, i + 1, p, m) ==
            Parts(c, acts, i, p, m) + if q0.Some? && q0.value < m then Amount(c, acts[q0.value]) else 0
  {
    if m > 0 {
      PartsChange(c, acts, i, p, m - 1, q0);
      var q := m - 1;
      assert AppliedAt(c, acts, i, q) <==> q0 == Some(q);
      AppliedStep(c, acts, i, q);
    }
  }

  lemma {:induction false} AppliedStep(c: Counter, acts: seq<Action>, i: nat, q: nat)
    requires i < |acts|
    ensures Applied(c, acts, i + 1, q) <==> Applied(c, acts, i, q) || AppliedAt(c, acts, i, q)
  {
    if Applied(c, acts, i, q) {
      var j :| 0 <= j < i && AppliedAt(c, acts, j, q);
      assert 0 <= j < i + 1;
    }
  }

  /** A step that adds nothing to the object leaves its value. */
  lemma {:induction false} ValueStays(c: Counter, acts: seq<Action>, i: nat, p: nat)
    requires p < i < |acts| && Stores(acts[p])
    requires forall q :: 0 <= q < i && AppliedAt(c, acts, i, q) ==> !CallsOn(acts, q, p)
    ensures Value(c, acts, i + 1, p) == Value(c, acts, i, p)
  {
    PartsStay(c, acts, i, p, i);
    NewUnapplied(c, acts, i);
  }

  lemma {:induction false} PartsStay(c: Counter, acts: seq<Action>, i: nat, p: nat, m: nat)
    requires m <= i < |acts|
    requires forall q :: 0 <= q < i && AppliedAt(c, acts, i, q) ==> !CallsOn(acts, q, p)
    ensures Parts(c, acts, i + 1, p, m) == Parts(c, acts, i, p, m)
  {
    if m > 0 {
      PartsStay(c, acts, i, p, m - 1);
      AppliedStep(c, acts, i, m - 1);
    }
  }

  lemma {:induction false} ValueMoves(c: Counter, acts: seq<Action>, i: nat, p: nat, q: nat)
    requires p < i < |acts| && Stores(acts[p])
    requires q < i && AppliedAt(c, acts, i, q) && CallsOn(acts, q, p) && !Applied(c, acts, i, q)
    ensures Value(c, acts, i + 1, p) == Value(c, acts, i, p) + Amount(c, acts[q])
  {
    PartsChange(c, acts, i, p, i, Some(q));
    NewUnapplied(c, acts, i);
  }

  /** No call before the step that made an object can have found it. */
  lemma {:induction false} NewValue(c: Counter, acts: seq<Action>, p: nat, i: nat, m: nat)
    requires m <= p + 1 && p < |acts| && i <= |acts|
    ensures Parts(c, acts, i, p, m) == 0
  {
    if m > 0 {
      NewValue(c, acts, p, i, m - 1);
    }
  }

  lemma {:induction false} NewObjectFits(c: Counter, s: State, acts: seq<Action>, i: nat)
    requires i < |acts| && Enabled(s, acts[i]) && Stores(acts[i]) && Fits(s, acts, i)
    requires acts[i].UidCount? ==> UidsFit(s, acts, i, At(s, acts[i].t).key) && Locked(s, acts[i].t)
    ensures ObjectFits(c, Next(s, acts[i]), acts, i + 1, i)
  {
    NewValue(c, acts, i, i + 1, i + 1);
    if acts[i].UidCount? {
      assert PcFits(acts, i, acts[i].t, At(s, acts[i].t));
      assert Holder(s) == At(s, acts[i].t);
    }
  }

  /** Every counter step adds the amount of the call its thread is in, to the object that call found. */
  lemma {:induction false} CounterStep(c: Counter, s: State, acts: seq<Action>, i: nat) returns (q: nat, p: nat)
    requires i < |acts| && Enabled(s, acts[i]) && Applies(c, acts[i]) && PcFits(acts, i, acts[i].t, At(s, acts[i].t))
    ensures q < i && AppliedAt(c, acts, i, q) && CallsOn(acts, q, p) && !Applied(c, acts, i, q)
    ensures p < q && Stores(acts[p]) && Ordinal(acts, p) < |s.objs|
    ensures var s', r := Next(s, acts[i]), Ordinal(acts, p);
            && |s'.objs| == |s.objs| && (forall j :: 0 <= j < |s.objs| && j != r ==> s'.objs[j] == s.objs[j])
            && s'.objs[r].key == s.objs[r].key && s'.objs[r].tracked == s.objs[r].tracked
            && Count(c, s'.objs[r]) == Count(c, s.objs[r]) + Amount(c, acts[q])
  {
    q := LastCall(acts, i, acts[i].t).value;
    p := Target(acts, q).value;
  }

  /** A step that is no counter step for c changes no object as far as c goes. */
  lemma {:induction false} PlainCountersStay(c: Counter, s: State, a: Action, r: Ref)
    requires Enabled(s, a) && !IsUid(a) && !Applies(c, a) && r < |s.objs|
    ensures var s' := PlainNext(s, a);
            && r < |s'.objs| && s'.objs[r].key == s.objs[r].key && s'.objs[r].tracked == s.objs[r].tracked
            && Count(c, s'.objs[r]) == Count(c, s.objs[r])
  {
  }

  lemma {:induction false} UidCountersStay(c: Counter, s: State, a: Action, r: Ref)
    requires Enabled(s, a) && IsUid(a) && !Applies(c, a) && r < |s.objs|
    ensures var s' := UidNext(s, a);
            && r < |s'.objs| && s'.objs[r].key == s.objs[r].key && s'.objs[r].tracked == s.objs[r].tracked
            && Count(c, s'.objs[r]) == Count(c, s.objs[r])
  {
  }

  lemma {:induction false} OldObjectFits(c: Counter, s: State, acts: seq<Action>, i: nat, p: nat)
    requires p < i < |acts| && Stores(acts[p]) && Enabled(s, acts[i]) && ObjectFits(c, s, acts, i, p)
    requires !Instant(acts[i]) ==> PcFits(acts, i, acts[i].t, At(s, acts[i].t))
    ensures ObjectFits(c, Next(s, acts[i]), acts, i + 1, p)
  {
    if Applies(c, acts[i]) {
      var q, p' := CounterStep(c, s, acts, i);
      if p == p' {
        ValueMoves(c, acts, i, p, q);
      } else {
        ValueStays(c, acts, i, p);
        if p < p' { OrdinalGrows(acts, p, p'); } else { OrdinalGrows(acts, p', p); }
      }
    } else {
      ValueStays(c, acts, i, p);
      if IsUid(acts[i]) {
        UidCountersStay(c, s, acts[i], Ordinal(acts, p));
      } else {
        PlainCountersStay(c, s, acts[i], Ordinal(acts, p));
      }
    }
  }

  lemma {:induction false} NewObjectFitsInRun(c: Counter, states: seq<State>, acts: seq<Action>, p: nat)
    requires IsRun(states, acts) && p < |acts| && Stores(acts[p])
    ensures ObjectFits(c, states[p + 1], acts, p + 1, p)
  {
    FitsAlways(states, acts, p);
    if acts[p].UidCount? {
      UidsFitAlways(states, acts, p, At(states[p], acts[p].t).key);
      LockedAlways(states, acts, p, acts[p].t);
    }
    assert IsStep(states, acts, p);
    NewObjectFits(c, states[p], acts, p);
  }

  lemma {:induction false} ObjectFitsInRun(c: Counter, states: seq<State>, acts: seq<Action>, i: nat, p: nat)
    requires IsRun(states, acts) && p < i < |acts| && Stores(acts[p]) && ObjectFits(c, states[i], acts, i, p)
    ensures ObjectFits(c, states[i + 1], acts, i + 1, p)
  {
    if !Instant(acts[i]) {
      ActorInRun(states, acts, i);
    }
    assert IsStep(states, acts, i);
    OldObjectFits(c, states[i], acts, i, p);
  }

  lemma {:induction false} ObjectFitsAlways(c: Counter, states: seq<State>, acts: seq<Action>, i: nat, p: nat)
    requires IsRun(states, acts) && p < i < |states| && Stores(acts[p])
    ensures ObjectFits(c, states[i], acts, i, p)
  {
    if p == i - 1 {
      NewObjectFitsInRun(c, states, acts, p);
    } else {
      ObjectFitsAlways(c, states, acts, i - 1, p);
      ObjectFitsInRun(c, states, acts, i - 1, p);
    }
  }

  // ----- calls that are through -----

  /** The thread has found an object and has yet to add to the counter. */
  predicate Pending(c: Counter, pc: Pc) {
    match c
    case Adds => pc.AddingAdd?
    case Dels => pc.AddingAdd? || pc.AddingDel? || pc.UidAddingAdd? || pc.UidAddingDel?
  }

  /** A call that found an object has added its amount, or its thread is still on the way there. */
  ghost predicate CallFits(c: Counter, s: State, acts: seq<Action>, i: nat, q: nat)
    requires q < i <= |acts| && Calls(acts[q])
  {
    Target(acts, q).Some? && Amount(c, acts[q]) != 0 ==>
      Applied(c, acts, i, q) || (LastCall(acts, i, acts[q].t) == Some(q) && Pending(c, At(s, acts[q].t)))
  }

  lemma {:induction false} NewCallFits(c: Counter, s: State, acts: seq<Action>, q: nat)
    requires q < |acts| && Calls(acts[q]) && Enabled(s, acts[q]) && Fits(s, acts, q)
    ensures CallFits(c, Next(s, acts[q]), acts, q + 1, q)
  {
    assert EntryFits(s, acts, q, CallKey(acts, q));
    assert PcFits(acts, q, acts[q].t, At(s, acts[q].t));
  }

  lemma {:induction false} OldCallFits(c: Counter, s: State, acts: seq<Action>, i: nat, q: nat)
    requires q < i < |acts| && Calls(acts[q]) && Enabled(s, acts[i]) && CallFits(c, s, acts, i, q)
    ensures CallFits(c, Next(s, acts[i]), acts, i + 1, q)
  {
    AppliedStep(c, acts, i, q);
    var a, t := acts[i], acts[q].t;
    if Target(acts, q).Some? && Amount(c, acts[q]) != 0 && !Applied(c, acts, i, q) {
      if !Acts(a, t) {
        OthersStay(s, a, t);
      } else {
        assert a.AddToAdd? || a.AddToDel? || a.UidAddToAdd? || a.UidAddToDel?;
      }
    }
  }

  lemma {:induction false} CallFitsAlways(c: Counter, states: seq<State>, acts: seq<Action>, i: nat, q: nat)
    requires IsRun(states, acts) && q < i < |states| && Calls(acts[q])
    ensures CallFits(c, states[i], acts, i, q)
  {
    assert IsStep(states, acts, i - 1);
    if q == i - 1 {
      FitsAlways(states, acts, q);
      NewCallFits(c, states[q], acts, q);
    } else {
      CallFitsAlways(c, states, acts, i - 1, q);
      OldCallFits(c, states[i - 1], acts, i - 1, q);
    }
  }

  /** No thread has yet to add to the counter of object r. */
  ghost predicate Quiet(c: Counter, s: State, r: Ref) {
    forall t :: !(Pending(c, At(s, t)) && At(s, t).ref == r)
  }

  lemma {:induction false} QuietCall(c: Counter, states: seq<State>, acts: seq<Action>, i: nat, p: nat, q: nat)
    requires IsRun(states, acts) && q < i < |states| && p < |acts| && CallsOn(acts, q, p)
    requires Quiet(c, states[i], Ordinal(acts, p)) && Amount(c, acts[q]) != 0
    ensures Applied(c, acts, i, q)
  {
    var t := acts[q].t;
    CallFitsAlways(c, states, acts, i, q);
    FitsAlways(states, acts, i);
    assert PcFits(acts, i, t, At(states[i], t));
    assert !(Pending(c, At(states[i], t)) && At(states[i], t).ref == Ordinal(acts, p));
  }

  lemma {:induction false} AllApplied(c: Counter, acts: seq<Action>, i: nat, p: nat, m: nat)
    requires m <= i <= |acts|
    requires forall q :: 0 <= q < m && CallsOn(acts, q, p) && Amount(c, acts[q]) != 0 ==> Applied(c, acts, i, q)
    ensures Parts(c, acts, i, p, m) == Total(c, acts, p, m)
  {
    if m > 0 {
      AllApplied(c, acts, i, p, m - 1);
    }
  }

  lemma {:induction false} QuietParts(c: Counter, states: seq<State>, acts: seq<Action>, i: nat, p: nat)
    requires IsRun(states, acts) && i < |states| && p < |acts|
    requires Quiet(c, states[i], Ordinal(acts, p))
    ensures Parts(c, acts, i, p, i) == Total(c, acts, p, i)
  {
    forall q | 0 <= q < i && CallsOn(acts, q, p) && Amount(c, acts[q]) != 0 ensures Applied(c, acts, i, q) {
      QuietCall(c, states, acts, i, p, q);
    }
    AllApplied(c, acts, i, p, i);
  }

  // ----- what it means -----

  /**
   In every state of every run: a key has an entry exactly when the calls say so, and each counter of the entry is
   what it was given plus the amounts added since. While nobody is about to add to it, that is the amounts of
   all calls which found it.
   */
  lemma {:induction false} EntryFollowsCalls(c: Counter, states: seq<State>, acts: seq<Action>, i: nat, k: Key)
    requires IsRun(states, acts) && i < |states|
    ensures k in states[i].store <==> Made(acts, i, k).Some?
    ensures k in states[i].store ==>
              var s, p := states[i], Made(acts, i, k).value;
              && s.store[k] < |s.objs|
              && var o := s.objs[s.store[k]];
                 && o.key == k && o.tracked == acts[p].UidCount?
                 && Count(c, o) == Value(c, acts, i, p)
                 && (Quiet(c, s, s.store[k]) ==> Count(c, o) == Given(c, acts, p) + Total(c, acts, p, i))
  {
    FitsAlways(states, acts, i);
    assert EntryFits(states[i], acts, i, k);
    if k in states[i].store {
      var p := Made(acts, i, k).value;
      ObjectFitsAlways(c, states, acts, i, p);
      if Quiet(c, states[i], states[i].store[k]) {
        QuietParts(c, states, acts, i, p);
      }
    }
  }

  /** The step that made the object which a check by thread t is looking at before step i. */
  function Checked(acts: seq<Action>, i: nat, t: Tid): (p: Option<nat>)
    requires i <= |acts|
    ensures p.Some? ==> p.value < i && Stores(acts[p.value])
  {
    match Begun(acts, i, t)
    case Some(q) => Made(acts, q, acts[q].key)
    case None => None
  }

  lemma {:induction false} CheckedFits(states: seq<State>, acts: seq<Action>, i: nat, t: Tid)
    requires IsRun(states, acts) && i < |states| && Checking(At(states[i], t))
    ensures Checked(acts, i, t).Some? && At(states[i], t).ref == Ordinal(acts, Checked(acts, i, t).value)
  {
    FitsAlways(states, acts, i);
    assert PcFits(acts, i, t, At(states[i], t));
  }

  /** Each step of a check goes where the calls say: on to the next load, or to an answer. */
  lemma {:induction false} ChecksProceed(states: seq<State>, acts: seq<Action>, i: nat)
    requires IsRun(states, acts) && i < |acts| && (acts[i].Check? || acts[i].LoadAdd? || acts[i].LoadDel?)
    ensures acts[i].Check? ==>
              var p := Made(acts, i, acts[i].key);
              At(states[i + 1], acts[i].t) == if p.Some? then LoadingAdd(Ordinal(acts, p.value)) else Idle
    ensures !acts[i].Check? ==> Checked(acts, i, acts[i].t).Some?
    ensures acts[i].LoadAdd? ==>
              var p := Checked(acts, i, acts[i].t).value;
              At(states[i + 1], acts[i].t) ==
                if Value(Adds, acts, i, p) <= 0 then LoadingDel(Ordinal(acts, p)) else Answered(Ordinal(acts, p), false)
    ensures acts[i].LoadDel? ==>
              var p := Checked(acts, i, acts[i].t).value;
              At(states[i + 1], acts[i].t) == Answered(Ordinal(acts, p), Value(Dels, acts, i, p) <= 0)
  {
    assert IsStep(states, acts, i);
    if acts[i].Check? {
      FitsAlways(states, acts, i);
      assert EntryFits(states[i], acts, i, acts[i].key);
    } else {
      CheckedFits(states, acts, i, acts[i].t);
      ObjectFitsAlways(Adds, states, acts, i, Checked(acts, i, acts[i].t).value);
      ObjectFitsAlways(Dels, states, acts, i, Checked(acts, i, acts[i].t).value);
    }
  }

  /** What a check answers, told from the calls alone, as long as no call raises an add counter. */
  lemma {:induction false} AnswerFollowsCalls(states: seq<State>, acts: seq<Action>, i: nat)
    requires IsRun(states, acts) && Decides(states, acts, i)
    requires forall j :: 0 <= j < |acts| ==> NoAddRaise(acts[j])
    ensures Checked(acts, i, acts[i].t).Some?
    ensures var p := Checked(acts, i, acts[i].t).value;
            At(states[i + 1], acts[i].t).fulfilled <==> Value(Adds, acts, i, p) <= 0 && Value(Dels, acts, i, p) <= 0
  {
    assert IsStep(states, acts, i);
    CheckedFits(states, acts, i, acts[i].t);
    var p := Checked(acts, i, acts[i].t).value;
    ObjectFitsAlways(Adds, states, acts, i, p);
    ObjectFitsAlways(Dels, states, acts, i, p);
    AnswerIsTrueWhenDecided(states, acts, i);
  }

  // ----- a yes needs the observations -----

  lemma {:induction false} PartsLower(c: Counter, acts: seq<Action>, i: nat, p: nat, m: nat)
    requires m <= |acts| && i <= |acts|
    ensures 0 <= Parts(c, acts, i, p, m) + Lowering(c, acts, p, m)
  {
    if m > 0 {
      PartsLower(c, acts, i, p, m - 1);
    }
  }

  lemma {:induction false} LoweringGrows(c: Counter, acts: seq<Action>, p: nat, m: nat, m': nat)
    requires m <= m' <= |acts|
    ensures Lowering(c, acts, p, m) <= Lowering(c, acts, p, m')
    decreases m'
  {
    if m < m' {
      LoweringGrows(c, acts, p, m, m' - 1);
    }
  }

  /** A thread past its first load saw no additions outstanding. */
  lemma {:induction false} FirstLoad(states: seq<State>, acts: seq<Action>, i: nat, t: Tid) returns (j: nat)
    requires IsRun(states, acts) && i < |states| && At(states[i], t).LoadingDel?
    ensures j < i && At(states[i], t).ref < |states[j].objs| && states[j].objs[At(states[i], t).ref].add <= 0
    ensures At(states[j], t) == LoadingAdd(At(states[i], t).ref)
    ensures Begun(acts, j, t) == Begun(acts, i, t)
  {
    assert IsStep(states, acts, i - 1);
    ToSecondLoad(states[i - 1], acts[i - 1], t);
    if Acts(acts[i - 1], t) {
      j := i - 1;
    } else {
      j := FirstLoad(states, acts, i - 1, t);
    }
  }

  lemma {:induction false} ToSecondLoad(s: State, a: Action, t: Tid)
    requires Enabled(s, a) && At(Next(s, a), t).LoadingDel?
    ensures var r := At(Next(s, a), t).ref;
            if Acts(a, t) then a == LoadAdd(t) && At(s, t) == LoadingAdd(r) && r < |s.objs| && s.objs[r].add <= 0
            else At(s, t) == LoadingDel(r)
  {
    if !Acts(a, t) {
      OthersStay(s, a, t);
    } else if IsUid(a) {
      UidActorNotChecking(s, a);
    }
  }

  /**
   In every interleaving, raises included: a check says yes only if the calls that found the entry lowered each
   counter by at least what the entry was given.
   */
  lemma {:induction false} YesNeedsObservations(c: Counter, states: seq<State>, acts: seq<Action>, i: nat)
    requires IsRun(states, acts) && Decides(states, acts, i) && At(states[i + 1], acts[i].t).fulfilled
    ensures Checked(acts, i, acts[i].t).Some?
    ensures var p := Checked(acts, i, acts[i].t).value; Given(c, acts, p) <= Lowering(c, acts, p, i)
  {
    var t := acts[i].t;
    assert IsStep(states, acts, i);
    CheckedFits(states, acts, i, t);
    var p := Checked(acts, i, t).value;
    if c == Adds {
      var j := FirstLoad(states, acts, i, t);
      CheckedFits(states, acts, j, t);
      ObjectFitsAlways(c, states, acts, j, p);
      PartsLower(c, acts, j, p, j);
      LoweringGrows(c, acts, p, j, i);
    } else {
      ObjectFitsAlways(c, states, acts, i, p);
      PartsLower(c, acts, i, p, i);
    }
  }

  /** The creations of k observed after step p, one by one. */
  function CreationsSeen(acts: seq<Action>, p: nat, i: nat, k: Key): nat
    requires i <= |acts|
  {
    |set q: nat | q < i && p < q && acts[q].Adjust? && acts[q].key == k && acts[q].add == -1|
  }

  lemma {:induction false} SeenGrows(acts: seq<Action>, p: nat, i: nat, k: Key)
    requires i < |acts|
    ensures CreationsSeen(acts, p, i + 1, k) ==
            CreationsSeen(acts, p, i, k) +
            if p < i && acts[i].Adjust? && acts[i].key == k && acts[i].add == -1 then 1 else 0
  {
    var a := set q: nat | q < i && p < q && acts[q].Adjust? && acts[q].key == k && acts[q].add == -1;
    var b := set q: nat | q < i + 1 && p < q && acts[q].Adjust? && acts[q].key == k && acts[q].add == -1;
    if p < i && acts[i].Adjust? && acts[i].key == k && acts[i].add == -1 {
      assert b == a + {i};
    } else {
      assert b == a;
    }
  }

  lemma {:induction false} LoweringIsSeen(acts: seq<Action>, p: nat, i: nat, k: Key)
    requires i <= |acts| && p < |acts| && Stores(acts[p]) && StoreKey(acts, p) == k
    requires forall q :: 0 <= q < i && acts[q].Adjust? && acts[q].key == k ==> acts[q].add >= -1
    ensures Lowering(Adds, acts, p, i) <= CreationsSeen(acts, p, i, k)
  {
    if i > 0 {
      LoweringIsSeen(acts, p, i - 1, k);
      SeenGrows(acts, p, i - 1, k);
    }
  }

  /** After ExpectCreations(k, n) a check says yes only once n creations were observed. */
  lemma {:induction false} CreationsAreAwaited(states: seq<State>, acts: seq<Action>, i: nat, k: Key, n: int)
    requires IsRun(states, acts) && Decides(states, acts, i) && At(states[i + 1], acts[i].t).fulfilled
    requires Checked(acts, i, acts[i].t).Some? && acts[Checked(acts, i, acts[i].t).value] == SetExpectations(k, n, 0)
    requires forall q :: 0 <= q < i && acts[q].Adjust? && acts[q].key == k ==> acts[q].add >= -1
    ensures n <= CreationsSeen(acts, Checked(acts, i, acts[i].t).value, i, k)
  {
    var p := Checked(acts, i, acts[i].t).value;
    YesNeedsObservations(Adds, states, acts, i);
    LoweringIsSeen(acts, p, i, k);
  }
}
