/**
 The comparators that pick which pods to delete or to read logs from, and which replica sets to scale
 (pkg/controller/controller_utils.go). Each is tied to a comparison of ranks, field by field.
 */
module PodOrder {
  import opened Strings
  import opened PodConditions

  /** Zero is the zero time. */
  predicate IsZero(t: Time) {
    t == 0
  }

  datatype Phase = Pending | Unknown | Running | Succeeded | Failed | Other(name: string)

  datatype Pod = Pod(nodeName: string, phase: Phase, conditions: seq<Condition>, restarts: seq<int>, creation: Time)

  const PodReady: string := "Ready"
  const ConditionTrue: string := "True"

  predicate IsPodReady(pod: Pod) {
    var i := Find(pod.conditions, PodReady);
    i != -1 && pod.conditions[i].status == ConditionTrue
  }

  predicate AfterOrZero(t1: Time, t2: Time) {
    if IsZero(t1) || IsZero(t2) then IsZero(t1) else t1 > t2
  }

  function FirstReadyTime(conditions: seq<Condition>): Time {
    if |conditions| == 0 then 0
    else if conditions[0].kind == PodReady && conditions[0].status == ConditionTrue then conditions[0].lastTransitionTime
    else FirstReadyTime(conditions[1..])
  }

  /** podReadyTime as the loop over the conditions. */
  method PodReadyTime(pod: Pod) returns (t: Time)
    ensures t == ReadyTime(pod)
  {
    if IsPodReady(pod) {
      assert pod.conditions[0..] == pod.conditions;
      for i := 0 to |pod.conditions|
        invariant FirstReadyTime(pod.conditions) == FirstReadyTime(pod.conditions[i..])
      {
        assert pod.conditions[i..][1..] == pod.conditions[i + 1..];
        if pod.conditions[i].kind == PodReady && pod.conditions[i].status == ConditionTrue {
          return pod.conditions[i].lastTransitionTime;
        }
      }
    }
    return 0;
  }

  function ReadyTime(pod: Pod): Time {
    if IsPodReady(pod) then FirstReadyTime(pod.conditions) else 0
  }

  function MaxOf(restarts: seq<int>): int {
    if |restarts| == 0 then 0
    else
      var m := MaxOf(restarts[..|restarts| - 1]);
      if restarts[|restarts| - 1] > m then restarts[|restarts| - 1] else m
  }

  /** The largest restart count, or zero. */
  method MaxContainerRestarts(pod: Pod) returns (m: int)
    ensures m == MaxOf(pod.restarts)
    ensures m >= 0 && (m == 0 || m in pod.restarts) && forall r :: r in pod.restarts ==> r <= m
  {
    m := 0;
    for i := 0 to |pod.restarts|
      invariant m == MaxOf(pod.restarts[..i])
      invariant m >= 0 && (m == 0 || m in pod.restarts[..i]) && forall r :: r in pod.restarts[..i] ==> r <= m
    {
      assert pod.restarts[..i + 1][..i] == pod.restarts[..i];
      assert pod.restarts[..i + 1] == pod.restarts[..i] + [pod.restarts[i]];
      m := if pod.restarts[i] > m then pod.restarts[i] else m;
    }
    assert pod.restarts[..|pod.restarts|] == pod.restarts;
  }

  function LoggingPhase(p: Phase): int {
    match p
    case Running => 0
    case Unknown => 1
    case Pending => 2
    case _ => 0
  }

  function ActivePhase(p: Phase): int {
    match p
    case Pending => 0
    case Unknown => 1
    case Running => 2
    case _ => 0
  }

  /** ByLogging.Less. */
  predicate LoggingLess(a: Pod, b: Pod) {
    if a.nodeName != b.nodeName && (a.nodeName == "" || b.nodeName == "") then a.nodeName != ""
    else if LoggingPhase(a.phase) != LoggingPhase(b.phase) then LoggingPhase(a.phase) < LoggingPhase(b.phase)
    else if IsPodReady(a) != IsPodReady(b) then IsPodReady(a)
    else if IsPodReady(a) && IsPodReady(b) && ReadyTime(a) != ReadyTime(b) then AfterOrZero(ReadyTime(b), ReadyTime(a))
    else if MaxOf(a.restarts) != MaxOf(b.restarts) then MaxOf(a.restarts) > MaxOf(b.restarts)
    else if a.creation != b.creation then AfterOrZero(b.creation, a.creation)
    else false
  }

  /** ActivePods.Less. */
  predicate ActiveLess(a: Pod, b: Pod) {
    if a.nodeName != b.nodeName && (a.nodeName == "" || b.nodeName == "") then a.nodeName == ""
    else if ActivePhase(a.phase) != ActivePhase(b.phase) then ActivePhase(a.phase) < ActivePhase(b.phase)
    else if IsPodReady(a) != IsPodReady(b) then !IsPodReady(a)
    else if IsPodReady(a) && IsPodReady(b) && ReadyTime(a) != ReadyTime(b) then AfterOrZero(ReadyTime(a), ReadyTime(b))
    else if MaxOf(a.restarts) != MaxOf(b.restarts) then MaxOf(a.restarts) > MaxOf(b.restarts)
    else if a.creation != b.creation then AfterOrZero(a.creation, b.creation)
    else false
  }

  // ----- comparing ranks -----

  /** Field by field, the first difference decides. */
  predicate RankLess(x: seq<int>, y: seq<int>)
    requires |x| == |y|
  {
    |x| > 0 && (x[0] < y[0] || (x[0] == y[0] && RankLess(x[1..], y[1..])))
  }

  lemma {:induction false} RankTransitive(x: seq<int>, y: seq<int>, z: seq<int>)
    requires |x| == |y| == |z| && RankLess(x, y) && RankLess(y, z)
    ensures RankLess(x, z)
  {
    if x[0] == y[0] == z[0] {
      RankTransitive(x[1..], y[1..], z[1..]);
    }
  }

  lemma {:induction false} RankTotal(x: seq<int>, y: seq<int>)
    requires |x| == |y|
    ensures x == y <==> !RankLess(x, y) && !RankLess(y, x)
    ensures !(RankLess(x, y) && RankLess(y, x))
  {
    if |x| > 0 {
      RankTotal(x[1..], y[1..]);
      assert x == [x[0]] + x[1..] && y == [y[0]] + y[1..];
    }
  }

  function Bit(b: bool): int {
    if b then 1 else 0
  }

  /** Assigned first, running before unknown before pending, ready first, longest ready first, ... */
  function LoggingRank(p: Pod): seq<int> {
    [Bit(p.nodeName == ""), LoggingPhase(p.phase), Bit(!IsPodReady(p)), Bit(IsZero(ReadyTime(p))), ReadyTime(p),
     -MaxOf(p.restarts), Bit(IsZero(p.creation)), p.creation]
  }

  /** Unassigned first, pending before unknown before running, not ready first, latest ready first, ... */
  function ActiveRank(p: Pod): seq<int> {
    [Bit(p.nodeName != ""), ActivePhase(p.phase), Bit(IsPodReady(p)), Bit(!IsZero(ReadyTime(p))), -ReadyTime(p),
     -MaxOf(p.restarts), Bit(!IsZero(p.creation)), -p.creation]
  }

  lemma {:induction false} RankUnfold(x: seq<int>, y: seq<int>)
    requires |x| == |y| == 8
    ensures RankLess(x, y) <==>
            if x[0] != y[0] then x[0] < y[0]
            else if x[1] != y[1] then x[1] < y[1]
            else if x[2] != y[2] then x[2] < y[2]
            else if x[3] != y[3] then x[3] < y[3]
            else if x[4] != y[4] then x[4] < y[4]
            else if x[5] != y[5] then x[5] < y[5]
            else if x[6] != y[6] then x[6] < y[6]
            else x[7] < y[7]
  {
    RankSuffix(x, y, 7);
    RankSuffix(x, y, 6);
    RankSuffix(x, y, 5);
    RankSuffix(x, y, 4);
    RankSuffix(x, y, 3);
    RankSuffix(x, y, 2);
    RankSuffix(x, y, 1);
    RankSuffix(x, y, 0);
    assert x[0..] == x && y[0..] == y && x[8..] == [] == y[8..];
  }

  lemma {:induction false} RankSuffix(x: seq<int>, y: seq<int>, i: nat)
    requires |x| == |y| && i < |x|
    ensures RankLess(x[i..], y[i..]) <==> x[i] < y[i] || (x[i] == y[i] && RankLess(x[i + 1..], y[i + 1..]))
  {
    assert x[i..][1..] == x[i + 1..] && y[i..][1..] == y[i + 1..];
  }

  lemma {:induction false} LoggingIsRank(a: Pod, b: Pod)
    ensures LoggingLess(a, b) <==> RankLess(LoggingRank(a), LoggingRank(b))
  {
    RankUnfold(LoggingRank(a), LoggingRank(b));
  }

  lemma {:induction false} ActiveIsRank(a: Pod, b: Pod)
    ensures ActiveLess(a, b) <==> RankLess(ActiveRank(a), ActiveRank(b))
  {
    RankUnfold(ActiveRank(a), ActiveRank(b));
  }

  // ----- strict weak orders -----

  ghost predicate StrictWeakOrder<T(!new)>(less: (T, T) -> bool) {
    && (forall a :: !less(a, a))
    && (forall a, b, c :: less(a, b) && less(b, c) ==> less(a, c))
    && (forall a, b, c :: Tied(less, a, b) && Tied(less, b, c) ==> Tied(less, a, c))
  }

  predicate Tied<T>(less: (T, T) -> bool, a: T, b: T) {
    !less(a, b) && !less(b, a)
  }

  /** Any comparator that compares ranks of one length is a strict weak order; ties are equal ranks. */
  lemma {:induction false} RankedIsStrictWeak<T(!new)>(less: (T, T) -> bool, rank: T -> seq<int>, n: nat)
    requires forall a :: |rank(a)| == n
    requires forall a, b :: less(a, b) <==> RankLess(rank(a), rank(b))
    ensures StrictWeakOrder(less)
    ensures forall a, b :: Tied(less, a, b) <==> rank(a) == rank(b)
  {
    forall a, b ensures Tied(less, a, b) <==> rank(a) == rank(b) {
      RankTotal(rank(a), rank(b));
    }
    forall a ensures !less(a, a) {
      RankTotal(rank(a), rank(a));
    }
    forall a, b, c | less(a, b) && less(b, c) ensures less(a, c) {
      RankTransitive(rank(a), rank(b), rank(c));
    }
  }

  /** Both pod comparators are strict weak orders on all pods, zero times and unlisted phases included. */
  lemma {:induction false} PodOrdersAreStrictWeak()
    ensures StrictWeakOrder(LoggingLess) && StrictWeakOrder(ActiveLess)
    ensures forall a, b :: Tied(LoggingLess, a, b) <==> LoggingRank(a) == LoggingRank(b)
    ensures forall a, b :: Tied(ActiveLess, a, b) <==> ActiveRank(a) == ActiveRank(b)
  {
    forall a, b ensures LoggingLess(a, b) <==> RankLess(LoggingRank(a), LoggingRank(b)) {
      LoggingIsRank(a, b);
    }
    RankedIsStrictWeak(LoggingLess, LoggingRank, 8);
    forall a, b ensures ActiveLess(a, b) <==> RankLess(ActiveRank(a), ActiveRank(b)) {
      ActiveIsRank(a, b);
    }
    RankedIsStrictWeak(ActiveLess, ActiveRank, 8);
  }

  // ----- which pod comes first, criterion by criterion -----

  predicate Assigned(p: Pod) {
    p.nodeName != ""
  }

  /** The first ready condition of the pod is at i and says true. */
  ghost predicate ReadyAt(p: Pod, i: nat) {
    && i < |p.conditions| && p.conditions[i].kind == "Ready" && p.conditions[i].status == "True"
    && forall j :: 0 <= j < i ==> p.conditions[j].kind != "Ready"
  }

  ghost predicate NotReady(p: Pod) {
    forall i: nat :: !ReadyAt(p, i)
  }

  /** One order puts a first, the other b. */
  ghost predicate Opposed(a: Pod, b: Pod) {
    ActiveLess(a, b) && !ActiveLess(b, a) && LoggingLess(b, a) && !LoggingLess(a, b)
  }

  lemma {:induction false} ReadyIsReadyAt(p: Pod)
    ensures IsPodReady(p) <==> exists i: nat :: ReadyAt(p, i)
    ensures forall i: nat :: ReadyAt(p, i) ==> ReadyTime(p) == p.conditions[i].lastTransitionTime
  {
    FindIsFirst(p.conditions, PodReady);
    if IsPodReady(p) {
      assert ReadyAt(p, Find(p.conditions, PodReady));
    }
    forall i: nat | ReadyAt(p, i) ensures IsPodReady(p) && ReadyTime(p) == p.conditions[i].lastTransitionTime {
      FindFirst(p.conditions, PodReady);
      FirstReadyTimeAt(p.conditions, i);
    }
  }

  lemma {:induction false} FindIsFirst(conditions: seq<Condition>, kind: string)
    ensures var i := Find(conditions, kind);
            i != -1 ==> conditions[i].kind == kind && forall j :: 0 <= j < i ==> conditions[j].kind != kind
  {
    if |conditions| > 0 && conditions[0].kind != kind {
      FindIsFirst(conditions[1..], kind);
      forall j | 0 <= j < Find(conditions, kind) ensures conditions[j].kind != kind {
        if j > 0 {
          assert conditions[j] == conditions[1..][j - 1];
        }
      }
    }
  }

  lemma {:induction false} FirstReadyTimeAt(conditions: seq<Condition>, i: nat)
    requires i < |conditions| && conditions[i].kind == PodReady && conditions[i].status == ConditionTrue
    requires forall j :: 0 <= j < i ==> conditions[j].kind != PodReady
    ensures FirstReadyTime(conditions) == conditions[i].lastTransitionTime
  {
    if i > 0 {
      assert conditions[1..][i - 1] == conditions[i];
      FirstReadyTimeAt(conditions[1..], i - 1);
    }
  }

  /** Unassigned pods are deleted first, and read from last. */
  lemma {:induction false} AssignmentDecides(a: Pod, b: Pod)
    requires !Assigned(a) && Assigned(b)
    ensures Opposed(a, b)
  {
  }

  /** Then pending before unknown before running. */
  lemma {:induction false} PhaseDecides(a: Pod, b: Pod)
    requires Assigned(a) == Assigned(b)
    requires (a.phase.Pending? && (b.phase.Unknown? || b.phase.Running?)) || (a.phase.Unknown? && b.phase.Running?)
    ensures Opposed(a, b)
  {
  }

  /** Then those that are not ready. */
  lemma {:induction false} ReadinessDecides(a: Pod, b: Pod, i: nat)
    requires Assigned(a) == Assigned(b) && a.phase == b.phase && NotReady(a) && ReadyAt(b, i)
    ensures Opposed(a, b)
  {
    ReadyIsReadyAt(a);
    ReadyIsReadyAt(b);
  }

  /** Then those that became ready later, or at no known time. */
  lemma {:induction false} ReadyTimeDecides(a: Pod, b: Pod, i: nat, j: nat)
    requires Assigned(a) == Assigned(b) && a.phase == b.phase && ReadyAt(a, i) && ReadyAt(b, j)
    requires var s, t := a.conditions[i].lastTransitionTime, b.conditions[j].lastTransitionTime;
             t != 0 && (s == 0 || s > t)
    ensures Opposed(a, b)
  {
    ReadyIsReadyAt(a);
    ReadyIsReadyAt(b);
  }

  /** The same readiness, and if ready the same time. */
  ghost predicate AlikeReady(a: Pod, b: Pod) {
    || (NotReady(a) && NotReady(b))
    || exists i: nat, j: nat ::
         ReadyAt(a, i) && ReadyAt(b, j) && a.conditions[i].lastTransitionTime == b.conditions[j].lastTransitionTime
  }

  lemma {:induction false} AlikeReadySame(a: Pod, b: Pod)
    requires AlikeReady(a, b)
    ensures IsPodReady(a) == IsPodReady(b) && ReadyTime(a) == ReadyTime(b)
  {
    ReadyIsReadyAt(a);
    ReadyIsReadyAt(b);
  }

  /** Some container of a has restarted more often than every container of b, and more than never. */
  ghost predicate RestartedMore(a: Pod, b: Pod) {
    exists r :: r in a.restarts && r > 0 && forall q :: q in b.restarts ==> q < r
  }

  lemma {:induction false} MaxOfBounds(restarts: seq<int>)
    ensures MaxOf(restarts) >= 0 && (MaxOf(restarts) == 0 || MaxOf(restarts) in restarts)
    ensures forall r :: r in restarts ==> r <= MaxOf(restarts)
  {
    if |restarts| > 0 {
      var init := restarts[..|restarts| - 1];
      assert restarts == init + [restarts[|restarts| - 1]];
      MaxOfBounds(init);
    }
  }

  /** Then, in both orders, those that restarted more often. */
  lemma {:induction false} RestartsDecide(a: Pod, b: Pod)
    requires Assigned(a) == Assigned(b) && a.phase == b.phase && AlikeReady(a, b) && RestartedMore(a, b)
    ensures ActiveLess(a, b) && !ActiveLess(b, a) && LoggingLess(a, b) && !LoggingLess(b, a)
  {
    AlikeReadySame(a, b);
    MaxOfBounds(a.restarts);
    MaxOfBounds(b.restarts);
  }

  /** Last, the newer ones, and those without a creation time before them. */
  lemma {:induction false} AgeDecides(a: Pod, b: Pod)
    requires Assigned(a) == Assigned(b) && a.phase == b.phase && AlikeReady(a, b) && a.restarts == b.restarts
    requires b.creation != 0 && (a.creation == 0 || a.creation > b.creation)
    ensures Opposed(a, b)
  {
    AlikeReadySame(a, b);
  }

  // ----- replica sets -----

  datatype ReplicaSet = ReplicaSet(replicas: int, creation: Time, name: string)

  predicate NameLess(a: string, b: string) {
    Leq(a, b) && a != b
  }

  predicate CreationLess(a: ReplicaSet, b: ReplicaSet) {
    if a.creation == b.creation then NameLess(a.name, b.name) else a.creation < b.creation
  }

  predicate SizeOlderLess(a: ReplicaSet, b: ReplicaSet) {
    if a.replicas == b.replicas then CreationLess(a, b) else a.replicas > b.replicas
  }

  predicate SizeNewerLess(a: ReplicaSet, b: ReplicaSet) {
    if a.replicas == b.replicas then CreationLess(b, a) else a.replicas > b.replicas
  }

  lemma {:induction false} NameOrder(a: string, b: string, c: string)
    ensures NameLess(a, b) && NameLess(b, c) ==> NameLess(a, c)
    ensures Tied(NameLess, a, b) <==> a == b
  {
    LeqTotal(a, b);
    if NameLess(a, b) && NameLess(b, c) {
      LeqTransitive(a, b, c);
      if a == c {
        LeqAntisymmetric(a, b);
      }
    }
    if Leq(a, b) && Leq(b, a) {
      LeqAntisymmetric(a, b);
    }
  }

  /** The replica set comparators are strict and leave no tie except between equal keys. */
  lemma {:induction false} ReplicaSetOrdersAreTotal(a: ReplicaSet, b: ReplicaSet, c: ReplicaSet)
    ensures CreationLess(a, b) && CreationLess(b, c) ==> CreationLess(a, c)
    ensures SizeOlderLess(a, b) && SizeOlderLess(b, c) ==> SizeOlderLess(a, c)
    ensures SizeNewerLess(a, b) && SizeNewerLess(b, c) ==> SizeNewerLess(a, c)
    ensures Tied(CreationLess, a, b) <==> (a.creation, a.name) == (b.creation, b.name)
    ensures Tied(SizeOlderLess, a, b) <==> a == b
    ensures Tied(SizeNewerLess, a, b) <==> a == b
  {
    NameOrder(a.name, b.name, c.name);
    NameOrder(c.name, b.name, a.name);
    NameOrder(b.name, a.name, c.name);
  }

  /** Sets with more replicas come first; then the older or the newer ones; then by name. */
  lemma {:induction false} ReplicaSetPreferences(a: ReplicaSet, b: ReplicaSet)
    ensures a.replicas > b.replicas ==> SizeOlderLess(a, b) && SizeNewerLess(a, b)
    ensures a.creation < b.creation ==> CreationLess(a, b)
    ensures a.replicas == b.replicas && a.creation < b.creation ==> SizeOlderLess(a, b) && SizeNewerLess(b, a)
    ensures a.creation == b.creation && a.name != b.name && Leq(a.name, b.name) ==> CreationLess(a, b)
    ensures a.replicas == b.replicas && a.creation == b.creation && a.name != b.name && Leq(a.name, b.name) ==>
              SizeOlderLess(a, b) && SizeNewerLess(b, a)
  {
  }
}
