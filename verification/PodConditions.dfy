/**
 The conditions of a pod (pkg/api/resource_helpers.go): a list with one entry per type, updated in place;
 an entry keeps the time of its last transition while its status stays the same.
 */
module PodConditions {
  import opened Wrappers

  type Time = int

  datatype Condition = Condition(
    kind: string, status: string, lastProbeTime: Time, lastTransitionTime: Time, reason: string, message: string)

  /** The index of the first condition of a type, or -1. */
  function Find(conditions: seq<Condition>, kind: string): (i: int)
    ensures -1 <= i < |conditions|
  {
    if |conditions| == 0 then -1
    else if conditions[0].kind == kind then 0
    else
      var i := Find(conditions[1..], kind);
      if i == -1 then -1 else i + 1
  }

  /** What is stored for a condition: its transition time is now, or the old one if the status is the same. */
  function Stamped(conditions: seq<Condition>, c: Condition, now: Time): Condition {
    var i := Find(conditions, c.kind);
    c.(lastTransitionTime :=
         if i != -1 && conditions[i].status == c.status then conditions[i].lastTransitionTime else now)
  }

  function Updated(conditions: seq<Condition>, c: Condition, now: Time): seq<Condition> {
    var i := Find(conditions, c.kind);
    if i == -1 then conditions + [Stamped(conditions, c, now)] else conditions[i := Stamped(conditions, c, now)]
  }

  class PodStatus {
    var conditions: seq<Condition>

    constructor (conditions: seq<Condition>)
      ensures this.conditions == conditions
    {
      this.conditions := conditions;
    }
  }

  method GetPodCondition(status: PodStatus?, kind: string) returns (index: int)
    ensures status == null ==> index == -1
    ensures status != null ==> index == Find(status.conditions, kind)
  {
    if status == null {
      return -1;
    }
    for i := 0 to |status.conditions|
      invariant Find(status.conditions, kind) ==
                var rest := Find(status.conditions[i..], kind); if rest == -1 then -1 else rest + i
    {
      assert status.conditions[i..][1..] == status.conditions[i + 1..];
      if status.conditions[i].kind == kind {
        return i;
      }
    }
    return -1;
  }

  /** Returns the condition as stamped, and true exactly when the stored conditions changed. */
  method UpdatePodCondition(status: PodStatus, condition: Condition, now: Time) returns (changed: bool, stamped: Condition)
    modifies status
    ensures stamped == Stamped(old(status.conditions), condition, now)
    ensures status.conditions == Updated(old(status.conditions), condition, now)
    ensures changed <==> status.conditions != old(status.conditions)
  {
    FindFirst(status.conditions, condition.kind);
    stamped := condition.(lastTransitionTime := now);
    var index := GetPodCondition(status, condition.kind);
    if index == -1 {
      status.conditions := status.conditions + [stamped];
      assert |status.conditions| != |old(status.conditions)|;
      return true, stamped;
    }
    var before := status.conditions[index];
    if stamped.status == before.status {
      stamped := stamped.(lastTransitionTime := before.lastTransitionTime);
    }
    var isEqual := stamped.status == before.status && stamped.reason == before.reason && stamped.message == before.message
      && stamped.lastProbeTime == before.lastProbeTime && stamped.lastTransitionTime == before.lastTransitionTime;
    status.conditions := status.conditions[index := stamped];
    assert status.conditions[index] == stamped;
    return !isEqual, stamped;
  }

  lemma {:induction false} FindFirst(conditions: seq<Condition>, kind: string)
    ensures Find(conditions, kind) == -1 <==> forall i :: 0 <= i < |conditions| ==> conditions[i].kind != kind
    ensures Find(conditions, kind) != -1 ==> conditions[Find(conditions, kind)].kind == kind
  {
    if |conditions| > 0 {
      FindFirst(conditions[1..], kind);
    }
  }

  // ----- over any sequence of updates -----

  datatype Request = Request(condition: Condition, now: Time)

  function Run(conditions: seq<Condition>, requests: seq<Request>): seq<Condition> {
    if |requests| == 0 then conditions
    else
      var last := requests[|requests| - 1];
      Updated(Run(conditions, requests[..|requests| - 1]), last.condition, last.now)
  }

  ghost predicate UniqueKinds(conditions: seq<Condition>) {
    forall i, j :: 0 <= i < j < |conditions| ==> conditions[i].kind != conditions[j].kind
  }

  /** The status and transition time that the history alone gives for a type, before any update from the start list. */
  function Start(conditions: seq<Condition>, kind: string): Option<(string, Time)> {
    var i := Find(conditions, kind);
    if i == -1 then None else Some((conditions[i].status, conditions[i].lastTransitionTime))
  }

  /** The status last set for a type, and when it was last changed or the type was added. */
  function History(start: Option<(string, Time)>, requests: seq<Request>, kind: string): Option<(string, Time)> {
    if |requests| == 0 then start
    else
      var before := History(start, requests[..|requests| - 1], kind);
      var last := requests[|requests| - 1];
      if last.condition.kind != kind then before
      else if before.Some? && before.value.0 == last.condition.status then before
      else Some((last.condition.status, last.now))
  }

  lemma {:induction false} UpdateKeepsUnique(conditions: seq<Condition>, c: Condition, now: Time)
    requires UniqueKinds(conditions)
    ensures UniqueKinds(Updated(conditions, c, now))
  {
    FindFirst(conditions, c.kind);
  }

  lemma {:induction false} FindUnique(conditions: seq<Condition>, i: nat)
    requires UniqueKinds(conditions) && i < |conditions|
    ensures Find(conditions, conditions[i].kind) == i
  {
    FindFirst(conditions, conditions[i].kind);
  }

  lemma {:induction false} UpdateFinds(conditions: seq<Condition>, c: Condition, now: Time, kind: string)
    requires UniqueKinds(conditions)
    ensures Start(Updated(conditions, c, now), kind) ==
            if kind != c.kind then Start(conditions, kind)
            else Some((c.status, Stamped(conditions, c, now).lastTransitionTime))
  {
    var after := Updated(conditions, c, now);
    UpdateKeepsUnique(conditions, c, now);
    FindFirst(conditions, c.kind);
    FindFirst(conditions, kind);
    FindFirst(after, kind);
    var at := Find(conditions, c.kind);
    if kind == c.kind {
      FindUnique(after, if at == -1 then |conditions| else at);
    } else if Find(conditions, kind) != -1 {
      FindUnique(after, Find(conditions, kind));
    }
  }

  /**
   From a list with unique types: types stay unique, and each stored status and transition time is what the
   history of requests gives: the time of the latest status change or addition, or the initial value.
   */
  lemma {:induction false} RunFollowsHistory(conditions: seq<Condition>, requests: seq<Request>, kind: string)
    requires UniqueKinds(conditions)
    ensures UniqueKinds(Run(conditions, requests))
    ensures Start(Run(conditions, requests), kind) == History(Start(conditions, kind), requests, kind)
  {
    if |requests| > 0 {
      var init, last := requests[..|requests| - 1], requests[|requests| - 1];
      RunFollowsHistory(conditions, init, kind);
      UpdateKeepsUnique(Run(conditions, init), last.condition, last.now);
      UpdateFinds(Run(conditions, init), last.condition, last.now, kind);
    }
  }

  // ----- the history, by index -----

  /** The last request for the type before position j, or -1. */
  function LastRequest(requests: seq<Request>, j: nat, kind: string): (i: int)
    requires j <= |requests|
    ensures -1 <= i < j
    ensures i != -1 ==> requests[i].condition.kind == kind
    ensures forall m :: i < m < j ==> requests[m].condition.kind != kind
  {
    if j == 0 then -1
    else if requests[j - 1].condition.kind == kind then j - 1
    else LastRequest(requests, j - 1, kind)
  }

  /** The status the type had before position j: as last requested, or as at the start. */
  function StatusBefore(start: Option<(string, Time)>, requests: seq<Request>, j: nat, kind: string): Option<string>
    requires j <= |requests|
  {
    var i := LastRequest(requests, j, kind);
    if i != -1 then Some(requests[i].condition.status)
    else if start.Some? then Some(start.value.0)
    else None
  }

  /** Request j is for the type and asks for a status other than the one it had. */
  predicate Changes(start: Option<(string, Time)>, requests: seq<Request>, j: nat, kind: string) {
    && j < |requests| && requests[j].condition.kind == kind
    && StatusBefore(start, requests, j, kind) != Some(requests[j].condition.status)
  }

  ghost predicate LastChange(start: Option<(string, Time)>, requests: seq<Request>, j: nat, kind: string) {
    && Changes(start, requests, j, kind)
    && forall m :: j < m < |requests| ==> !Changes(start, requests, m, kind)
  }

  lemma {:induction false} ShorterLastRequest(requests: seq<Request>, n: nat, j: nat, kind: string)
    requires j <= n <= |requests|
    ensures LastRequest(requests[..n], j, kind) == LastRequest(requests, j, kind)
  {
    if j > 0 && requests[j - 1].condition.kind != kind {
      ShorterLastRequest(requests, n, j - 1, kind);
    }
  }

  lemma {:induction false} ShorterChanges(start: Option<(string, Time)>, requests: seq<Request>, n: nat, kind: string)
    requires n <= |requests|
    ensures StatusBefore(start, requests[..n], n, kind) == StatusBefore(start, requests, n, kind)
    ensures forall j: nat :: j < n ==> (Changes(start, requests[..n], j, kind) <==> Changes(start, requests, j, kind))
  {
    ShorterLastRequest(requests, n, n, kind);
    forall j: nat | j < n ensures Changes(start, requests[..n], j, kind) <==> Changes(start, requests, j, kind) {
      ShorterLastRequest(requests, n, j, kind);
    }
  }

  function StatusOf(h: Option<(string, Time)>): Option<string> {
    if h.Some? then Some(h.value.0) else None
  }

  /** The status in the history is the one last requested. */
  lemma {:induction false} HistoryStatus(start: Option<(string, Time)>, requests: seq<Request>, kind: string)
    ensures StatusOf(History(start, requests, kind)) == StatusBefore(start, requests, |requests|, kind)
  {
    if |requests| > 0 {
      var n := |requests| - 1;
      HistoryStatus(start, requests[..n], kind);
      ShorterLastRequest(requests, n, n, kind);
    }
  }

  /** The last request replaces the recorded time just when it changes the status. */
  lemma {:induction false} HistoryStep(start: Option<(string, Time)>, requests: seq<Request>, kind: string)
    requires |requests| > 0
    ensures var n := |requests| - 1;
            var h, before := History(start, requests, kind), History(start, requests[..n], kind);
            if Changes(start, requests, n, kind) then h == Some((requests[n].condition.status, requests[n].now)) else h == before
  {
    var n := |requests| - 1;
    HistoryStatus(start, requests[..n], kind);
    ShorterLastRequest(requests, n, n, kind);
  }

  /** The time in the history is that of the last request that changed the status. */
  lemma {:induction false} HistoryTime(start: Option<(string, Time)>, requests: seq<Request>, kind: string, j: nat)
    requires LastChange(start, requests, j, kind)
    ensures History(start, requests, kind).Some? && History(start, requests, kind).value.1 == requests[j].now
    decreases |requests|
  {
    var n := |requests| - 1;
    HistoryStep(start, requests, kind);
    if j < n {
      assert !Changes(start, requests, n, kind);
      ShorterChanges(start, requests, n, kind);
      HistoryTime(start, requests[..n], kind, j);
    }
  }

  /** If no request changed the status, the history is what it was at the start. */
  lemma {:induction false} HistoryUnchanged(start: Option<(string, Time)>, requests: seq<Request>, kind: string)
    requires forall j: nat :: !Changes(start, requests, j, kind)
    ensures History(start, requests, kind) == start
    decreases |requests|
  {
    if |requests| > 0 {
      var n := |requests| - 1;
      HistoryStep(start, requests, kind);
      ShorterChanges(start, requests, n, kind);
      forall j: nat ensures !Changes(start, requests[..n], j, kind) {
      }
      HistoryUnchanged(start, requests[..n], kind);
    }
  }

  /**
   Over any run from unique types: the stored transition time is the `now` of the last request that changed
   the status of the type, and if none did, the stored status and time are the initial ones.
   */
  lemma {:induction false} StoredTimeIsLastChange(conditions: seq<Condition>, requests: seq<Request>, kind: string)
    requires UniqueKinds(conditions)
    ensures var start, end := Start(conditions, kind), Start(Run(conditions, requests), kind);
            && (forall j: nat :: LastChange(start, requests, j, kind) ==> end.Some? && end.value.1 == requests[j].now)
            && ((forall j: nat :: !Changes(start, requests, j, kind)) ==> end == start)
  {
    var start := Start(conditions, kind);
    RunFollowsHistory(conditions, requests, kind);
    forall j: nat | LastChange(start, requests, j, kind)
      ensures History(start, requests, kind).Some? && History(start, requests, kind).value.1 == requests[j].now
    {
      HistoryTime(start, requests, kind, j);
    }
    if forall j: nat :: !Changes(start, requests, j, kind) {
      HistoryUnchanged(start, requests, kind);
    }
  }

  /** The whole stored condition of a type, if there is one. */
  function Stored(conditions: seq<Condition>, kind: string): Option<Condition> {
    var i := Find(conditions, kind);
    if i == -1 then None else Some(conditions[i])
  }

  lemma {:induction false} UpdateStores(conditions: seq<Condition>, c: Condition, now: Time, kind: string)
    requires UniqueKinds(conditions)
    ensures Stored(Updated(conditions, c, now), kind) ==
            if kind != c.kind then Stored(conditions, kind) else Some(Stamped(conditions, c, now))
  {
    var after := Updated(conditions, c, now);
    UpdateKeepsUnique(conditions, c, now);
    FindFirst(conditions, c.kind);
    FindFirst(conditions, kind);
    FindFirst(after, kind);
    var at := Find(conditions, c.kind);
    if kind == c.kind {
      FindUnique(after, if at == -1 then |conditions| else at);
    } else if Find(conditions, kind) != -1 {
      FindUnique(after, Find(conditions, kind));
    }
  }

  /** The same but for the transition time. */
  predicate SameRequest(a: Condition, b: Condition) {
    && a.kind == b.kind && a.status == b.status && a.lastProbeTime == b.lastProbeTime
    && a.reason == b.reason && a.message == b.message
  }

  /**
   Over any run from unique types: what is stored for a type is the last request for it, but for the transition
   time; without a request it is what it was.
   */
  lemma {:induction false} StoredIsLastRequest(conditions: seq<Condition>, requests: seq<Request>, kind: string)
    requires UniqueKinds(conditions)
    ensures var end, i := Stored(Run(conditions, requests), kind), LastRequest(requests, |requests|, kind);
            if i == -1 then end == Stored(conditions, kind)
            else end.Some? && SameRequest(end.value, requests[i].condition)
  {
    if |requests| > 0 {
      var n := |requests| - 1;
      RunFollowsHistory(conditions, requests[..n], kind);
      StoredIsLastRequest(conditions, requests[..n], kind);
      UpdateStores(Run(conditions, requests[..n]), requests[n].condition, requests[n].now, kind);
      ShorterLastRequest(requests, n, n, kind);
    }
  }
}
