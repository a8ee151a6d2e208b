/** The task lifecycle rules the pages share: the status-change quota of the
    employee dashboard and the expiry classification that splits the task
    collection into the active list and the previous list. */
module Lifecycle {
  import opened Firebase

  /** At most two status changes per task. */
  const MaxStatusChanges: int := 2

  /** A task lives for 24 hours after it is created. */
  const TaskLifetimeMillis: int := 24 * 60 * 60 * 1000

  /** `task.statusChangeCount || 0`: an absent count reads as 0. */
  function ChangeCount(t: Task): int {
    match t.statusChangeCount
    case Some(n) => n
    case None => 0
  }

  predicate CanUpdate(t: Task) {
    ChangeCount(t) < MaxStatusChanges
  }

  /** The partial write of a status update: `status` and
      `statusChangeCount` become the given values, all else is kept. */
  function WriteStatus(t: Task, s: Status, count: int): Task {
    t.(status := s, statusChangeCount := Some(count))
  }

  /** `u` agrees with `t` on every field except status and statusChangeCount. */
  predicate SameExceptStatus(t: Task, u: Task) {
    t.(status := u.status, statusChangeCount := u.statusChangeCount) == u
  }

  /** One status change on an up-to-date task: refused once the quota is
      used up, otherwise the new status with the count one higher. Any status
      may follow any other. */
  function Transition(t: Task, s: Status): (r: Option<Task>)
    ensures r.None? <==> ChangeCount(t) >= MaxStatusChanges
    ensures r.Some? ==> r.value.status == s && ChangeCount(r.value) == ChangeCount(t) + 1
    ensures r.Some? ==> SameExceptStatus(t, r.value)
  {
    if CanUpdate(t) then Some(WriteStatus(t, s, ChangeCount(t) + 1)) else None
  }

  /** A refused change leaves the task as it was. */
  function Step(t: Task, s: Status): Task {
    match Transition(t, s)
    case Some(u) => u
    case None => t
  }

  /** A series of requested changes applied one after the other. */
  function Run(t: Task, ss: seq<Status>): Task
    decreases |ss|
  {
    if ss == [] then t else Run(Step(t, ss[0]), ss[1..])
  }

  function Min(a: int, b: int): int {
    if a <= b then a else b
  }

  /** However many changes are requested, the count climbs by one per
      request until it reaches the quota and then stays there; nothing but
      status and count ever changes. */
  lemma {:induction false} RunCount(t: Task, ss: seq<Status>)
    requires ChangeCount(t) <= MaxStatusChanges
    ensures ChangeCount(Run(t, ss)) == Min(ChangeCount(t) + |ss|, MaxStatusChanges)
    ensures SameExceptStatus(t, Run(t, ss))
    decreases |ss|
  {
    if ss != [] {
      RunCount(Step(t, ss[0]), ss[1..]);
    }
  }

  /** A task whose quota is used up is terminal: no request changes it. */
  lemma {:induction false} RunAtLimit(t: Task, ss: seq<Status>)
    requires ChangeCount(t) >= MaxStatusChanges
    ensures Run(t, ss) == t
  {
    if ss != [] {
      RunAtLimit(t, ss[1..]);
    }
  }

  /** From count 0 exactly two changes succeed and the third is refused. */
  lemma ExactlyTwoChanges(t: Task, s1: Status, s2: Status, s3: Status)
    requires ChangeCount(t) == 0
    ensures Transition(t, s1).Some?
    ensures Transition(Transition(t, s1).value, s2).Some?
    ensures var t2 := Transition(Transition(t, s1).value, s2).value;
      t2.status == s2 && ChangeCount(t2) == MaxStatusChanges && Transition(t2, s3).None?
  {
  }

  /** Every stored task has used at most its quota. */
  ghost predicate CountsWithinLimit(tasks: map<string, Task>) {
    forall k :: k in tasks ==> ChangeCount(tasks[k]) <= MaxStatusChanges
  }

  /** Active: `expiresAt > now`. */
  predicate IsActive(t: Task, now: Millis) {
    t.expiresAt > now
  }

  /** Previous (expired): `expiresAt <= now`. */
  predicate IsPrevious(t: Task, now: Millis) {
    t.expiresAt <= now
  }

  /** For one clock reading every task is in exactly one of the two classes,
      and a task that expires exactly now is previous. */
  lemma Classification(t: Task, now: Millis)
    ensures IsActive(t, now) != IsPrevious(t, now)
    ensures t.expiresAt == now ==> IsPrevious(t, now)
    ensures IsActive(t, now) <==> now < t.expiresAt
  {
  }

  /** The active query: `where("expiresAt", ">", now)`. */
  function ActiveDocs(docs: seq<Doc<Task>>, now: Millis): (r: seq<Doc<Task>>)
    ensures forall d :: d in r <==> d in docs && IsActive(d.data, now)
  {
    Where(docs, (t: Task) => IsActive(t, now))
  }

  /** The previous query: `where("expiresAt", "<=", now)`. */
  function PreviousDocs(docs: seq<Doc<Task>>, now: Millis): (r: seq<Doc<Task>>)
    ensures forall d :: d in r <==> d in docs && IsPrevious(d.data, now)
  {
    Where(docs, (t: Task) => IsPrevious(t, now))
  }

  /** The two queries split any snapshot: each document lands in exactly one
      of them, so their sizes add up to the snapshot's. */
  lemma {:induction false} ActivePreviousPartition(docs: seq<Doc<Task>>, now: Millis)
    ensures |ActiveDocs(docs, now)| + |PreviousDocs(docs, now)| == |docs|
    ensures forall d :: d in docs ==> (d in ActiveDocs(docs, now) <==> d !in PreviousDocs(docs, now))
  {
    if docs != [] {
      ActivePreviousPartition(docs[1..], now);
    }
  }
}
