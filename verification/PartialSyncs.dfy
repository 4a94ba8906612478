// Partial full syncs: requests are queued as a time per category, and a
// finished sync acknowledges what its starting snapshot had queued. Requests
// are neither lost nor acknowledged early.
module PartialSyncs {
  import opened Optional
  import opened SessionFile
  import SessionMerge

  // ---- Reading back a time the engine wrote ----

  // The number read once the digits of n follow those of m.
  function Followed(m: nat, n: nat): nat {
    if n < 10 then 10 * m + n else 10 * Followed(m, n / 10) + n % 10
  }

  lemma {:induction false} FollowedZero(n: nat)
    ensures Followed(0, n) == n
  {
    if n >= 10 {
      FollowedZero(n / 10);
    }
  }

  lemma OneMoreDigit(d: nat, rest: string, m: nat)
    requires d < 10
    ensures LeadingDigits([DigitChar(d)] + rest, m) == LeadingDigits(rest, 10 * m + d)
  {
    var s := [DigitChar(d)] + rest;
    assert s[1..] == rest && s[0] as int == '0' as int + d;
  }

  lemma {:induction false} DigitsAreRead(n: nat, rest: string, m: nat)
    ensures LeadingDigits(Decimal(n) + rest, m) == LeadingDigits(rest, Followed(m, n))
    ensures Decimal(n) != [] && '0' <= Decimal(n)[0] <= '9'
    decreases n
  {
    Numeral(n);
    hide LeadingDigits, Decimal;
    if n < 10 {
      OneMoreDigit(n, rest, m);
    } else {
      var d := [DigitChar(n % 10)];
      DigitsAreRead(n / 10, d + rest, m);
      assert Decimal(n) + rest == Decimal(n / 10) + (d + rest);
      OneMoreDigit(n % 10, rest, Followed(m, n / 10));
    }
  }

  lemma TimeRoundTrip(n: int)
    requires INT64_MIN <= n <= INT64_MAX
    ensures Coerce(Some(Text(Decimal(n)))) == n
  {
    var m, s := if n < 0 then -n else n, Decimal(n);
    DigitsAreRead(m, "", 0);
    FollowedZero(m);
    Numeral(n);
    assert Decimal(m) + "" == Decimal(m);
    assert LeadingDigits("", m) == m;
    assert n < 0 ==> s[0] == '-' && s[1..] == Decimal(m);
    assert LeadingDigits(Decimal(m), 0) == m;
    hide Decimal, LeadingDigits;
    assert s != "";
    assert Clamp(n) == n;
    if n < 0 {
      assert LeadingInteger(s) == Clamp(0 - LeadingDigits(s[1..], 0));
    } else {
      assert s == Decimal(m) && 48 <= s[0] as int <= 57;
      assert LeadingInteger(s) == Clamp(LeadingDigits(s, 0));
    }
  }

  // ---- The times of a document ----

  function QueuedAt(file: Option<Object>, category: string): int {
    if file.Some? then Stamp(Get(file.value, PendingPartialFullSyncs), category) else 0
  }

  function DoneAt(file: Option<Object>, category: string): int {
    if file.Some? then Stamp(Get(file.value, LastPartialFullSyncs), category) else 0
  }

  // ---- One operation ----

  // Operations within a login: no activation, and no save that rewrites the
  // acknowledged times (the reset a full sync makes).
  predicate Within(op: Operation) {
    !op.Activate? && (op.Save? ==> Baseline(op.session).Some? && LastPartialFullSyncs !in SessionMerge.DeltaOf(op.session))
  }

  lemma RequestedTimes(pending: map<string, Value>, completed: map<string, Value>, targets: map<string, Value>, k: string)
    ensures Stamp(Some(Tree(Requested(pending, completed, targets))), k) ==
      if Wanted(targets, completed, pending, k) then Coerce(Some(targets[k])) else Stamp(Some(Tree(pending)), k)
  {
    hide Coerce, Decimal;
    if k in targets {
      TimeRoundTrip(Coerce(Some(targets[k])));
    }
  }

  lemma CompletedTimes(completed: map<string, Value>, requests: map<string, Value>, k: string)
    ensures Stamp(Some(Tree(NowCompleted(completed, requests))), k) ==
      if Newer(requests, completed, k) then Coerce(Some(requests[k])) else Stamp(Some(Tree(completed)), k)
  {
    hide Coerce, Decimal;
    if k in requests {
      TimeRoundTrip(Coerce(Some(requests[k])));
    }
  }

  lemma RequestTimes(file: Option<Object>, op: Operation, k: string)
    requires op.Request?
    ensures DoneAt(After(file, op), k) == DoneAt(file, k)
    ensures QueuedAt(After(file, op), k) >= QueuedAt(file, k)
    ensures Accepts(file, op.binding, op.targets, op.outcome) && k in op.targets ==>
      Coerce(Some(op.targets[k])) <= DoneAt(file, k) || Coerce(Some(op.targets[k])) <= QueuedAt(After(file, op), k)
  {
    hide Coerce, Requested, BindingMatches;
    if Updated(file, op.binding, op.targets).Some? {
      var p, c := SyncMap(file.value, PendingPartialFullSyncs).value, SyncMap(file.value, LastPartialFullSyncs).value;
      RequestedTimes(p, c, op.targets, k);
    }
  }

  lemma FinishTimes(file: Option<Object>, op: Operation, k: string)
    requires op.Finish?
    ensures DoneAt(After(file, op), k) >= DoneAt(file, k)
    ensures DoneAt(After(file, op), k) > DoneAt(file, k) ==>
      DoneAt(After(file, op), k) == Stamp(Get(op.snapshot, PendingPartialFullSyncs), k)
    ensures QueuedAt(file, k) <= QueuedAt(After(file, op), k) || QueuedAt(file, k) <= DoneAt(After(file, op), k)
  {
    hide Coerce, NowCompleted, StillPending;
    if Completed(file, op.snapshot).Advance? {
      var p, c := SyncMap(file.value, PendingPartialFullSyncs).value, SyncMap(file.value, LastPartialFullSyncs).value;
      var requests := Get(op.snapshot, PendingPartialFullSyncs).value.members;
      CompletedTimes(c, requests, k);
      PendingTimes(p, requests, k);
    }
  }

  lemma PendingTimes(pending: map<string, Value>, requests: map<string, Value>, k: string)
    ensures var later := StillPending(pending, requests);
      Stamp(Some(Tree(later)), k) == if Served(pending, requests, k) then 0 else Stamp(Some(Tree(pending)), k)
  {
  }

  lemma SaveTimes(file: Option<Object>, op: Operation, k: string)
    requires op.Save? && Within(op)
    ensures DoneAt(After(file, op), k) == DoneAt(file, k) && QueuedAt(After(file, op), k) == QueuedAt(file, k)
  {
    hide SessionMerge.DeltaOf, SessionMerge.ApplyDelta, Baseline, Saved, Stamp;
    if file.Some? && Saved(file, op.session).Some? {
      var d := SessionMerge.DeltaOf(op.session);
      SessionMerge.SaveAppliesDelta(file.value, op.session);
      QueueIsNoField(op.session);
      SessionMerge.AppliedAt(file.value, d, LastPartialFullSyncs);
      SessionMerge.AppliedAt(file.value, d, PendingPartialFullSyncs);
    }
    if file.None? {
      assert Saved(file, op.session).None? by { NothingToSaveTo(op.session); }
    }
  }

  lemma NothingToSaveTo(s: Session)
    ensures Saved(None, s).None?
  {
  }

  lemma QueueIsNoField(s: Session)
    requires Baseline(s).Some?
    ensures PendingPartialFullSyncs !in SessionMerge.DeltaOf(s)
  {
    hide ToJson, Parse, SessionMerge.DeltaOf, Rendered;
    var loaded := Parse(s.snapshot.value).value;
    SessionMerge.SnapshotOfParsed(s.snapshot.value);
    SessionMerge.DeltaIsTheEdits(s.snapshot.value, loaded, s, PendingPartialFullSyncs);
  }

  // Over one operation no queued time is lost and no acknowledged time goes back.
  lemma StepTimes(file: Option<Object>, op: Operation, k: string)
    requires Within(op)
    ensures DoneAt(After(file, op), k) >= DoneAt(file, k)
    ensures QueuedAt(file, k) <= QueuedAt(After(file, op), k) || QueuedAt(file, k) <= DoneAt(After(file, op), k)
    ensures DoneAt(After(file, op), k) > DoneAt(file, k) ==>
      op.Finish? && DoneAt(After(file, op), k) == Stamp(Get(op.snapshot, PendingPartialFullSyncs), k)
  {
    match op {
      case Save(_, _) => SaveTimes(file, op, k);
      case Request(_, _, _) => RequestTimes(file, op, k);
      case Finish(_, _) => FinishTimes(file, op, k);
      case _ =>
    }
  }

  // ---- Runs ----

  ghost predicate AllWithin(ops: seq<Operation>) {
    forall i :: 0 <= i < |ops| ==> Within(ops[i])
  }

  // A request for category k at time t, accepted when the file was as given.
  predicate AcceptedAt(file: Option<Object>, op: Operation, k: string, t: int) {
    && op.Request? && Accepts(file, op.binding, op.targets, op.outcome)
    && k in op.targets && t == Coerce(Some(op.targets[k]))
  }

  predicate Safe(file: Option<Object>, k: string, t: int) {
    t <= DoneAt(file, k) || t <= QueuedAt(file, k)
  }

  lemma {:induction false} StaysSafe(file: Option<Object>, ops: seq<Operation>, k: string, t: int)
    requires AllWithin(ops) && Safe(file, k, t)
    ensures Safe(Run(file, ops), k, t)
    decreases |ops|
  {
    hide Within, After, DoneAt, QueuedAt;
    if ops != [] {
      StepTimes(file, ops[0], k);
      StaysSafe(After(file, ops[0]), ops[1..], k, t);
    }
  }

  // Never lost: an accepted request stays queued until a time at least as late
  // is acknowledged, whatever else the login's threads do.
  lemma AcceptedIsNeverLost(before: Option<Object>, op: Operation, later: seq<Operation>, k: string, t: int)
    requires AcceptedAt(before, op, k, t) && AllWithin(later)
    ensures Safe(Run(After(before, op), later), k, t)
  {
    RequestTimes(before, op, k);
    hide After;
    StaysSafe(After(before, op), later, k, t);
  }

  // Never early: acknowledged times only go up, and each value they reach was
  // queued in the snapshot some finished sync had started from.
  lemma {:induction false} AcknowledgedFromASnapshot(file: Option<Object>, ops: seq<Operation>, k: string)
    requires AllWithin(ops)
    ensures DoneAt(Run(file, ops), k) >= DoneAt(file, k)
    ensures DoneAt(Run(file, ops), k) > DoneAt(file, k) ==>
      exists i :: 0 <= i < |ops| && ops[i].Finish? && DoneAt(Run(file, ops), k) == Stamp(Get(ops[i].snapshot, PendingPartialFullSyncs), k)
    decreases |ops|
  {
    hide Within, After, DoneAt, Stamp;
    if ops != [] {
      var next := After(file, ops[0]);
      StepTimes(file, ops[0], k);
      AcknowledgedFromASnapshot(next, ops[1..], k);
      if DoneAt(Run(file, ops), k) > DoneAt(next, k) {
        var i :| 0 <= i < |ops[1..]| && ops[1..][i].Finish? &&
          DoneAt(Run(file, ops), k) == Stamp(Get(ops[1..][i].snapshot, PendingPartialFullSyncs), k);
        assert ops[i + 1].Finish?;
      }
    }
  }

  // Every finished sync reports a snapshot it read from the file earlier on.
  ghost predicate SnapshotsRead(file: Option<Object>, ops: seq<Operation>) {
    forall i | 0 <= i < |ops| && ops[i].Finish? :: ReadBefore(file, ops, i)
  }

  ghost predicate ReadBefore(file: Option<Object>, ops: seq<Operation>, i: nat)
    requires i < |ops| && ops[i].Finish?
  {
    exists j | 0 <= j <= i :: Run(file, ops[..j]) == Some(ops[i].snapshot)
  }

  // Then a time is acknowledged only if the file had it queued,
  lemma AcknowledgedWasQueued(file: Option<Object>, ops: seq<Operation>, k: string) returns (j: nat)
    requires AllWithin(ops) && SnapshotsRead(file, ops) && DoneAt(Run(file, ops), k) > DoneAt(file, k)
    ensures j < |ops| && DoneAt(Run(file, ops), k) == QueuedAt(Run(file, ops[..j]), k)
  {
    hide Run, Within, Stamp;
    AcknowledgedFromASnapshot(file, ops, k);
    var i :| 0 <= i < |ops| && ops[i].Finish? && DoneAt(Run(file, ops), k) == Stamp(Get(ops[i].snapshot, PendingPartialFullSyncs), k);
    assert ReadBefore(file, ops, i);
    j :| 0 <= j <= i && Run(file, ops[..j]) == Some(ops[i].snapshot);
  }

  // Some request of the run asked for category k at time t.
  predicate Asked(ops: seq<Operation>, k: string, t: int) {
    exists i :: 0 <= i < |ops| && ops[i].Request? && k in ops[i].targets && t == Coerce(Some(ops[i].targets[k]))
  }

  lemma StepQueue(file: Option<Object>, op: Operation, k: string)
    requires Within(op)
    ensures QueuedAt(After(file, op), k) in {0, QueuedAt(file, k)} ||
      (op.Request? && k in op.targets && QueuedAt(After(file, op), k) == Coerce(Some(op.targets[k])))
  {
    hide Coerce, Requested, StillPending, NowCompleted, BindingMatches, Decimal;
    match op {
      case Save(_, _) => SaveTimes(file, op, k);
      case Request(binding, targets, _) =>
        if Updated(file, binding, targets).Some? {
          RequestedTimes(SyncMap(file.value, PendingPartialFullSyncs).value, SyncMap(file.value, LastPartialFullSyncs).value, targets, k);
        }
      case Finish(snapshot, _) =>
        if Completed(file, snapshot).Advance? {
          PendingTimes(SyncMap(file.value, PendingPartialFullSyncs).value, Get(snapshot, PendingPartialFullSyncs).value.members, k);
        }
      case _ =>
    }
  }

  lemma {:induction false} QueuedWasAsked(file: Option<Object>, ops: seq<Operation>, k: string)
    requires AllWithin(ops)
    ensures QueuedAt(Run(file, ops), k) in {0, QueuedAt(file, k)} || Asked(ops, k, QueuedAt(Run(file, ops), k))
    decreases |ops|
  {
    hide Within, After, QueuedAt, Coerce;
    if ops != [] {
      var next, t := After(file, ops[0]), QueuedAt(Run(file, ops), k);
      StepQueue(file, ops[0], k);
      QueuedWasAsked(next, ops[1..], k);
      if Asked(ops[1..], k, t) {
        var i :| 0 <= i < |ops[1..]| && ops[1..][i].Request? && k in ops[1..][i].targets && t == Coerce(Some(ops[1..][i].targets[k]));
        assert ops[i + 1] == ops[1..][i];
        assert Asked(ops, k, t);
      }
    }
  }

  // and so only if it was queued at the start or some request asked for it.
  lemma AcknowledgedWasAsked(file: Option<Object>, ops: seq<Operation>, k: string)
    requires AllWithin(ops) && SnapshotsRead(file, ops) && DoneAt(Run(file, ops), k) > DoneAt(file, k)
    ensures DoneAt(Run(file, ops), k) in {0, QueuedAt(file, k)} || Asked(ops, k, DoneAt(Run(file, ops), k))
  {
    hide Run, Within, DoneAt, QueuedAt, Coerce;
    var j := AcknowledgedWasQueued(file, ops, k);
    assert AllWithin(ops[..j]);
    QueuedWasAsked(file, ops[..j], k);
    var t := DoneAt(Run(file, ops), k);
    if Asked(ops[..j], k, t) {
      var i :| 0 <= i < |ops[..j]| && ops[..j][i].Request? && k in ops[..j][i].targets && t == Coerce(Some(ops[..j][i].targets[k]));
      assert ops[i] == ops[..j][i];
      assert Asked(ops, k, t);
    }
  }
}
