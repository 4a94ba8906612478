// session.json: the document, the record accounts work on, and the locked
// read-merge-write operations on the file.
module SessionFile {
  import opened Optional
  import T = Text

  // A JSON document. Numbers are the integers the session file holds.
  datatype Value =
    | Null
    | Flag(b: bool)
    | Number(n: int)
    | Text(s: string)
    | Items(items: seq<Value>)
    | Tree(members: map<string, Value>)

  datatype Key =
    | ClientIdentity
    | Certificate | E2eeLoginPublicKey | E2eeVersion | E2eeHashKeyChain | Mid | DisplayName | RegionCode
    | AccessToken | RefreshToken | RefreshJournalId
    | DurationUntilRefreshInSec | TokenIssueTimeEpochSec
    | E2eeLatestKeyId | ReqSeq | E2eeSequenceNumber
    | E2eeKeys | E2eeLoginMetaData | EncryptedAccessTokens | WorkerRestoreState | RefreshApiRetryPolicy
    | LastPartialFullSyncs
    | NeedsReauth
    | LoginId | PendingPartialFullSyncs
    | Other(name: string)

  type Object = map<Key, Value>

  // How a key appears in the session record, and how it is written back.
  datatype Kind = IdentityField | TextField | IntTextField | IntNumberField | NodeField | FlagField | NotAField

  function KindOf(k: Key): Kind {
    match k
    case ClientIdentity => IdentityField
    case Certificate => TextField
    case E2eeLoginPublicKey => TextField
    case E2eeVersion => TextField
    case E2eeHashKeyChain => TextField
    case Mid => TextField
    case DisplayName => TextField
    case RegionCode => TextField
    case AccessToken => TextField
    case RefreshToken => TextField
    case RefreshJournalId => TextField
    case DurationUntilRefreshInSec => IntTextField
    case TokenIssueTimeEpochSec => IntTextField
    case E2eeLatestKeyId => IntNumberField
    case ReqSeq => IntNumberField
    case E2eeSequenceNumber => IntNumberField
    case E2eeKeys => NodeField
    case E2eeLoginMetaData => NodeField
    case EncryptedAccessTokens => NodeField
    case WorkerRestoreState => NodeField
    case RefreshApiRetryPolicy => NodeField
    case LastPartialFullSyncs => NodeField
    case NeedsReauth => FlagField
    case _ => NotAField
  }

  const FIELDS := {
    ClientIdentity, Certificate, E2eeLoginPublicKey, E2eeVersion, E2eeHashKeyChain, Mid, DisplayName, RegionCode,
    AccessToken, RefreshToken, RefreshJournalId, DurationUntilRefreshInSec, TokenIssueTimeEpochSec,
    E2eeLatestKeyId, ReqSeq, E2eeSequenceNumber, E2eeKeys, E2eeLoginMetaData, EncryptedAccessTokens,
    WorkerRestoreState, RefreshApiRetryPolicy, LastPartialFullSyncs, NeedsReauth}

  function Get(o: Object, k: Key): Option<Value> {
    if k in o then Some(o[k]) else None
  }

  function Put(o: Object, k: Key, v: Option<Value>): Object {
    if v.Some? then o[k := v.value] else o - {k}
  }

  // ---- Numbers written as text ----

  const INT64_MIN := T.INT64_MIN
  const INT64_MAX := T.INT64_MAX

  function Chars(b: T.Bytes): string {
    seq(|b|, i requires 0 <= i < |b| => b[i] as char)
  }

  function Decimal(n: int): string {
    Chars(T.Decimal(n))
  }

  function DigitChar(d: nat): char
    requires d < 10
  {
    "0123456789"[d]
  }

  lemma Numeral(n: int)
    ensures n < 0 ==> Decimal(n) == "-" + Decimal(-n)
    ensures 0 <= n < 10 ==> Decimal(n) == [DigitChar(n)]
    ensures n >= 10 ==> Decimal(n) == Decimal(n / 10) + [DigitChar(n % 10)]
  {
  }

  function Clamp(n: int): int {
    if n < INT64_MIN then INT64_MIN else if n > INT64_MAX then INT64_MAX else n
  }

  // The digits s starts with, added to the number read so far.
  function LeadingDigits(s: string, n: nat): nat {
    if s != "" && '0' <= s[0] <= '9' then LeadingDigits(s[1..], 10 * n + (s[0] as int - '0' as int)) else n
  }

  // strtoll(s, NULL, 10): leading blanks, a sign, digits; what follows is ignored.
  function LeadingInteger(s: string): (r: int)
    ensures INT64_MIN <= r <= INT64_MAX
  {
    if s == "" then 0
    else if s[0] == ' ' || 9 <= s[0] as int <= 13 then LeadingInteger(s[1..])
    else if s[0] == '-' then Clamp(0 - LeadingDigits(s[1..], 0))
    else if s[0] == '+' then Clamp(LeadingDigits(s[1..], 0))
    else Clamp(LeadingDigits(s, 0))
  }

  // enil_json_coerce_int64
  function Coerce(v: Option<Value>): (r: int)
    ensures INT64_MIN <= r <= INT64_MAX
  {
    match v
    case Some(Number(n)) => Clamp(n)
    case Some(Text(s)) => LeadingInteger(s)
    case _ => 0
  }

  // ---- The session record ----

  datatype Session = Session(
    snapshot: Option<Object>,
    identity: Value,
    texts: map<Key, string>,
    ints: map<Key, int>,
    nodes: map<Key, Value>,
    needsReauth: bool)

  function IntOf(s: Session, k: Key): int {
    if k in s.ints then s.ints[k] else 0
  }

  function Parse(root: Object): Option<Session> {
    if !(ClientIdentity in root && root[ClientIdentity].Tree?) then None
    else if !(AccessToken in root && root[AccessToken].Text?) then None
    else
      Some(Session(
        Some(root),
        root[ClientIdentity],
        map k | k in root && KindOf(k) == TextField && root[k].Text? :: root[k].s,
        map k | k in FIELDS && (KindOf(k) == IntTextField || KindOf(k) == IntNumberField) :: Coerce(Get(root, k)),
        map k | k in root && KindOf(k) == NodeField :: root[k],
        Get(root, NeedsReauth) == Some(Flag(true))))
  }

  // What the record says of key k when written out. Keys that are not fields
  // keep what the snapshot had.
  function Rendered(s: Session, k: Key): Option<Value> {
    match KindOf(k)
    case IdentityField => Some(s.identity)
    case TextField => if k in s.texts then Some(Text(s.texts[k])) else None
    case IntTextField => Some(Text(Decimal(IntOf(s, k))))
    case IntNumberField => Some(Number(IntOf(s, k)))
    case NodeField => if k in s.nodes then Some(s.nodes[k]) else None
    case FlagField => if s.needsReauth then Some(Flag(true)) else None
    case NotAField => if s.snapshot.Some? then Get(s.snapshot.value, k) else None
  }

  function ToJson(s: Session): Object {
    var keys := FIELDS + (if s.snapshot.Some? then s.snapshot.value.Keys else {});
    map k | k in keys && Rendered(s, k).Some? :: Rendered(s, k).value
  }

  // What the session's own snapshot reads as, in the same normal form.
  function Baseline(s: Session): Option<Object> {
    if s.snapshot.None? then None
    else
      match Parse(s.snapshot.value)
      case None => None
      case Some(original) => Some(ToJson(original))
  }

  // ---- Three-way merge ----

  // A key the writer left alone keeps its current value; a key it changed,
  // added or removed takes the writer's.
  function MergedAt(current: Object, baseline: Object, next: Object, k: Key): Option<Value> {
    if Get(baseline, k) == Get(next, k) then Get(current, k) else Get(next, k)
  }

  function Merge(current: Object, baseline: Object, next: Object): Object {
    map k | k in current.Keys + next.Keys && MergedAt(current, baseline, next, k).Some? ::
      MergedAt(current, baseline, next, k).value
  }

  // Both logins absent, or the same non-empty login id.
  predicate SameLogin(before: Option<Value>, now: Option<Value>) {
    (before.None? && now.None?) || (before.Some? && before.value.Text? && before.value.s != "" && now == before)
  }

  // The document a save would store, or None where it is refused.
  function Saved(file: Option<Object>, s: Session): Option<Object> {
    match (file, Baseline(s))
    case (Some(current), Some(baseline)) =>
      if SameLogin(Get(baseline, LoginId), Get(current, LoginId)) then Some(Merge(current, baseline, ToJson(s))) else None
    case _ => None
  }

  // A thread's binding to one login of this account.
  datatype Binding = Binding(loginId: Option<string>, identity: Value)

  predicate BindingMatches(b: Binding, root: Object) {
    && (b.loginId.Some? || LoginId in root ==> b.loginId.Some? && Get(root, LoginId) == Some(Text(b.loginId.value)))
    && ClientIdentity in root && root[ClientIdentity].Tree?
    && root[ClientIdentity] == b.identity
  }

  // ---- Partial full syncs: a timestamp per category, kept as text ----

  function Stamp(syncs: Option<Value>, category: string): int {
    match syncs
    case Some(Tree(m)) => if category in m then Coerce(Some(m[category])) else 0
    case _ => 0
  }

  // The sync map under a key, created when absent; None if it is not an object.
  function SyncMap(root: Object, k: Key): Option<map<string, Value>> {
    match Get(root, k)
    case None => Some(map[])
    case Some(Tree(m)) => Some(m)
    case _ => None
  }

  // How a file replacement can end. The rename may be visible although the
  // directory flush failed and failure is reported.
  datatype Outcome = NotWritten | WrittenUnflushed | Written

  function Stored(file: Option<Object>, document: Object, outcome: Outcome): Option<Object> {
    if outcome == NotWritten then file else Some(document)
  }

  // ---- The operations that run under the session mutex ----

  // Each makes at most one write; how that write ends is part of the operation.
  datatype Operation =
    | Save(session: Session, outcome: Outcome)
    | Rotate(binding: Option<Binding>, previous: string, next: string, outcome: Outcome)
    | Request(binding: Option<Binding>, targets: map<string, Value>, outcome: Outcome)
    | Finish(snapshot: Object, outcome: Outcome)
    | Identify(newId: string, outcome: Outcome)
    | Activate(document: Object, outcome: Outcome)

  // The file after an operation.
  function After(file: Option<Object>, op: Operation): Option<Object> {
    match op
    case Save(session, outcome) =>
      (match Saved(file, session)
       case Some(document) => Stored(file, document, outcome)
       case None => file)
    case Rotate(binding, previous, next, outcome) =>
      if Rotates(file, binding, previous, next) then Stored(file, file.value[AccessToken := Text(next)], outcome) else file
    case Request(binding, targets, outcome) =>
      (match Updated(file, binding, targets)
       case Some(document) => if SomeWanted(file.value, targets) then Stored(file, document, outcome) else file
       case None => file)
    case Finish(snapshot, outcome) =>
      (match Completed(file, snapshot)
       case Advance(document) => Stored(file, document, outcome)
       case _ => file)
    case Identify(newId, outcome) =>
      if file.Some? && LoginId !in file.value then Stored(file, file.value[LoginId := Text(newId)], outcome) else file
    case Activate(document, outcome) => Stored(file, document, outcome)
  }

  function Run(file: Option<Object>, ops: seq<Operation>): Option<Object>
    decreases |ops|
  {
    if ops == [] then file else Run(After(file, ops[0]), ops[1..])
  }

  class SessionStore {
    var file: Option<Object>

    method Write(document: Object, outcome: Outcome) returns (ok: bool)
      modifies this
      ensures file == Stored(old(file), document, outcome) && ok == (outcome == Written)
    {
      if outcome != NotWritten {
        file := Some(document);
      }
      ok := outcome == Written;
    }

    method Load() returns (session: Option<Session>)
      ensures session == if file.Some? then Parse(file.value) else None
      ensures session.Some? ==> session.value.snapshot == file
    {
      session := if file.Some? then Parse(file.value) else None;
    }

    method SaveSession(session: Session, outcome: Outcome) returns (ok: bool)
      modifies this
      ensures file == After(old(file), Save(session, outcome))
      ensures ok <==> Saved(old(file), session).Some? && outcome == Written
    {
      var next, baseline := ToJson(session), Baseline(session);
      if file.None? || baseline.None? {
        return false;
      }
      var current, base := file.value, baseline.value;
      if !SameLogin(Get(base, LoginId), Get(current, LoginId)) {
        return false;
      }
      var document := MergeDocuments(current, base, next);
      ok := Write(document, outcome);
    }

    // Install a token a server handed out on a response, unless another request
    // already replaced the one this request used.
    method AcceptNextAccess(binding: Option<Binding>, previous: string, next: string, outcome: Outcome) returns (ok: bool)
      modifies this
      ensures file == After(old(file), Rotate(binding, previous, next, outcome))
      ensures ok <==>
        && binding.Some? && next != "" && '\r' !in next && '\n' !in next
        && old(file).Some? && BindingMatches(binding.value, old(file).value)
        && var token := Get(old(file).value, AccessToken);
           token.Some? && token.value.Text? && (token == Some(Text(previous)) ==> outcome == Written)
    {
      ok := false;
      if binding.None? || next == "" || '\r' in next || '\n' in next {
        return;
      }
      if file.None? || !BindingMatches(binding.value, file.value) {
        return;
      }
      var token := Get(file.value, AccessToken);
      if token == Some(Text(previous)) {
        ok := Write(file.value[AccessToken := Text(next)], outcome);
      } else {
        ok := token.Some? && token.value.Text?;
      }
    }

    // The token a bound operation may use: -1 once its login is no longer the one
    // in the file, 0 without a binding.
    method BoundAccessToken(binding: Option<Binding>) returns (result: int, token: string)
      ensures result == 0 <==> binding.None?
      ensures result == 1 <==> binding.Some? && file.Some? && BindingMatches(binding.value, file.value) &&
                               token != "" && Get(file.value, AccessToken) == Some(Text(token))
      ensures result in {-1, 0, 1} && (result != 1 ==> token == "")
    {
      result, token := if binding.None? then 0 else -1, "";
      if binding.Some? && file.Some? && BindingMatches(binding.value, file.value) {
        var value := Get(file.value, AccessToken);
        if value.Some? && value.value.Text? && value.value.s != "" {
          result, token := 1, value.value.s;
        }
      }
    }

    // -1: not accepted; 0: nothing new; 1: some category is now pending.
    method UpdatePartialSyncs(binding: Option<Binding>, targets: map<string, Value>, outcome: Outcome) returns (result: int)
      modifies this
      ensures file == After(old(file), Request(binding, targets, outcome))
      ensures result == -1 <==> !Accepts(old(file), binding, targets, outcome)
      ensures result != -1 ==> result == if SomeNewer(old(file).value, targets) then 1 else 0
    {
      if file.None? || (binding.Some? && !BindingMatches(binding.value, file.value)) {
        return -1;
      }
      var p, c := SyncMap(file.value, PendingPartialFullSyncs), SyncMap(file.value, LastPartialFullSyncs);
      if p.None? || c.None? {
        return -1;
      }
      var pending, needed, changed := RaiseWanted(p.value, c.value, targets);
      if changed {
        var ok := Write(file.value[PendingPartialFullSyncs := Tree(pending)][LastPartialFullSyncs := Tree(c.value)], outcome);
        if !ok {
          return -1;
        }
      }
      result := if needed then 1 else 0;
    }

    // Acknowledge what was pending when a finished sync began.
    method CompletePartialSyncs(snapshot: Object, outcome: Outcome) returns (ok: bool)
      modifies this
      ensures file == After(old(file), Finish(snapshot, outcome))
      ensures ok <==> Completed(old(file), snapshot).Nothing? || (Completed(old(file), snapshot).Advance? && outcome == Written)
    {
      var before := Get(snapshot, LoginId);
      if file.None? || !AgreeOnLogin(before, Get(file.value, LoginId)) {
        return false;
      }
      var requests := Get(snapshot, PendingPartialFullSyncs);
      if requests.None? || requests == Some(Tree(map[])) {
        return true;
      }
      if !requests.value.Tree? {
        return false;
      }
      var p, c := SyncMap(file.value, PendingPartialFullSyncs), SyncMap(file.value, LastPartialFullSyncs);
      if p.None? || c.None? {
        return false;
      }
      var pending, completed := Acknowledge(p.value, c.value, requests.value.members);
      var document := Put(file.value, PendingPartialFullSyncs, if pending == map[] then None else Some(Tree(pending)));
      ok := Write(document[LastPartialFullSyncs := Tree(completed)], outcome);
    }

    // The login id of the file, given a fresh one if it has none.
    method EnsureLoginId(newId: string, outcome: Outcome) returns (id: Option<string>)
      modifies this
      ensures file == After(old(file), Identify(newId, outcome))
      ensures id.Some? ==> file.Some? && Get(file.value, LoginId) == Some(Text(id.value))
      ensures id.Some? <==>
        && old(file).Some?
        && if LoginId in old(file).value then old(file).value[LoginId].Text? && old(file).value[LoginId].s != ""
           else outcome == Written
    {
      id := None;
      if file.Some? {
        if LoginId in file.value {
          if file.value[LoginId].Text? && file.value[LoginId].s != "" {
            id := Some(file.value[LoginId].s);
          }
        } else {
          var ok := Write(file.value[LoginId := Text(newId)], outcome);
          id := if ok then Some(newId) else None;
        }
      }
    }
  }

  // ---- The loops of the operations above, over the members of an object ----

  method MergeDocuments(original: Object, base: Object, next: Object) returns (current: Object)
    ensures current == Merge(original, base, next)
  {
    current := original;
    var left := next.Keys;
    while left != {}
      invariant left <= next.Keys
      invariant forall k :: k in next.Keys - left ==> Get(current, k) == MergedAt(original, base, next, k)
      invariant forall k :: k !in next.Keys - left ==> Get(current, k) == Get(original, k)
    {
      var k :| k in left;
      if !(k in base && base[k] == next[k]) {
        current := current[k := next[k]];
      }
      left := left - {k};
    }
    left := base.Keys;
    while left != {}
      invariant left <= base.Keys
      invariant forall k :: k in next || k in base.Keys - left ==> Get(current, k) == MergedAt(original, base, next, k)
      invariant forall k :: k !in next && k !in base.Keys - left ==> Get(current, k) == Get(original, k)
    {
      var k :| k in left;
      if k !in next {
        current := current - {k};
      }
      left := left - {k};
    }
    SameContent(current, Merge(original, base, next));
  }

  method RaiseWanted(original: map<string, Value>, completed: map<string, Value>, targets: map<string, Value>)
    returns (pending: map<string, Value>, needed: bool, changed: bool)
    ensures pending == Requested(original, completed, targets)
    ensures changed <==> exists k :: Wanted(targets, completed, original, k)
    ensures needed <==> exists k :: Newer(targets, completed, k)
  {
    hide Newer, Requested, Coerce;
    pending, needed, changed := original, false, false;
    var left := targets.Keys;
    RequestedNone(original, completed, targets);
    while left != {}
      invariant left <= targets.Keys
      invariant pending == Requested(original, completed, targets - left)
      invariant changed <==> exists k :: k !in left && Wanted(targets, completed, original, k)
      invariant needed <==> exists k :: k !in left && Newer(targets, completed, k)
    {
      var k :| k in left;
      var incoming := Coerce(Some(targets[k]));
      RequestedStep(original, completed, targets, left, k);
      if Newer(targets, completed, k) {
        needed := true;
        if Newer(targets, pending, k) {
          pending, changed := pending[k := Text(Decimal(incoming))], true;
        }
      }
      left := left - {k};
    }
    assert targets - {} == targets;
  }

  method Acknowledge(originalPending: map<string, Value>, originalCompleted: map<string, Value>, requests: map<string, Value>)
    returns (pending: map<string, Value>, completed: map<string, Value>)
    ensures pending == StillPending(originalPending, requests)
    ensures completed == NowCompleted(originalCompleted, requests)
  {
    hide Newer, NowCompleted, StillPending, Coerce, Served;
    pending, completed := originalPending, originalCompleted;
    var left := requests.Keys;
    AcknowledgedNone(originalPending, originalCompleted, requests);
    while left != {}
      invariant left <= requests.Keys
      invariant pending == StillPending(originalPending, requests - left)
      invariant completed == NowCompleted(originalCompleted, requests - left)
    {
      var k :| k in left;
      var value := Coerce(Some(requests[k]));
      CompletedStep(originalCompleted, requests, left, k);
      PendingStep(originalPending, requests, left, k);
      if Newer(requests, completed, k) {
        completed := completed[k := Text(Decimal(value))];
      }
      if k in pending && Coerce(Some(pending[k])) <= value {
        pending := pending - {k};
      }
      left := left - {k};
    }
    assert requests - {} == requests;
  }

  // One more category of the targets taken into account.
  lemma RequestedStep(pending: map<string, Value>, completed: map<string, Value>, targets: map<string, Value>,
                      left: set<string>, k: string)
    requires k in left && left <= targets.Keys
    ensures
      var before := Requested(pending, completed, targets - left);
      && (Newer(targets, before, k) <==> Newer(targets, pending, k))
      && Requested(pending, completed, targets - (left - {k})) ==
           if Wanted(targets, completed, pending, k) then before[k := Text(Decimal(Coerce(Some(targets[k]))))] else before
  {
    hide Coerce, Decimal;
  }

  lemma RequestedNone(pending: map<string, Value>, completed: map<string, Value>, targets: map<string, Value>)
    ensures pending == Requested(pending, completed, targets - targets.Keys)
    ensures forall k :: Newer(targets, completed, k) ==> k in targets
  {
  }

  lemma CompletedStep(completed: map<string, Value>, requests: map<string, Value>, left: set<string>, k: string)
    requires k in left && left <= requests.Keys
    ensures
      var before := NowCompleted(completed, requests - left);
      && (Newer(requests, before, k) <==> Newer(requests, completed, k))
      && NowCompleted(completed, requests - (left - {k})) ==
           if Newer(requests, completed, k) then before[k := Text(Decimal(Coerce(Some(requests[k]))))] else before
  {
    hide Coerce, Decimal;
  }

  lemma PendingStep(pending: map<string, Value>, requests: map<string, Value>, left: set<string>, k: string)
    requires k in left && left <= requests.Keys
    ensures
      var before := StillPending(pending, requests - left);
      && (k in before && Coerce(Some(before[k])) <= Coerce(Some(requests[k])) <==> Served(pending, requests, k))
      && StillPending(pending, requests - (left - {k})) == if Served(pending, requests, k) then before - {k} else before
  {
    hide Coerce;
  }

  lemma AcknowledgedNone(pending: map<string, Value>, completed: map<string, Value>, requests: map<string, Value>)
    ensures pending == StillPending(pending, requests - requests.Keys)
    ensures completed == NowCompleted(completed, requests - requests.Keys)
  {
  }

  predicate Rotates(file: Option<Object>, binding: Option<Binding>, previous: string, next: string) {
    && binding.Some? && next != "" && '\r' !in next && '\n' !in next
    && file.Some? && BindingMatches(binding.value, file.value)
    && Get(file.value, AccessToken) == Some(Text(previous))
  }

  // merge_partial_timestamp's test: does the source bring a later time for category k?
  predicate Newer(source: map<string, Value>, times: map<string, Value>, k: string) {
    k in source && Coerce(Some(source[k])) > Stamp(Some(Tree(times)), k)
  }

  predicate Wanted(targets: map<string, Value>, completed: map<string, Value>, pending: map<string, Value>, k: string) {
    Newer(targets, completed, k) && Newer(targets, pending, k)
  }

  // pending with every wanted category raised to the requested time.
  function Requested(pending: map<string, Value>, completed: map<string, Value>,
      targets: map<string, Value>): map<string, Value> {
    map k | k in pending.Keys + targets.Keys && (k in pending || Wanted(targets, completed, pending, k)) ::
      if Wanted(targets, completed, pending, k) then Text(Decimal(Coerce(Some(targets[k])))) else pending[k]
  }

  predicate SomeWanted(document: Object, targets: map<string, Value>)
    requires SyncMap(document, PendingPartialFullSyncs).Some? && SyncMap(document, LastPartialFullSyncs).Some?
  {
    exists k :: k in targets &&
      Wanted(targets, SyncMap(document, LastPartialFullSyncs).value, SyncMap(document, PendingPartialFullSyncs).value, k)
  }

  predicate SomeNewer(document: Object, targets: map<string, Value>)
    requires SyncMap(document, LastPartialFullSyncs).Some?
  {
    exists k :: k in targets && Newer(targets, SyncMap(document, LastPartialFullSyncs).value, k)
  }

  // Does the caller get its request acknowledged?
  predicate Accepts(file: Option<Object>, binding: Option<Binding>, targets: map<string, Value>, outcome: Outcome) {
    Updated(file, binding, targets).Some? && (SomeWanted(file.value, targets) ==> outcome == Written)
  }

  // The document after a request; None if the request is not accepted.
  function Updated(file: Option<Object>, binding: Option<Binding>, targets: map<string, Value>): (r: Option<Object>)
    ensures r.Some? ==> file.Some? && SyncMap(file.value, PendingPartialFullSyncs).Some? && SyncMap(file.value, LastPartialFullSyncs).Some?
  {
    if file.None? || (binding.Some? && !BindingMatches(binding.value, file.value)) then None
    else
      match (SyncMap(file.value, PendingPartialFullSyncs), SyncMap(file.value, LastPartialFullSyncs))
      case (Some(p), Some(c)) =>
        Some(file.value[PendingPartialFullSyncs := Tree(Requested(p, c, targets))][LastPartialFullSyncs := Tree(c)])
      case _ => None
  }

  // A queued time that a finished sync covers.
  predicate Served(pending: map<string, Value>, requests: map<string, Value>, k: string) {
    k in pending && k in requests && Coerce(Some(pending[k])) <= Coerce(Some(requests[k]))
  }

  function StillPending(pending: map<string, Value>, requests: map<string, Value>): map<string, Value> {
    map k | k in pending && !Served(pending, requests, k) :: pending[k]
  }

  function NowCompleted(completed: map<string, Value>, requests: map<string, Value>): map<string, Value> {
    map k | k in completed.Keys + requests.Keys && (k in completed || Newer(requests, completed, k)) ::
      if Newer(requests, completed, k) then Text(Decimal(Coerce(Some(requests[k])))) else completed[k]
  }

  datatype Completion = Refused | Nothing | Advance(document: Object)

  predicate AgreeOnLogin(before: Option<Value>, now: Option<Value>) {
    (before.None? && now.None?) || (before.Some? && before.value.Text? && now == before)
  }

  function Completed(file: Option<Object>, snapshot: Object): Completion {
    if file.None? || !AgreeOnLogin(Get(snapshot, LoginId), Get(file.value, LoginId)) then Refused
    else
      match Get(snapshot, PendingPartialFullSyncs)
      case None => Nothing
      case Some(Tree(requests)) =>
        if requests == map[] then Nothing
        else
          (match (SyncMap(file.value, PendingPartialFullSyncs), SyncMap(file.value, LastPartialFullSyncs))
           case (Some(p), Some(c)) =>
             var pending := StillPending(p, requests);
             Advance(Put(file.value, PendingPartialFullSyncs, if pending == map[] then None else Some(Tree(pending)))
                     [LastPartialFullSyncs := Tree(NowCompleted(c, requests))])
           case _ => Refused)
      case _ => Refused
  }

  lemma SameContent(a: Object, b: Object)
    requires forall k :: Get(a, k) == Get(b, k)
    ensures a == b
  {
    forall k ensures (k in a <==> k in b) && (k in a ==> a[k] == b[k]) {
      assert Get(a, k) == Get(b, k);
    }
  }
}
