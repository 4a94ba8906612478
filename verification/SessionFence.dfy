// A login id fences the session file: what a superseded login still has in
// flight can no longer reach it.
module SessionFence {
  import opened Optional
  import opened SessionFile
  import SessionMerge

  function LoginOf(file: Option<Object>): Option<Value> {
    if file.Some? then Get(file.value, LoginId) else None
  }

  function BoundTo(binding: Option<Binding>): Option<Value> {
    if binding.Some? && binding.value.loginId.Some? then Some(Text(binding.value.loginId.value)) else None
  }

  // The login an operation was started under.
  function Owner(op: Operation): Option<Value> {
    match op
    case Save(session, _) => LoginOf(Baseline(session))
    case Rotate(binding, _, _, _) => BoundTo(binding)
    case Request(binding, _, _) => BoundTo(binding)
    case Finish(snapshot, _) => Get(snapshot, LoginId)
    case Identify(_, _) => None
    case Activate(document, _) => Get(document, LoginId)
  }

  // Account work runs under a binding; only activation replaces a login, and it
  // always installs one with an id.
  predicate Proper(op: Operation) {
    match op
    case Request(binding, _, _) => binding.Some?
    case Activate(document, _) => LoginId in document
    case _ => true
  }

  // A login with an id: nothing owned by another one writes, and no account
  // operation changes the id.
  lemma StepIsFenced(file: Option<Object>, op: Operation)
    requires Proper(op) && !op.Activate?
    requires file.Some? ==> LoginId in file.value
    ensures LoginOf(After(file, op)) == LoginOf(file) && After(file, op).Some? == file.Some?
    ensures Owner(op) != LoginOf(file) ==> After(file, op) == file
  {
    if op.Save? {
      SaveIsFenced(file, op.session);
    }
  }

  lemma SaveIsFenced(file: Option<Object>, s: Session)
    ensures Saved(file, s).Some? ==> file.Some? && LoginOf(Baseline(s)) == LoginOf(file) == Get(Saved(file, s).value, LoginId)
  {
    hide ToJson, Parse, Merge;
    if Saved(file, s).Some? {
      var origin := Parse(s.snapshot.value);
      SessionMerge.LoginIdIsCarried(s);
      SessionMerge.SnapshotOfParsed(s.snapshot.value);
      SessionMerge.LoginIdIsCarried(origin.value);
      MergedLogin(file.value, Baseline(s).value, ToJson(s));
    }
  }

  lemma MergedLogin(current: Object, baseline: Object, next: Object)
    ensures Get(Merge(current, baseline, next), LoginId) == MergedAt(current, baseline, next, LoginId)
  {
  }

  // The login in force after an operation, told from activations alone.
  function InForce(login: Option<Value>, op: Operation): Option<Value> {
    if op.Activate? && op.outcome != NotWritten then Get(op.document, LoginId) else login
  }

  // The run without whatever does not belong to the login in force at its turn.
  function Live(login: Option<Value>, ops: seq<Operation>): seq<Operation>
    decreases |ops|
  {
    if ops == [] then []
    else
      (if ops[0].Activate? || Owner(ops[0]) == login then [ops[0]] else []) + Live(InForce(login, ops[0]), ops[1..])
  }

  function LastInForce(login: Option<Value>, ops: seq<Operation>): Option<Value>
    decreases |ops|
  {
    if ops == [] then login else LastInForce(InForce(login, ops[0]), ops[1..])
  }

  // Over any interleaving, operations of superseded logins might as well not
  // have happened, and the file's login is the last one activated.
  lemma {:induction false} SupersededLoginsNeverWrite(file: Option<Object>, ops: seq<Operation>)
    requires forall op | op in ops :: Proper(op)
    requires file.Some? ==> LoginId in file.value
    ensures Run(file, ops) == Run(file, Live(LoginOf(file), ops))
    ensures LoginOf(Run(file, ops)) == LastInForce(LoginOf(file), ops)
    decreases |ops|
  {
    hide After, Owner;
    if ops != [] {
      var op, rest := ops[0], ops[1..];
      var next := After(file, op);
      StepLogin(file, op);
      SupersededLoginsNeverWrite(next, rest);
      if op.Activate? || Owner(op) == LoginOf(file) {
        var live := Live(LoginOf(next), rest);
        assert ([op] + live)[1..] == live;
      } else {
        StepIsFenced(file, op);
        assert [] + Live(LoginOf(next), rest) == Live(LoginOf(next), rest);
      }
    }
  }

  lemma StepLogin(file: Option<Object>, op: Operation)
    requires Proper(op)
    requires file.Some? ==> LoginId in file.value
    ensures LoginOf(After(file, op)) == InForce(LoginOf(file), op)
    ensures After(file, op).Some? ==> LoginId in After(file, op).value
  {
    hide Saved, Updated, Completed, Rotates;
    if !op.Activate? {
      StepIsFenced(file, op);
    }
  }

  // ---- Inline rotation ----

  predicate Rotations(ops: seq<Operation>) {
    forall i :: 0 <= i < |ops| ==> ops[i].Rotate?
  }

  // A chain of tokens: each rotation that took effect used the token the one
  // before it installed.
  ghost predicate Chain(token: Option<Value>, steps: seq<(string, string)>, last: Option<Value>)
    decreases |steps|
  {
    if steps == [] then token == last
    else token == Some(Text(steps[0].0)) && Chain(Some(Text(steps[0].1)), steps[1..], last)
  }

  function TokenOf(file: Option<Object>): Option<Value> {
    if file.Some? then Get(file.value, AccessToken) else None
  }

  // The rotations of a run that reached the file, as (token used, token installed).
  function Effective(file: Option<Object>, ops: seq<Operation>): seq<(string, string)>
    requires Rotations(ops)
    decreases |ops|
  {
    if ops == [] then []
    else
      var op := ops[0];
      (if Rotates(file, op.binding, op.previous, op.next) && op.outcome != NotWritten then [(op.previous, op.next)] else []) +
      Effective(After(file, op), ops[1..])
  }

  // Concurrent responses rotate one after another: each replaces the token its
  // own request used or does nothing, and nothing but the token changes.
  lemma {:induction false} RotationsFormAChain(file: Option<Object>, ops: seq<Operation>)
    requires Rotations(ops)
    ensures Chain(TokenOf(file), Effective(file, ops), TokenOf(Run(file, ops)))
    ensures file.Some? == Run(file, ops).Some?
    ensures file.Some? ==> Run(file, ops).value - {AccessToken} == file.value - {AccessToken}
    decreases |ops|
  {
    hide BindingMatches;
    if ops != [] {
      var op, rest := ops[0], ops[1..];
      var next := After(file, op);
      RotationsFormAChain(next, rest);
      var later := Effective(next, rest);
      if Rotates(file, op.binding, op.previous, op.next) && op.outcome != NotWritten {
        assert ([(op.previous, op.next)] + later)[1..] == later;
        assert next.value - {AccessToken} == file.value - {AccessToken};
      } else {
        assert next == file;
        assert [] + later == later;
      }
    }
  }
}
