// Pending logins next to the accounts they end up in. All of them are
// directories of one root, each with a session document and perhaps a mark
// that the login in it has been used up.
module LoginStore {
  import opened Optional
  import opened SessionFile
  import opened NativeLogin

  datatype Dir = Dir(session: Option<Doc>, retired: bool)

  type Root = map<string, Dir>

  const PROBE := ".windows-login-probe"
  const PENDING_PREFIX := ".native-login-"
  const SOURCE := "nativeLoginSource"

  predicate SafeName(name: string) {
    name != "" && '/' !in name && name != "." && name != ".."
  }

  predicate PendingName(name: string) {
    SafeName(name) && (name == PROBE || PENDING_PREFIX <= name)
  }

  function SessionIn(root: Root, name: string): Option<Doc> {
    if name in root then root[name].session else None
  }

  predicate IsRetired(root: Root, name: string) {
    name in root && root[name].retired
  }

  // A session document written into an existing directory.
  function Recorded(root: Root, name: string, doc: Doc, outcome: Outcome): Root {
    if outcome == NotWritten || name !in root then root else root[name := root[name].(session := Some(doc))]
  }

  // retire: takes the login's lock first, so it fails while a login runs there.
  function Retire(root: Root, name: string, locked: bool, outcome: Outcome): Root {
    if locked || outcome == NotWritten || name !in root then root else root[name := root[name].(retired := true)]
  }

  predicate Retires(root: Root, name: string, locked: bool, outcome: Outcome) {
    !locked && outcome == Outcome.Written && name in root
  }

  // ---- Which pending login an attempt may take over ----

  function Identity(d: Doc): Option<Value> {
    if "clientIdentity" in d && d["clientIdentity"].Tree? then Some(d["clientIdentity"]) else None
  }

  predicate SameText(a: Option<string>, b: Option<string>) {
    a.Some? && a == b
  }

  predicate Matches(root: Root, staged: Doc, prior: Doc, name: string) {
    var expected := Str(staged, "reauthMid");
    && Identity(staged).Some? && Identity(prior) == Identity(staged)
    && expected == Str(prior, "reauthMid")
    && (expected.Some? ==> SameText(Str(staged, "reauthLoginId"), Str(prior, "reauthLoginId")))
    && (Str(prior, "mid").Some? ==> FreeOf(root, staged, prior, name, Str(prior, "mid").value))
    && (Str(prior, "accessToken").Some? || IsTrue(prior, "nativeTokenRequestStarted"))
  }

  // The account the prior login belongs to does not already hold it.
  predicate FreeOf(root: Root, staged: Doc, prior: Doc, name: string, mid: string) {
    var active, expected := SessionIn(root, mid), Str(staged, "reauthMid");
    && SafeName(mid)
    && (active.Some? ==>
          && expected.Some?
          && Str(active.value, SOURCE) != Some(name)
          && !SameText(Str(active.value, "loginId"), Str(prior, "loginId"))
          && (expected == Some(mid) ==> SameText(Str(active.value, "loginId"), Str(prior, "reauthLoginId"))))
  }

  predicate Eligible(root: Root, staged: Doc, name: string) {
    PendingName(name) && !IsRetired(root, name) && SessionIn(root, name).Some? && Matches(root, staged, SessionIn(root, name).value, name)
  }

  // The directory scan, in whatever order the directory lists.
  function Scan(root: Root, staged: Doc, listing: seq<string>): Option<string> {
    if listing == [] then None
    else if Eligible(root, staged, listing[0]) then Some(listing[0])
    else Scan(root, staged, listing[1..])
  }

  // The directory this attempt already named, unless it has been retired.
  function Named(root: Root, staged: Doc): Option<string> {
    var source := Str(staged, SOURCE);
    if source.Some? && PendingName(source.value) && !IsRetired(root, source.value) then source else None
  }

  function Chosen(root: Root, staged: Doc, listing: seq<string>): Option<string> {
    if Named(root, staged).Some? then Named(root, staged)
    else if IsTrue(staged, "nativeLoginFresh") then None
    else Scan(root, staged, listing)
  }

  // ---- The operations ----

  datatype Step =
    | Prepare(staging: string, document: Doc)
    | Select(staging: string, listing: seq<string>, made: string, created: bool, outcome: Outcome)
    | Stage(staging: string, pending: string, newId: string, identifying: Outcome, outcome: Outcome)
    | Restart(staging: string, locked: bool, retiring: Outcome, outcome: Outcome, newId: string, identifying: Outcome)
    | Install(staging: string, account: string, outcome: Outcome, locked: bool, retiring: Outcome)
    | LoginRun(name: string, document: Doc)
    | AccountWork(account: string, document: Doc)
    | Removal(account: string)

  // What a selection returns.
  function Selected(root: Root, step: Step): Option<string>
    requires step.Select?
  {
    match SessionIn(root, step.staging)
    case None => None
    case Some(staged) =>
      var chosen := Chosen(root, staged, step.listing);
      if (chosen.None? && !step.created) || step.outcome != Outcome.Written then None
      else if chosen.Some? then chosen
      else Some(step.made)
  }

  function AfterSelect(root: Root, step: Step): Root
    requires step.Select?
  {
    match SessionIn(root, step.staging)
    case None => root
    case Some(staged) =>
      var chosen := Chosen(root, staged, step.listing);
      if chosen.None? && !step.created then root
      else
        var r := if chosen.Some? then root else root[step.made := Dir(Some(staged), false)];
        var name := if chosen.Some? then chosen.value else step.made;
        Recorded(r, step.staging, staged[SOURCE := Text(name)], step.outcome)
  }

  // The pending session with a login id, as far as it could be given one.
  function WithId(root: Root, step: Step): Root
    requires step.Stage?
  {
    match SessionIn(root, step.pending)
    case None => root
    case Some(d) => if "loginId" in d then root else Recorded(root, step.pending, d["loginId" := Text(step.newId)], step.identifying)
  }

  predicate HasId(root: Root, step: Step)
    requires step.Stage?
  {
    match SessionIn(root, step.pending)
    case None => false
    case Some(d) => if "loginId" in d then Str(d, "loginId").Some? && d["loginId"] != Text("") else step.identifying == Outcome.Written
  }

  predicate Stages(root: Root, step: Step)
    requires step.Stage?
  {
    var ready := SessionIn(WithId(root, step), step.pending);
    HasId(root, step) && !IsRetired(root, step.pending) && ready.Some? && Str(ready.value, "accessToken").Some? && Str(ready.value, "mid").Some?
  }

  function AfterStage(root: Root, step: Step): Root
    requires step.Stage?
  {
    var r := WithId(root, step);
    if Stages(root, step) then Recorded(r, step.staging, SessionIn(r, step.pending).value[SOURCE := Text(step.pending)], step.outcome) else r
  }

  const CARRIED := {"clientIdentity", "reauthMid", "reauthLoginId", "certificate"}

  // What a restart keeps of the attempt, before it gets a new login id.
  function Restarted(staged: Doc): Doc {
    (map k | k in staged && k in CARRIED :: staged[k])["nativeLoginFresh" := Flag(true)]
  }

  function AfterRestart(root: Root, step: Step): Root
    requires step.Restart?
  {
    match SessionIn(root, step.staging)
    case None => root
    case Some(staged) =>
      var source := Str(staged, SOURCE);
      if source.None? || !PendingName(source.value) then root
      else
        var r := Retire(root, source.value, step.locked, step.retiring);
        if Retires(root, source.value, step.locked, step.retiring) then
          var begun := Recorded(r, step.staging, Restarted(staged), step.outcome);
          if step.outcome == Outcome.Written then
            Recorded(begun, step.staging, Restarted(staged)["loginId" := Text(step.newId)], step.identifying)
          else begun
        else r
  }

  predicate Restarts(root: Root, step: Step)
    requires step.Restart?
  {
    var staged := SessionIn(root, step.staging);
    && staged.Some? && Str(staged.value, SOURCE).Some? && PendingName(Str(staged.value, SOURCE).value)
    && Retires(root, Str(staged.value, SOURCE).value, step.locked, step.retiring)
  }

  predicate Installs(root: Root, step: Step)
    requires step.Install?
  {
    var staged := SessionIn(root, step.staging);
    staged.Some? && SafeName(step.account) && Str(staged.value, "mid") == Some(step.account) && Str(staged.value, "accessToken").Some?
  }

  function AfterInstall(root: Root, step: Step): Root
    requires step.Install?
  {
    if !Installs(root, step) then root
    else
      var staged := SessionIn(root, step.staging).value;
      var made := if step.account in root then root else root[step.account := Dir(None, false)];
      var r := Recorded(made, step.account, staged, step.outcome);
      var source := Str(staged, SOURCE);
      if step.outcome == Outcome.Written && source.Some? && PendingName(source.value) then Retire(r, source.value, step.locked, step.retiring) else r
  }

  function Stepped(root: Root, step: Step): Root {
    match step
    case Prepare(staging, document) => if SessionIn(root, staging).Some? then root else root[staging := Dir(Some(document), IsRetired(root, staging))]
    case Select(_, _, _, _, _) => AfterSelect(root, step)
    case Stage(_, _, _, _, _) => AfterStage(root, step)
    case Restart(_, _, _, _, _, _) => AfterRestart(root, step)
    case Install(_, _, _, _, _) => AfterInstall(root, step)
    case LoginRun(name, document) => if Runs(root, name) then root[name := root[name].(session := Some(document))] else root
    case AccountWork(account, document) => if SessionIn(root, account).Some? then root[account := root[account].(session := Some(document))] else root
    case Removal(account) => root - {account}
  }

  // A login runs in a directory that is not retired, and changes nothing once it
  // has its token.
  predicate Runs(root: Root, name: string) {
    name in root && !root[name].retired && (root[name].session.Some? ==> Str(root[name].session.value, "accessToken").None?)
  }

  // Staging and account directories do not bear pending names, a made directory
  // is a new one with such a name, and account work keeps what identifies the login.
  predicate Proper(root: Root, step: Step) {
    match step
    case Prepare(staging, _) => !PendingName(staging)
    case Select(staging, _, made, _, _) => !PendingName(staging) && PendingName(made) && made !in root
    case Stage(staging, pending, _, _, _) => !PendingName(staging) && PendingName(pending)
    case Restart(staging, _, _, _, _, _) => !PendingName(staging)
    case Install(_, account, _, _, _) => !PendingName(account)
    case LoginRun(name, _) => PendingName(name)
    case AccountWork(account, document) =>
      !PendingName(account) &&
      (SessionIn(root, account).Some? ==>
         Str(document, SOURCE) == Str(SessionIn(root, account).value, SOURCE) &&
         Str(document, "loginId") == Str(SessionIn(root, account).value, "loginId"))
    case Removal(account) => !PendingName(account)
  }
}
