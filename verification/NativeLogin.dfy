// The resumable native login: a session document that is flushed before every
// next step, so that a later run of the same directory can take over.
module NativeLogin {
  import opened Optional
  import opened Text
  import opened SessionFile

  type Doc = map<string, Value>

  const TOKEN_METHOD := "qrCodeLoginV2ForSecure"

  // session.json in the login's directory.
  datatype File = Missing | Unreadable | Holds(doc: Doc)

  datatype Reply = Reply(ok: bool, timedOut: bool, status: int, body: Bytes)
  datatype Decoded = Decoded(members: Doc, exception: bool)
  datatype Keys = Keys(publicKey: string, keyId: int, restoreState: Value)
  datatype Unwrapped = Unwrapped(keys: Value, restoreState: Value)

  // Everything outside the procedure: how the n-th action ends, whether the
  // process is still there after it, and what the services it asks answer.
  datatype World = World(
    retired: bool,
    alive: nat -> bool,
    outcome: nat -> Outcome,
    reply: nat -> Reply,
    decode: (string, Bytes) -> Option<Decoded>,
    encode64: Bytes -> string,
    decode64: string -> Option<Bytes>,
    identity: Option<Value>,
    newId: nat -> string,
    keygen: nat -> Option<Keys>,
    certificate: nat -> Option<Option<string>>,
    clock: nat -> int,
    unwrap: (nat, Doc) -> Option<Unwrapped>)

  datatype Finish = Going | Stopped | Succeeded

  // file and sent are durable facts; s is the process's own copy of the document.
  datatype Process = Process(file: File, s: Doc, sent: seq<string>, tick: nat, finish: Finish)

  function Str(o: Doc, k: string): Option<string> {
    if k in o && o[k].Text? then Some(o[k].s) else None
  }

  predicate IsTrue(o: Doc, k: string) {
    k in o && o[k] == Flag(true)
  }

  function Members(v: Option<Value>): Doc {
    if v.Some? && v.value.Tree? then v.value.members else map[]
  }

  function At(o: Doc, k: string): Option<Value> {
    if k in o then Some(o[k]) else None
  }

  // copy_field: an absent member leaves the field as it is.
  function Copied(dest: Doc, name: string, source: Doc, k: string): Doc {
    if k in source then dest[name := source[k]] else dest
  }

  function Stop(p: Process): Process {
    p.(finish := Stopped)
  }

  // save: later steps happen only once the document is flushed.
  function Flush(w: World, p: Process): Process {
    p.(file := if w.outcome(p.tick) == NotWritten then p.file else Holds(p.s),
       tick := p.tick + 1,
       finish := if w.outcome(p.tick) == Written && w.alive(p.tick) then Going else Stopped)
  }

  // A request can be built; a poll also carries the session id in a header.
  predicate Encodable(s: Doc, name: string, polling: bool) {
    && ((name == "createSession" && !polling) || Str(s, "authSessionId").Some?)
    && (name == TOKEN_METHOD ==> Str(s, "nativeQrNonce").Some?)
    && "clientIdentity" in s
    && (polling ==> |s["authSessionId"].s| <= 450 && '\r' !in s["authSessionId"].s && '\n' !in s["authSessionId"].s)
  }

  datatype Called = Called(p: Process, result: Option<Value>, error: int, retry: bool)

  // call: the raw reply is flushed before it is decoded.
  function Call(w: World, p: Process, name: string, polling: bool): Called {
    if !w.alive(p.tick) || !Encodable(p.s, name, polling) then Called(Stop(p), None, -1, false)
    else
      var r := w.reply(p.tick);
      var sent := p.(sent := p.sent + [name], tick := p.tick + 1, s := WithRaw(w, p.s, name, r));
      var q := Flush(w, sent);
      if !q.finish.Going? then Called(q, None, -1, false)
      else if !r.ok then Called(q, None, -1, r.timedOut)
      else
        match w.decode(name, r.body)
        case None => Called(Stop(q), None, -1, false)
        case Some(d) =>
          var t := Flush(w, q.(s := q.s["lastNativeResponse" := Tree(d.members)]));
          if !t.finish.Going? then Called(t, None, -1, false)
          else Interpreted(t, d, name, polling)
  }

  function WithRaw(w: World, s: Doc, name: string, r: Reply): Doc {
    s["lastNativeMethod" := Text(name)]["lastNativeHttpStatus" := Number(r.status)]["lastNativeResponseBase64" := Text(w.encode64(r.body))]
  }

  function Interpreted(p: Process, d: Decoded, name: string, polling: bool): Called {
    if d.exception then Called(p, None, -1, false)
    else if "1" in d.members then
      var code := Members(Some(d.members["1"]));
      Called(p, None, if "1" in code && code["1"].Number? then code["1"].n else -1, false)
    else if "0" in d.members then Called(p, Some(d.members["0"]), -1, false)
    else Called(p, if polling || name == "verifyCertificate" then Some(Tree(map[])) else None, -1, false)
  }

  // poll: going on means the server confirmed.
  function PollUntil(w: World, p: Process, name: string, count: nat): Process
    decreases count
  {
    if count == 0 then Stop(p)
    else
      var c := Call(w, p, name, true);
      if c.result.Some? then c.p
      else if !c.p.finish.Going? || !c.retry then Stop(c.p)
      else PollUntil(w, c.p, name, count - 1)
  }

  // ---- The steps, each doing nothing once the run is over ----

  function Identified(w: World, p: Process): Process {
    if !p.finish.Going? then p
    else if "clientIdentity" !in p.s && w.identity.None? then Stop(p)
    else
      var s := p.s["nativeTransport" := Text("compact-thrift")];
      var q := Flush(w, p.(s := if "clientIdentity" in s then s else s["clientIdentity" := w.identity.value]));
      if !q.finish.Going? then q
      else if "loginId" in q.s then (if Str(q.s, "loginId").Some? && q.s["loginId"] != Text("") then q else Stop(q))
      else Flush(w, q.(s := q.s["loginId" := Text(w.newId(q.tick))]))
  }

  function Keyed(w: World, p: Process): Process {
    if !p.finish.Going? || Str(p.s, "e2eePublicKey").Some? then p
    else
      match w.keygen(p.tick)
      case None => Stop(p)
      case Some(k) =>
        Flush(w, p.(s := p.s["e2eePublicKey" := Text(k.publicKey)]["e2eeKeyId" := Number(k.keyId)]["workerRestoreState" := k.restoreState]))
  }

  function SessionOpened(w: World, p: Process): Process {
    if !p.finish.Going? || Str(p.s, "authSessionId").Some? then p
    else
      var c := Call(w, p, "createSession", false);
      if Str(Members(c.result), "1").None? then Stop(c.p)
      else Flush(w, c.p.(s := Copied(c.p.s, "authSessionId", Members(c.result), "1")))
  }

  function QrMade(w: World, p: Process): Process {
    if !p.finish.Going? || Str(p.s, "callbackUrl").Some? then p
    else
      var c := Call(w, p, "createQrCodeForSecure", false);
      var r := Members(c.result);
      if Str(r, "1").None? || Str(r, "4").None? then Stop(c.p)
      else
        var s := Copied(Copied(c.p.s, "callbackUrl", r, "1"), "nativeQrNonce", r, "4");
        var t := Copied(Copied(s, "longPollingMaxCount", r, "2"), "longPollingIntervalSec", r, "3");
        Flush(w, c.p.(s := t["createdAt" := Number(w.clock(c.p.tick))]))
  }

  function NumberAt(s: Doc, k: string, absent: int): int {
    if k in s && s[k].Number? then s[k].n else absent
  }

  predicate UsableQr(s: Doc) {
    var count, interval := NumberAt(s, "longPollingMaxCount", 12), NumberAt(s, "longPollingIntervalSec", 30);
    && 1 <= count <= 120 && 1 <= interval <= 180 && count * interval <= 1800
    && Str(s, "callbackUrl").Some? && Str(s, "e2eePublicKey").Some? && Str(s, "nativeQrNonce").Some?
  }

  function Scanned(w: World, p: Process): Process {
    if !p.finish.Going? then p
    else if !UsableQr(p.s) then Stop(p)
    else if IsTrue(p.s, "nativeScanVerified") then p
    else
      var q := PollUntil(w, p, "checkQrCodeVerified", NumberAt(p.s, "longPollingMaxCount", 12));
      if !q.finish.Going? then q else Flush(w, q.(s := q.s["nativeScanVerified" := Flag(true)]))
  }

  function PinAsked(w: World, p: Process, count: nat): Process {
    var c := Call(w, p, "createPinCode", false);
    if Str(Members(c.result), "1").None? then Stop(c.p) else PollUntil(w, c.p, "checkPinCodeVerified", count)
  }

  function PinVerified(w: World, p: Process): Process {
    if !p.finish.Going? || IsTrue(p.s, "nativePinVerified") then p
    else
      match w.certificate(p.tick)
      case None => Stop(p)
      case Some(certificate) =>
        var c := Call(w, p.(s := if certificate.Some? then p.s["certificate" := Text(certificate.value)] else p.s), "verifyCertificate", false);
        var count := NumberAt(p.s, "longPollingMaxCount", 12);
        var q := if c.result.Some? then c.p
                 else if !c.p.finish.Going? || c.error != 2 || count < 0 then Stop(c.p)
                 else PinAsked(w, c.p, count);
        if !q.finish.Going? then q else Flush(w, q.(s := q.s["nativePinVerified" := Flag(true)]))
  }

  const CREDENTIALS := {
    "nativeLoginResult", "accessToken", "refreshToken", "durationUntilRefreshInSec", "tokenIssueTimeEpochSec", "certificate", "mid",
    "e2eeLoginMetaData", "e2eeLoginPublicKey", "e2eeVersion", "e2eeHashKeyChain"}

  // The credential fields of a login result.
  function ResultFields(result: Value): Doc {
    var r := Members(Some(result));
    var tokens, meta := Members(At(r, "3")), Members(At(r, "10"));
    var s2 := Copied(Copied(map["nativeLoginResult" := result], "accessToken", tokens, "1"), "refreshToken", tokens, "2");
    var s3 := Copied(Copied(s2, "durationUntilRefreshInSec", tokens, "3"), "tokenIssueTimeEpochSec", tokens, "6");
    var s4 := Copied(Copied(s3, "certificate", r, "1"), "mid", r, "4");
    var s5 := Copied(Copied(s4, "e2eeLoginMetaData", r, "10"), "e2eeLoginPublicKey", meta, "publicKey");
    Copied(Copied(s5, "e2eeVersion", meta, "e2eeVersion"), "e2eeHashKeyChain", meta, "hashKeyChain")
  }

  // save_login_result: fields the result lacks stay as they are.
  function WithResult(s: Doc, result: Value): Doc {
    s + ResultFields(result)
  }

  // The point of no return: durably marked before the one token request.
  function TokenRequested(w: World, p: Process): Process {
    if !p.finish.Going? then p
    else
      var q := Flush(w, p.(s := p.s["nativeTokenRequestStarted" := Flag(true)]));
      if !q.finish.Going? then q
      else
        var c := Call(w, q, TOKEN_METHOD, false);
        if c.result.None? then Stop(c.p)
        else
          var t := Flush(w, c.p.(s := WithResult(c.p.s, c.result.value)));
          if !t.finish.Going? then t
          else if Str(t.s, "accessToken").None? then Stop(t)
          else Opened(w, t, Members(At(Members(c.result), "10")))
  }

  // The optional unwrapping of the login's message keys.
  function Opened(w: World, p: Process, meta: Doc): Process {
    match w.unwrap(p.tick, meta)
    case None => p.(finish := Succeeded)
    case Some(u) =>
      var s := Copied(p.s["e2eeKeys" := u.keys]["workerRestoreState" := u.restoreState], "e2eeLatestKeyId", meta, "keyId");
      var q := Flush(w, p.(s := s));
      if q.finish.Going? then q.(finish := Succeeded) else q
  }

  // recover_login_reply: the result inside the reply kept in the document.
  function KeptResult(w: World, s: Doc): Option<Value> {
    if Str(s, "lastNativeMethod") != Some(TOKEN_METHOD) || Str(s, "lastNativeResponseBase64").None? then None
    else
      match w.decode64(s["lastNativeResponseBase64"].s)
      case None => None
      case Some(bytes) =>
        var d := w.decode(TOKEN_METHOD, bytes);
        if bytes == [] || d.None? || d.value.exception || Str(Members(At(Members(At(d.value.members, "0")), "3")), "1").None? then None
        else At(d.value.members, "0")
  }

  function Recovered(w: World, p: Process): Process {
    match KeptResult(w, p.s)
    case None => Stop(p)
    case Some(result) =>
      var q := Flush(w, p.(s := WithResult(p.s, result)));
      if q.finish.Going? then q.(finish := Succeeded) else q
  }

  // The steps of a login that has not yet asked for its token.
  function Prepared(w: World, p: Process): Process {
    PinVerified(w, Scanned(w, QrMade(w, SessionOpened(w, Keyed(w, Identified(w, p))))))
  }

  // enil_native_login_run, over what earlier runs left.
  function RunLogin(w: World, file: File, sent: seq<string>): Process {
    var p := Process(file, if file.Holds? then file.doc else map[], sent, 0, Going);
    if w.retired || file.Unreadable? then Stop(p)
    else if Str(p.s, "accessToken").Some? then p.(finish := Succeeded)
    else if IsTrue(p.s, "nativeTokenRequestStarted") then Recovered(w, p)
    else TokenRequested(w, Prepared(w, p))
  }
}
