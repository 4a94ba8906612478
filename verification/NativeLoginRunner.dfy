// The login procedure, changing its document in place and flushing it before
// every next step.
module NativeLoginRunner {
  import opened Optional
  import opened Text
  import opened SessionFile
  import opened NativeLogin

  class Login {
    var file: File
    var sent: seq<string>
    var s: Doc
    var tick: nat

    constructor (file: File, sent: seq<string>)
      ensures this.file == file && this.sent == sent
    {
      this.file, this.sent, s, tick := file, sent, map[], 0;
    }

    function View(finish: Finish): Process
      reads this
    {
      Process(file, s, sent, tick, finish)
    }

    function Now(going: bool): Process
      reads this
    {
      View(if going then Going else Stopped)
    }

    method Save(w: World) returns (ok: bool)
      modifies this
      ensures Now(ok) == Flush(w, old(View(Going)))
    {
      var outcome := w.outcome(tick);
      if outcome != NotWritten {
        file := Holds(s);
      }
      ok := outcome == Written && w.alive(tick);
      tick := tick + 1;
    }

    method CallServer(w: World, name: string, polling: bool) returns (going: bool, result: Option<Value>, error: int, retry: bool)
      modifies this
      ensures Called(Now(going), result, error, retry) == Call(w, old(View(Going)), name, polling)
    {
      hide Interpreted, Encodable;
      going, result, error, retry := false, None, -1, false;
      if !w.alive(tick) || !Encodable(s, name, polling) {
        return;
      }
      var reply := w.reply(tick);
      sent, tick := sent + [name], tick + 1;
      s := WithRaw(w, s, name, reply);
      going := Save(w);
      if !going {
        return;
      }
      if !reply.ok {
        retry := reply.timedOut;
        return;
      }
      var decoded := w.decode(name, reply.body);
      if decoded.None? {
        going := false;
        return;
      }
      s := s["lastNativeResponse" := Tree(decoded.value.members)];
      going := Save(w);
      if !going {
        return;
      }
      InterpretedParts(View(Going), decoded.value, name, polling);
      var c := Interpreted(View(Going), decoded.value, name, polling);
      result, error := c.result, c.error;
    }

    method Poll(w: World, name: string, count: nat) returns (going: bool)
      modifies this
      ensures Now(going) == PollUntil(w, old(View(Going)), name, count)
    {
      hide Call;
      var i := 0;
      while i < count
        invariant 0 <= i <= count
        invariant PollUntil(w, old(View(Going)), name, count) == PollUntil(w, View(Going), name, count - i)
      {
        var result, error, retry;
        going, result, error, retry := CallServer(w, name, true);
        if result.Some? {
          return;
        }
        if !going || !retry {
          going := false;
          return;
        }
        i := i + 1;
      }
      going := false;
    }

    method Identify(w: World) returns (going: bool)
      modifies this
      ensures Now(going) == Identified(w, old(View(Going)))
    {
      if "clientIdentity" !in s && w.identity.None? {
        return false;
      }
      s := s["nativeTransport" := Text("compact-thrift")];
      if "clientIdentity" !in s {
        s := s["clientIdentity" := w.identity.value];
      }
      going := Save(w);
      if !going {
        return;
      }
      if "loginId" in s {
        going := Str(s, "loginId").Some? && s["loginId"] != Text("");
      } else {
        s := s["loginId" := Text(w.newId(tick))];
        going := Save(w);
      }
    }

    method PrepareKey(w: World) returns (going: bool)
      modifies this
      ensures Now(going) == Keyed(w, old(View(Going)))
    {
      if Str(s, "e2eePublicKey").Some? {
        return true;
      }
      var key := w.keygen(tick);
      if key.None? {
        return false;
      }
      s := s["e2eePublicKey" := Text(key.value.publicKey)]["e2eeKeyId" := Number(key.value.keyId)];
      s := s["workerRestoreState" := key.value.restoreState];
      going := Save(w);
    }

    method OpenSession(w: World) returns (going: bool)
      modifies this
      ensures Now(going) == SessionOpened(w, old(View(Going)))
    {
      hide Call, Members;
      if Str(s, "authSessionId").Some? {
        return true;
      }
      var result, error, retry;
      going, result, error, retry := CallServer(w, "createSession", false);
      if Str(Members(result), "1").None? {
        return false;
      }
      s := Copied(s, "authSessionId", Members(result), "1");
      going := Save(w);
    }

    method MakeQr(w: World) returns (going: bool)
      modifies this
      ensures Now(going) == QrMade(w, old(View(Going)))
    {
      hide Call, Members;
      if Str(s, "callbackUrl").Some? {
        return true;
      }
      var result, error, retry;
      going, result, error, retry := CallServer(w, "createQrCodeForSecure", false);
      var r := Members(result);
      if Str(r, "1").None? || Str(r, "4").None? {
        return false;
      }
      s := Copied(s, "callbackUrl", r, "1");
      s := Copied(s, "nativeQrNonce", r, "4");
      s := Copied(s, "longPollingMaxCount", r, "2");
      s := Copied(s, "longPollingIntervalSec", r, "3");
      s := s["createdAt" := Number(w.clock(tick))];
      going := Save(w);
    }

    method WaitForScan(w: World) returns (going: bool)
      modifies this
      ensures Now(going) == Scanned(w, old(View(Going)))
    {
      hide PollUntil;
      if !UsableQr(s) {
        return false;
      }
      if IsTrue(s, "nativeScanVerified") {
        return true;
      }
      going := Poll(w, "checkQrCodeVerified", NumberAt(s, "longPollingMaxCount", 12));
      if going {
        s := s["nativeScanVerified" := Flag(true)];
        going := Save(w);
      }
    }

    method AskPin(w: World, count: nat) returns (going: bool)
      modifies this
      ensures Now(going) == PinAsked(w, old(View(Going)), count)
    {
      hide Call, PollUntil;
      var result, error, retry;
      going, result, error, retry := CallServer(w, "createPinCode", false);
      if Str(Members(result), "1").None? {
        return false;
      }
      CallGoesOn(w, old(View(Going)), "createPinCode", false);
      going := Poll(w, "checkPinCodeVerified", count);
    }

    method VerifyPin(w: World) returns (going: bool)
      modifies this
      ensures Now(going) == PinVerified(w, old(View(Going)))
    {
      hide Call, PinAsked;
      if IsTrue(s, "nativePinVerified") {
        return true;
      }
      var count := NumberAt(s, "longPollingMaxCount", 12);
      var certificate := w.certificate(tick);
      if certificate.None? {
        return false;
      }
      if certificate.value.Some? {
        s := s["certificate" := Text(certificate.value.value)];
      }
      var result, error, retry;
      going, result, error, retry := CallServer(w, "verifyCertificate", false);
      if result.None? {
        if !going || error != 2 || count < 0 {
          return false;
        }
        going := AskPin(w, count);
      }
      if going {
        s := s["nativePinVerified" := Flag(true)];
        going := Save(w);
      }
    }

    // save_login_result
    method SaveResult(w: World, result: Value) returns (going: bool)
      modifies this
      ensures Now(going) == Flush(w, old(View(Going)).(s := WithResult(old(s), result)))
    {
      var r := Members(Some(result));
      var tokens, meta := Members(At(r, "3")), Members(At(r, "10"));
      var start := s;
      ghost var fields := map["nativeLoginResult" := result];
      s := s["nativeLoginResult" := result];
      fields := Copy(start, fields, "accessToken", tokens, "1");
      fields := Copy(start, fields, "refreshToken", tokens, "2");
      fields := Copy(start, fields, "durationUntilRefreshInSec", tokens, "3");
      fields := Copy(start, fields, "tokenIssueTimeEpochSec", tokens, "6");
      fields := Copy(start, fields, "certificate", r, "1");
      fields := Copy(start, fields, "mid", r, "4");
      fields := Copy(start, fields, "e2eeLoginMetaData", r, "10");
      fields := Copy(start, fields, "e2eeLoginPublicKey", meta, "publicKey");
      fields := Copy(start, fields, "e2eeVersion", meta, "e2eeVersion");
      fields := Copy(start, fields, "e2eeHashKeyChain", meta, "hashKeyChain");
      hide Copied, Members, At;
      assert fields == ResultFields(result);
      going := Save(w);
    }

    // copy_field, and what it adds to the fields copied so far.
    method Copy(start: Doc, ghost fields: Doc, name: string, source: Doc, k: string) returns (ghost more: Doc)
      requires s == start + fields
      modifies this`s
      ensures more == Copied(fields, name, source, k) && s == start + more
    {
      more := Copied(fields, name, source, k);
      if k in source {
        s := s[name := source[k]];
      }
    }

    method RequestToken(w: World) returns (ok: bool)
      modifies this
      ensures View(if ok then Succeeded else Stopped) == TokenRequested(w, old(View(Going)))
    {
      hide Call, Members, At, WithResult;
      s := s["nativeTokenRequestStarted" := Flag(true)];
      var going := Save(w);
      if !going {
        return false;
      }
      var result, error, retry;
      going, result, error, retry := CallServer(w, TOKEN_METHOD, false);
      if result.None? {
        return false;
      }
      going := SaveResult(w, result.value);
      if !going || Str(s, "accessToken").None? {
        return false;
      }
      var meta := Members(At(Members(result), "10"));
      var unwrapped := w.unwrap(tick, meta);
      ok := true;
      if unwrapped.Some? {
        s := s["e2eeKeys" := unwrapped.value.keys]["workerRestoreState" := unwrapped.value.restoreState];
        s := Copied(s, "e2eeLatestKeyId", meta, "keyId");
        ok := Save(w);
      }
    }

    // recover_login_reply
    method RecoverReply(w: World) returns (ok: bool)
      modifies this
      ensures View(if ok then Succeeded else Stopped) == Recovered(w, old(View(Going)))
    {
      hide KeptResult, WithResult;
      var result := KeptResult(w, s);
      ok := false;
      if result.Some? {
        ok := SaveResult(w, result.value);
      }
    }

    // enil_native_login_run
    method Run(w: World) returns (ok: bool)
      modifies this
      ensures View(if ok then Succeeded else Stopped) == RunLogin(w, old(file), old(sent))
    {
      hide Identified, Keyed, SessionOpened, QrMade, Scanned, PinVerified, TokenRequested, Recovered;
      s, tick := if file.Holds? then file.doc else map[], 0;
      if w.retired || file.Unreadable? {
        return false;
      }
      if Str(s, "accessToken").Some? {
        return true;
      }
      if IsTrue(s, "nativeTokenRequestStarted") {
        ok := RecoverReply(w);
        return;
      }
      StoppedStaysStopped(w);
      ok := Identify(w);
      if ok { ok := PrepareKey(w); }
      if ok { ok := OpenSession(w); }
      if ok { ok := MakeQr(w); }
      if ok { ok := WaitForScan(w); }
      if ok { ok := VerifyPin(w); }
      if ok { ok := RequestToken(w); }
    }
  }

  lemma InterpretedParts(p: Process, d: Decoded, name: string, polling: bool)
    ensures Interpreted(p, d, name, polling).p == p && !Interpreted(p, d, name, polling).retry
  {
  }

  // A call that yields a result has not stopped the run.
  lemma CallGoesOn(w: World, p: Process, name: string, polling: bool)
    ensures var c := Call(w, p, name, polling);
      c.result.Some? ==> c.p.finish.Going?
  {
    hide Encodable, WithRaw;
    forall q, d { InterpretedParts(q, d, name, polling); }
    hide Interpreted;
  }

  lemma StoppedStaysStopped(w: World)
    ensures forall p: Process | p.finish.Stopped? ::
      Keyed(w, p) == p && SessionOpened(w, p) == p && QrMade(w, p) == p && Scanned(w, p) == p && PinVerified(w, p) == p && TokenRequested(w, p) == p
  {
  }
}
