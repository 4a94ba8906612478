// What holds over any number of runs of the native login on one directory.
module NativeLoginSafety {
  import opened Optional
  import opened Text
  import opened SessionFile
  import opened NativeLogin

  const STARTED := "nativeTokenRequestStarted"

  function TokenRequests(sent: seq<string>): nat {
    if sent == [] then 0
    else TokenRequests(sent[..|sent| - 1]) + (if sent[|sent| - 1] == TOKEN_METHOD then 1 else 0)
  }

  lemma SentMore(sent: seq<string>, name: string)
    ensures TokenRequests(sent + [name]) == TokenRequests(sent) + (if name == TOKEN_METHOD then 1 else 0)
  {
    assert (sent + [name])[..|sent|] == sent;
  }

  predicate Started(file: File) {
    file.Holds? && IsTrue(file.doc, STARTED)
  }

  // No token has been asked for, and nothing says so.
  predicate Clean(p: Process) {
    TokenRequests(p.sent) == 0 && !Started(p.file) && !IsTrue(p.s, STARTED)
  }

  lemma CallStaysClean(w: World, p: Process, name: string, polling: bool)
    requires Clean(p) && name != TOKEN_METHOD
    ensures Clean(Call(w, p, name, polling).p)
  {
    SentMore(p.sent, name);
    hide TokenRequests, Interpreted, Encodable;
    forall d, q { InterpretedKeeps(q, d, name, polling); }
  }

  lemma InterpretedKeeps(p: Process, d: Decoded, name: string, polling: bool)
    ensures Interpreted(p, d, name, polling).p == p
  {
  }

  lemma {:induction false} PollStaysClean(w: World, p: Process, name: string, count: nat)
    requires Clean(p) && name != TOKEN_METHOD
    ensures Clean(PollUntil(w, p, name, count))
    decreases count
  {
    hide Call, TokenRequests, IsTrue;
    if count > 0 {
      CallStaysClean(w, p, name, true);
      var c := Call(w, p, name, true);
      if !c.result.Some? && c.p.finish.Going? && c.retry {
        PollStaysClean(w, c.p, name, count - 1);
      }
    }
  }

  lemma FirstStepsStayClean(w: World, p: Process)
    requires Clean(p)
    ensures Clean(Identified(w, p)) && Clean(Keyed(w, p))
  {
    hide TokenRequests;
  }

  lemma SessionStaysClean(w: World, p: Process)
    requires Clean(p)
    ensures Clean(SessionOpened(w, p))
  {
    CallStaysClean(w, p, "createSession", false);
    hide Call, TokenRequests;
  }

  lemma QrStaysClean(w: World, p: Process)
    requires Clean(p)
    ensures Clean(QrMade(w, p))
  {
    CallStaysClean(w, p, "createQrCodeForSecure", false);
    hide Call, TokenRequests, Members;
  }

  lemma ScanStaysClean(w: World, p: Process)
    requires Clean(p)
    ensures Clean(Scanned(w, p))
  {
    hide PollUntil, TokenRequests;
    if p.finish.Going? && UsableQr(p.s) {
      PollStaysClean(w, p, "checkQrCodeVerified", NumberAt(p.s, "longPollingMaxCount", 12));
    }
  }

  lemma PinAskedStaysClean(w: World, p: Process, count: nat)
    requires Clean(p)
    ensures Clean(PinAsked(w, p, count))
  {
    CallStaysClean(w, p, "createPinCode", false);
    var c := Call(w, p, "createPinCode", false);
    PollStaysClean(w, c.p, "checkPinCodeVerified", count);
    hide PollUntil, TokenRequests, Call, IsTrue;
  }

  lemma PinStaysClean(w: World, p: Process)
    requires Clean(p)
    ensures Clean(PinVerified(w, p))
  {
    hide PinAsked, TokenRequests, Call;
    if p.finish.Going? && w.certificate(p.tick).Some? {
      var certificate := w.certificate(p.tick).value;
      var q := p.(s := if certificate.Some? then p.s["certificate" := Text(certificate.value)] else p.s);
      CallStaysClean(w, q, "verifyCertificate", false);
      var count := NumberAt(p.s, "longPollingMaxCount", 12);
      if count >= 0 {
        PinAskedStaysClean(w, Call(w, q, "verifyCertificate", false).p, count);
      }
    }
  }

  lemma PreparedIsClean(w: World, p: Process)
    requires Clean(p)
    ensures Clean(Prepared(w, p))
  {
    hide Identified, Keyed, SessionOpened, QrMade, Scanned, PinVerified, Clean;
    FirstStepsStayClean(w, p);
    var a := Identified(w, p);
    FirstStepsStayClean(w, a);
    var b := Keyed(w, a);
    SessionStaysClean(w, b);
    var c := SessionOpened(w, b);
    QrStaysClean(w, c);
    var d := QrMade(w, c);
    ScanStaysClean(w, d);
    PinStaysClean(w, Scanned(w, d));
  }

  // At most one token request, and once it was sent the file says so.
  predicate Guarded(file: File, sent: seq<string>) {
    TokenRequests(sent) <= 1 && (TokenRequests(sent) == 1 ==> Started(file))
  }

  lemma FieldsAreCredentials(result: Value)
    ensures ResultFields(result).Keys <= CREDENTIALS
  {
    hide Members, At;
  }

  lemma ResultKeepsMark(s: Doc, result: Value)
    ensures IsTrue(WithResult(s, result), STARTED) == IsTrue(s, STARTED)
  {
    FieldsAreCredentials(result);
    hide ResultFields;
  }

  lemma OpenedKeepsMark(w: World, p: Process, meta: Doc)
    requires Started(p.file) && IsTrue(p.s, STARTED)
    ensures Started(Opened(w, p, meta).file) && Opened(w, p, meta).sent == p.sent
  {
  }

  lemma CallKeepsMark(w: World, p: Process, name: string)
    requires Started(p.file) && IsTrue(p.s, STARTED)
    ensures var c := Call(w, p, name, false);
      Started(c.p.file) && IsTrue(c.p.s, STARTED) && (c.p.sent == p.sent || c.p.sent == p.sent + [name])
  {
  }

  lemma TokenPhaseIsGuarded(w: World, p: Process)
    requires Clean(p)
    ensures Guarded(TokenRequested(w, p).file, TokenRequested(w, p).sent)
  {
    hide Call, WithResult, Opened, Members, At, TokenRequests;
    if p.finish.Going? {
      SentMore(p.sent, TOKEN_METHOD);
      var q := Flush(w, p.(s := p.s[STARTED := Flag(true)]));
      if q.finish.Going? {
        CallKeepsMark(w, q, TOKEN_METHOD);
        var c := Call(w, q, TOKEN_METHOD, false);
        if c.result.Some? {
          ResultKeepsMark(c.p.s, c.result.value);
          var t := Flush(w, c.p.(s := WithResult(c.p.s, c.result.value)));
          if t.finish.Going? {
            OpenedKeepsMark(w, t, Members(At(Members(c.result), "10")));
          }
        }
      }
    }
  }

  // Once the mark is on disk, a run sends nothing at all.
  lemma MarkedRunSendsNothing(w: World, file: File, sent: seq<string>)
    requires Started(file)
    ensures RunLogin(w, file, sent).sent == sent && Started(RunLogin(w, file, sent).file)
  {
    hide KeptResult, WithResult, TokenRequested, Prepared;
    var p := Process(file, file.doc, sent, 0, Going);
    if KeptResult(w, p.s).Some? {
      ResultKeepsMark(p.s, KeptResult(w, p.s).value);
    }
  }

  lemma RunIsGuarded(w: World, file: File, sent: seq<string>)
    requires Guarded(file, sent)
    ensures Guarded(RunLogin(w, file, sent).file, RunLogin(w, file, sent).sent)
  {
    if Started(file) {
      MarkedRunSendsNothing(w, file, sent);
    } else {
      var p := Process(file, if file.Holds? then file.doc else map[], sent, 0, Going);
      PreparedIsClean(w, p);
      TokenPhaseIsGuarded(w, Prepared(w, p));
    }
    hide Prepared, TokenRequested, Recovered, TokenRequests;
  }

  // ---- Any number of runs ----

  datatype Directory = Directory(file: File, sent: seq<string>)

  // Each world lets its run go as far as it likes: a crash is a run cut short.
  function Runs(d: Directory, worlds: seq<World>): Directory {
    if worlds == [] then d
    else
      var before := Runs(d, worlds[..|worlds| - 1]);
      var p := RunLogin(worlds[|worlds| - 1], before.file, before.sent);
      Directory(p.file, p.sent)
  }

  // However often the login is run and however its runs end, the request that
  // issues tokens is sent at most once.
  lemma {:induction false} TokenRequestedAtMostOnce(file: File, worlds: seq<World>)
    ensures var d := Runs(Directory(file, []), worlds);
      Guarded(d.file, d.sent)
  {
    hide RunLogin;
    if worlds != [] {
      var before := Runs(Directory(file, []), worlds[..|worlds| - 1]);
      TokenRequestedAtMostOnce(file, worlds[..|worlds| - 1]);
      RunIsGuarded(worlds[|worlds| - 1], before.file, before.sent);
    }
  }

  // ---- Taking over after the token reply reached the disk ----

  predicate SameCredentials(a: Doc, b: Doc) {
    forall k | k in CREDENTIALS :: At(a, k) == At(b, k)
  }

  lemma ResultFixesCredentials(a: Doc, b: Doc, result: Value)
    requires SameCredentials(a, b)
    ensures SameCredentials(WithResult(a, result), WithResult(b, result))
  {
    hide ResultFields;
    forall k | k in CREDENTIALS ensures At(WithResult(a, result), k) == At(WithResult(b, result), k) {
      assert At(a, k) == At(b, k);
    }
  }

  // The token the result carries is the one the document ends up with.
  lemma ResultToken(s: Doc, result: Value)
    requires Str(s, "accessToken").None?
    ensures Str(WithResult(s, result), "accessToken") == Str(Members(At(Members(Some(result)), "3")), "1")
  {
    var tokens := Members(At(Members(Some(result)), "3"));
    assert "accessToken" in ResultFields(result) <==> "1" in tokens;
    assert "1" in tokens ==> ResultFields(result)["accessToken"] == tokens["1"];
    hide Members, ResultFields;
  }

  // The documents a token request writes, one after the other.
  function Marked(p: Process): Doc {
    p.s[STARTED := Flag(true)]
  }

  function Raw(w: World, p: Process): Doc {
    WithRaw(w, Marked(p), TOKEN_METHOD, w.reply(p.tick + 1))
  }

  function Parsed(w: World, p: Process, d: Decoded): Doc {
    Raw(w, p)["lastNativeResponse" := Tree(d.members)]
  }

  function Answer(w: World, p: Process): Option<Decoded> {
    w.decode(TOKEN_METHOD, w.reply(p.tick + 1).body)
  }

  // A token result: no exception, no error member, and an access token inside.
  predicate Successful(d: Decoded) {
    !d.exception && "1" !in d.members && "0" in d.members &&
    Str(Members(At(Members(Some(d.members["0"])), "3")), "1").Some?
  }

  // Where a token request can leave the file.
  ghost predicate Stage(w: World, p: Process, file: File) {
    || file == p.file || file == Holds(Marked(p)) || file == Holds(Raw(w, p))
    || (Answer(w, p).Some? && file == Holds(Parsed(w, p, Answer(w, p).value)))
    || (Answer(w, p).Some? && "0" in Answer(w, p).value.members && file.Holds? &&
        var final := WithResult(Parsed(w, p, Answer(w, p).value), Answer(w, p).value.members["0"]);
        SameCredentials(file.doc, final) && Str(file.doc, "accessToken") == Str(final, "accessToken"))
  }

  lemma CallStages(w: World, p: Process, q: Process)
    requires q.s == Marked(p) && q.tick == p.tick + 1 && q.finish.Going? && q.file == Holds(Marked(p))
    ensures var c := Call(w, q, TOKEN_METHOD, false);
      && (c.result.None? ==> Stage(w, p, c.p.file))
      && (c.result.Some? ==>
            Answer(w, p).Some? && !Answer(w, p).value.exception && "1" !in Answer(w, p).value.members &&
            At(Answer(w, p).value.members, "0") == c.result &&
            c.p.s == Parsed(w, p, Answer(w, p).value) && c.p.file == Holds(c.p.s))
  {
    hide WithResult, SameCredentials, WithRaw, Encodable;
    if q.finish.Going? && Answer(w, p).Some? {
      InterpretedResult(Answer(w, p).value, q);
      InterpretedEverywhere(Answer(w, p).value);
    }
    hide Interpreted;
  }

  lemma InterpretedEverywhere(d: Decoded)
    ensures forall p: Process :: Interpreted(p, d, TOKEN_METHOD, false).p == p
    ensures forall p: Process :: Interpreted(p, d, TOKEN_METHOD, false).result.Some? ==>
      !d.exception && "1" !in d.members && At(d.members, "0") == Interpreted(p, d, TOKEN_METHOD, false).result
  {
  }

  lemma InterpretedResult(d: Decoded, p: Process)
    ensures var c := Interpreted(p, d, TOKEN_METHOD, false);
      c.result.Some? ==> !d.exception && "1" !in d.members && At(d.members, "0") == c.result
  {
  }

  lemma OpenedKeepsCredentials(w: World, p: Process, meta: Doc)
    requires p.file == Holds(p.s)
    ensures var q := Opened(w, p, meta);
      q.file.Holds? && SameCredentials(q.file.doc, p.s) && Str(q.file.doc, "accessToken") == Str(p.s, "accessToken")
  {
    if w.unwrap(p.tick, meta).Some? {
      var u := w.unwrap(p.tick, meta).value;
      OneField(p.s, "e2eeKeys", u.keys);
      var s1 := p.s["e2eeKeys" := u.keys];
      OneField(s1, "workerRestoreState", u.restoreState);
      var s2 := s1["workerRestoreState" := u.restoreState];
      if "keyId" in meta {
        OneField(s2, "e2eeLatestKeyId", meta["keyId"]);
      }
    }
    hide CREDENTIALS, At, Str;
  }

  // Whatever cuts it short, a token request leaves the file at one of its stages;
  // if it succeeds, at the last one.
  lemma TokenRequestStages(w: World, p: Process)
    requires p.finish.Going?
    ensures Stage(w, p, TokenRequested(w, p).file)
    ensures TokenRequested(w, p).finish.Succeeded? && Str(p.s, "accessToken").None? ==>
      Answer(w, p).Some? && Successful(Answer(w, p).value) && TokenRequested(w, p).file.Holds? &&
      SameCredentials(TokenRequested(w, p).file.doc, WithResult(Parsed(w, p, Answer(w, p).value), Answer(w, p).value.members["0"]))
  {
    var q := Flush(w, p.(s := Marked(p)));
    if q.finish.Going? {
      CallStages(w, p, q);
      var c := Call(w, q, TOKEN_METHOD, false);
      if c.result.Some? {
        var t := Flush(w, c.p.(s := WithResult(c.p.s, c.result.value)));
        if Str(p.s, "accessToken").None? {
          RawKeepsToken(w, p, Answer(w, p).value);
          ResultToken(c.p.s, c.result.value);
        }
        if t.finish.Going? {
          OpenedKeepsCredentials(w, t, Members(At(Members(c.result), "10")));
        }
      }
    }
    hide Call, Opened, WithResult, Parsed, Raw, Marked, Members, Str, SameCredentials;
    SameAsItself();
  }

  lemma SameAsItself()
    ensures forall d :: SameCredentials(d, d)
  {
  }

  lemma RawKeepsToken(w: World, p: Process, d: Decoded)
    ensures Str(Parsed(w, p, d), "accessToken") == Str(p.s, "accessToken") == Str(Raw(w, p), "accessToken")
    ensures SameCredentials(Parsed(w, p, d), p.s) && SameCredentials(Raw(w, p), p.s)
  {
    OnlyRawFields(w, p);
    OneField(Raw(w, p), "lastNativeResponse", Tree(d.members));
    hide Raw;
  }

  lemma OnlyRawFields(w: World, p: Process)
    ensures forall k | k in CREDENTIALS :: At(Raw(w, p), k) == At(p.s, k)
    ensures Str(Raw(w, p), "accessToken") == Str(p.s, "accessToken")
  {
  }

  lemma OneField(doc: Doc, name: string, v: Value)
    requires name !in CREDENTIALS
    ensures forall k | k in CREDENTIALS :: At(doc[name := v], k) == At(doc, k)
    ensures Str(doc[name := v], "accessToken") == Str(doc, "accessToken")
  {
  }

  // ---- The next run ----

  // The next run finds the reply as it was, and can save.
  ghost predicate Resumes(w: World, again: World, body: Bytes) {
    && !again.retired && again.outcome(0) == Written && again.alive(0)
    && again.decode == w.decode && again.decode64(w.encode64(body)) == Some(body)
  }

  ghost predicate Able(w: World, again: World, body: Bytes) {
    Resumes(w, again, body) && body != []
  }

  // A document holding the raw reply is completed from that reply alone.
  lemma KeptReplyCompletes(w: World, again: World, p: Process, doc: Doc, sent: seq<string>)
    requires Able(w, again, w.reply(p.tick + 1).body)
    requires Answer(w, p).Some? && !Answer(w, p).value.exception && "0" in Answer(w, p).value.members
    requires Str(Members(At(Members(Some(Answer(w, p).value.members["0"])), "3")), "1").Some?
    requires doc == Raw(w, p) || doc == Parsed(w, p, Answer(w, p).value)
    requires Str(p.s, "accessToken").None?
    ensures var r := RunLogin(again, Holds(doc), sent);
      r.finish.Succeeded? && r.sent == sent && r.file == Holds(WithResult(doc, Answer(w, p).value.members["0"]))
  {
    RawKeepsToken(w, p, Answer(w, p).value);
    KeptFields(w, p, Answer(w, p).value);
    assert KeptResult(again, doc) == Some(Answer(w, p).value.members["0"]);
    hide KeptResult, WithResult, Raw, Parsed, Members, TokenRequested, Prepared;
  }

  lemma KeptFields(w: World, p: Process, d: Decoded)
    ensures forall doc | doc == Raw(w, p) || doc == Parsed(w, p, d) ::
      && Str(doc, "lastNativeMethod") == Some(TOKEN_METHOD) && IsTrue(doc, STARTED)
      && Str(doc, "lastNativeResponseBase64") == Some(w.encode64(w.reply(p.tick + 1).body))
    ensures Str(Marked(p), "lastNativeMethod") == Str(p.s, "lastNativeMethod")
  {
  }

  // A run that dies, or fails to save, at any moment after the raw reply reached
  // the disk is completed by the next one: nothing is sent, and the credentials
  // are those the uninterrupted run ends with.
  lemma NextRunTakesOver(full: World, cut: World, again: World, p: Process)
    requires p.finish.Going? && Str(p.s, "accessToken").None?
    requires Str(p.s, "lastNativeMethod") != Some(TOKEN_METHOD)
    requires p.file.Holds? ==> Str(p.file.doc, "lastNativeMethod") != Some(TOKEN_METHOD)
    requires cut.reply == full.reply && cut.decode == full.decode && cut.encode64 == full.encode64
    requires Able(cut, again, cut.reply(p.tick + 1).body)
    requires TokenRequested(full, p).finish.Succeeded?
    requires TokenRequested(cut, p).file.Holds? && Str(TokenRequested(cut, p).file.doc, "lastNativeMethod") == Some(TOKEN_METHOD)
    ensures
      var left := TokenRequested(cut, p);
      var r := RunLogin(again, left.file, left.sent);
      && r.finish.Succeeded? && r.sent == left.sent && r.file.Holds? && TokenRequested(full, p).file.Holds?
      && SameCredentials(r.file.doc, TokenRequested(full, p).file.doc)
  {
    hide TokenRequested, RunLogin, WithResult, Parsed, Raw, Marked, Members, SameCredentials;
    TokenRequestStages(full, p);
    TokenRequestStages(cut, p);
    var d := Answer(cut, p).value;
    var left := TokenRequested(cut, p);
    RawKeepsToken(cut, p, d);
    KeptFields(cut, p, d);
    SameParsed(full, cut, p, d);
    if left.file == Holds(Raw(cut, p)) || left.file == Holds(Parsed(cut, p, d)) {
      KeptReplyCompletes(cut, again, p, left.file.doc, left.sent);
      CredentialsChain(left.file.doc, Parsed(cut, p, d), p.s, d.members["0"]);
    } else {
      ResultToken(Parsed(cut, p, d), d.members["0"]);
      FinishedRun(again, left.file.doc, left.sent);
    }
    CredentialsTransitive();
  }

  lemma SameParsed(full: World, cut: World, p: Process, d: Decoded)
    requires cut.reply == full.reply && cut.encode64 == full.encode64
    ensures Parsed(full, p, d) == Parsed(cut, p, d)
  {
  }

  lemma FinishedRun(again: World, doc: Doc, sent: seq<string>)
    requires !again.retired && Str(doc, "accessToken").Some?
    ensures RunLogin(again, Holds(doc), sent).finish.Succeeded?
    ensures RunLogin(again, Holds(doc), sent).sent == sent && RunLogin(again, Holds(doc), sent).file == Holds(doc)
  {
  }

  lemma CredentialsChain(a: Doc, b: Doc, c: Doc, result: Value)
    requires SameCredentials(a, c) && SameCredentials(b, c)
    ensures SameCredentials(WithResult(a, result), WithResult(b, result))
  {
    assert SameCredentials(a, b);
    ResultFixesCredentials(a, b, result);
  }

  lemma CredentialsTransitive()
    ensures forall a, b, c :: SameCredentials(a, b) && SameCredentials(c, b) ==> SameCredentials(a, c)
  {
  }

  // ---- Which replies the two runs take ----

  // The reply holds an access token: the text at member 1 of member 3 of its result.
  predicate HasToken(d: Decoded) {
    !d.exception && Str(Members(At(Members(At(d.members, "0")), "3")), "1").Some?
  }

  // A document left by a token request that did not install its result.
  predicate Keeps(w: World, p: Process, doc: Doc) {
    && Str(doc, "accessToken").None? && IsTrue(doc, STARTED) && Str(doc, "lastNativeMethod") == Some(TOKEN_METHOD)
    && Str(doc, "lastNativeResponseBase64") == Some(w.encode64(w.reply(p.tick + 1).body))
  }

  // The next run installs the token of a kept reply if and only if the reply is not
  // empty, decodes without an exception, and has a token; if not, it changes nothing.
  lemma NextRunInstallsIff(w: World, again: World, p: Process, doc: Doc, sent: seq<string>)
    requires Keeps(w, p, doc) && Resumes(w, again, w.reply(p.tick + 1).body)
    ensures
      var r := RunLogin(again, Holds(doc), sent);
      && (r.finish.Succeeded? <==> w.reply(p.tick + 1).body != [] && Answer(w, p).Some? && HasToken(Answer(w, p).value))
      && (r.finish.Succeeded? ==>
            "0" in Answer(w, p).value.members && r.file == Holds(WithResult(doc, Answer(w, p).value.members["0"])))
      && (!r.finish.Succeeded? ==> r.file == Holds(doc))
  {
    hide WithResult, TokenRequested, Prepared;
    if Answer(w, p).Some? && HasToken(Answer(w, p).value) {
      assert "0" in Answer(w, p).value.members;
    }
  }

  ghost predicate Undisturbed(w: World) {
    forall n :: w.alive(n) && w.outcome(n) == Written
  }

  // The run that asked for the token accepts the reply if and only if, besides, it
  // came with status 200 and has no error member. Either way the reply is kept.
  lemma FirstRunAcceptsIff(w: World, p: Process)
    requires p.finish.Going? && Str(p.s, "accessToken").None? && Encodable(Marked(p), TOKEN_METHOD, false) && Undisturbed(w)
    ensures
      var first := TokenRequested(w, p);
      && (first.finish.Succeeded? <==>
            w.reply(p.tick + 1).ok && Answer(w, p).Some? && HasToken(Answer(w, p).value) && "1" !in Answer(w, p).value.members)
      && first.file.Holds?
      && (first.finish.Succeeded? ==> Str(first.file.doc, "accessToken").Some?)
      && (!first.finish.Succeeded? ==> Keeps(w, p, first.file.doc))
  {
    var q := Flush(w, p.(s := Marked(p)));
    assert q.finish.Going? && q.s == Marked(p) && q.tick == p.tick + 1;
    ReplyCalled(w, p, q);
    var c := Call(w, q, TOKEN_METHOD, false);
    hide Call, Encodable, Undisturbed, Marked;
    if c.result.Some? {
      ResultSaved(w, p, c);
    }
  }

  // The call keeps the reply, and has a result exactly if there is one to use.
  lemma ReplyCalled(w: World, p: Process, q: Process)
    requires q.s == Marked(p) && q.tick == p.tick + 1 && Encodable(q.s, TOKEN_METHOD, false)
    requires Undisturbed(w) && Str(p.s, "accessToken").None?
    ensures
      var c := Call(w, q, TOKEN_METHOD, false);
      && c.p.file == Holds(c.p.s) && Keeps(w, p, c.p.s)
      && (c.result.Some? ==> c.p.finish.Going?)
      && c.result ==
           (if w.reply(p.tick + 1).ok && Answer(w, p).Some? && !Answer(w, p).value.exception && "1" !in Answer(w, p).value.members
            then At(Answer(w, p).value.members, "0") else None)
  {
    RawIsKept(w, p);
    RawIs(w, p);
    assert w.alive(q.tick) && q.tick == p.tick + 1;
    hide Encodable, Marked, WithRaw, Members, Keeps, Raw, Flush, Interpreted, Undisturbed, Str, Call;
    var sent := q.(sent := q.sent + [TOKEN_METHOD], tick := q.tick + 1, s := Raw(w, p));
    Flushed(w, sent);
    CallUnfolds(w, q, Raw(w, p));
    if Answer(w, p).Some? {
      var d := Answer(w, p).value;
      ParsedIsKept(w, p, d);
      var parsed := Flush(w, sent).(s := Raw(w, p)["lastNativeResponse" := Tree(d.members)]);
      Flushed(w, parsed);
      InterpretedAs(Flush(w, parsed), d);
    }
  }

  lemma CallUnfolds(w: World, q: Process, raw: Doc)
    requires w.alive(q.tick) && Encodable(q.s, TOKEN_METHOD, false)
    requires raw == WithRaw(w, q.s, TOKEN_METHOD, w.reply(q.tick))
    requires Flush(w, q.(sent := q.sent + [TOKEN_METHOD], tick := q.tick + 1, s := raw)).finish.Going?
    ensures
      var r := w.reply(q.tick);
      var kept := Flush(w, q.(sent := q.sent + [TOKEN_METHOD], tick := q.tick + 1, s := raw));
      Call(w, q, TOKEN_METHOD, false) ==
        if !r.ok then Called(kept, None, -1, r.timedOut)
        else
          match w.decode(TOKEN_METHOD, r.body)
          case None => Called(Stop(kept), None, -1, false)
          case Some(d) =>
            var parsed := Flush(w, kept.(s := kept.s["lastNativeResponse" := Tree(d.members)]));
            if parsed.finish.Going? then Interpreted(parsed, d, TOKEN_METHOD, false) else Called(parsed, None, -1, false)
  {
    hide Encodable, WithRaw, Flush, Interpreted;
  }

  lemma Flushed(w: World, p: Process)
    requires Undisturbed(w)
    ensures Flush(w, p) == p.(file := Holds(p.s), tick := p.tick + 1, finish := Going)
  {
    assert w.alive(p.tick) && w.outcome(p.tick) == Written;
  }

  lemma InterpretedAs(p: Process, d: Decoded)
    ensures var c := Interpreted(p, d, TOKEN_METHOD, false);
      c.p == p && c.result == if !d.exception && "1" !in d.members then At(d.members, "0") else None
  {
  }

  lemma RawIs(w: World, p: Process)
    ensures Raw(w, p) == WithRaw(w, Marked(p), TOKEN_METHOD, w.reply(p.tick + 1))
  {
  }

  lemma RawIsKept(w: World, p: Process)
    requires Str(p.s, "accessToken").None?
    ensures Keeps(w, p, Raw(w, p))
  {
  }

  lemma ParsedIsKept(w: World, p: Process, d: Decoded)
    requires Keeps(w, p, Raw(w, p))
    ensures Keeps(w, p, Raw(w, p)["lastNativeResponse" := Tree(d.members)])
  {
    hide Raw;
  }

  // Saving the result of a call that had one.
  lemma ResultSaved(w: World, p: Process, c: Called)
    requires Undisturbed(w) && c.result.Some? && c.p.finish.Going? && Keeps(w, p, c.p.s)
    ensures
      var doc := WithResult(c.p.s, c.result.value);
      var t := Flush(w, c.p.(s := doc));
      && t.finish.Going? && t.s == doc && t.file == Holds(doc)
      && Str(doc, "accessToken") == Str(Members(At(Members(c.result), "3")), "1")
      && (Str(doc, "accessToken").None? ==> Keeps(w, p, doc))
      && (Str(doc, "accessToken").Some? ==>
            var end := Opened(w, t, Members(At(Members(c.result), "10")));
            end.finish.Succeeded? && end.file.Holds? && Str(end.file.doc, "accessToken").Some?)
  {
    hide WithResult, Members, SameCredentials, Opened, CREDENTIALS;
    var doc := WithResult(c.p.s, c.result.value);
    var t := Flush(w, c.p.(s := doc));
    var meta := Members(At(Members(c.result), "10"));
    ResultToken(c.p.s, c.result.value);
    StillKept(w, p, c.p.s, c.result.value);
    OpenedKeepsCredentials(w, t, meta);
    OpenedSucceeds(w, t, meta);
  }

  lemma StillKept(w: World, p: Process, s: Doc, result: Value)
    requires Keeps(w, p, s)
    ensures Str(WithResult(s, result), "accessToken").None? ==> Keeps(w, p, WithResult(s, result))
  {
    ResultKeepsReply(s, result);
    hide WithResult;
    var doc := WithResult(s, result);
    assert At(doc, STARTED) == At(s, STARTED) && At(doc, "lastNativeMethod") == At(s, "lastNativeMethod");
    assert At(doc, "lastNativeResponseBase64") == At(s, "lastNativeResponseBase64");
  }

  lemma OpenedSucceeds(w: World, p: Process, meta: Doc)
    requires Undisturbed(w)
    ensures Opened(w, p, meta).finish.Succeeded?
  {
    if w.unwrap(p.tick, meta).Some? {
      assert w.outcome(p.tick) == Written && w.alive(p.tick);
    }
  }

  lemma ResultKeepsReply(s: Doc, result: Value)
    ensures forall k | k !in CREDENTIALS :: At(WithResult(s, result), k) == At(s, k)
  {
    forall k | k !in CREDENTIALS ensures At(WithResult(s, result), k) == At(s, k) {
      ResultIsStored(s, result, k);
    }
    hide WithResult;
  }

  // The next run also takes a reply that the first one refused for its status or
  // for an error member; for every other reply the two agree.
  lemma RunsAgreeIff(w: World, again: World, p: Process)
    requires p.finish.Going? && Str(p.s, "accessToken").None? && Encodable(Marked(p), TOKEN_METHOD, false) && Undisturbed(w)
    requires Resumes(w, again, w.reply(p.tick + 1).body) && w.decode(TOKEN_METHOD, []).None?
    ensures
      var first := TokenRequested(w, p);
      var next := RunLogin(again, first.file, first.sent);
      && (next.finish.Succeeded? <==> Answer(w, p).Some? && HasToken(Answer(w, p).value))
      && (first.finish.Succeeded? <==>
            next.finish.Succeeded? && w.reply(p.tick + 1).ok && "1" !in Answer(w, p).value.members)
  {
    hide TokenRequested, RunLogin, HasToken, Keeps, Encodable;
    FirstRunAcceptsIff(w, p);
    var first := TokenRequested(w, p);
    if first.finish.Succeeded? {
      FinishedRun(again, first.file.doc, first.sent);
    } else {
      NextRunInstallsIff(w, again, p, first.file.doc, first.sent);
    }
  }

  // A world in which every reply is this one.
  function Replying(ok: bool, members: Doc): World {
    World(false, n => true, n => Written, n => Reply(ok, false, if ok then 200 else 500, [1]),
          (name, body) => if body == [] then None else Some(Decoded(members, false)),
          body => "", text => Some([1]), None, n => "", n => None, n => None, n => 0, (n, doc) => None)
  }

  const TOKEN: Doc := map["0" := Tree(map["3" := Tree(map["1" := Text("token")])])]

  function Asking(): Process {
    var s: Doc := map["clientIdentity" := Tree(map[]), "authSessionId" := Text("session"), "nativeQrNonce" := Text("nonce")];
    Process(Holds(s), s, [], 0, Going)
  }

  // A token under status 500, and a token beside an error member: refused by the
  // first run and installed by the next.
  lemma RefusedAndInstalled(w: World)
    requires w == Replying(false, TOKEN) || w == Replying(true, TOKEN["1" := Tree(map[])])
    ensures
      var first := TokenRequested(w, Asking());
      first.finish.Stopped? && RunLogin(w, first.file, first.sent).finish.Succeeded?
  {
    var p := Asking();
    assert Resumes(w, w, w.reply(1).body) && Undisturbed(w) && w.decode(TOKEN_METHOD, []).None?;
    assert Answer(w, p).Some? && HasToken(Answer(w, p).value);
    assert w.reply(1).ok ==> "1" in Answer(w, p).value.members;
    assert p.finish.Going? && p.tick == 0 && Str(p.s, "accessToken").None? && Encodable(Marked(p), TOKEN_METHOD, false);
    hide TokenRequested, RunLogin, Asking, Replying, TOKEN, HasToken, Encodable, Answer;
    RunsAgreeIff(w, w, p);
    TokenRequestEnds(w, p);
  }

  lemma TokenRequestEnds(w: World, p: Process)
    requires p.finish.Going?
    ensures !TokenRequested(w, p).finish.Going?
  {
    hide Call, WithResult, Members;
  }

  // ---- What a token result is stored as ----

  // Where each credential field comes from: the reply's token member 3, its
  // metadata member 10, or the reply itself.
  function Source(result: Value, field: string): Option<Value> {
    var r := Members(Some(result));
    var tokens, meta := Members(At(r, "3")), Members(At(r, "10"));
    if field == "nativeLoginResult" then Some(result)
    else if field == "accessToken" then At(tokens, "1")
    else if field == "refreshToken" then At(tokens, "2")
    else if field == "durationUntilRefreshInSec" then At(tokens, "3")
    else if field == "tokenIssueTimeEpochSec" then At(tokens, "6")
    else if field == "certificate" then At(r, "1")
    else if field == "mid" then At(r, "4")
    else if field == "e2eeLoginMetaData" then At(r, "10")
    else if field == "e2eeLoginPublicKey" then At(meta, "publicKey")
    else if field == "e2eeVersion" then At(meta, "e2eeVersion")
    else if field == "e2eeHashKeyChain" then At(meta, "hashKeyChain")
    else None
  }

  // Every field takes its own source, one the reply lacks keeps its value, and
  // nothing else changes.
  lemma ResultIsStored(s: Doc, result: Value, field: string)
    ensures At(WithResult(s, result), field) == if Source(result, field).Some? then Source(result, field) else At(s, field)
  {
    FieldOf(result, field);
    hide ResultFields, Source;
  }

  lemma CopiedAt(dest: Doc, name: string, source: Doc, k: string, field: string)
    ensures At(Copied(dest, name, source, k), field) == if field == name && k in source then At(source, k) else At(dest, field)
  {
  }

  lemma FieldOf(result: Value, field: string)
    ensures At(ResultFields(result), field) == Source(result, field)
  {
    hide Members, Copied;
    var r := Members(Some(result));
    var tokens, meta := Members(At(r, "3")), Members(At(r, "10"));
    var f0 := map["nativeLoginResult" := result];
    CopiedAt(f0, "accessToken", tokens, "1", field);
    var f1 := Copied(f0, "accessToken", tokens, "1");
    CopiedAt(f1, "refreshToken", tokens, "2", field);
    var f2 := Copied(f1, "refreshToken", tokens, "2");
    CopiedAt(f2, "durationUntilRefreshInSec", tokens, "3", field);
    var f3 := Copied(f2, "durationUntilRefreshInSec", tokens, "3");
    CopiedAt(f3, "tokenIssueTimeEpochSec", tokens, "6", field);
    var f4 := Copied(f3, "tokenIssueTimeEpochSec", tokens, "6");
    CopiedAt(f4, "certificate", r, "1", field);
    var f5 := Copied(f4, "certificate", r, "1");
    CopiedAt(f5, "mid", r, "4", field);
    var f6 := Copied(f5, "mid", r, "4");
    CopiedAt(f6, "e2eeLoginMetaData", r, "10", field);
    var f7 := Copied(f6, "e2eeLoginMetaData", r, "10");
    CopiedAt(f7, "e2eeLoginPublicKey", meta, "publicKey", field);
    var f8 := Copied(f7, "e2eeLoginPublicKey", meta, "publicKey");
    CopiedAt(f8, "e2eeVersion", meta, "e2eeVersion", field);
    var f9 := Copied(f8, "e2eeVersion", meta, "e2eeVersion");
    CopiedAt(f9, "e2eeHashKeyChain", meta, "hashKeyChain", field);
    assert ResultFields(result) == Copied(f9, "e2eeHashKeyChain", meta, "hashKeyChain");
    assert At(f0, field) == if field == "nativeLoginResult" then Some(result) else None;
    hide ResultFields;
  }

  // ---- The token is asked for last ----

  const SCANNED := "nativeScanVerified"
  const PIN := "nativePinVerified"

  // Fields a call overwrites.
  predicate Untouched(k: string) {
    k != "lastNativeMethod" && k != "lastNativeHttpStatus" && k != "lastNativeResponseBase64" && k != "lastNativeResponse"
  }

  lemma CallKeeps(w: World, p: Process, name: string, polling: bool, k: string)
    requires Untouched(k)
    ensures var q := Call(w, p, name, polling).p;
      At(q.s, k) == At(p.s, k) && (q.file == p.file || (q.file.Holds? && At(q.file.doc, k) == At(p.s, k)))
  {
    hide Encodable, Interpreted;
    forall q, d { InterpretedKeeps(q, d, name, polling); }
  }

  lemma {:induction false} PollKeeps(w: World, p: Process, name: string, count: nat, k: string)
    requires Untouched(k)
    ensures At(PollUntil(w, p, name, count).s, k) == At(p.s, k)
    decreases count
  {
    hide Call;
    if count > 0 {
      CallKeeps(w, p, name, true, k);
      PollKeeps(w, Call(w, p, name, true).p, name, count - 1, k);
    }
  }

  lemma PinKeepsScan(w: World, p: Process)
    requires IsTrue(p.s, SCANNED)
    ensures PinVerified(w, p).finish.Going? ==> IsTrue(PinVerified(w, p).s, SCANNED) && IsTrue(PinVerified(w, p).s, PIN)
  {
    hide Call, PollUntil, Members;
    if p.finish.Going? && w.certificate(p.tick).Some? {
      var certificate := w.certificate(p.tick).value;
      var q := p.(s := if certificate.Some? then p.s["certificate" := Text(certificate.value)] else p.s);
      CallKeeps(w, q, "verifyCertificate", false, SCANNED);
      var c := Call(w, q, "verifyCertificate", false).p;
      CallKeeps(w, c, "createPinCode", false, SCANNED);
      var count := NumberAt(p.s, "longPollingMaxCount", 12);
      if count >= 0 {
        PollKeeps(w, Call(w, c, "createPinCode", false).p, "checkPinCodeVerified", count, SCANNED);
      }
    }
  }

  // A run that gets as far as the token request has both confirmations.
  lemma PreparedIsVerified(w: World, p: Process)
    ensures Prepared(w, p).finish.Going? ==> IsTrue(Prepared(w, p).s, SCANNED) && IsTrue(Prepared(w, p).s, PIN)
  {
    var q := Scanned(w, QrMade(w, SessionOpened(w, Keyed(w, Identified(w, p)))));
    if q.finish.Going? {
      ScannedIsVerified(w, QrMade(w, SessionOpened(w, Keyed(w, Identified(w, p)))));
      PinKeepsScan(w, q);
    }
    hide Identified, Keyed, SessionOpened, QrMade, Scanned, IsTrue, Call, PollUntil, PinAsked;
  }

  lemma ScannedIsVerified(w: World, p: Process)
    ensures Scanned(w, p).finish.Going? ==> IsTrue(Scanned(w, p).s, SCANNED)
  {
    hide PollUntil;
  }

  predicate Confirmed(file: File) {
    file.Holds? && IsTrue(file.doc, SCANNED) && IsTrue(file.doc, PIN)
  }

  lemma TokenPhaseIsConfirmed(w: World, p: Process)
    requires p.finish.Going? ==> IsTrue(p.s, SCANNED) && IsTrue(p.s, PIN)
    ensures TokenRequested(w, p).sent == p.sent || Confirmed(TokenRequested(w, p).file)
  {
    hide Call, WithResult, Opened, Members, At;
    var q := Flush(w, p.(s := p.s[STARTED := Flag(true)]));
    if p.finish.Going? && q.finish.Going? {
      ConfirmedCall(w, q);
      var c := Call(w, q, TOKEN_METHOD, false);
      if c.result.Some? {
        ConfirmedResult(c.p.s, c.result.value);
        var t := Flush(w, c.p.(s := WithResult(c.p.s, c.result.value)));
        if t.finish.Going? {
          ConfirmedOpened(w, t, Members(At(Members(c.result), "10")));
        }
      }
    }
  }

  lemma ConfirmedCall(w: World, q: Process)
    requires IsTrue(q.s, SCANNED) && IsTrue(q.s, PIN) && q.file == Holds(q.s)
    ensures var p := Call(w, q, TOKEN_METHOD, false).p;
      Confirmed(p.file) && IsTrue(p.s, SCANNED) && IsTrue(p.s, PIN)
  {
    CallKeeps(w, q, TOKEN_METHOD, false, SCANNED);
    CallKeeps(w, q, TOKEN_METHOD, false, PIN);
    hide Call;
  }

  lemma ConfirmedResult(s: Doc, result: Value)
    ensures IsTrue(WithResult(s, result), SCANNED) == IsTrue(s, SCANNED) && IsTrue(WithResult(s, result), PIN) == IsTrue(s, PIN)
  {
    FieldsAreCredentials(result);
    hide ResultFields;
  }

  lemma ConfirmedOpened(w: World, p: Process, meta: Doc)
    requires Confirmed(p.file) && IsTrue(p.s, SCANNED) && IsTrue(p.s, PIN)
    ensures Confirmed(Opened(w, p, meta).file)
  {
  }

  // A run sends the token request only after the scan and the PIN (or the device
  // certificate) have been confirmed, and the file it leaves says so.
  lemma TokenOnlyAfterConfirmation(w: World, file: File, sent: seq<string>)
    requires TokenRequests(sent) == 0 && !Started(file)
    ensures var p := RunLogin(w, file, sent);
      TokenRequests(p.sent) > 0 ==> Confirmed(p.file)
  {
    var start := Process(file, if file.Holds? then file.doc else map[], sent, 0, Going);
    PreparedIsClean(w, start);
    PreparedIsVerified(w, start);
    TokenPhaseIsConfirmed(w, Prepared(w, start));
    hide Prepared, TokenRequested, Recovered, TokenRequests;
  }
}
