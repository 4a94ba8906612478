// What refresh keeps over every run: no request while a journaled reply waits
// to be applied, and no reply applied twice.
module RefreshSafety {
  import opened Optional
  import opened SessionFile
  import opened SessionFence
  import opened TokenRefresh
  import SessionMerge
  import PartialSyncs

  // What recovery compares: login, refresh token, and the last refresh id applied.
  datatype Credentials = Credentials(login: Option<string>, refresh: Option<string>, applied: Option<string>)

  function CredentialsOf(file: Option<Object>): Credentials {
    if file.None? then Credentials(None, None, None)
    else Credentials(TextAt(file.value, LoginId), TextAt(file.value, RefreshToken), TextAt(file.value, RefreshJournalId))
  }

  // A journaled reply that still has to be applied to a session with credentials c.
  predicate Live(journal: Option<Journal>, c: Credentials) {
    && journal.Some? && journal.value.body.Some?
    && journal.value.previous.Some? && journal.value.previous == c.refresh
    && (journal.value.loginId.None? || journal.value.loginId == c.login)
    && !(journal.value.refreshId.Some? && journal.value.refreshId == c.applied)
  }

  // ---- The session file seen through its credentials ----

  lemma SaveKeepsCredentials(file: Option<Object>, s: Session, outcome: Outcome)
    requires Baseline(s).Some? ==> RefreshToken !in SessionMerge.DeltaOf(s) && RefreshJournalId !in SessionMerge.DeltaOf(s)
    ensures CredentialsOf(After(file, Save(s, outcome))) == CredentialsOf(file)
  {
    hide SessionMerge.DeltaOf, SessionMerge.ApplyDelta, Baseline, Saved;
    if Saved(file, s).Some? {
      SavedNeedsFile(file, s);
      var d := SessionMerge.DeltaOf(s);
      SessionMerge.SaveAppliesDelta(file.value, s);
      LoginIdIsNoField(s);
      SessionMerge.AppliedAt(file.value, d, LoginId);
      SessionMerge.AppliedAt(file.value, d, RefreshToken);
      SessionMerge.AppliedAt(file.value, d, RefreshJournalId);
    }
  }

  lemma SavedNeedsFile(file: Option<Object>, s: Session)
    ensures Saved(file, s).Some? ==> file.Some? && Baseline(s).Some?
  {
  }

  lemma LoginIdIsNoField(s: Session)
    requires Baseline(s).Some?
    ensures LoginId !in SessionMerge.DeltaOf(s)
  {
    hide ToJson, Parse, SessionMerge.DeltaOf, Rendered;
    var loaded := Parse(s.snapshot.value).value;
    SessionMerge.SnapshotOfParsed(s.snapshot.value);
    SessionMerge.DeltaIsTheEdits(s.snapshot.value, loaded, s, LoginId);
  }

  // Other account work leaves the credentials alone, except that a session
  // without a login id may be given one.
  lemma OthersKeepCredentials(w: World, op: Operation)
    requires Possible(w, Elsewhere(op)) && !op.Activate?
    ensures
      var c, d := CredentialsOf(w.st.file), CredentialsOf(After(w.st.file, op));
      d == c || (op.Identify? && c.login.None? && d == c.(login := Some(op.newId)))
  {
    hide Saved, Requested, StillPending, NowCompleted, SomeWanted;
    if op.Save? {
      SaveKeepsCredentials(w.st.file, op.session, op.outcome);
    }
  }

  // A refresh works on a session it loaded and has not edited.
  predicate Origin(s: Session) {
    s.snapshot.Some? && Parse(s.snapshot.value) == Some(s) && RefreshToken in s.texts && AccessToken in s.texts
    && LoginText(s).Some? && LoginText(s).value != ""
  }

  lemma OriginTexts(s: Session)
    requires Origin(s)
    ensures Usable(s) && LoginText(s).Some? && CredentialsOf(s.snapshot) ==
      Credentials(LoginText(s), Some(s.texts[RefreshToken]), if RefreshJournalId in s.texts then Some(s.texts[RefreshJournalId]) else None)
  {
  }

  // The save of a refresh: it is refused for a superseded login and otherwise
  // leaves the reply's credentials and its id.
  lemma CommitCredentials(file: Option<Object>, s: Session, t: Issued, id: string)
    requires Origin(s)
    ensures
      var c, saved := CredentialsOf(file), Saved(file, Applied(s, t, id));
      && (saved.Some? ==> LoginText(s) == c.login)
      && (saved.Some? && CredentialsOf(s.snapshot).applied != Some(id) ==>
            CredentialsOf(saved).login == c.login && CredentialsOf(saved).applied == Some(id))
  {
    var next := Applied(s, t, id);
    AppliedSession(s, t, id);
    if Saved(file, next).Some? {
      CommitSaved(file, s, next, id);
    }
  }

  lemma AppliedSession(s: Session, t: Issued, id: string)
    requires Origin(s)
    ensures
      var next := Applied(s, t, id);
      next.snapshot == s.snapshot && Rendered(next, RefreshJournalId) == Some(Text(id))
  {
    hide Parse;
  }

  lemma CommitSaved(file: Option<Object>, s: Session, next: Session, id: string)
    requires Origin(s) && next.snapshot == s.snapshot && Saved(file, next).Some?
    requires Rendered(next, RefreshJournalId) == Some(Text(id))
    ensures LoginText(s) == CredentialsOf(file).login == CredentialsOf(Saved(file, next)).login
    ensures CredentialsOf(s.snapshot).applied != Some(id) ==> CredentialsOf(Saved(file, next)).applied == Some(id)
  {
    assert file.Some? && Baseline(next).Some? by { SavedNeedsFile(file, next); }
    assert s.snapshot.Some? && Parse(s.snapshot.value) == Some(s);
    RenderedJournalId(s);
    CommitFenced(file, s, next);
    hide SessionMerge.DeltaOf, SessionMerge.ApplyDelta, Rendered, ToJson, Parse, Saved, Baseline, KindOf, FIELDS, Origin;
    var d := SessionMerge.DeltaOf(next);
    SessionMerge.SaveAppliesDelta(file.value, next);
    SessionMerge.DeltaIsTheEdits(s.snapshot.value, s, next, RefreshJournalId);
    SessionMerge.AppliedAt(file.value, d, RefreshJournalId);
  }

  lemma CommitFenced(file: Option<Object>, s: Session, next: Session)
    requires Origin(s) && next.snapshot == s.snapshot && Saved(file, next).Some?
    ensures LoginText(s) == CredentialsOf(file).login == CredentialsOf(Saved(file, next)).login
  {
    hide SessionMerge.DeltaOf, SessionMerge.ApplyDelta, Rendered, ToJson, Saved, KindOf, FIELDS, Merge;
    SaveIsFenced(file, next);
    SessionMerge.LoginIdIsCarried(s);
  }

  lemma RenderedJournalId(s: Session)
    requires Origin(s)
    ensures forall id :: Rendered(s, RefreshJournalId) == Some(Text(id)) ==> TextAt(s.snapshot.value, RefreshJournalId) == Some(id)
  {
  }

  // ---- The invariant ----

  predicate Distinct(ids: seq<string>) {
    forall i, j :: 0 <= i < j < |ids| ==> ids[i] != ids[j]
  }

  // The history covers every id in sight, no id was applied twice, and a journal
  // whose reply was applied is not replayed.
  ghost predicate Known(c: Credentials, journal: Option<Journal>, h: History) {
    && (c.login.Some? ==> c.login.value in h.logins)
    && (c.applied.Some? ==> c.applied.value in h.ids)
    && (forall r | r in h.journaled :: r.0 in h.logins && r.1 in h.ids)
    && (forall i | i in h.commits :: i in h.ids)
    && Distinct(h.commits)
    && (journal.Some? ==>
          && (journal.value.loginId.Some? ==> journal.value.loginId.value in h.logins)
          && (journal.value.refreshId.Some? ==> journal.value.refreshId.value in h.ids)
          && (h.journaled != {} ==> Complete(journal.value))
          && (HoldsApplied(journal.value, h) ==>
                && journal.value.loginId.Some? && (journal.value.loginId.value, journal.value.refreshId.value) in h.journaled
                && !Live(journal, c)))
  }

  predicate Complete(j: Journal) {
    j.loginId.Some? && j.refreshId.Some? && j.previous.Some? && j.body.Some?
  }

  predicate HoldsApplied(j: Journal, h: History) {
    j.refreshId.Some? && j.refreshId.value in h.commits
  }

  // A reply of the current login, journaled and not applied, is what the journal
  // holds, ready to be replayed.
  ghost predicate Survives(c: Credentials, journal: Option<Journal>, h: History) {
    forall r | r in h.journaled && Some(r.0) == c.login && r.1 !in h.commits ::
      Live(journal, c) && journal.value.loginId == Some(r.0) && journal.value.refreshId == Some(r.1)
  }

  ghost predicate AllApplied(login: Option<string>, h: History) {
    forall r | r in h.journaled && Some(r.0) == login :: r.1 in h.commits
  }

  function SessionOf(phase: Phase): Option<Session> {
    match phase
    case Idle => None
    case Loaded(s) => Some(s)
    case Asking(s, _) => Some(s)
    case Waiting(s, _) => Some(s)
    case Holding(s, _, _) => Some(s)
    case Journaled(s, _, _) => Some(s)
    case Committed(s) => Some(s)
  }

  // Will the look at the journal end in a request (once a retirement succeeds)?
  predicate AsksNext(replies: Replies, journal: Option<Journal>, s: Session) {
    Usable(s) && (journal.None? || Decide(replies, journal, s, "") == Retire(true))
  }

  // While its login is the current one, the refresh in progress will journal and
  // apply a reply that the session on disk still asks for.
  ghost predicate InStep(replies: Replies, c: Credentials, journal: Option<Journal>, phase: Phase, h: History)
    requires SessionOf(phase).Some?
  {
    var own := CredentialsOf(SessionOf(phase).value.snapshot);
    match phase
    case Loaded(s) =>
      if Live(journal, own) then
        own.refresh == c.refresh &&
        (journal.value.refreshId.Some? ==> journal.value.refreshId != c.applied && journal.value.refreshId.value !in h.commits)
      else AllApplied(c.login, h) && (AsksNext(replies, journal, s) ==> own.refresh == c.refresh)
    case Asking(_, id) => own.refresh == c.refresh && c.applied != Some(id) && AllApplied(c.login, h) && !Live(journal, c)
    case Waiting(_, id) => own.refresh == c.refresh && c.applied != Some(id) && AllApplied(c.login, h)
    case Holding(_, id, _) => own.refresh == c.refresh && c.applied != Some(id) && id !in h.commits && OnlyPending(c.login, id, h)
    case Journaled(_, id, _) => id !in h.commits
    case Committed(_) => AllApplied(c.login, h)
  }

  ghost predicate OnlyPending(login: Option<string>, id: string, h: History) {
    forall r | r in h.journaled && Some(r.0) == login && r.1 !in h.commits :: r.1 == id
  }

  function IdOf(phase: Phase): Option<string> {
    if phase.Asking? || phase.Waiting? || phase.Holding? || phase.Journaled? then Some(phase.id) else None
  }

  ghost predicate PhaseFits(replies: Replies, c: Credentials, journal: Option<Journal>, phase: Phase, h: History) {
    SessionOf(phase).Some? ==>
      var s := SessionOf(phase).value;
      var own := CredentialsOf(s.snapshot);
      && Origin(s) && LoginText(s).value in h.logins
      && (own.applied.Some? ==> own.applied.value in h.ids)
      && (IdOf(phase).Some? ==> IdOf(phase).value in h.ids && IdOf(phase) != own.applied)
      && (phase.Asking? || phase.Waiting? ==> phase.id !in h.commits && forall r | r in h.journaled :: r.1 != phase.id)
      && (phase.Journaled? ==> (LoginText(s).value, phase.id) in h.journaled)
      && Undisturbed(replies, c, journal, phase, h)
  }

  // A refresh in progress is in step with its login, or cannot take the journal
  // from another one that still needs it.
  ghost predicate Undisturbed(replies: Replies, c: Credentials, journal: Option<Journal>, phase: Phase, h: History) {
    SessionOf(phase).Some? ==>
      if LoginText(SessionOf(phase).value) == c.login then InStep(replies, c, journal, phase, h)
      else phase.Journaled? || AllApplied(c.login, h)
  }

  // May this document be installed now? Every reply of its login that is still to
  // be applied must be the one the journal keeps and the document's tokens ask for;
  // the journal must not offer it a reply that was applied before; and a refresh
  // in progress must not come in between.
  ghost predicate Harmless(replies: Replies, w: World, document: Object, outcome: Outcome, retiring: Outcome) {
    var c := CredentialsOf(Some(document));
    var journal := if outcome == Written then Retired(w.st.journal, retiring) else w.st.journal;
    outcome != NotWritten ==>
      && Survives(c, journal, w.h)
      && !(journal.Some? && HoldsApplied(journal.value, w.h) && Live(journal, c))
      && Undisturbed(replies, c, journal, w.st.phase, w.h)
  }

  // What the guarantees ask of the next event.
  ghost predicate Safe(replies: Replies, w: World, e: Event) {
    Possible(w, e) && (e.Login? ==> Harmless(replies, w, e.document, e.outcome, e.retiring))
  }

  ghost predicate Inv(replies: Replies, w: World) {
    var c := CredentialsOf(w.st.file);
    Known(c, w.st.journal, w.h) && Survives(c, w.st.journal, w.h) && PhaseFits(replies, c, w.st.journal, w.st.phase, w.h)
  }

  // ---- One step at a time ----

  lemma BeginKeeps(replies: Replies, w: World)
    requires Inv(replies, w)
    ensures Inv(replies, Next(replies, w, Begin))
  {
    hide Parse;
    if w.st.phase.Idle? && Startable(w.st.file).Some? {
      BeginsAtOrigin(w.st.file);
      OriginTexts(Startable(w.st.file).value);
      LiveIsNotApplied(w.st.journal, CredentialsOf(w.st.file));
      hide Live, Startable, Origin, LoginText, CredentialsOf, AsksNext;
    }
  }

  lemma LiveIsNotApplied(journal: Option<Journal>, c: Credentials)
    ensures Live(journal, c) && journal.value.refreshId.Some? ==> journal.value.refreshId != c.applied
  {
  }

  lemma BeginsAtOrigin(file: Option<Object>)
    requires Startable(file).Some?
    ensures Origin(Startable(file).value) && Startable(file).value.snapshot == file
  {
  }

  lemma DecideFits(replies: Replies, journal: Option<Journal>, s: Session, freshId: string)
    requires Origin(s)
    ensures
      var v, c := Decide(replies, journal, s, freshId), CredentialsOf(s.snapshot);
      && (v.Replay? <==> Live(journal, c))
      && (v.Replay? && journal.value.refreshId.Some? ==> journal.value.refreshId.value == v.id && Some(v.id) != c.applied)
      && (v.Replay? ==> journal.Some? && (journal.value.refreshId.None? ==> v.id == freshId))
      && (v.Ask? || v == Retire(true) <==> AsksNext(replies, journal, s))
      && (v.Ask? <==> journal.None?)
  {
    OriginTexts(s);
    hide Parse, Origin, CredentialsOf, LoginText;
  }

  lemma RecoverKeeps(replies: Replies, w: World, freshId: string, outcome: Outcome)
    requires Inv(replies, w) && freshId !in w.h.ids
    ensures Inv(replies, Next(replies, w, Recover(freshId, outcome)))
  {
    if w.st.phase.Loaded? {
      var s := w.st.phase.session;
      OriginTexts(s);
      DecideFits(replies, w.st.journal, s, freshId);
      VerdictFits(replies, CredentialsOf(w.st.file), w.st, s, Decide(replies, w.st.journal, s, freshId), freshId, outcome, w.h);
    }
    hide Decide, Origin, Parse, CredentialsOf, Live, LoginText, Known, Survives, PhaseFits, AfterVerdict;
  }

  lemma VerdictFits(replies: Replies, c: Credentials, st: State, s: Session, v: Verdict, freshId: string, outcome: Outcome, h: History)
    requires st.phase == Loaded(s) && freshId !in h.ids && Origin(s)
    requires Known(c, st.journal, h) && Survives(c, st.journal, h) && PhaseFits(replies, c, st.journal, st.phase, h)
    requires var own := CredentialsOf(s.snapshot);
      && (v.Replay? <==> Live(st.journal, own))
      && (v.Replay? && st.journal.value.refreshId.Some? ==> st.journal.value.refreshId.value == v.id && Some(v.id) != own.applied)
      && (v.Replay? ==> st.journal.Some? && (st.journal.value.refreshId.None? ==> v.id == freshId))
      && (v.Ask? || v == Retire(true) ==> AsksNext(replies, st.journal, s))
      && (v.Ask? <==> st.journal.None?)
    ensures
      var next := AfterVerdict(st, s, v, freshId, outcome);
      var g := h.(ids := h.ids + {freshId});
      next.file == st.file && Known(c, next.journal, g) && Survives(c, next.journal, g) && PhaseFits(replies, c, next.journal, next.phase, g)
  {
    hide Origin, Parse, CredentialsOf, LoginText;
  }

  lemma SendKeeps(replies: Replies, w: World, e: Event)
    requires Inv(replies, w) && (e.Send? || e.Receive? || e.Crash?)
    ensures Inv(replies, Next(replies, w, e))
  {
    hide Origin, Live, CredentialsOf;
  }

  lemma WriteJournalKeeps(replies: Replies, w: World, outcome: Outcome)
    requires Inv(replies, w)
    ensures Inv(replies, Next(replies, w, WriteJournal(outcome)))
  {
    hide Parse, CredentialsOf, Live, Origin, Record;
    if w.st.phase.Holding? && outcome != NotWritten {
      var s, id, body := w.st.phase.session, w.st.phase.id, w.st.phase.body;
      OriginTexts(s);
      var login := LoginText(s).value;
      assert (login, id) in Next(replies, w, WriteJournal(outcome)).h.journaled;
      RecordFits(replies, CredentialsOf(w.st.file), w.st.journal, s, id, body, w.h, w.h.(journaled := w.h.journaled + {(login, id)}));
    }
  }

  // Journaling the reply in hand.
  lemma RecordFits(replies: Replies, c: Credentials, journal: Option<Journal>, s: Session, id: string, body: string,
      h: History, next: History)
    requires Origin(s) && LoginText(s).value in h.logins && id in h.ids
    requires Known(c, journal, h) && Survives(c, journal, h)
    requires PhaseFits(replies, c, journal, Holding(s, id, body), h)
    requires next == h.(journaled := h.journaled + {(LoginText(s).value, id)})
    ensures Known(c, Some(Record(s, id, body)), next) && Survives(c, Some(Record(s, id, body)), next)
    ensures PhaseFits(replies, c, Some(Record(s, id, body)), Journaled(s, id, body), next)
  {
    hide Parse, CredentialsOf;
    OriginTexts(s);
    if LoginText(s) == c.login {
      assert Live(Some(Record(s, id, body)), c);
    }
  }

  lemma CommitKeeps(replies: Replies, w: World, outcome: Outcome)
    requires Inv(replies, w)
    ensures Inv(replies, Next(replies, w, Commit(outcome)))
  {
    hide Parse, CredentialsOf, Saved, Applied;
    if w.st.phase.Journaled? && replies.parse(w.st.phase.body).Some? {
      CommitCredentials(w.st.file, w.st.phase.session, replies.parse(w.st.phase.body).value, w.st.phase.id);
    }
  }

  lemma UnlinkKeeps(replies: Replies, w: World, ok: bool)
    requires Inv(replies, w)
    ensures Inv(replies, Next(replies, w, Unlink(ok)))
  {
    hide Origin, CredentialsOf;
  }

  lemma ElsewhereKeeps(replies: Replies, w: World, op: Operation)
    requires Inv(replies, w) && Possible(w, Elsewhere(op))
    ensures Inv(replies, Next(replies, w, Elsewhere(op)))
  {
    hide Origin, CredentialsOf, After;
    if !op.Activate? {
      OthersKeepCredentials(w, op);
    }
  }

  // A refresh in step depends on what was journaled and applied, not on the ids seen.
  lemma StepDepends(replies: Replies, c: Credentials, journal: Option<Journal>, phase: Phase, h: History, g: History)
    requires SessionOf(phase).Some? && h.journaled == g.journaled && h.commits == g.commits
    ensures InStep(replies, c, journal, phase, h) == InStep(replies, c, journal, phase, g)
    ensures Survives(c, journal, h) == Survives(c, journal, g)
  {
    hide Live, CredentialsOf, AsksNext;
  }

  lemma LoginKeeps(replies: Replies, w: World, document: Object, outcome: Outcome, retiring: Outcome)
    requires Inv(replies, w) && Harmless(replies, w, document, outcome, retiring)
    ensures Inv(replies, Next(replies, w, Login(document, outcome, retiring)))
  {
    hide Origin, Parse, InStep, LoginText;
    var next := Next(replies, w, Login(document, outcome, retiring));
    if SessionOf(w.st.phase).Some? {
      StepDepends(replies, CredentialsOf(next.st.file), next.st.journal, w.st.phase, w.h, next.h);
    }
  }

  lemma StepKeeps(replies: Replies, w: World, e: Event)
    requires Inv(replies, w) && Safe(replies, w, e)
    ensures Inv(replies, Next(replies, w, e))
  {
    assert Possible(w, e) && (e.Login? ==> Harmless(replies, w, e.document, e.outcome, e.retiring));
    hide Inv, Possible, Harmless, Safe, Next;
    match e {
      case Begin => BeginKeeps(replies, w);
      case Recover(freshId, outcome) =>
        assert freshId !in w.h.ids by { PossibleRecover(w, freshId, outcome); }
        RecoverKeeps(replies, w, freshId, outcome);
      case Send => SendKeeps(replies, w, e);
      case Receive(_) => SendKeeps(replies, w, e);
      case WriteJournal(outcome) => WriteJournalKeeps(replies, w, outcome);
      case Commit(outcome) => CommitKeeps(replies, w, outcome);
      case Unlink(ok) => UnlinkKeeps(replies, w, ok);
      case Crash => SendKeeps(replies, w, e);
      case Elsewhere(op) => ElsewhereKeeps(replies, w, op);
      case Login(document, outcome, retiring) => LoginKeeps(replies, w, document, outcome, retiring);
    }
  }

  lemma PossibleRecover(w: World, freshId: string, outcome: Outcome)
    requires Possible(w, Recover(freshId, outcome))
    ensures freshId !in w.h.ids
  {
  }

  // ---- Runs ----

  function AfterAll(replies: Replies, w: World, events: seq<Event>): World
    decreases |events|
  {
    if events == [] then w else AfterAll(replies, Next(replies, w, events[0]), events[1..])
  }

  ghost predicate AllPossible(replies: Replies, w: World, events: seq<Event>)
    decreases |events|
  {
    events == [] || (Possible(w, events[0]) && AllPossible(replies, Next(replies, w, events[0]), events[1..]))
  }

  ghost predicate AllSafe(replies: Replies, w: World, events: seq<Event>)
    decreases |events|
  {
    events == [] || (Safe(replies, w, events[0]) && AllSafe(replies, Next(replies, w, events[0]), events[1..]))
  }

  // Any files the process can find at its first start.
  function Start(file: Option<Object>, journal: Option<Journal>): World {
    var j := journal.Some?;
    World(State(file, journal, Idle),
          History(
            if j && Live(journal, CredentialsOf(file)) && journal.value.loginId.Some? && journal.value.refreshId.Some?
            then {(journal.value.loginId.value, journal.value.refreshId.value)} else {},
            [],
            Texts(file, RefreshJournalId) + (if j && journal.value.refreshId.Some? then {journal.value.refreshId.value} else {}),
            Texts(file, LoginId) + (if j && journal.value.loginId.Some? then {journal.value.loginId.value} else {})))
  }

  lemma StartFits(replies: Replies, file: Option<Object>, journal: Option<Journal>)
    ensures Inv(replies, Start(file, journal))
  {
  }

  lemma {:induction false} RunKeeps(replies: Replies, w: World, events: seq<Event>)
    requires Inv(replies, w) && AllSafe(replies, w, events)
    ensures Inv(replies, AfterAll(replies, w, events))
    decreases |events|
  {
    hide Inv, Safe, Next;
    if events != [] {
      StepKeeps(replies, w, events[0]);
      RunKeeps(replies, Next(replies, w, events[0]), events[1..]);
    }
  }

  // Whatever crashes, other writers and logins come between: when a request is
  // about to be sent for the current login, every reply journaled for it has been
  // applied and nothing on disk is waiting to be.
  lemma NoRequestOverAPendingReply(replies: Replies, file: Option<Object>, journal: Option<Journal>, events: seq<Event>)
    requires AllSafe(replies, Start(file, journal), events)
    ensures
      var w := AfterAll(replies, Start(file, journal), events);
      w.st.phase.Asking? && LoginText(w.st.phase.session) == CredentialsOf(w.st.file).login ==>
        AllApplied(LoginText(w.st.phase.session), w.h) && !Live(w.st.journal, CredentialsOf(w.st.file))
  {
    StartFits(replies, file, journal);
    RunKeeps(replies, Start(file, journal), events);
    hide CredentialsOf, Origin, Next, Safe, AllSafe, Live, AfterAll, Start;
  }

  // A journaled reply stays on disk, ready for replay, until it is applied or
  // another login takes over.
  lemma JournaledReplySurvives(replies: Replies, file: Option<Object>, journal: Option<Journal>,
      events: seq<Event>, login: string, id: string)
    requires AllSafe(replies, Start(file, journal), events)
    ensures
      var w := AfterAll(replies, Start(file, journal), events);
      (login, id) in w.h.journaled && Some(login) == CredentialsOf(w.st.file).login && id !in w.h.commits ==>
        Live(w.st.journal, CredentialsOf(w.st.file)) && w.st.journal.value.refreshId == Some(id)
  {
    StartFits(replies, file, journal);
    RunKeeps(replies, Start(file, journal), events);
    hide CredentialsOf, Origin, Next, Safe, AllSafe, Live, AfterAll, Start, PhaseFits, Known;
    var w := AfterAll(replies, Start(file, journal), events);
    if (login, id) in w.h.journaled && Some(login) == CredentialsOf(w.st.file).login && id !in w.h.commits {
      var r := (login, id);
      assert r in w.h.journaled;
    }
  }

  // No refresh id is applied to the session twice.
  lemma AppliedAtMostOnce(replies: Replies, file: Option<Object>, journal: Option<Journal>, events: seq<Event>)
    requires AllSafe(replies, Start(file, journal), events)
    ensures Distinct(AfterAll(replies, Start(file, journal), events).h.commits)
  {
    StartFits(replies, file, journal);
    RunKeeps(replies, Start(file, journal), events);
    hide CredentialsOf, Origin, Next, Safe, AllSafe, Live, AfterAll, Start, PhaseFits;
  }

  // ---- What a committed reply leaves ----

  // The session a committed reply leaves: its tokens, the id, and every other
  // key but the token's own times and retry policy as it was.
  lemma CommitInstalls(file: Object, s: Session, t: Issued, id: string)
    requires Origin(s) && s.snapshot == Some(file)
    ensures
      var saved := Saved(Some(file), Applied(s, t, id));
      && saved.Some?
      && TextAt(saved.value, AccessToken) == Some(t.access)
      && TextAt(saved.value, RefreshToken) == (if t.refresh.Some? then t.refresh else TextAt(file, RefreshToken))
      && TextAt(saved.value, RefreshJournalId) == Some(id)
      && forall k | k !in TOKEN_KEYS :: Get(saved.value, k) == Get(file, k)
  {
    var next := Applied(s, t, id);
    AppliedSession(s, t, id);
    AppliedRenders(s, t, id);
    SessionMerge.CommitIsDelta(file, next, Some(Text(LoginText(s).value)));
    forall k ensures Get(Saved(Some(file), next).value, k) == if Rendered(next, k) != Rendered(s, k) then Rendered(next, k) else Get(file, k) {
      SessionMerge.DeltaIsTheEdits(file, s, next, k);
      SessionMerge.AppliedAt(file, SessionMerge.DeltaOf(next), k);
    }
    RenderedTokens(file, s);
    hide Rendered, Applied, Parse, Saved, SessionMerge.DeltaOf, Origin, ToJson;
    GetText(Saved(Some(file), next).value, file);
  }

  const TOKEN_KEYS := {AccessToken, RefreshToken, RefreshJournalId, DurationUntilRefreshInSec, TokenIssueTimeEpochSec, RefreshApiRetryPolicy}

  lemma AppliedRenders(s: Session, t: Issued, id: string)
    requires Origin(s)
    ensures
      var next := Applied(s, t, id);
      && Rendered(next, AccessToken) == Some(Text(t.access))
      && Rendered(next, RefreshToken) == Some(Text(if t.refresh.Some? then t.refresh.value else s.texts[RefreshToken]))
      && forall k | k !in TOKEN_KEYS :: Rendered(next, k) == Rendered(s, k)
  {
    hide Parse;
  }

  lemma RenderedTokens(file: Object, s: Session)
    requires Parse(file) == Some(s)
    ensures forall k | k in s.texts :: KindOf(k) == TextField && Rendered(s, k) == Some(Text(s.texts[k]))
    ensures forall k | k in s.texts :: Get(file, k) == Some(Text(s.texts[k]))
    ensures RefreshJournalId !in s.texts ==> Rendered(s, RefreshJournalId) == None
  {
    hide Coerce, FIELDS;
  }

  lemma GetText(saved: Object, file: Object)
    ensures forall k, v :: Get(saved, k) == Some(Text(v)) ==> TextAt(saved, k) == Some(v)
    ensures forall k, v :: Get(file, k) == Some(Text(v)) ==> TextAt(file, k) == Some(v)
  {
  }

  lemma SavedAt(file: Object, s: Session, t: Issued, id: string, k: Key)
    requires Origin(s) && s.snapshot == Some(file)
    ensures var next := Applied(s, t, id); var saved := Saved(Some(file), next);
      saved.Some? && Get(saved.value, k) == if Rendered(next, k) != Rendered(s, k) then Rendered(next, k) else Get(file, k)
  {
    AppliedSession(s, t, id);
    var next := Applied(s, t, id);
    SessionMerge.CommitIsDelta(file, next, Some(Text(LoginText(s).value)));
    SessionMerge.DeltaIsTheEdits(file, s, next, k);
    SessionMerge.AppliedAt(file, SessionMerge.DeltaOf(next), k);
    hide Rendered, Applied, Parse, Saved, SessionMerge.DeltaOf, SessionMerge.ApplyDelta, ToJson, Baseline;
  }

  // The times a committed reply leaves are the reply's own,
  lemma CommitInstallsTimes(file: Object, s: Session, t: Issued, id: string, k: Key)
    requires Origin(s) && s.snapshot == Some(file) && k in {DurationUntilRefreshInSec, TokenIssueTimeEpochSec}
    requires INT64_MIN <= t.duration <= INT64_MAX && INT64_MIN <= t.issueTime <= INT64_MAX
    ensures var saved := Saved(Some(file), Applied(s, t, id));
      saved.Some? && Coerce(Get(saved.value, k)) == if k == DurationUntilRefreshInSec then t.duration else t.issueTime
  {
    assert Parse(file) == Some(s) && KindOf(k) == IntTextField;
    hide Rendered, Applied, Parse, Saved, Coerce, Decimal, Origin, Get, FIELDS, KindOf;
    TimesApplied(s, t, id);
    TimeLoaded(file, s, k);
    TimeInstalled(file, s, t, id, k, if k == DurationUntilRefreshInSec then t.duration else t.issueTime);
  }

  // and so is the retry policy.
  lemma CommitInstallsPolicy(file: Object, s: Session, t: Issued, id: string)
    requires Origin(s) && s.snapshot == Some(file)
    ensures var saved := Saved(Some(file), Applied(s, t, id));
      saved.Some? && Get(saved.value, RefreshApiRetryPolicy) == t.policy
  {
    assert Parse(file) == Some(s);
    hide Rendered, Applied, Parse, Saved, Origin, Get;
    TimesApplied(s, t, id);
    PolicyLoaded(file, s);
    SavedAt(file, s, t, id, RefreshApiRetryPolicy);
  }

  lemma TimeInstalled(file: Object, s: Session, t: Issued, id: string, k: Key, time: int)
    requires Origin(s) && s.snapshot == Some(file) && INT64_MIN <= time <= INT64_MAX
    requires Rendered(Applied(s, t, id), k) == Some(Text(Decimal(time)))
    requires Rendered(s, k) == Some(Text(Decimal(Coerce(Get(file, k)))))
    ensures Saved(Some(file), Applied(s, t, id)).Some?
    ensures Coerce(Get(Saved(Some(file), Applied(s, t, id)).value, k)) == time
  {
    hide Rendered, Applied, Parse, Saved, Coerce, Decimal, Origin, Get, FIELDS;
    SavedAt(file, s, t, id, k);
    SameTime(time, Coerce(Get(file, k)));
  }

  lemma SameTime(a: int, b: int)
    requires INT64_MIN <= a <= INT64_MAX && INT64_MIN <= b <= INT64_MAX
    ensures Coerce(Some(Text(Decimal(a)))) == a && (Decimal(a) == Decimal(b) ==> a == b)
  {
    PartialSyncs.TimeRoundTrip(a);
    PartialSyncs.TimeRoundTrip(b);
    hide Coerce, Decimal;
  }

  lemma TimesApplied(s: Session, t: Issued, id: string)
    requires Origin(s)
    ensures var next := Applied(s, t, id);
      && Rendered(next, DurationUntilRefreshInSec) == Some(Text(Decimal(t.duration)))
      && Rendered(next, TokenIssueTimeEpochSec) == Some(Text(Decimal(t.issueTime)))
      && Rendered(next, RefreshApiRetryPolicy) == t.policy
  {
    hide Parse, Decimal;
  }

  lemma TimeLoaded(file: Object, s: Session, k: Key)
    requires Parse(file) == Some(s) && KindOf(k) == IntTextField
    ensures Rendered(s, k) == Some(Text(Decimal(Coerce(Get(file, k)))))
  {
    IntLoaded(file, s, k);
    hide Coerce, Decimal, FIELDS, Parse, IntOf, Get;
  }

  lemma IntLoaded(file: Object, s: Session, k: Key)
    requires Parse(file) == Some(s) && KindOf(k) == IntTextField
    ensures IntOf(s, k) == Coerce(Get(file, k))
  {
    assert k in FIELDS;
    hide Coerce, FIELDS;
  }

  lemma PolicyLoaded(file: Object, s: Session)
    requires Parse(file) == Some(s)
    ensures Rendered(s, RefreshApiRetryPolicy) == Get(file, RefreshApiRetryPolicy)
  {
    hide Coerce, FIELDS;
  }

  // What a session file needs for a refresh to start from it.
  lemma StartableIff(file: Object)
    ensures Startable(Some(file)).Some? <==>
      && ClientIdentity in file && file[ClientIdentity].Tree?
      && TextAt(file, AccessToken).Some? && TextAt(file, RefreshToken).Some?
      && TextAt(file, LoginId).Some? && TextAt(file, LoginId) != Some("")
  {
    ParsedTexts(file, RefreshToken);
    hide Coerce, FIELDS;
  }

  lemma ParsedTexts(file: Object, k: Key)
    requires KindOf(k) == TextField
    ensures Parse(file).Some? ==> (k in Parse(file).value.texts <==> TextAt(file, k).Some?)
  {
    hide Coerce, FIELDS;
  }
}
