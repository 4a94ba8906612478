// Installing a login while replies of it are still journaled: exactly when the
// guarantees of a refresh survive it, and what happens when they do not.
module RefreshActivation {
  import opened Optional
  import opened SessionFile
  import opened TokenRefresh
  import opened RefreshSafety
  import SessionMerge

  // No request over a reply that waits to be applied, and no reply applied twice.
  ghost predicate Quiet(w: World) {
    && (AsksForCurrentLogin(w) ==>
          AllApplied(LoginText(w.st.phase.session), w.h) && !Live(w.st.journal, CredentialsOf(w.st.file)))
    && Distinct(w.h.commits)
  }

  predicate AsksForCurrentLogin(w: World) {
    w.st.phase.Asking? && LoginText(w.st.phase.session) == CredentialsOf(w.st.file).login
  }

  predicate NoLogin(events: seq<Event>) {
    forall e | e in events :: !e.Login?
  }

  // Whatever happens before another login is installed, all is quiet.
  ghost predicate StaysQuiet(replies: Replies, w: World) {
    forall events | NoLogin(events) && AllPossible(replies, w, events) :: Quiet(AfterAll(replies, w, events))
  }

  // The reply in the journal, if any, reads as a token result,
  predicate Readable(replies: Replies, journal: Option<Journal>) {
    journal.Some? && journal.value.body.Some? ==> replies.parse(journal.value.body.value).Some?
  }

  // and so does the reply that waits to be journaled or applied.
  predicate ReadableInHand(replies: Replies, phase: Phase) {
    phase.Holding? || phase.Journaled? ==> replies.parse(phase.body).Some?
  }

  // ---- Runs put together ----

  lemma {:induction false} RunAppend(replies: Replies, w: World, a: seq<Event>, b: seq<Event>)
    ensures AfterAll(replies, w, a + b) == AfterAll(replies, AfterAll(replies, w, a), b)
    ensures AllPossible(replies, w, a) && AllPossible(replies, AfterAll(replies, w, a), b) ==> AllPossible(replies, w, a + b)
    ensures AllSafe(replies, w, a) && AllSafe(replies, AfterAll(replies, w, a), b) ==> AllSafe(replies, w, a + b)
    decreases |a|
  {
    hide Next, Possible, Safe;
    if a == [] {
      assert a + b == b;
    } else {
      assert (a + b)[0] == a[0] && (a + b)[1..] == a[1..] + b;
      RunAppend(replies, Next(replies, w, a[0]), a[1..], b);
    }
  }

  lemma Single(replies: Replies, w: World, e: Event)
    ensures AfterAll(replies, w, [e]) == Next(replies, w, e)
    ensures Possible(w, e) ==> AllPossible(replies, w, [e])
    ensures Safe(replies, w, e) ==> AllSafe(replies, w, [e])
  {
    hide Next, Possible, Safe;
    assert [e][1..] == [];
    assert AllPossible(replies, Next(replies, w, e), []) && AllSafe(replies, Next(replies, w, e), []);
    assert AfterAll(replies, Next(replies, w, e), []) == Next(replies, w, e);
  }

  // One more event at the end of a run.
  lemma Then(replies: Replies, w: World, events: seq<Event>, e: Event)
    ensures AfterAll(replies, w, events + [e]) == Next(replies, AfterAll(replies, w, events), e)
    ensures AllPossible(replies, w, events) && Possible(AfterAll(replies, w, events), e) ==> AllPossible(replies, w, events + [e])
    ensures AllSafe(replies, w, events) && Safe(replies, AfterAll(replies, w, events), e) ==> AllSafe(replies, w, events + [e])
  {
    hide Next, Possible, Safe;
    RunAppend(replies, w, events, [e]);
    Single(replies, AfterAll(replies, w, events), e);
  }

  lemma Pair(replies: Replies, w: World, a: Event, b: Event)
    ensures AfterAll(replies, w, [a, b]) == Next(replies, Next(replies, w, a), b)
    ensures Possible(w, a) && Possible(Next(replies, w, a), b) ==> AllPossible(replies, w, [a, b])
    ensures Safe(replies, w, a) && Safe(replies, Next(replies, w, a), b) ==> AllSafe(replies, w, [a, b])
  {
    hide Next, Possible, Safe;
    assert [a] + [b] == [a, b];
    Single(replies, w, a);
    Then(replies, w, [a], b);
  }

  lemma {:induction false} WithoutLogins(replies: Replies, w: World, events: seq<Event>)
    requires NoLogin(events) && AllPossible(replies, w, events)
    ensures AllSafe(replies, w, events)
    decreases |events|
  {
    hide Next, Possible, Harmless;
    if events != [] {
      assert events[0] in events;
      WithoutLogins(replies, Next(replies, w, events[0]), events[1..]);
    }
  }

  // A refresh id that was never used.
  lemma NewId(ids: set<string>) returns (id: string)
    ensures id !in ids
  {
    var n := LongerThanAll(ids);
    id := seq(n, i => '0');
  }

  lemma LongerThanAll(ids: set<string>) returns (n: nat)
    ensures forall id | id in ids :: |id| < n
    decreases |ids|
  {
    n := 0;
    if ids != {} {
      var id :| id in ids;
      var m := LongerThanAll(ids - {id});
      n := if m > |id| then m else |id| + 1;
    }
  }

  // One bad continuation is enough.
  lemma NowLoud(replies: Replies, w: World)
    requires !Quiet(w)
    ensures !StaysQuiet(replies, w)
  {
    hide Quiet;
    assert NoLogin([]) && AllPossible(replies, w, []);
    assert AfterAll(replies, w, []) == w;
  }

  lemma BackFrom(replies: Replies, w: World, e: Event)
    requires Possible(w, e) && !e.Login? && !StaysQuiet(replies, Next(replies, w, e))
    ensures !StaysQuiet(replies, w)
  {
    hide Quiet, Next, Possible;
    var next := Next(replies, w, e);
    var events :| NoLogin(events) && AllPossible(replies, next, events) && !Quiet(AfterAll(replies, next, events));
    Single(replies, w, e);
    RunAppend(replies, w, [e], events);
    assert NoLogin([e] + events);
  }

  // ---- From a bad installation to a bad run ----

  // A reply of login (l) under refresh id (i) that was journaled and not applied.
  predicate Pending(h: History, l: string, i: string) {
    (l, i) in h.journaled && i !in h.commits
  }

  // The process stands between refreshes over a session it can refresh, and a
  // reply of the current login is pending.
  predicate Owes(w: World, l: string, i: string) {
    && w.st.phase.Idle? && Startable(w.st.file).Some? && Pending(w.h, l, i)
    && CredentialsOf(w.st.file).login == Some(l)
  }

  lemma Begins(replies: Replies, w: World)
    requires w.st.phase.Idle? && Startable(w.st.file).Some?
    ensures var s := Startable(w.st.file).value;
      && Next(replies, w, Begin) == World(w.st.(phase := Loaded(s)), w.h)
      && Origin(s) && s.snapshot == w.st.file && Usable(s) && LoginText(s) == CredentialsOf(w.st.file).login
      && LoginText(s).Some?
  {
    BeginsAtOrigin(w.st.file);
    OriginTexts(Startable(w.st.file).value);
    hide Parse, Origin, CredentialsOf;
  }

  lemma Recovers(replies: Replies, w: World, s: Session, freshId: string)
    requires w.st.phase == Loaded(s) && Usable(s)
    ensures freshId !in w.h.ids ==> Possible(w, Recover(freshId, Written))
    ensures Next(replies, w, Recover(freshId, Written)) ==
      World(AfterVerdict(w.st, s, Decide(replies, w.st.journal, s, freshId), freshId, Written), w.h.(ids := w.h.ids + {freshId}))
  {
    hide Decide, AfterVerdict;
  }

  lemma LookIsPossible(replies: Replies, w: World, f: string)
    requires f !in w.h.ids
    ensures Possible(w, Begin) && Possible(Next(replies, w, Begin), Recover(f, Written))
  {
    hide Startable;
  }

  // A refresh that finds no journal asks the server.
  lemma Asks(replies: Replies, w: World, f: string) returns (next: World)
    requires w.st.phase.Idle? && Startable(w.st.file).Some? && w.st.journal.None? && f !in w.h.ids
    ensures Possible(w, Begin) && Possible(Next(replies, w, Begin), Recover(f, Written))
    ensures next == Next(replies, Next(replies, w, Begin), Recover(f, Written))
    ensures next == World(w.st.(phase := Asking(Startable(w.st.file).value, f)), w.h.(ids := w.h.ids + {f}))
    ensures AsksForCurrentLogin(next)
  {
    hide Next, Possible, Startable, CredentialsOf, LoginText, Origin;
    Begins(replies, w);
    LookIsPossible(replies, w, f);
    Recovers(replies, Next(replies, w, Begin), Startable(w.st.file).value, f);
    next := Next(replies, Next(replies, w, Begin), Recover(f, Written));
  }

  // The next refresh over a pending reply that no journal holds asks over it.
  lemma AsksAgain(replies: Replies, w: World, l: string, i: string)
    requires Owes(w, l, i) && w.st.journal.None?
    ensures !StaysQuiet(replies, w)
  {
    hide Next, Possible, Startable, CredentialsOf, LoginText, Quiet, StaysQuiet;
    var f := NewId(w.h.ids);
    var w2 := Asks(replies, w, f);
    StillOwed(w2, l, i);
    NowLoud(replies, w2);
    BackFrom(replies, Next(replies, w, Begin), Recover(f, Written));
    BackFrom(replies, w, Begin);
  }

  lemma StillOwed(w: World, l: string, i: string)
    requires AsksForCurrentLogin(w) && CredentialsOf(w.st.file).login == Some(l) && Pending(w.h, l, i)
    ensures !Quiet(w)
  {
    var r := (l, i);
    assert r in w.h.journaled;
  }

  lemma StartsReplay(replies: Replies, w: World, f: string)
    requires w.st.phase.Idle? && Startable(w.st.file).Some? && f !in w.h.ids
    requires w.st.journal.Some? && Complete(w.st.journal.value) && Live(w.st.journal, CredentialsOf(w.st.file))
    ensures
      var s, j, w1 := Startable(w.st.file).value, w.st.journal.value, Next(replies, w, Begin);
      && Possible(w, Begin) && Possible(w1, Recover(f, Written)) && Origin(s) && s.snapshot == w.st.file && Usable(s)
      && LoginText(s).Some?
      && Next(replies, w1, Recover(f, Written)) ==
           World(w.st.(phase := Holding(s, j.refreshId.value, j.body.value)), w.h.(ids := w.h.ids + {f}))
  {
    var s, j := Startable(w.st.file).value, w.st.journal.value;
    hide Next, Possible, Startable, Decide, CredentialsOf, LoginText, Live, Origin, Usable;
    Begins(replies, w);
    LookIsPossible(replies, w, f);
    DecideFits(replies, w.st.journal, s, f);
    Recovers(replies, Next(replies, w, Begin), s, f);
    ReplayDecided(replies, j, s, f);
  }

  lemma FinishesReplay(replies: Replies, w: World, s: Session, id: string, body: string)
    requires w.st.phase == Holding(s, id, body) && Origin(s) && s.snapshot == w.st.file && Usable(s) && LoginText(s).Some?
    requires replies.parse(body).Some? && Startable(w.st.file).Some?
    ensures
      var w3 := Next(replies, w, WriteJournal(Written));
      var end := Next(replies, w3, Commit(Written));
      && Possible(w, WriteJournal(Written)) && Possible(w3, Commit(Written))
      && end.h.commits == w.h.commits + [id] && w.h.journaled <= end.h.journaled && end.st.phase.Committed?
      && Startable(end.st.file).Some? && CredentialsOf(end.st.file).login == CredentialsOf(w.st.file).login
  {
    Journals(replies, w, s, id, body);
    var w3 := Next(replies, w, WriteJournal(Written));
    assert Possible(w, WriteJournal(Written)) && Possible(w3, Commit(Written));
    Commits(replies, w3, s, id, body);
    hide Next, Possible, Startable, CredentialsOf, LoginText, Origin, Usable;
  }

  lemma ReplayDecided(replies: Replies, j: Journal, s: Session, freshId: string)
    requires Usable(s) && j.refreshId.Some? && j.body.Some? && Decide(replies, Some(j), s, freshId).Replay?
    ensures Decide(replies, Some(j), s, freshId) == Replay(j.refreshId.value, j.body.value)
  {
  }

  lemma Journals(replies: Replies, w: World, s: Session, id: string, body: string)
    requires w.st.phase == Holding(s, id, body) && Usable(s) && LoginText(s).Some?
    ensures Next(replies, w, WriteJournal(Written)) ==
      World(State(w.st.file, Some(Record(s, id, body)), Journaled(s, id, body)),
            w.h.(journaled := w.h.journaled + {(LoginText(s).value, id)}))
    ensures Possible(w, WriteJournal(Written))
  {
  }

  lemma Commits(replies: Replies, w: World, s: Session, id: string, body: string)
    requires w.st.phase == Journaled(s, id, body) && Origin(s) && s.snapshot == w.st.file && replies.parse(body).Some?
    requires Startable(w.st.file).Some?
    ensures
      var end := Next(replies, w, Commit(Written));
      && end.h == w.h.(commits := w.h.commits + [id]) && end.st.phase == Committed(s) && end.st.journal == w.st.journal
      && Startable(end.st.file).Some? && CredentialsOf(end.st.file).login == CredentialsOf(w.st.file).login
  {
    var file, t := w.st.file.value, replies.parse(body).value;
    CommitInstalls(file, s, t, id);
    var saved := Saved(Some(file), Applied(s, t, id)).value;
    CommitStep(replies, w, s, id, body);
    StaysStartable(file, saved);
    hide Next, Startable, Saved, Applied, Parse, Origin, TextAt, Get;
  }

  lemma CommitStep(replies: Replies, w: World, s: Session, id: string, body: string)
    requires w.st.phase == Journaled(s, id, body) && replies.parse(body).Some?
    requires Saved(w.st.file, Applied(s, replies.parse(body).value, id)).Some?
    ensures Next(replies, w, Commit(Written)) ==
      World(State(Saved(w.st.file, Applied(s, replies.parse(body).value, id)), w.st.journal, Committed(s)),
            w.h.(commits := w.h.commits + [id]))
  {
    hide Saved, Applied;
  }

  lemma StaysStartable(file: Object, saved: Object)
    requires Startable(Some(file)).Some? && TextAt(saved, AccessToken).Some?
    requires TextAt(file, RefreshToken).Some? ==> TextAt(saved, RefreshToken).Some?
    requires forall k | k !in TOKEN_KEYS :: Get(saved, k) == Get(file, k)
    ensures Startable(Some(saved)).Some? && TextAt(saved, LoginId) == TextAt(file, LoginId)
  {
    StartableIff(file);
    StartableIff(saved);
    hide Startable, Parse;
    assert Get(saved, LoginId) == Get(file, LoginId) && Get(saved, ClientIdentity) == Get(file, ClientIdentity);
  }

  // A pending reply that the journal does not hold ready for this session ends in
  // a request over it: the journal is first replayed,
  lemma OwedAfterReplay(replies: Replies, w: World, l: string, i: string)
    requires Owes(w, l, i) && w.st.journal.Some? && Complete(w.st.journal.value)
    requires Live(w.st.journal, CredentialsOf(w.st.file))
    requires w.st.journal.value.refreshId != Some(i) && Readable(replies, w.st.journal)
    ensures !StaysQuiet(replies, w)
  {
    hide Next, Possible, Startable, CredentialsOf, LoginText, StaysQuiet, Live, Origin, Usable;
    var f := NewId(w.h.ids);
    var j := w.st.journal.value;
    StartsReplay(replies, w, f);
    var w2 := Next(replies, Next(replies, w, Begin), Recover(f, Written));
    FinishesReplay(replies, w2, Startable(w.st.file).value, j.refreshId.value, j.body.value);
    var w3 := Next(replies, w2, WriteJournal(Written));
    var w4 := Next(replies, w3, Commit(Written));
    Unlinks(replies, w4);
    AsksAgain(replies, Next(replies, w4, Unlink(true)), l, i);
    BackFrom(replies, w4, Unlink(true));
    BackFrom(replies, w3, Commit(Written));
    BackFrom(replies, w2, WriteJournal(Written));
    BackFrom(replies, Next(replies, w, Begin), Recover(f, Written));
    BackFrom(replies, w, Begin);
  }

  // or dropped.
  lemma OwedAfterLooking(replies: Replies, w: World, l: string, i: string)
    requires Owes(w, l, i) && (w.st.journal.Some? ==> Complete(w.st.journal.value))
    requires !Live(w.st.journal, CredentialsOf(w.st.file))
    ensures !StaysQuiet(replies, w)
  {
    hide Next, Possible, Startable, CredentialsOf, LoginText, Quiet, StaysQuiet, Live;
    var f := NewId(w.h.ids);
    var w2 := Looks(replies, w, f);
    if w2.st.phase.Asking? {
      StillOwed(w2, l, i);
      NowLoud(replies, w2);
    } else {
      AsksAgain(replies, w2, l, i);
    }
    BackFrom(replies, Next(replies, w, Begin), Recover(f, Written));
    BackFrom(replies, w, Begin);
  }

  lemma Looks(replies: Replies, w: World, f: string) returns (next: World)
    requires w.st.phase.Idle? && Startable(w.st.file).Some? && f !in w.h.ids
    requires w.st.journal.Some? ==> Complete(w.st.journal.value)
    requires !Live(w.st.journal, CredentialsOf(w.st.file))
    ensures Possible(w, Begin) && Possible(Next(replies, w, Begin), Recover(f, Written))
    ensures next == Next(replies, Next(replies, w, Begin), Recover(f, Written))
    ensures next.h == w.h.(ids := w.h.ids + {f}) && next.st.file == w.st.file && next.st.journal.None?
    ensures next.st.phase.Idle? ||
      (next.st.phase.Asking? && LoginText(next.st.phase.session) == CredentialsOf(w.st.file).login)
  {
    var s := Startable(w.st.file).value;
    hide Next, Possible, Startable, CredentialsOf, LoginText, Live, Origin, Usable, Decide;
    Begins(replies, w);
    LookIsPossible(replies, w, f);
    DecideFits(replies, w.st.journal, s, f);
    Recovers(replies, Next(replies, w, Begin), s, f);
    next := Next(replies, Next(replies, w, Begin), Recover(f, Written));
    Dropped(replies, w.st.journal, s, f);
  }

  lemma Dropped(replies: Replies, journal: Option<Journal>, s: Session, f: string)
    requires Usable(s) && (journal.Some? ==> Complete(journal.value)) && !Decide(replies, journal, s, f).Replay?
    ensures var v := Decide(replies, journal, s, f); v.Retire? || (v.Ask? && journal.None?)
  {
    hide LoginText;
  }

  // Whatever was in progress: the process may die, and start again from there.
  lemma PendingIsAskedAgain(replies: Replies, w: World, l: string, i: string)
    requires Startable(w.st.file).Some? && CredentialsOf(w.st.file).login == Some(l) && Pending(w.h, l, i)
    requires w.st.journal.Some? ==> Complete(w.st.journal.value)
    requires Live(w.st.journal, CredentialsOf(w.st.file)) ==>
      w.st.journal.value.refreshId != Some(i) && Readable(replies, w.st.journal)
    ensures !StaysQuiet(replies, w)
  {
    hide Possible, Next, StaysQuiet, Startable, CredentialsOf, Live;
    var w1 := Crashes(replies, w);
    LiveHasBody(w.st.journal, CredentialsOf(w.st.file));
    if Live(w.st.journal, CredentialsOf(w.st.file)) {
      OwedAfterReplay(replies, w1, l, i);
    } else {
      OwedAfterLooking(replies, w1, l, i);
    }
    BackFrom(replies, w, Crash);
  }

  // A journal that offers an applied reply again ends in applying it twice.
  lemma AppliedIsAppliedAgain(replies: Replies, w: World)
    requires Startable(w.st.file).Some?
    requires w.st.journal.Some? && Complete(w.st.journal.value) && Live(w.st.journal, CredentialsOf(w.st.file))
    requires HoldsApplied(w.st.journal.value, w.h) && Readable(replies, w.st.journal)
    ensures !StaysQuiet(replies, w)
  {
    hide Next, Possible, Startable, CredentialsOf, LoginText, StaysQuiet, Quiet, Live, Origin, Usable;
    var w0 := Crashes(replies, w);
    var f := NewId(w0.h.ids);
    var j := w.st.journal.value;
    StartsReplay(replies, w0, f);
    var w2 := Next(replies, Next(replies, w0, Begin), Recover(f, Written));
    FinishesReplay(replies, w2, Startable(w.st.file).value, j.refreshId.value, j.body.value);
    var w3 := Next(replies, w2, WriteJournal(Written));
    var w4 := Next(replies, w3, Commit(Written));
    Repeated(w4, w.h.commits, j.refreshId.value);
    NowLoud(replies, w4);
    BackFrom(replies, w3, Commit(Written));
    BackFrom(replies, w2, WriteJournal(Written));
    BackFrom(replies, Next(replies, w0, Begin), Recover(f, Written));
    BackFrom(replies, w0, Begin);
    BackFrom(replies, w, Crash);
  }

  lemma Repeated(w: World, commits: seq<string>, id: string)
    requires w.h.commits == commits + [id] && id in commits
    ensures !Quiet(w)
  {
    var n :| 0 <= n < |commits| && commits[n] == id;
    assert w.h.commits[n] == id == w.h.commits[|commits|];
    hide AsksForCurrentLogin, AllApplied, Live;
  }

  // ---- A refresh of another login, caught by the installation ----

  predicate Intrudes(phase: Phase, l: string) {
    && SessionOf(phase).Some? && !phase.Journaled? && Origin(SessionOf(phase).value)
    && LoginText(SessionOf(phase).value) != Some(l)
  }

  // It goes on and destroys the journal of the login that was installed.
  lemma IntruderLosesIt(replies: Replies, w: World, l: string, i: string)
    requires Startable(w.st.file).Some? && CredentialsOf(w.st.file).login == Some(l) && Pending(w.h, l, i)
    requires Intrudes(w.st.phase, l)
    requires w.st.journal.Some? && Complete(w.st.journal.value) && w.st.journal.value.loginId == Some(l)
    ensures !StaysQuiet(replies, w)
  {
    hide Possible, Next, StaysQuiet, Startable, CredentialsOf, Origin, LoginText, Decide, Usable, Live;
    var s := SessionOf(w.st.phase).value;
    OriginTexts(s);
    match w.st.phase {
      case Loaded(_) =>
        var f := NewId(w.h.ids);
        OtherLoginsJournal(replies, w.st.journal.value, s, l, f);
        Recovers(replies, w, s, f);
        var w1 := Next(replies, w, Recover(f, Written));
        NotLiveForOthers(w1, l);
        PendingIsAskedAgain(replies, w1, l, i);
        BackFrom(replies, w, Recover(f, Written));
      case Asking(_, id) =>
        Answers(replies, w, "");
        var w2 := Next(replies, Next(replies, w, Send), Receive(Some("")));
        IntruderJournals(replies, w2, s, id, "", l, i);
        BackFrom(replies, Next(replies, w, Send), Receive(Some("")));
        BackFrom(replies, w, Send);
      case Waiting(_, id) =>
        Answered(replies, w, "");
        IntruderJournals(replies, Next(replies, w, Receive(Some(""))), s, id, "", l, i);
        BackFrom(replies, w, Receive(Some("")));
      case Holding(_, id, body) => IntruderJournals(replies, w, s, id, body, l, i);
      case Committed(_) =>
        Unlinks(replies, w);
        var w1 := Next(replies, w, Unlink(true));
        NotLiveForOthers(w1, l);
        PendingIsAskedAgain(replies, w1, l, i);
        BackFrom(replies, w, Unlink(true));
    }
  }

  lemma IntruderJournals(replies: Replies, w: World, s: Session, id: string, body: string, l: string, i: string)
    requires Startable(w.st.file).Some? && CredentialsOf(w.st.file).login == Some(l) && Pending(w.h, l, i)
    requires w.st.phase == Holding(s, id, body) && Usable(s) && LoginText(s).Some? && LoginText(s) != Some(l)
    ensures !StaysQuiet(replies, w)
  {
    hide Possible, Next, StaysQuiet, Startable, CredentialsOf, LoginText, Live, Usable;
    Journals(replies, w, s, id, body);
    var w1 := Next(replies, w, WriteJournal(Written));
    NotLiveForOthers(w1, l);
    PendingIsAskedAgain(replies, w1, l, i);
    BackFrom(replies, w, WriteJournal(Written));
  }

  lemma NotLiveForOthers(w: World, l: string)
    requires w.st.journal.Some? ==> w.st.journal.value.loginId.Some? && w.st.journal.value.loginId != Some(l)
    requires CredentialsOf(w.st.file).login == Some(l)
    ensures !Live(w.st.journal, CredentialsOf(w.st.file))
  {
    hide CredentialsOf;
  }

  lemma Answers(replies: Replies, w: World, body: string)
    requires w.st.phase.Asking?
    ensures Next(replies, Next(replies, w, Send), Receive(Some(body))) ==
      World(w.st.(phase := Holding(w.st.phase.session, w.st.phase.id, body)), w.h)
    ensures Next(replies, w, Send) == World(w.st.(phase := Waiting(w.st.phase.session, w.st.phase.id)), w.h)
    ensures Possible(w, Send) && Possible(Next(replies, w, Send), Receive(Some(body)))
  {
  }

  lemma Answered(replies: Replies, w: World, body: string)
    requires w.st.phase.Waiting?
    ensures Next(replies, w, Receive(Some(body))) == World(w.st.(phase := Holding(w.st.phase.session, w.st.phase.id, body)), w.h)
    ensures Possible(w, Receive(Some(body)))
  {
  }

  lemma OtherLoginsJournal(replies: Replies, j: Journal, s: Session, l: string, freshId: string)
    requires Usable(s) && LoginText(s).Some? && LoginText(s) != Some(l) && j.loginId == Some(l)
    ensures Decide(replies, Some(j), s, freshId) == Retire(true)
  {
    hide LoginText;
  }

  lemma Unlinks(replies: Replies, w: World)
    requires w.st.phase.Committed?
    ensures Next(replies, w, Unlink(true)) == World(State(w.st.file, None, Idle), w.h) && Possible(w, Unlink(true))
  {
  }

  // ---- A refresh of the same login, caught by the installation ----

  // What holds of a refresh in progress whoever is logged in.
  predicate Underway(w: World, s: Session) {
    && SessionOf(w.st.phase) == Some(s) && Origin(s) && LoginText(s) == CredentialsOf(w.st.file).login
    && (IdOf(w.st.phase).Some? ==> IdOf(w.st.phase) != CredentialsOf(s.snapshot).applied)
    && (w.st.phase.Asking? || w.st.phase.Waiting? ==>
          w.st.phase.id !in w.h.commits && forall r | r in w.h.journaled :: r.1 != w.st.phase.id)
  }

  // The reply in hand is not what the installed session will ask for, or it was
  // applied before, or another one is pending.
  lemma HoldingIsLoud(replies: Replies, w: World, s: Session, id: string, body: string)
    requires Startable(w.st.file).Some? && w.st.phase == Holding(s, id, body) && Underway(w, s)
    requires var c := CredentialsOf(w.st.file);
      !(CredentialsOf(s.snapshot).refresh == c.refresh && c.applied != Some(id) && id !in w.h.commits && OnlyPending(c.login, id, w.h))
    requires id in w.h.commits || !OnlyPending(CredentialsOf(w.st.file).login, id, w.h) ==> replies.parse(body).Some?
    ensures !StaysQuiet(replies, w)
  {
    hide Possible, Next, StaysQuiet, Startable, CredentialsOf, LoginText, Origin, Usable;
    OriginTexts(s);
    Journals(replies, w, s, id, body);
    var w1, l := Next(replies, w, WriteJournal(Written)), LoginText(s).value;
    if id in w.h.commits {
      CommitsTwice(replies, w1, s, id, body);
    } else if !OnlyPending(Some(l), id, w.h) {
      var r :| r in w.h.journaled && Some(r.0) == Some(l) && r.1 !in w.h.commits && r.1 != id;
      assert (l, r.1) == r;
      PendingIsAskedAgain(replies, w1, l, r.1);
    } else {
      PendingIsAskedAgain(replies, w1, l, id);
    }
    BackFrom(replies, w, WriteJournal(Written));
  }

  lemma CommitsTwice(replies: Replies, w: World, s: Session, id: string, body: string)
    requires w.st.phase == Journaled(s, id, body) && Origin(s) && LoginText(s) == CredentialsOf(w.st.file).login
    requires id in w.h.commits && replies.parse(body).Some?
    ensures !StaysQuiet(replies, w)
  {
    hide Possible, Next, StaysQuiet, Quiet;
    CommitIsAccepted(w.st.file, s, replies.parse(body).value, id);
    hide CredentialsOf, LoginText, Origin, Saved, Applied;
    CommitStep(replies, w, s, id, body);
    CommitIsPossible(w);
    Repeated(Next(replies, w, Commit(Written)), w.h.commits, id);
    NowLoud(replies, Next(replies, w, Commit(Written)));
    BackFrom(replies, w, Commit(Written));
  }

  lemma CommitIsPossible(w: World)
    ensures Possible(w, Commit(Written))
  {
  }

  lemma CommitIsAccepted(file: Option<Object>, s: Session, t: Issued, id: string)
    requires Origin(s) && LoginText(s) == CredentialsOf(file).login
    ensures Saved(file, Applied(s, t, id)).Some?
  {
    AppliedSession(s, t, id);
    SessionMerge.LoginIdIsCarried(s);
    hide Applied, Merge, ToJson, Parse;
  }

  lemma WaitingIsLoud(replies: Replies, w: World, s: Session, id: string)
    requires Startable(w.st.file).Some? && w.st.phase == Waiting(s, id) && Underway(w, s)
    requires Survives(CredentialsOf(w.st.file), w.st.journal, w.h) && Readable(replies, w.st.journal)
    requires !InStep(replies, CredentialsOf(w.st.file), w.st.journal, w.st.phase, w.h)
    ensures !StaysQuiet(replies, w)
  {
    var body := if w.st.journal.Some? && w.st.journal.value.body.Some? then w.st.journal.value.body.value else "";
    hide Possible, Next, StaysQuiet, Startable, CredentialsOf, LoginText, Origin;
    Answered(replies, w, body);
    HoldingIsLoud(replies, Next(replies, w, Receive(Some(body))), s, id, body);
    BackFrom(replies, w, Receive(Some(body)));
  }

  lemma AskingIsLoud(replies: Replies, w: World, s: Session, id: string)
    requires Startable(w.st.file).Some? && w.st.phase == Asking(s, id) && Underway(w, s)
    requires Survives(CredentialsOf(w.st.file), w.st.journal, w.h) && Readable(replies, w.st.journal)
    requires !InStep(replies, CredentialsOf(w.st.file), w.st.journal, w.st.phase, w.h)
    ensures !StaysQuiet(replies, w)
  {
    hide Possible, Next, StaysQuiet, Startable, CredentialsOf, LoginText, Origin, Live;
    if !AllApplied(LoginText(s), w.h) || Live(w.st.journal, CredentialsOf(w.st.file)) {
      NowLoud(replies, w);
    } else {
      Answers(replies, w, "");
      WaitingIsLoud(replies, Next(replies, w, Send), s, id);
      BackFrom(replies, w, Send);
    }
  }

  lemma LoadedIsLoud(replies: Replies, w: World, s: Session)
    requires Startable(w.st.file).Some? && w.st.phase == Loaded(s) && Underway(w, s)
    requires Survives(CredentialsOf(w.st.file), w.st.journal, w.h) && Readable(replies, w.st.journal)
    requires w.h.journaled != {} && w.st.journal.Some? ==> Complete(w.st.journal.value)
    requires w.st.journal.Some? && HoldsApplied(w.st.journal.value, w.h) ==> w.h.journaled != {}
    requires CredentialsOf(s.snapshot).applied.Some? ==> CredentialsOf(s.snapshot).applied.value in w.h.ids
    requires forall r | r in w.h.journaled :: r.1 in w.h.ids
    requires forall k | k in w.h.commits :: k in w.h.ids
    requires !InStep(replies, CredentialsOf(w.st.file), w.st.journal, w.st.phase, w.h)
    ensures !StaysQuiet(replies, w)
  {
    hide Possible, Next, StaysQuiet, Startable, CredentialsOf, LoginText, Origin, Usable, Decide, Live;
    var f := NewId(w.h.ids);
    var own := CredentialsOf(s.snapshot);
    OriginTexts(s);
    DecideFits(replies, w.st.journal, s, f);
    Recovers(replies, w, s, f);
    var w1 := Next(replies, w, Recover(f, Written));
    if Live(w.st.journal, own) {
      LiveHasBody(w.st.journal, own);
      ReplayBody(replies, w.st.journal.value, s, f);
      HoldingIsLoud(replies, w1, s, w1.st.phase.id, w1.st.phase.body);
    } else if !AllApplied(LoginText(s), w.h) {
      var r :| r in w.h.journaled && Some(r.0) == LoginText(s) && r.1 !in w.h.commits;
      assert (r.0, r.1) == r;
      Dropped(replies, w.st.journal, s, f);
      LiveHasBody(w.st.journal, CredentialsOf(w.st.file));
      NotLiveForOthers(w1, r.0);
      PendingIsAskedAgain(replies, w1, r.0, r.1);
    } else {
      NotLiveForOthers(w1, LoginText(s).value);
      AskingIsLoud(replies, w1, s, f);
    }
    BackFrom(replies, w, Recover(f, Written));
  }

  lemma LiveHasBody(journal: Option<Journal>, c: Credentials)
    ensures Live(journal, c) ==> journal.Some? && journal.value.body.Some?
  {
  }

  lemma ReplayBody(replies: Replies, j: Journal, s: Session, freshId: string)
    requires Usable(s) && j.body.Some? && Decide(replies, Some(j), s, freshId).Replay?
    ensures Decide(replies, Some(j), s, freshId) ==
      Replay(if j.refreshId.Some? then j.refreshId.value else freshId, j.body.value)
  {
  }

  lemma UnderwayIsLoud(replies: Replies, w: World, s: Session)
    requires Startable(w.st.file).Some? && Underway(w, s)
    requires Survives(CredentialsOf(w.st.file), w.st.journal, w.h)
    requires Readable(replies, w.st.journal) && ReadableInHand(replies, w.st.phase)
    requires w.h.journaled != {} && w.st.journal.Some? ==> Complete(w.st.journal.value)
    requires w.st.journal.Some? && HoldsApplied(w.st.journal.value, w.h) ==> w.h.journaled != {}
    requires CredentialsOf(s.snapshot).applied.Some? ==> CredentialsOf(s.snapshot).applied.value in w.h.ids
    requires forall r | r in w.h.journaled :: r.1 in w.h.ids
    requires forall k | k in w.h.commits :: k in w.h.ids
    requires !InStep(replies, CredentialsOf(w.st.file), w.st.journal, w.st.phase, w.h)
    ensures !StaysQuiet(replies, w)
  {
    hide Possible, Next, StaysQuiet, Startable, CredentialsOf, LoginText, Origin, Live, AsksNext, Survives;
    match w.st.phase {
      case Loaded(_) => LoadedIsLoud(replies, w, s);
      case Asking(_, id) => AskingIsLoud(replies, w, s, id);
      case Waiting(_, id) => WaitingIsLoud(replies, w, s, id);
      case Holding(_, id, body) => HoldingIsLoud(replies, w, s, id, body);
      case Journaled(_, id, body) => CommitsTwice(replies, w, s, id, body);
      case Committed(_) => CommittedIsLoud(replies, w, s);
    }
  }

  lemma CommittedIsLoud(replies: Replies, w: World, s: Session)
    requires Startable(w.st.file).Some? && w.st.phase == Committed(s) && Underway(w, s)
    requires !AllApplied(CredentialsOf(w.st.file).login, w.h)
    ensures !StaysQuiet(replies, w)
  {
    hide Possible, Next, StaysQuiet, Startable, CredentialsOf, LoginText, Origin;
    var r :| r in w.h.journaled && Some(r.0) == CredentialsOf(w.st.file).login && r.1 !in w.h.commits;
    assert (r.0, r.1) == r;
    Unlinks(replies, w);
    PendingIsAskedAgain(replies, Next(replies, w, Unlink(true)), r.0, r.1);
    BackFrom(replies, w, Unlink(true));
  }

  // ---- The installation itself ----

  // What an installation that reached the disk leaves.
  lemma Installs(replies: Replies, w: World, document: Object, outcome: Outcome, retiring: Outcome) returns (next: World)
    requires outcome != NotWritten
    ensures next == Next(replies, w, Login(document, outcome, retiring))
    ensures next.st == State(Some(document), if outcome == Written then Retired(w.st.journal, retiring) else w.st.journal, w.st.phase)
    ensures next.h.journaled == w.h.journaled && next.h.commits == w.h.commits && w.h.ids <= next.h.ids
  {
    next := Next(replies, w, Login(document, outcome, retiring));
  }

  lemma Crashes(replies: Replies, w: World) returns (next: World)
    ensures next == Next(replies, w, Crash) && next == World(w.st.(phase := Idle), w.h) && Possible(w, Crash)
  {
    next := Next(replies, w, Crash);
  }

  lemma HarmfulIsLoud(replies: Replies, w: World, document: Object, outcome: Outcome, retiring: Outcome)
    requires Inv(replies, w) && !Harmless(replies, w, document, outcome, retiring)
    requires Startable(Some(document)).Some? && Readable(replies, w.st.journal) && ReadableInHand(replies, w.st.phase)
    ensures !StaysQuiet(replies, Next(replies, w, Login(document, outcome, retiring)))
  {
    hide Startable, CredentialsOf, Origin, Next, LoginText, StaysQuiet, PhaseFits, Survives, Undisturbed, Live;
    var next := Installs(replies, w, document, outcome, retiring);
    var c, journal := CredentialsOf(Some(document)), next.st.journal;
    StartableLogin(document);
    assert journal.Some? ==> journal == w.st.journal;
    if !Survives(c, journal, w.h) {
      var r := NotKept(c, journal, w.h);
      LiveHasLogin(journal, c);
      PendingIsAskedAgain(replies, next, r.0, r.1);
    } else if journal.Some? && HoldsApplied(journal.value, w.h) && Live(journal, c) {
      AppliedIsAppliedAgain(replies, next);
    } else {
      DisturbedIsLoud(replies, w, next, c);
    }
  }

  lemma LiveHasLogin(journal: Option<Journal>, c: Credentials)
    ensures Live(journal, c) ==> journal.Some? && (journal.value.loginId.Some? ==> journal.value.loginId == c.login)
  {
  }

  lemma DisturbedIsLoud(replies: Replies, w: World, next: World, c: Credentials)
    requires Inv(replies, w) && next.st.phase == w.st.phase && c == CredentialsOf(next.st.file) && c.login.Some?
    requires next.st.journal.Some? ==> next.st.journal == w.st.journal
    requires next.h.journaled == w.h.journaled && next.h.commits == w.h.commits && w.h.ids <= next.h.ids
    requires Startable(next.st.file).Some? && Readable(replies, w.st.journal) && ReadableInHand(replies, w.st.phase)
    requires Survives(c, next.st.journal, w.h) && !Undisturbed(replies, c, next.st.journal, w.st.phase, w.h)
    ensures !StaysQuiet(replies, next)
  {
    hide Startable, CredentialsOf, Origin, Next, Live, LoginText, StaysQuiet, InStep;
    var s := SessionOf(w.st.phase).value;
    if LoginText(s) == c.login {
      StepDepends(replies, c, next.st.journal, w.st.phase, w.h, next.h);
      UnderwayIsLoud(replies, next, s);
    } else {
      var r :| r in w.h.journaled && Some(r.0) == c.login && r.1 !in w.h.commits;
      assert (r.0, r.1) == r;
      LiveHasBody(next.st.journal, c);
      IntruderLosesIt(replies, next, r.0, r.1);
    }
  }

  lemma StartableLogin(document: Object)
    requires Startable(Some(document)).Some?
    ensures CredentialsOf(Some(document)).login.Some? && CredentialsOf(Some(document)).login == TextAt(document, LoginId)
  {
    StartableIff(document);
    hide Startable;
  }

  lemma NotKept(c: Credentials, journal: Option<Journal>, h: History) returns (r: (string, string))
    requires !Survives(c, journal, h)
    ensures r in h.journaled && Some(r.0) == c.login && r.1 !in h.commits && Pending(h, r.0, r.1)
    ensures !(Live(journal, c) && journal.value.loginId == Some(r.0) && journal.value.refreshId == Some(r.1))
  {
    r :| r in h.journaled && Some(r.0) == c.login && r.1 !in h.commits &&
      !(Live(journal, c) && journal.value.loginId == Some(r.0) && journal.value.refreshId == Some(r.1));
  }

  lemma InvIsQuiet(replies: Replies, w: World)
    requires Inv(replies, w)
    ensures Quiet(w)
  {
    hide Origin, CredentialsOf, Live, LoginText;
  }

  // After any safe history: installing a document keeps every continuation without
  // another login quiet exactly if it is harmless.
  lemma QuietIffHarmless(replies: Replies, file: Option<Object>, journal: Option<Journal>, events: seq<Event>,
      document: Object, outcome: Outcome, retiring: Outcome)
    requires AllSafe(replies, Start(file, journal), events) && Startable(Some(document)).Some?
    requires
      var w := AfterAll(replies, Start(file, journal), events);
      Readable(replies, w.st.journal) && ReadableInHand(replies, w.st.phase)
    ensures
      var w := AfterAll(replies, Start(file, journal), events);
      Harmless(replies, w, document, outcome, retiring) <==>
        StaysQuiet(replies, Next(replies, w, Login(document, outcome, retiring)))
  {
    hide Inv, Quiet, Harmless, Next, AllSafe, AllPossible, AfterAll, NoLogin, Startable, Start;
    StartFits(replies, file, journal);
    RunKeeps(replies, Start(file, journal), events);
    var w := AfterAll(replies, Start(file, journal), events);
    var next := Next(replies, w, Login(document, outcome, retiring));
    if Harmless(replies, w, document, outcome, retiring) {
      LoginKeeps(replies, w, document, outcome, retiring);
      SafeIsQuiet(replies, next);
    } else {
      HarmfulIsLoud(replies, w, document, outcome, retiring);
    }
  }

  lemma SafeIsQuiet(replies: Replies, w: World)
    requires Inv(replies, w)
    ensures StaysQuiet(replies, w)
  {
    hide Inv, Quiet, Next, AllSafe, AllPossible, AfterAll, NoLogin;
    forall events | NoLogin(events) && AllPossible(replies, w, events) ensures Quiet(AfterAll(replies, w, events)) {
      WithoutLogins(replies, w, events);
      RunKeeps(replies, w, events);
      InvIsQuiet(replies, AfterAll(replies, w, events));
    }
  }

  // ---- What harmless comes to ----

  // Installing a document of another login than the one being refreshed, if any.
  predicate Apart(phase: Phase, document: Object) {
    SessionOf(phase).Some? ==> LoginText(SessionOf(phase).value) != TextAt(document, LoginId)
  }

  // No reply was ever journaled for the login: it can be installed, again or for
  // the first time, whenever no refresh of it is in progress.
  lemma HarmlessWithoutReplies(replies: Replies, w: World, document: Object, outcome: Outcome, retiring: Outcome)
    requires Inv(replies, w) && Apart(w.st.phase, document)
    requires forall r | r in w.h.journaled :: Some(r.0) != TextAt(document, LoginId)
    ensures Harmless(replies, w, document, outcome, retiring)
  {
    hide Origin, LoginText;
  }

  lemma NewLoginIsHarmless(replies: Replies, w: World, document: Object, outcome: Outcome, retiring: Outcome)
    requires Inv(replies, w)
    requires TextAt(document, LoginId).Some? ==> TextAt(document, LoginId).value !in w.h.logins
    ensures Harmless(replies, w, document, outcome, retiring)
  {
    assert Apart(w.st.phase, document);
    hide Origin, Live, InStep;
    HarmlessWithoutReplies(replies, w, document, outcome, retiring);
  }

  // An attempt that wrote nothing is harmless, and leaves any other attempt as
  // harmless or not as it was.
  lemma UnwrittenChangesNothing(replies: Replies, w: World, tried: Object, unused: Outcome,
      document: Object, outcome: Outcome, retiring: Outcome)
    ensures Harmless(replies, w, tried, NotWritten, unused)
    ensures
      var next := Next(replies, w, Login(tried, NotWritten, unused));
      Harmless(replies, next, document, outcome, retiring) == Harmless(replies, w, document, outcome, retiring)
  {
    hide InStep, LoginText, CredentialsOf, Live;
    var next := Next(replies, w, Login(tried, NotWritten, unused));
    if SessionOf(w.st.phase).Some? {
      var journal := if outcome == Written then Retired(w.st.journal, retiring) else w.st.journal;
      StepDepends(replies, CredentialsOf(Some(document)), journal, w.st.phase, w.h, next.h);
    }
  }

  // A reply of the current login is pending: installing that login again keeps it
  // exactly if the journal stays and the document still asks for it.
  lemma PendingReplyIsKeptIff(replies: Replies, w: World, document: Object, outcome: Outcome, retiring: Outcome, l: string, i: string)
    requires Inv(replies, w) && w.st.phase.Idle? && Pending(w.h, l, i) && outcome != NotWritten
    requires CredentialsOf(w.st.file).login == Some(l) == TextAt(document, LoginId)
    ensures Harmless(replies, w, document, outcome, retiring) <==>
      && (outcome == Written ==> retiring == NotWritten)
      && TextAt(document, RefreshToken) == TextAt(w.st.file.value, RefreshToken)
      && TextAt(document, RefreshJournalId) != Some(i)
  {
    var r := (l, i);
    assert r in w.h.journaled;
    hide Origin, InStep;
    assert Live(w.st.journal, CredentialsOf(w.st.file)) && w.st.journal.value.refreshId == Some(i);
  }

  // Every reply of the login was applied, and the journal still holds the last one:
  // installing the login again is harmless exactly if the journal goes or the
  // document does not ask for that reply.
  lemma AppliedReplyIsLeftIff(replies: Replies, w: World, document: Object, outcome: Outcome, retiring: Outcome, i: string)
    requires Inv(replies, w) && w.st.phase.Idle? && outcome != NotWritten && AllApplied(TextAt(document, LoginId), w.h)
    requires w.st.journal.Some? && w.st.journal.value.refreshId == Some(i) && i in w.h.commits
    requires w.st.journal.value.loginId == TextAt(document, LoginId)
    ensures Harmless(replies, w, document, outcome, retiring) <==>
      || (outcome == Written && retiring != NotWritten)
      || TextAt(document, RefreshToken) != w.st.journal.value.previous
      || TextAt(document, RefreshJournalId) == Some(i)
  {
    hide Origin, InStep;
    assert HoldsApplied(w.st.journal.value, w.h) && Complete(w.st.journal.value);
  }

  // ---- A refresh whose login was replaced ----

  // After any safe history: a refresh whose own login has a reply pending asks
  // over it exactly if the journal is gone, or has to go and does.
  lemma AsksOverItsReplyIff(replies: Replies, file: Option<Object>, journal: Option<Journal>, events: seq<Event>,
      s: Session, l: string, i: string, freshId: string, outcome: Outcome)
    requires AllSafe(replies, Start(file, journal), events)
    requires AfterAll(replies, Start(file, journal), events).st.phase == Loaded(s)
    requires LoginText(s) == Some(l) && Pending(AfterAll(replies, Start(file, journal), events).h, l, i)
    ensures
      var w := AfterAll(replies, Start(file, journal), events);
      Next(replies, w, Recover(freshId, outcome)).st.phase.Asking? <==>
        w.st.journal.None? || (outcome == Written && ToBeReplaced(replies, w.st.journal.value, s))
  {
    StartFits(replies, file, journal);
    RunKeeps(replies, Start(file, journal), events);
    var w := AfterAll(replies, Start(file, journal), events);
    hide AllSafe, AfterAll, Start, Next, Inv;
    LoadedIsUsable(replies, w, s, l, i);
    AsksIff(replies, w, s, freshId, outcome);
  }

  lemma LoadedIsUsable(replies: Replies, w: World, s: Session, l: string, i: string)
    requires Inv(replies, w) && w.st.phase == Loaded(s) && Pending(w.h, l, i)
    ensures Usable(s) && (w.st.journal.Some? ==> Complete(w.st.journal.value))
  {
    OriginTexts(s);
    hide Origin, CredentialsOf, Survives, InStep;
  }

  lemma AsksIff(replies: Replies, w: World, s: Session, freshId: string, outcome: Outcome)
    requires w.st.phase == Loaded(s) && Usable(s) && LoginText(s).Some?
    requires w.st.journal.Some? ==> Complete(w.st.journal.value)
    ensures Next(replies, w, Recover(freshId, outcome)).st.phase.Asking? <==>
      w.st.journal.None? || (outcome == Written && ToBeReplaced(replies, w.st.journal.value, s))
  {
    hide LoginText;
  }

  function TextOf(s: Session, k: Key): Option<string> {
    if k in s.texts then Some(s.texts[k]) else None
  }

  // It names another login, or a reply that is not this session's: not asked for
  // with its refresh token, and not what its tokens came from.
  predicate ToBeReplaced(replies: Replies, j: Journal, s: Session) {
    || j.loginId != LoginText(s)
    || (&& j.refreshId != TextOf(s, RefreshJournalId) && j.previous != TextOf(s, RefreshToken)
        && j.body.Some?
        && replies.access(j.body.value) != TextOf(s, AccessToken) && replies.refresh(j.body.value) != TextOf(s, RefreshToken))
  }
}
