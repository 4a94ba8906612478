// Inputs on which the guarantees of a refresh fail: a login installed again over
// its own pending reply, or over one that was applied, and a login replaced in
// the middle of a refresh.
module RefreshFailures {
  import opened Optional
  import opened SessionFile
  import opened TokenRefresh
  import opened RefreshSafety
  import opened RefreshActivation

  const FILE: Object :=
    map[ClientIdentity := Tree(map[]), AccessToken := Text("a"), RefreshToken := Text("r"), LoginId := Text("l")]

  lemma FileStarts()
    ensures Startable(Some(FILE)).Some?
    ensures CredentialsOf(Some(FILE)) == Credentials(Some("l"), Some("r"), None)
  {
    StartableIff(FILE);
    hide Startable, Parse;
  }

  const JOURNAL := Journal(Some("l"), Some("1"), Some("r"), Some("body"))

  // The first five steps of a refresh of FILE, up to its reply in the journal.
  const JOURNALING: seq<Event> := [Begin, Recover("1", Written)] + [Send, Receive(Some("body"))] + [WriteJournal(Written)]

  lemma ReplyJournaled(replies: Replies) returns (w: World)
    ensures AllPossible(replies, Start(Some(FILE), None), JOURNALING)
    ensures w == AfterAll(replies, Start(Some(FILE), None), JOURNALING)
    ensures w.st.phase.Journaled? && w.st.phase.id == "1" && w.st.phase.body == "body" && w.st.file == Some(FILE)
    ensures Origin(w.st.phase.session) && w.st.phase.session.snapshot == w.st.file
    ensures w.st.journal == Some(JOURNAL)
    ensures w.h == History({("l", "1")}, [], {"1"}, {"l"})
  {
    hide Next, Possible, Origin, CredentialsOf, Startable, FILE, Start, LoginText, Usable, Record;
    FileStarts();
    StartsClean();
    var w0 := Start(Some(FILE), None);
    var s := Startable(w0.st.file).value;
    Begins(replies, w0);
    var w2 := Asks(replies, w0, "1");
    Pair(replies, w0, Begin, Recover("1", Written));
    Pair(replies, w2, Send, Receive(Some("body")));
    Answers(replies, w2, "body");
    var w4 := Next(replies, Next(replies, w2, Send), Receive(Some("body")));
    Journals(replies, w4, s, "1", "body");
    RecordOfFile(s);
    Five(replies, w0, w2, w4);
    w := Next(replies, w4, WriteJournal(Written));
  }

  lemma StartsClean()
    ensures Start(Some(FILE), None) == World(State(Some(FILE), None, Idle), History({}, [], {}, {"l"}))
  {
  }

  lemma RecordOfFile(s: Session)
    requires Origin(s) && s.snapshot == Some(FILE)
    ensures Usable(s) && Record(s, "1", "body") == JOURNAL && LoginText(s) == Some("l")
  {
    OriginTexts(s);
    FileStarts();
    hide Origin, Startable, CredentialsOf, FILE, LoginText;
  }

  lemma Five(replies: Replies, w0: World, w2: World, w4: World)
    requires AfterAll(replies, w0, [Begin, Recover("1", Written)]) == w2 && AllPossible(replies, w0, [Begin, Recover("1", Written)])
    requires AfterAll(replies, w2, [Send, Receive(Some("body"))]) == w4
    ensures AllPossible(replies, w0, JOURNALING) && AfterAll(replies, w0, JOURNALING) == Next(replies, w4, WriteJournal(Written))
  {
    assert Possible(w2, Send) && Possible(Next(replies, w2, Send), Receive(Some("body"))) && Possible(w4, WriteJournal(Written));
    hide Next, Possible;
    Pair(replies, w2, Send, Receive(Some("body")));
    RunAppend(replies, w0, [Begin, Recover("1", Written)], [Send, Receive(Some("body"))]);
    Then(replies, w0, [Begin, Recover("1", Written)] + [Send, Receive(Some("body"))], WriteJournal(Written));
  }

  // The process dies, and FILE is installed again.
  lemma InstalledAgain(replies: Replies, w: World, retiring: Outcome) returns (next: World)
    ensures next == Next(replies, Next(replies, w, Crash), Login(FILE, Written, retiring))
    ensures next.st == State(Some(FILE), Retired(w.st.journal, retiring), Idle)
    ensures next.h.journaled == w.h.journaled && next.h.commits == w.h.commits && next.h.ids == w.h.ids
    ensures AllPossible(replies, w, [Crash, Login(FILE, Written, retiring)])
    ensures AfterAll(replies, w, [Crash, Login(FILE, Written, retiring)]) == next
  {
    var w1 := Crashes(replies, w);
    next := Installs(replies, w1, FILE, Written, retiring);
    assert next.h.ids == w.h.ids && Possible(w1, Login(FILE, Written, retiring));
    hide Next, Possible, FILE;
    Pair(replies, w, Crash, Login(FILE, Written, retiring));
  }

  // The reply is journaled, the process dies, and the same login is installed
  // again: the next refresh asks for it although its reply was never applied.
  lemma PendingReplyForgotten(replies: Replies)
    ensures
      var start := Start(Some(FILE), None);
      var events := JOURNALING + [Crash, Login(FILE, Written, Written)] + [Begin, Recover("2", Written)];
      var w := AfterAll(replies, start, events);
      && AllPossible(replies, start, events)
      && AsksForCurrentLogin(w) && LoginText(w.st.phase.session) == Some("l") && Pending(w.h, "l", "1")
  {
    hide Next, Possible, Startable, CredentialsOf, FILE, JOURNALING, Start, LoginText, Origin;
    var start := Start(Some(FILE), None);
    var w5 := ReplyJournaled(replies);
    var w7 := InstalledAgain(replies, w5, Written);
    FileStarts();
    assert "2" !in w7.h.ids;
    var w9 := Asks(replies, w7, "2");
    Pair(replies, w7, Begin, Recover("2", Written));
    RunAppend(replies, start, JOURNALING, [Crash, Login(FILE, Written, Written)]);
    RunAppend(replies, start, JOURNALING + [Crash, Login(FILE, Written, Written)], [Begin, Recover("2", Written)]);
  }

  // The reply is applied, the process dies before the journal goes, and the same
  // login is installed again, its journal left behind: the reply is applied again.
  lemma ReplyAppliedTwice(replies: Replies)
    requires replies.parse("body").Some?
    ensures
      var start := Start(Some(FILE), None);
      var events := JOURNALING + [Commit(Written)] + [Crash, Login(FILE, Written, NotWritten)] + REPLAYING;
      AllPossible(replies, start, events) && AfterAll(replies, start, events).h.commits == ["1", "1"]
  {
    hide Next, Possible, Startable, CredentialsOf, FILE, JOURNALING, REPLAYING, Start, LoginText, Origin, Live;
    var start := Start(Some(FILE), None);
    var w5 := ReplyJournaled(replies);
    FileStarts();
    Commits(replies, w5, w5.st.phase.session, "1", "body");
    var w6 := Next(replies, w5, Commit(Written));
    CommitIsPossible(w5);
    var w8 := InstalledAgain(replies, w6, NotWritten);
    ReplayedOnFile(replies, w8);
    Then(replies, start, JOURNALING, Commit(Written));
    RunAppend(replies, start, JOURNALING + [Commit(Written)], [Crash, Login(FILE, Written, NotWritten)]);
    RunAppend(replies, start, JOURNALING + [Commit(Written)] + [Crash, Login(FILE, Written, NotWritten)], REPLAYING);
  }

  const REPLAYING: seq<Event> := [Begin, Recover("2", Written)] + [WriteJournal(Written), Commit(Written)]

  lemma ReplayedOnFile(replies: Replies, w: World)
    requires w.st == State(Some(FILE), Some(JOURNAL), Idle) && w.h.ids == {"1"} && replies.parse("body").Some?
    ensures AllPossible(replies, w, REPLAYING) && AfterAll(replies, w, REPLAYING).h.commits == w.h.commits + ["1"]
  {
    FileStarts();
    assert Live(w.st.journal, CredentialsOf(w.st.file));
    assert "2" !in w.h.ids;
    StartsReplay(replies, w, "2");
    var w2 := Next(replies, Next(replies, w, Begin), Recover("2", Written));
    hide Next, Possible, Startable, CredentialsOf, FILE, LoginText, Origin, Live;
    FinishesReplay(replies, w2, Startable(Some(FILE)).value, "1", "body");
    Pair(replies, w, Begin, Recover("2", Written));
    Pair(replies, w2, WriteJournal(Written), Commit(Written));
    RunAppend(replies, w, [Begin, Recover("2", Written)], [WriteJournal(Written), Commit(Written)]);
  }

  // FILE under another login.
  const OTHER: Object := FILE[LoginId := Text("m")]

  // A reply of FILE waits in the journal, and the login is replaced after the
  // refresh loaded its session. All events are safe. If the journal is retired with
  // the login, the superseded refresh asks over its reply; if not, it replays it.
  lemma SupersededRefresh(replies: Replies, retiring: Outcome)
    ensures
      var start, events := Start(Some(FILE), Some(JOURNAL)), [Begin, Login(OTHER, Written, retiring)] + [Recover("2", Written)];
      var w := AfterAll(replies, start, events);
      && AllSafe(replies, start, events) && Pending(w.h, "l", "1")
      && (w.st.phase.Asking? <==> retiring != NotWritten) && (w.st.phase.Holding? <==> retiring == NotWritten)
      && SessionOf(w.st.phase).Some? && LoginText(SessionOf(w.st.phase).value) == Some("l")
  {
    hide Next, Safe, Startable, Start, FILE, OTHER, LoginText;
    var start := Start(Some(FILE), Some(JOURNAL));
    var w1 := FileLoaded(replies);
    var w2 := OtherInstalled(replies, w1, retiring);
    Superseded(replies, w2, w2.st.phase.session, retiring);
    assert Safe(replies, w2, Recover("2", Written)) by { RecoverIsSafe(replies, w2, "2"); }
    Pair(replies, start, Begin, Login(OTHER, Written, retiring));
    Then(replies, start, [Begin, Login(OTHER, Written, retiring)], Recover("2", Written));
  }

  lemma RecoverIsSafe(replies: Replies, w: World, freshId: string)
    requires freshId !in w.h.ids
    ensures Safe(replies, w, Recover(freshId, Written))
  {
  }

  lemma FileLoaded(replies: Replies) returns (w: World)
    ensures
      var start := Start(Some(FILE), Some(JOURNAL));
      w == Next(replies, start, Begin) && Safe(replies, start, Begin) && Inv(replies, w)
    ensures w.st.phase.Loaded? && w.st.journal == Some(JOURNAL) && w.h == History({("l", "1")}, [], {"1"}, {"l"})
    ensures
      var s := w.st.phase.session;
      Usable(s) && LoginText(s) == Some("l") && TextOf(s, RefreshToken) == Some("r") && TextOf(s, RefreshJournalId) == None
  {
    hide Next, Start, FILE, JOURNAL, Startable, Inv, CredentialsOf, LoginText, Origin, Safe;
    FileStarts();
    StartsPending(replies);
    var start, s := Start(Some(FILE), Some(JOURNAL)), Startable(Some(FILE)).value;
    StartFits(replies, Some(FILE), Some(JOURNAL));
    Begins(replies, start);
    BeginKeeps(replies, start);
    OriginTexts(s);
    w := Next(replies, start, Begin);
  }

  lemma StartsPending(replies: Replies)
    ensures
      var start := Start(Some(FILE), Some(JOURNAL));
      start == World(State(Some(FILE), Some(JOURNAL), Idle), History({("l", "1")}, [], {"1"}, {"l"})) && Safe(replies, start, Begin)
  {
    FileStarts();
    hide Startable;
  }

  lemma OtherInstalled(replies: Replies, w: World, retiring: Outcome) returns (next: World)
    requires Inv(replies, w) && w.h == History({("l", "1")}, [], {"1"}, {"l"})
    ensures next == Next(replies, w, Login(OTHER, Written, retiring)) && Safe(replies, w, Login(OTHER, Written, retiring))
    ensures next.st == State(Some(OTHER), Retired(w.st.journal, retiring), w.st.phase)
    ensures next.h.journaled == {("l", "1")} && next.h.commits == [] && next.h.ids == {"1"}
  {
    next := Installs(replies, w, OTHER, Written, retiring);
    assert next.h.ids == {"1"} && TextAt(OTHER, LoginId) == Some("m") by { hide Inv; }
    hide Inv, OTHER, FILE, Harmless;
    NewLoginIsHarmless(replies, w, OTHER, Written, retiring);
  }

  lemma Superseded(replies: Replies, w: World, s: Session, retiring: Outcome)
    requires w.st.phase == Loaded(s) && Usable(s) && LoginText(s) == Some("l") && TextOf(s, RefreshToken) == Some("r")
    requires TextOf(s, RefreshJournalId) == None
    requires w.st.journal == Retired(Some(JOURNAL), retiring)
    ensures
      var end := Next(replies, w, Recover("2", Written));
      && end.h.journaled == w.h.journaled && end.h.commits == w.h.commits
      && end.st.phase == if retiring == NotWritten then Holding(s, "1", "body") else Asking(s, "2")
  {
    hide LoginText;
  }
}
