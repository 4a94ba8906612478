// The refresh procedure itself: one uninterrupted call is a run of the steps.
module TokenRefresher {
  import opened Optional
  import opened SessionFile
  import opened TokenRefresh
  import opened RefreshSafety

  datatype Recovery = Keep | Fresh | Again(id: string, body: string) | Done

  class Refresher {
    const store: SessionStore
    var journal: Option<Journal>

    constructor (store: SessionStore, journal: Option<Journal>)
      ensures this.store == store && this.journal == journal
    {
      this.store, this.journal := store, journal;
    }

    function Durable(): State
      reads this, store
    {
      State(store.file, journal, Idle)
    }

    method RetireJournal(outcome: Outcome) returns (ok: bool)
      modifies this`journal
      ensures journal == Retired(old(journal), outcome)
      ensures ok <==> old(journal).None? || outcome == Written
    {
      ok := journal.None? || outcome == Written;
      if outcome != NotWritten {
        journal := None;
      }
    }

    // enil_session_activate: install a login, then retire what the last one journaled.
    method Activate(document: Object, outcome: Outcome, retiring: Outcome) returns (ok: bool)
      modifies this`journal, store
      ensures forall replies: Replies :: Durable() == Step(replies, old(Durable()), Login(document, outcome, retiring))
      ensures ok <==> outcome == Written
    {
      ok := store.Write(document, outcome);
      if ok {
        var _ := RetireJournal(retiring);
      }
    }

    // recover_refresh: keep the journal and stop, make a fresh request, replay
    // the journaled reply, or report that it was already committed.
    method RecoverRefresh(replies: Replies, session: Session, freshId: string, outcome: Outcome) returns (result: Recovery)
      requires Usable(session)
      modifies this`journal
      ensures
        var v := Decide(replies, old(journal), session, freshId);
        && journal == (if v.Retire? then Retired(old(journal), outcome) else old(journal))
        && (result.Keep? <==> v.Stop? || (v.Retire? && outcome != Written))
        && (result.Fresh? <==> v.Ask? || (v.Retire? && outcome == Written && v.thenAsk))
        && (result.Again? <==> v.Replay?) && (result.Again? ==> v == Replay(result.id, result.body))
    {
      if journal.None? {
        return Fresh;
      }
      var j, login := journal.value, LoginText(session);
      if j.loginId.Some? && login.Some? && j.loginId != login {
        var ok := RetireJournal(outcome);
        return if ok then Fresh else Keep;
      }
      if j.refreshId.Some? && RefreshJournalId in session.texts && j.refreshId.value == session.texts[RefreshJournalId] {
        var ok := RetireJournal(outcome);
        return if ok then Done else Keep;
      }
      if j.previous.None? || j.body.None? {
        return Keep;
      }
      if j.previous.value == session.texts[RefreshToken] {
        return Again(if j.refreshId.Some? then j.refreshId.value else freshId, j.body.value);
      }
      var ok := RetireJournal(outcome);
      if ok {
        var committed := replies.access(j.body.value) == Some(session.texts[AccessToken]) ||
                         replies.refresh(j.body.value) == Some(session.texts[RefreshToken]);
        return if committed then Done else Fresh;
      }
      result := Keep;
    }

    // A reply in hand: journal it, apply it to the session, drop the journal.
    method Persist(replies: Replies, session: Session, id: string, body: string, journaling: Outcome,
        saving: Outcome, unlinked: bool)
      returns (access: Option<string>)
      requires Usable(session)
      modifies this`journal, store
      ensures
        var end := Persisted(replies, old(State(store.file, journal, Holding(session, id, body))), journaling, saving, unlinked);
        && store.file == end.file && journal == end.journal && end.phase == Idle
      ensures access.Some? <==>
        && journaling == Written && replies.parse(body).Some?
        && Saved(old(store.file), Applied(session, replies.parse(body).value, id)).Some? && saving == Written
      ensures access.Some? ==>
        replies.parse(body).Some? && access.value == replies.parse(body).value.access &&
        store.file == Saved(old(store.file), Applied(session, replies.parse(body).value, id)) && store.file.Some?
    {
      hide Parse, Saved, Applied;
      access := None;
      if journaling != NotWritten {
        journal := Some(Record(session, id, body));
      }
      if journaling != Written {
        return;
      }
      var issued := replies.parse(body);
      if issued.None? {
        return;
      }
      var saved := store.SaveSession(Applied(session, issued.value, id), saving);
      if !saved {
        return;
      }
      access := Some(issued.value.access);
      if unlinked {
        journal := None;
      }
    }

    // token_refresh_locked, after the session file has been given its login id.
    // What the server answers and how each write ends are parameters.
    method Refresh(replies: Replies, freshId: string, reply: Option<string>, retiring: Outcome, journaling: Outcome,
                   saving: Outcome, unlinked: bool)
      returns (access: Option<string>, asked: bool)
      modifies this`journal, store
      ensures Durable() == Steps(replies, old(Durable()),
                [Begin, Recover(freshId, retiring), Send, Receive(reply), WriteJournal(journaling), Commit(saving), Unlink(unlinked)])
      ensures asked <==> Steps(replies, old(Durable()), [Begin, Recover(freshId, retiring)]).phase.Asking?
      ensures access.Some? ==> store.file.Some? && TextAt(store.file.value, AccessToken) == access
      ensures access.Some? <==>
        || Steps(replies, old(Durable()),
             [Begin, Recover(freshId, retiring), Send, Receive(reply), WriteJournal(journaling), Commit(saving)]).phase.Committed?
        || (CarriesTheReply(replies, old(Durable()), freshId) && retiring == Written)
    {
      hide Parse, Decide, Saved, Applied, TextAt;
      ghost var start := Durable();
      WholeCall(replies, start, freshId, reply, retiring, journaling, saving, unlinked);
      access, asked := None, false;
      var loaded := store.Load();
      if loaded.None? {
        return;
      }
      var session := loaded.value;
      var login := LoginText(session);
      if login.None? || login.value == "" || RefreshToken !in session.texts {
        return;
      }
      BeginsAtOrigin(store.file);
      ghost var file := store.file.value;
      CommittedToken(file, session);
      var recovery := RecoverRefresh(replies, session, freshId, retiring);
      var id, body := freshId, "";
      match recovery {
        case Keep => return;
        case Done => return Some(session.texts[AccessToken]), false;
        case Fresh =>
          asked := true;
          if reply.None? {
            return;
          }
          body := reply.value;
        case Again(i, b) => id, body := i, b;
      }
      access := Persist(replies, session, id, body, journaling, saving, unlinked);
      if access.Some? {
        CommitInstalls(file, session, replies.parse(body).value, id);
      }
    }
  }

  // The journaled reply is what the session already has.
  predicate CarriesTheReply(replies: Replies, st: State, freshId: string) {
    var s := Startable(st.file);
    s.Some? && Usable(s.value) && Decide(replies, st.journal, s.value, freshId) == Retire(false)
  }

  // The last three steps, and the first four.
  function Persisted(replies: Replies, st: State, journaling: Outcome, saving: Outcome, unlinked: bool): State {
    Step(replies, Step(replies, Step(replies, st, WriteJournal(journaling)), Commit(saving)), Unlink(unlinked))
  }

  function Answered(replies: Replies, st: State, freshId: string, reply: Option<string>, retiring: Outcome): State {
    Step(replies, Step(replies, Step(replies, Step(replies, st, Begin), Recover(freshId, retiring)), Send), Receive(reply))
  }

  lemma WholeCall(replies: Replies, st: State, freshId: string, reply: Option<string>, retiring: Outcome, journaling: Outcome,
                  saving: Outcome, unlinked: bool)
    ensures Steps(replies, st, [Begin, Recover(freshId, retiring), Send, Receive(reply), WriteJournal(journaling), Commit(saving), Unlink(unlinked)]) ==
      Persisted(replies, Answered(replies, st, freshId, reply, retiring), journaling, saving, unlinked)
    ensures Steps(replies, st, [Begin, Recover(freshId, retiring)]) == Step(replies, Step(replies, st, Begin), Recover(freshId, retiring))
    ensures Steps(replies, st, [Begin, Recover(freshId, retiring), Send, Receive(reply), WriteJournal(journaling), Commit(saving)]) ==
      Step(replies, Step(replies, Answered(replies, st, freshId, reply, retiring), WriteJournal(journaling)), Commit(saving))
  {
    hide Step;
    var a, b, c, d := Begin, Recover(freshId, retiring), Send, Receive(reply);
    var e, f, g := WriteJournal(journaling), Commit(saving), Unlink(unlinked);
    var s2 := Step(replies, Step(replies, st, a), b);
    StepTwice(replies, st, a, b, []);
    StepTwice(replies, st, a, b, [c, d, e, f, g]);
    assert [a, b] + [c, d, e, f, g] == [a, b, c, d, e, f, g] && [a, b] + [] == [a, b];
    var s4 := Step(replies, Step(replies, s2, c), d);
    StepTwice(replies, s2, c, d, [e, f, g]);
    assert [c, d] + [e, f, g] == [c, d, e, f, g];
    StepTwice(replies, st, a, b, [c, d, e, f]);
    assert [a, b] + [c, d, e, f] == [a, b, c, d, e, f];
    StepTwice(replies, s2, c, d, [e, f]);
    assert [c, d] + [e, f] == [c, d, e, f];
    StepTwice(replies, s4, e, f, []);
    assert [e, f] + [] == [e, f];
    StepTwice(replies, s4, e, f, [g]);
    assert [e, f] + [g] == [e, f, g];
    var s6 := Step(replies, Step(replies, s4, e), f);
    assert Steps(replies, s6, [g]) == Step(replies, s6, g);
  }

  lemma StepTwice(replies: Replies, st: State, a: Event, b: Event, rest: seq<Event>)
    ensures Steps(replies, st, [a, b] + rest) == Steps(replies, Step(replies, Step(replies, st, a), b), rest)
  {
    hide Step;
    var all := [a, b] + rest;
    assert all[1..] == [b] + rest && ([b] + rest)[1..] == rest;
    assert Steps(replies, Step(replies, st, a), [b] + rest) == Steps(replies, Step(replies, Step(replies, st, a), b), rest);
  }

  lemma CommittedToken(file: Object, session: Session)
    requires Origin(session) && session.snapshot == Some(file)
    ensures TextAt(file, AccessToken) == Some(session.texts[AccessToken])
  {
  }

  // An undisturbed call over a live journal sends nothing and installs exactly
  // the journaled reply, whatever the server would have answered.
  lemma ReplayCompletes(replies: Replies, file: Object, j: Journal, freshId: string, reply: Option<string>)
    requires Startable(Some(file)).Some? && Live(Some(j), CredentialsOf(Some(file)))
    requires replies.parse(j.body.value).Some?
    ensures
      var start := State(Some(file), Some(j), Idle);
      var t := replies.parse(j.body.value).value;
      var end := Steps(replies, start, [Begin, Recover(freshId, Written), Send, Receive(reply), WriteJournal(Written), Commit(Written), Unlink(true)]);
      && !Steps(replies, start, [Begin, Recover(freshId, Written)]).phase.Asking?
      && end.phase == Idle && end.journal == None && end.file.Some?
      && TextAt(end.file.value, AccessToken) == Some(t.access)
      && (t.refresh.Some? ==> TextAt(end.file.value, RefreshToken) == t.refresh)
      && TextAt(end.file.value, RefreshJournalId) == Some(if j.refreshId.Some? then j.refreshId.value else freshId)
      && forall k | k !in TOKEN_KEYS :: Get(end.file.value, k) == Get(file, k)
  {
    hide Parse, Applied, Saved, TextAt, Get, TOKEN_KEYS;
    var start := State(Some(file), Some(j), Idle);
    var s := Startable(Some(file)).value;
    BeginsAtOrigin(Some(file));
    OriginTexts(s);
    DecideFits(replies, Some(j), s, freshId);
    WholeCall(replies, start, freshId, reply, Written, Written, Written, true);
    CommitInstalls(file, s, replies.parse(j.body.value).value, if j.refreshId.Some? then j.refreshId.value else freshId);
    hide Live, Startable, CredentialsOf, LoginText;
  }

  // A journal whose reply the session already carries is dropped without asking
  // the server again, even if the reply brought no new refresh token.
  lemma CommittedIsNotAskedAgain(replies: Replies, file: Object, j: Journal, freshId: string)
    requires Startable(Some(file)).Some? && j.refreshId.Some? && j.refreshId == TextAt(file, RefreshJournalId)
    requires j.loginId.None? || j.loginId == TextAt(file, LoginId)
    ensures Steps(replies, State(Some(file), Some(j), Idle), [Begin, Recover(freshId, Written)]) == State(Some(file), None, Idle)
  {
    hide Parse;
    BeginsAtOrigin(Some(file));
    var start, s := State(Some(file), Some(j), Idle), Startable(Some(file)).value;
    OriginTexts(s);
    assert Decide(replies, Some(j), s, freshId) == Retire(false);
    StepTwice(replies, start, Begin, Recover(freshId, Written), []);
    assert [Begin, Recover(freshId, Written)] + [] == [Begin, Recover(freshId, Written)];
  }
}
