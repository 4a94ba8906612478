// Refresh-token rotation with a write-ahead journal, next to whatever else the
// engine does to the session file. Every step that leaves a durable trace is a
// step of its own, and the process may die between any two.
module TokenRefresh {
  import opened Optional
  import opened SessionFile
  import opened SessionFence
  import SessionMerge

  // The strings recovery reads from the journal; a missing or unreadable one is None.
  datatype Journal = Journal(loginId: Option<string>, refreshId: Option<string>, previous: Option<string>, body: Option<string>)

  datatype Issued = Issued(access: string, refresh: Option<string>, duration: int, issueTime: int, policy: Option<Value>)

  // How a reply body reads: as a token result, and its two tokens by themselves.
  datatype Replies = Replies(parse: string -> Option<Issued>, access: string -> Option<string>, refresh: string -> Option<string>)

  // ---- One refresh ----

  datatype Phase =
    | Idle
    | Loaded(session: Session)
    | Asking(session: Session, id: string)
    | Waiting(session: Session, id: string)
    | Holding(session: Session, id: string, body: string)
    | Journaled(session: Session, id: string, body: string)
    | Committed(session: Session)

  datatype State = State(file: Option<Object>, journal: Option<Journal>, phase: Phase)

  datatype Event =
    | Begin
    | Recover(freshId: string, outcome: Outcome)
    | Send
    | Receive(reply: Option<string>)
    | WriteJournal(outcome: Outcome)
    | Commit(outcome: Outcome)
    | Unlink(ok: bool)
    | Crash
    | Elsewhere(op: Operation)
    | Login(document: Object, outcome: Outcome, retiring: Outcome)

  function TextAt(o: Object, k: Key): Option<string> {
    if k in o && o[k].Text? then Some(o[k].s) else None
  }

  function LoginText(s: Session): Option<string> {
    if s.snapshot.Some? then TextAt(s.snapshot.value, LoginId) else None
  }

  // The session a refresh can start from.
  function Startable(file: Option<Object>): Option<Session> {
    match if file.Some? then Parse(file.value) else None
    case None => None
    case Some(s) =>
      if RefreshToken in s.texts && LoginText(s).Some? && LoginText(s).value != "" then Some(s) else None
  }

  datatype Verdict = Stop | Ask | Replay(id: string, body: string) | Retire(thenAsk: bool)

  // recover_refresh
  function Decide(replies: Replies, journal: Option<Journal>, s: Session, freshId: string): Verdict
    requires RefreshToken in s.texts && AccessToken in s.texts
  {
    match journal
    case None => Ask
    case Some(j) =>
      var login := LoginText(s);
      if j.loginId.Some? && login.Some? && j.loginId != login then Retire(true)
      else if j.refreshId.Some? && RefreshJournalId in s.texts && j.refreshId.value == s.texts[RefreshJournalId] then Retire(false)
      else if j.previous.None? || j.body.None? then Stop
      else if j.previous.value == s.texts[RefreshToken] then
        Replay(if j.refreshId.Some? then j.refreshId.value else freshId, j.body.value)
      else if replies.access(j.body.value) == Some(s.texts[AccessToken]) || replies.refresh(j.body.value) == Some(s.texts[RefreshToken])
        then Retire(false)
      else Retire(true)
  }

  // session_apply_token_v3, and the refresh id that marks the reply as applied.
  function Applied(s: Session, t: Issued, id: string): Session {
    var texts := if t.refresh.Some? then s.texts[RefreshToken := t.refresh.value] else s.texts;
    s.(texts := texts[AccessToken := t.access][RefreshJournalId := id],
       ints := s.ints[DurationUntilRefreshInSec := t.duration][TokenIssueTimeEpochSec := t.issueTime],
       nodes := if t.policy.Some? then s.nodes[RefreshApiRetryPolicy := t.policy.value] else s.nodes - {RefreshApiRetryPolicy})
  }

  function Retired(journal: Option<Journal>, outcome: Outcome): Option<Journal> {
    if outcome == NotWritten then journal else None
  }

  function Record(s: Session, id: string, body: string): Journal
    requires RefreshToken in s.texts
  {
    Journal(LoginText(s), Some(id), Some(s.texts[RefreshToken]), Some(body))
  }

  function AfterVerdict(st: State, s: Session, v: Verdict, freshId: string, outcome: Outcome): State {
    match v
    case Stop => st.(phase := Idle)
    case Ask => st.(phase := Asking(s, freshId))
    case Replay(id, body) => st.(phase := Holding(s, id, body))
    case Retire(thenAsk) =>
      st.(journal := Retired(st.journal, outcome),
          phase := if outcome == Written && thenAsk then Asking(s, freshId) else Idle)
  }

  function AfterCommit(st: State, s: Session, t: Issued, id: string, outcome: Outcome): State {
    var next := Applied(s, t, id);
    State(After(st.file, Save(next, outcome)), st.journal,
          if Saved(st.file, next).Some? && outcome == Written then Committed(s) else Idle)
  }

  predicate Usable(s: Session) {
    RefreshToken in s.texts && AccessToken in s.texts
  }

  function Step(replies: Replies, st: State, e: Event): State {
    match e
    case Begin => if st.phase.Idle? && Startable(st.file).Some? then st.(phase := Loaded(Startable(st.file).value)) else st
    case Recover(freshId, outcome) =>
      if st.phase.Loaded? && Usable(st.phase.session)
      then AfterVerdict(st, st.phase.session, Decide(replies, st.journal, st.phase.session, freshId), freshId, outcome)
      else st
    case Send => if st.phase.Asking? then st.(phase := Waiting(st.phase.session, st.phase.id)) else st
    case Receive(reply) =>
      if st.phase.Waiting? then
        st.(phase := if reply.Some? then Holding(st.phase.session, st.phase.id, reply.value) else Idle)
      else st
    case WriteJournal(outcome) =>
      if st.phase.Holding? && Usable(st.phase.session) then
        var p := st.phase;
        State(st.file,
              if outcome == NotWritten then st.journal else Some(Record(p.session, p.id, p.body)),
              if outcome == Written then Journaled(p.session, p.id, p.body) else Idle)
      else st
    case Commit(outcome) =>
      if st.phase.Journaled? then
        var p := st.phase;
        match replies.parse(p.body)
        case None => st.(phase := Idle)
        case Some(t) => AfterCommit(st, p.session, t, p.id, outcome)
      else st
    case Unlink(ok) => if st.phase.Committed? then State(st.file, if ok then None else st.journal, Idle) else st
    case Crash => st.(phase := Idle)
    case Elsewhere(op) => if op.Activate? then st else st.(file := After(st.file, op))
    case Login(document, outcome, retiring) =>
      State(Stored(st.file, document, outcome), if outcome == Written then Retired(st.journal, retiring) else st.journal, st.phase)
  }

  function Steps(replies: Replies, st: State, events: seq<Event>): State
    decreases |events|
  {
    if events == [] then st else Steps(replies, Step(replies, st, events[0]), events[1..])
  }

  // ---- What has happened so far ----

  // The replies journaled, as (login, refresh id); the refresh ids applied to the
  // session, in order; every refresh id and login id seen.
  datatype History = History(journaled: set<(string, string)>, commits: seq<string>, ids: set<string>, logins: set<string>)

  datatype World = World(st: State, h: History)

  function Texts(o: Option<Object>, k: Key): set<string> {
    if o.Some? && TextAt(o.value, k).Some? then {TextAt(o.value, k).value} else {}
  }

  // Does this step put the reply it holds into the session file?
  predicate Applies(replies: Replies, st: State, e: Event) {
    && e.Commit? && e.outcome != NotWritten && st.phase.Journaled?
    && replies.parse(st.phase.body).Some?
    && Saved(st.file, Applied(st.phase.session, replies.parse(st.phase.body).value, st.phase.id)).Some?
  }

  function Observe(replies: Replies, w: World, e: Event): History {
    var st, h := w.st, w.h;
    match e
    case Recover(freshId, _) => h.(ids := h.ids + {freshId})
    case WriteJournal(outcome) =>
      if st.phase.Holding? && LoginText(st.phase.session).Some? && outcome != NotWritten
      then h.(journaled := h.journaled + {(LoginText(st.phase.session).value, st.phase.id)}) else h
    case Commit(_) => if Applies(replies, st, e) then h.(commits := h.commits + [st.phase.id]) else h
    case Elsewhere(Identify(newId, _)) => h.(logins := h.logins + {newId})
    case Login(document, _, _) =>
      h.(logins := h.logins + Texts(Some(document), LoginId), ids := h.ids + Texts(Some(document), RefreshJournalId))
    case _ => h
  }

  function Next(replies: Replies, w: World, e: Event): World {
    World(Step(replies, w.st, e), Observe(replies, w, e))
  }

  // Ids are never handed out twice, and only a refresh or a new login changes
  // the refresh token or the refresh id.
  ghost predicate Possible(w: World, e: Event) {
    match e
    case Recover(freshId, _) => freshId !in w.h.ids
    case Elsewhere(Identify(newId, _)) => newId !in w.h.logins
    case Elsewhere(Save(s, _)) =>
      Baseline(s).Some? ==> RefreshToken !in SessionMerge.DeltaOf(s) && RefreshJournalId !in SessionMerge.DeltaOf(s)
    case _ => true
  }
}
