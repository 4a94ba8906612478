// What the three-way merge of enil_session_save guarantees to writers that
// share one login: a save is exactly the writer's own changes.
module SessionMerge {
  import opened Optional
  import opened SessionFile

  // The keys a writer changed, each with its new value or its removal.
  type Delta = map<Key, Option<Value>>

  function ApplyAt(o: Object, d: Delta, k: Key): Option<Value> {
    if k in d then d[k] else Get(o, k)
  }

  function ApplyDelta(o: Object, d: Delta): Object {
    map k | k in o.Keys + d.Keys && ApplyAt(o, d, k).Some? :: ApplyAt(o, d, k).value
  }

  function Differences(before: Object, after: Object): Delta {
    map k | k in before.Keys + after.Keys && Get(before, k) != Get(after, k) :: Get(after, k)
  }

  // What the record says now against what its own snapshot says.
  function DeltaOf(s: Session): Delta
    requires Baseline(s).Some?
  {
    Differences(Baseline(s).value, ToJson(s))
  }

  lemma RenderedIsWritten(s: Session, k: Key)
    ensures Get(ToJson(s), k) == Rendered(s, k)
  {
    if k !in FIELDS {
      assert KindOf(k) == NotAField;
    }
  }

  // Merging changes exactly the keys on which the writer differs from its baseline.
  lemma MergeIsDelta(current: Object, baseline: Object, next: Object)
    ensures Merge(current, baseline, next) == ApplyDelta(current, Differences(baseline, next))
  {
    forall k ensures Get(Merge(current, baseline, next), k) == Get(ApplyDelta(current, Differences(baseline, next)), k) {
      assert Get(Merge(current, baseline, next), k) == MergedAt(current, baseline, next, k);
    }
    SameContent(Merge(current, baseline, next), ApplyDelta(current, Differences(baseline, next)));
  }

  // A save stores the current document with the writer's delta on top.
  lemma SaveAppliesDelta(file: Object, s: Session)
    requires Saved(Some(file), s).Some?
    ensures Saved(Some(file), s).value == ApplyDelta(file, DeltaOf(s))
  {
    hide Merge, ApplyDelta, Differences, ToJson, Baseline, SameLogin;
    MergeIsDelta(file, Baseline(s).value, ToJson(s));
  }

  // A record that was loaded and then edited: the delta is exactly the keys whose
  // rendering the edits changed, so normalising a field is never a change.
  lemma DeltaIsTheEdits(document: Object, loaded: Session, edited: Session, k: Key)
    requires Parse(document) == Some(loaded)
    requires edited.snapshot == loaded.snapshot
    ensures Baseline(edited) == Some(ToJson(loaded))
    ensures k in DeltaOf(edited) <==> Rendered(edited, k) != Rendered(loaded, k)
    ensures k in DeltaOf(edited) ==> DeltaOf(edited)[k] == Rendered(edited, k)
    ensures KindOf(k) == NotAField ==> k !in DeltaOf(edited)
  {
    SnapshotOfParsed(document);
    DifferenceAt(ToJson(loaded), ToJson(edited), k);
    RenderedIsWritten(loaded, k);
    RenderedIsWritten(edited, k);
    hide ToJson, Differences, Parse, FIELDS, Get;
  }

  lemma SnapshotOfParsed(document: Object)
    ensures Parse(document).Some? ==> Parse(document).value.snapshot == Some(document)
  {
  }

  lemma DifferenceAt(before: Object, after: Object, k: Key)
    ensures k in Differences(before, after) <==> Get(before, k) != Get(after, k)
    ensures k in Differences(before, after) ==> Differences(before, after)[k] == Get(after, k)
  {
  }

  // Saving a record as it was loaded leaves any file of that login as it is.
  lemma UnmodifiedSave(document: Object, loaded: Session, file: Object)
    requires Parse(document) == Some(loaded)
    ensures DeltaOf(loaded) == map[]
    ensures Saved(Some(file), loaded).Some? ==> Saved(Some(file), loaded) == Some(file)
  {
    forall k ensures k !in DeltaOf(loaded) {
      DeltaIsTheEdits(document, loaded, loaded, k);
    }
    if Saved(Some(file), loaded).Some? {
      SaveAppliesDelta(file, loaded);
      SameContent(ApplyDelta(file, map[]), file);
    }
  }

  // ---- Deltas one after another ----

  function ApplyAll(o: Object, ds: seq<Delta>): Object {
    if ds == [] then o else ApplyDelta(ApplyAll(o, ds[..|ds| - 1]), ds[|ds| - 1])
  }

  // The last delta of the list to mention k decides; without one, nothing changes.
  ghost predicate LastWrite(ds: seq<Delta>, k: Key, i: nat) {
    i < |ds| && k in ds[i] && forall j :: i < j < |ds| ==> k !in ds[j]
  }

  lemma {:induction false} LastWriterWins(o: Object, ds: seq<Delta>, k: Key)
    ensures (forall i :: 0 <= i < |ds| ==> k !in ds[i]) ==> Get(ApplyAll(o, ds), k) == Get(o, k)
    ensures forall i: nat | LastWrite(ds, k, i) :: Get(ApplyAll(o, ds), k) == ds[i][k]
  {
    if ds != [] {
      var last := |ds| - 1;
      LastWriterWins(o, ds[..last], k);
      AppliedAt(ApplyAll(o, ds[..last]), ds[last], k);
      forall i: nat | LastWrite(ds, k, i) ensures Get(ApplyAll(o, ds), k) == ds[i][k] {
        if i < last {
          assert LastWrite(ds[..last], k, i);
        }
      }
    }
  }

  predicate PairwiseDisjoint(ds: seq<Delta>) {
    forall i, j :: 0 <= i < j < |ds| ==> ds[i].Keys !! ds[j].Keys
  }

  // Writers of disjoint keys: the order of their commits does not matter.
  lemma OrderIsIrrelevant(o: Object, ds: seq<Delta>, es: seq<Delta>)
    requires PairwiseDisjoint(ds) && multiset(ds) == multiset(es)
    ensures ApplyAll(o, ds) == ApplyAll(o, es)
  {
    forall k ensures Get(ApplyAll(o, ds), k) == Get(ApplyAll(o, es), k) {
      LastWriterWins(o, ds, k);
      LastWriterWins(o, es, k);
      if i :| 0 <= i < |ds| && k in ds[i] {
        assert LastWrite(ds, k, i);
        assert ds[i] in multiset(es);
        var j := LastMention(es, k);
        assert es[j] in multiset(ds);
      } else {
        forall j | 0 <= j < |es| ensures k !in es[j] {
          assert es[j] in multiset(ds);
        }
      }
    }
    SameContent(ApplyAll(o, ds), ApplyAll(o, es));
  }

  lemma {:induction false} LastMention(ds: seq<Delta>, k: Key) returns (i: nat)
    requires exists j :: 0 <= j < |ds| && k in ds[j]
    ensures LastWrite(ds, k, i)
  {
    i := |ds| - 1;
    if k !in ds[i] {
      i := LastMention(ds[..|ds| - 1], k);
    }
  }

  // ---- Any interleaving of loads, edits and saves ----

  datatype Event =
    | Load(writer: nat)
    | Edit(writer: nat, edited: Session)
    | Commit(writer: nat, outcome: Outcome)

  datatype State = State(file: Option<Object>, held: map<nat, Session>)

  function Step(st: State, e: Event): State {
    match e
    case Load(w) => Loaded(st, w)
    case Edit(w, s) =>
      // Fields of the record change; the snapshot it came from does not.
      if w in st.held then st.(held := st.held[w := s.(snapshot := st.held[w].snapshot)]) else st
    case Commit(w, outcome) =>
      if w in st.held then st.(file := After(st.file, Save(st.held[w], outcome))) else st
  }

  function Loaded(st: State, w: nat): State {
    var session := if st.file.Some? then Parse(st.file.value) else None;
    if session.Some? then st.(held := st.held[w := session.value]) else st
  }

  function Run(st: State, events: seq<Event>): State
    decreases |events|
  {
    if events == [] then st else Run(Step(st, events[0]), events[1..])
  }

  // What an event that reached the file changed, and all of a run's changes in order.
  function Change(st: State, e: Event): seq<Delta> {
    if e.Commit? && e.outcome != NotWritten && e.writer in st.held && Baseline(st.held[e.writer]).Some?
    then [DeltaOf(st.held[e.writer])]
    else []
  }

  function Commits(st: State, events: seq<Event>): seq<Delta>
    decreases |events|
  {
    if events == [] then [] else Change(st, events[0]) + Commits(Step(st, events[0]), events[1..])
  }

  // One login throughout: without an id, or with the same non-empty one.
  predicate HeldUnder(s: Session, login: Option<Value>) {
    s.snapshot.Some? && Parse(s.snapshot.value).Some? && Get(s.snapshot.value, LoginId) == login
  }

  predicate OneLogin(st: State, login: Option<Value>) {
    && (login.None? || (login.value.Text? && login.value.s != ""))
    && st.file.Some? && Get(st.file.value, LoginId) == login
    && forall w | w in st.held :: HeldUnder(st.held[w], login)
  }

  // A writer of the login is never refused, and its save is its delta.
  lemma CommitIsDelta(file: Object, s: Session, login: Option<Value>)
    requires login.None? || (login.value.Text? && login.value.s != "")
    requires Get(file, LoginId) == login && HeldUnder(s, login)
    ensures Baseline(s).Some? && Saved(Some(file), s) == Some(ApplyDelta(file, DeltaOf(s)))
    ensures Get(ApplyDelta(file, DeltaOf(s)), LoginId) == login
  {
    hide ToJson, Parse, ApplyDelta, DeltaOf, Rendered, Merge;
    var loaded := Parse(s.snapshot.value).value;
    SnapshotOfParsed(s.snapshot.value);
    DeltaIsTheEdits(s.snapshot.value, loaded, s, LoginId);
    LoginIdIsCarried(loaded);
    SaveAppliesDelta(file, s);
    AppliedAt(file, DeltaOf(s), LoginId);
  }

  lemma LoginIdIsCarried(s: Session)
    requires s.snapshot.Some?
    ensures Get(ToJson(s), LoginId) == Get(s.snapshot.value, LoginId)
  {
    RenderedIsWritten(s, LoginId);
  }

  lemma AppliedAt(o: Object, d: Delta, k: Key)
    ensures Get(ApplyDelta(o, d), k) == ApplyAt(o, d, k)
  {
  }

  lemma StepKeepsLogin(st: State, e: Event, login: Option<Value>)
    requires OneLogin(st, login)
    ensures OneLogin(Step(st, e), login)
    ensures st.file.Some? && Step(st, e).file == Some(ApplyAll(st.file.value, Change(st, e)))
  {
    hide DeltaOf, ApplyDelta, Baseline, Saved, Parse;
    if e.Commit? && e.writer in st.held {
      CommitIsDelta(st.file.value, st.held[e.writer], login);
      var d := DeltaOf(st.held[e.writer]);
      assert [d][..0] == [];
    }
    if e.Load? && Parse(st.file.value).Some? {
      LoadedIsHeld(st, e.writer);
    }
  }

  lemma LoadedIsHeld(st: State, w: nat)
    requires st.file.Some? && Parse(st.file.value).Some?
    ensures HeldUnder(Parse(st.file.value).value, Get(st.file.value, LoginId))
  {
  }

  // Whatever the interleaving, no save is refused and the file ends as the
  // initial document with every commit's delta applied in commit order.
  lemma {:induction false} RunIsItsCommits(st: State, events: seq<Event>, login: Option<Value>)
    requires OneLogin(st, login)
    ensures OneLogin(Run(st, events), login)
    ensures st.file.Some? && Run(st, events).file == Some(ApplyAll(st.file.value, Commits(st, events)))
    decreases |events|
  {
    hide DeltaOf, ApplyDelta, Step, OneLogin, Change;
    if events == [] {
      OneLoginHasFile(st, login);
    } else {
      StepKeepsLogin(st, events[0], login);
      RunIsItsCommits(Step(st, events[0]), events[1..], login);
      ApplyInParts(st.file.value, Change(st, events[0]), Commits(Step(st, events[0]), events[1..]));
    }
  }

  lemma OneLoginHasFile(st: State, login: Option<Value>)
    requires OneLogin(st, login)
    ensures st.file.Some?
  {
  }

  lemma {:induction false} ApplyInParts(o: Object, ds: seq<Delta>, es: seq<Delta>)
    ensures ApplyAll(o, ds + es) == ApplyAll(ApplyAll(o, ds), es)
  {
    if es == [] {
      assert ds + es == ds;
    } else {
      var all := ds + es;
      assert all[..|all| - 1] == ds + es[..|es| - 1];
      ApplyInParts(o, ds, es[..|es| - 1]);
    }
  }

  // A committed key keeps the value until a later commit of the run changes that key.
  lemma NoUpdateIsLost(st: State, w: nat, outcome: Outcome, later: seq<Event>, login: Option<Value>, k: Key)
    requires OneLogin(st, login) && w in st.held && outcome != NotWritten
    requires Baseline(st.held[w]).Some? && k in DeltaOf(st.held[w])
    requires forall d :: d in Commits(Step(st, Commit(w, outcome)), later) ==> k !in d
    ensures
      var end := Run(Step(st, Commit(w, outcome)), later);
      end.file.Some? && Get(end.file.value, k) == DeltaOf(st.held[w])[k]
  {
    hide DeltaOf, ApplyDelta, Baseline, Step, Commits, OneLogin, Parse, Saved;
    var d, next := DeltaOf(st.held[w]), Step(st, Commit(w, outcome));
    StepKeepsLogin(st, Commit(w, outcome), login);
    RunIsItsCommits(next, later, login);
    assert [d][..0] == [];
    AppliedAt(st.file.value, d, k);
    LastWriterWins(next.file.value, Commits(next, later), k);
  }
}
