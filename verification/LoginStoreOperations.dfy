// The store's operations, changing the directories themselves.
module LoginStoreOperations {
  import opened Optional
  import opened SessionFile
  import opened NativeLogin
  import opened LoginStore

  class Store {
    var dirs: Root

    method WriteSession(name: string, doc: Doc, outcome: Outcome) returns (ok: bool)
      modifies this
      ensures dirs == Recorded(old(dirs), name, doc, outcome)
      ensures ok <==> outcome == Outcome.Written && name in old(dirs)
    {
      ok := outcome == Outcome.Written && name in dirs;
      if outcome != NotWritten && name in dirs {
        dirs := dirs[name := dirs[name].(session := Some(doc))];
      }
    }

    method RetireLogin(name: string, locked: bool, outcome: Outcome) returns (ok: bool)
      modifies this
      ensures dirs == Retire(old(dirs), name, locked, outcome)
      ensures ok <==> Retires(old(dirs), name, locked, outcome)
    {
      ok := !locked && outcome == Outcome.Written && name in dirs;
      if !locked && outcome != NotWritten && name in dirs {
        dirs := dirs[name := dirs[name].(retired := true)];
      }
    }

    // enil_login_store_select
    method SelectLogin(staging: string, listing: seq<string>, made: string, created: bool,
        outcome: Outcome) returns (selected: Option<string>)
      modifies this
      ensures dirs == Stepped(old(dirs), Select(staging, listing, made, created, outcome))
      ensures selected == Selected(old(dirs), Select(staging, listing, made, created, outcome))
    {
      hide Matches, PendingName;
      selected := None;
      var session := SessionIn(dirs, staging);
      if session.None? {
        return;
      }
      var staged := session.value;
      var source := Str(staged, SOURCE);
      if source.Some? && PendingName(source.value) && !IsRetired(dirs, source.value) {
        selected := source;
      }
      var i := 0;
      while selected.None? && !IsTrue(staged, "nativeLoginFresh") && i < |listing|
        invariant 0 <= i <= |listing|
        invariant selected.None? ==> Named(dirs, staged).None? && Scan(dirs, staged, listing) == Scan(dirs, staged, listing[i..])
        invariant selected.Some? ==> selected == Chosen(dirs, staged, listing)
      {
        if Eligible(dirs, staged, listing[i]) {
          selected := Some(listing[i]);
        }
        assert listing[i..][1..] == listing[i + 1..];
        i := i + 1;
      }
      if selected.None? {
        if !created {
          return;
        }
        dirs := dirs[made := Dir(Some(staged), false)];
        selected := Some(made);
      }
      var ok := WriteSession(staging, staged[SOURCE := Text(selected.value)], outcome);
      if !ok {
        selected := None;
      }
    }

    // enil_login_store_stage
    method StageLogin(staging: string, pending: string, newId: string, identifying: Outcome, outcome: Outcome) returns (ok: bool)
      modifies this
      ensures dirs == Stepped(old(dirs), Stage(staging, pending, newId, identifying, outcome))
      ensures ok <==>
        Stages(old(dirs), Stage(staging, pending, newId, identifying, outcome)) && outcome == Outcome.Written && staging in old(dirs)
    {
      ok := false;
      var session := SessionIn(dirs, pending);
      if session.None? {
        return;
      }
      var identified := Str(session.value, "loginId").Some? && session.value["loginId"] != Text("");
      if "loginId" !in session.value {
        identified := WriteSession(pending, session.value["loginId" := Text(newId)], identifying);
      }
      var ready := SessionIn(dirs, pending);
      if identified && !IsRetired(dirs, pending) && ready.Some? &&
         Str(ready.value, "accessToken").Some? && Str(ready.value, "mid").Some? {
        ok := WriteSession(staging, ready.value[SOURCE := Text(pending)], outcome);
      }
    }

    // enil_login_store_restart
    method RestartLogin(staging: string, locked: bool, retiring: Outcome, outcome: Outcome, newId: string, identifying: Outcome)
      returns (ok: bool)
      modifies this
      ensures dirs == Stepped(old(dirs), Restart(staging, locked, retiring, outcome, newId, identifying))
      ensures ok <==>
        && Restarts(old(dirs), Restart(staging, locked, retiring, outcome, newId, identifying))
        && outcome == Outcome.Written && identifying == Outcome.Written
      ensures ok ==> IsRetired(dirs, Str(SessionIn(old(dirs), staging).value, SOURCE).value)
    {
      ok := false;
      var session := SessionIn(dirs, staging);
      if session.None? {
        return;
      }
      var source := Str(session.value, SOURCE);
      if source.None? || !PendingName(source.value) {
        return;
      }
      var retired := RetireLogin(source.value, locked, retiring);
      if !retired {
        return;
      }
      var begun := Restarted(session.value);
      var written := WriteSession(staging, begun, outcome);
      if written {
        ok := WriteSession(staging, begun["loginId" := Text(newId)], identifying);
      }
    }

    // enil_login_store_activate
    method ActivateLogin(staging: string, account: string, outcome: Outcome, locked: bool, retiring: Outcome) returns (ok: bool)
      modifies this
      ensures dirs == Stepped(old(dirs), Install(staging, account, outcome, locked, retiring))
      ensures ok <==> Installs(old(dirs), Install(staging, account, outcome, locked, retiring)) && outcome == Outcome.Written
    {
      var session := SessionIn(dirs, staging);
      if session.None? || !SafeName(account) || Str(session.value, "mid") != Some(account) || Str(session.value, "accessToken").None? {
        return false;
      }
      if account !in dirs {
        dirs := dirs[account := Dir(None, false)];
      }
      ok := WriteSession(account, session.value, outcome);
      if !ok {
        return;
      }
      var source := Str(session.value, SOURCE);
      if source.Some? && PendingName(source.value) {
        var _ := RetireLogin(source.value, locked, retiring);
      }
    }
  }
}
