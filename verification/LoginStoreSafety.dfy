// What no sequence of the store's operations, with crashes in between, can
// bring back, and what its scan does find.
module LoginStoreSafety {
  import opened Optional
  import opened SessionFile
  import opened NativeLogin
  import opened LoginStore

  // ---- Runs ----

  function Run(root: Root, steps: seq<Step>): Root {
    if steps == [] then root else Stepped(Run(root, steps[..|steps| - 1]), steps[|steps| - 1])
  }

  ghost predicate AllProper(root: Root, steps: seq<Step>) {
    forall i | 0 <= i < |steps| :: Proper(Run(root, steps[..i]), steps[i])
  }

  lemma FirstSteps(root: Root, steps: seq<Step>)
    requires steps != [] && AllProper(root, steps)
    ensures AllProper(root, steps[..|steps| - 1]) && Proper(Run(root, steps[..|steps| - 1]), steps[|steps| - 1])
  {
    var first := steps[..|steps| - 1];
    forall i | 0 <= i < |first| ensures Proper(Run(root, first[..i]), first[i]) {
      assert first[..i] == steps[..i];
    }
  }

  // ---- Retired for good ----

  lemma ScanIsEligible(root: Root, staged: Doc, listing: seq<string>)
    ensures Scan(root, staged, listing).Some? ==> Eligible(root, staged, Scan(root, staged, listing).value)
  {
  }

  // Does the step hand this login out, to run again or to be activated?
  predicate Uses(root: Root, step: Step, name: string) {
    || (step.Select? && Selected(root, step) == Some(name))
    || (step.Stage? && step.pending == name && Stages(root, step))
  }

  lemma RetiredStep(root: Root, step: Step, name: string)
    requires Proper(root, step) && PendingName(name) && IsRetired(root, name)
    ensures IsRetired(Stepped(root, step), name)
    ensures !Uses(root, step, name)
  {
    hide Matches, PendingName, Restarted;
    if step.Select? && SessionIn(root, step.staging).Some? {
      ScanIsEligible(root, SessionIn(root, step.staging).value, step.listing);
    }
  }

  // Once retired, a pending login is never selected and never staged again, by
  // any sequence of operations.
  lemma {:induction false} RetiredIsNeverUsed(root: Root, steps: seq<Step>, name: string)
    requires AllProper(root, steps) && PendingName(name) && IsRetired(root, name)
    ensures IsRetired(Run(root, steps), name)
    ensures forall i | 0 <= i < |steps| :: !Uses(Run(root, steps[..i]), steps[i], name)
  {
    hide Stepped, Proper, Uses, PendingName, IsRetired;
    if steps != [] {
      var n := |steps| - 1;
      var first := steps[..n];
      FirstSteps(root, steps);
      RetiredIsNeverUsed(root, first, name);
      RetiredStep(Run(root, first), steps[n], name);
      forall i | 0 <= i < n ensures first[..i] == steps[..i] && first[i] == steps[i] {
      }
    }
  }

  // ---- Installed, whether or not it was retired ----

  // The account of a completed pending login holds that login.
  predicate Installed(root: Root, name: string) {
    && PendingName(name) && SessionIn(root, name).Some?
    && var prior := SessionIn(root, name).value;
    && Str(prior, "accessToken").Some? && Str(prior, "mid").Some?
    && var active := SessionIn(root, Str(prior, "mid").value);
    && active.Some? && (Str(active.value, SOURCE) == Some(name) || SameText(Str(active.value, "loginId"), Str(prior, "loginId")))
  }

  function AccountOf(root: Root, name: string): string
    requires Installed(root, name)
  {
    Str(SessionIn(root, name).value, "mid").value
  }

  lemma ScanSkipsInstalled(root: Root, staged: Doc, listing: seq<string>, name: string)
    requires Installed(root, name)
    ensures Scan(root, staged, listing) != Some(name)
  {
    ScanIsEligible(root, staged, listing);
  }

  // Staging a completed pending login and activating it installs it, however the
  // retirement that follows ends.
  lemma ActivationInstalls(root: Root, stage: Step, install: Step)
    requires stage.Stage? && install.Install? && install.staging == stage.staging
    requires Proper(root, stage) && Proper(Stepped(root, stage), install)
    requires Stages(root, stage) && stage.outcome != NotWritten && stage.staging in root
    requires Installs(Stepped(root, stage), install) && install.outcome != NotWritten && install.account != stage.staging
    ensures Installed(Stepped(Stepped(root, stage), install), stage.pending)
  {
    hide PendingName, SafeName;
  }

  // The steps that could replace or remove what account mid holds.
  predicate Touches(step: Step, mid: string) {
    match step
    case Prepare(staging, _) => staging == mid
    case Select(staging, _, _, _, _) => staging == mid
    case Stage(staging, _, _, _, _) => staging == mid
    case Restart(staging, _, _, _, _, _) => staging == mid
    case Install(_, account, _, _, _) => account == mid
    case Removal(account) => account == mid
    case _ => false
  }

  // A completed pending login keeps its token, its account, and its id once it has one.
  lemma PendingStep(root: Root, step: Step, name: string)
    requires Proper(root, step) && PendingName(name)
    requires SessionIn(root, name).Some? && Str(SessionIn(root, name).value, "accessToken").Some?
    ensures SessionIn(Stepped(root, step), name).Some?
    ensures var d, e := SessionIn(root, name).value, SessionIn(Stepped(root, step), name).value;
      && Str(e, "accessToken") == Str(d, "accessToken") && Str(e, "mid") == Str(d, "mid")
      && (Str(d, "loginId").Some? ==> Str(e, "loginId") == Str(d, "loginId"))
  {
    hide PendingName, SafeName, Restarted, Chosen, Stages, Installs;
  }

  // An account that is not touched keeps what identifies its login.
  lemma AccountStep(root: Root, step: Step, mid: string)
    requires Proper(root, step) && !PendingName(mid) && !Touches(step, mid) && SessionIn(root, mid).Some?
    ensures SessionIn(Stepped(root, step), mid).Some?
    ensures var d, e := SessionIn(root, mid).value, SessionIn(Stepped(root, step), mid).value;
      Str(e, SOURCE) == Str(d, SOURCE) && Str(e, "loginId") == Str(d, "loginId")
  {
    hide PendingName, SafeName, Restarted, Chosen, Stages, Installs, Str;
  }

  lemma InstalledStep(root: Root, step: Step, name: string)
    requires Proper(root, step) && Installed(root, name) && !PendingName(AccountOf(root, name)) && !Touches(step, AccountOf(root, name))
    ensures Installed(Stepped(root, step), name) && AccountOf(Stepped(root, step), name) == AccountOf(root, name)
  {
    hide PendingName, Stepped, Str, Proper, Touches, SessionIn;
    PendingStep(root, step, name);
    AccountStep(root, step, AccountOf(root, name));
  }

  // Until its account takes another login or is removed, an installed login is
  // never picked by the scan, even if the process died before retiring it; only
  // an attempt that already named its directory can return to it.
  lemma {:induction false} InstalledIsNeverScanned(root: Root, steps: seq<Step>, name: string)
    requires AllProper(root, steps) && Installed(root, name) && !PendingName(AccountOf(root, name))
    requires forall i | 0 <= i < |steps| :: !Touches(steps[i], AccountOf(root, name))
    ensures Installed(Run(root, steps), name) && AccountOf(Run(root, steps), name) == AccountOf(root, name)
    ensures forall i | 0 <= i < |steps| && steps[i].Select? && Selected(Run(root, steps[..i]), steps[i]) == Some(name) ::
      SessionIn(Run(root, steps[..i]), steps[i].staging).Some? &&
      Named(Run(root, steps[..i]), SessionIn(Run(root, steps[..i]), steps[i].staging).value) == Some(name)
  {
    hide Stepped, Proper, Selected, Installed, PendingName, Named;
    if steps != [] {
      var n := |steps| - 1;
      var first := steps[..n];
      FirstSteps(root, steps);
      InstalledIsNeverScanned(root, first, name);
      InstalledStep(Run(root, first), steps[n], name);
      SelectedByName(Run(root, first), steps[n], name);
      forall i | 0 <= i < n ensures first[..i] == steps[..i] && first[i] == steps[i] {
      }
    }
  }

  lemma SelectedByName(root: Root, step: Step, name: string)
    requires Proper(root, step) && Installed(root, name)
    ensures step.Select? && Selected(root, step) == Some(name) ==>
      SessionIn(root, step.staging).Some? && Named(root, SessionIn(root, step.staging).value) == Some(name)
  {
    if step.Select? && SessionIn(root, step.staging).Some? {
      ScanSkipsInstalled(root, SessionIn(root, step.staging).value, step.listing, name);
    }
    hide Named, Scan, PendingName;
  }

  // That exception is real: an attempt naming an installed login that was not
  // retired gets its directory back.
  lemma NamedLoginIsReturned(root: Root, step: Step, name: string)
    requires step.Select? && step.outcome == Outcome.Written && Installed(root, name) && !IsRetired(root, name)
    requires SessionIn(root, step.staging).Some? && Str(SessionIn(root, step.staging).value, SOURCE) == Some(name)
    ensures Selected(root, step) == Some(name)
  {
    hide Scan;
  }

  // ---- What the scan does find ----

  lemma {:induction false} ScanFinds(root: Root, staged: Doc, listing: seq<string>)
    ensures Scan(root, staged, listing).Some? <==> exists name :: name in listing && Eligible(root, staged, name)
  {
    hide Eligible;
    if listing != [] && !Eligible(root, staged, listing[0]) {
      ScanFinds(root, staged, listing[1..]);
      if name :| name in listing && Eligible(root, staged, name) {
        assert name in listing[1..];
      }
    }
  }

  // A login that was interrupted after it asked for its token, by the same client
  // and for no particular account, is found again instead of being repeated.
  lemma InterruptedLoginIsFound(root: Root, step: Step, name: string)
    requires step.Select? && step.outcome == Outcome.Written && SessionIn(root, step.staging).Some?
    requires var staged := SessionIn(root, step.staging).value;
      Named(root, staged).None? && !IsTrue(staged, "nativeLoginFresh") && Identity(staged).Some? && Str(staged, "reauthMid").None?
    requires name in step.listing && PendingName(name) && !IsRetired(root, name) && SessionIn(root, name).Some?
    requires var prior := SessionIn(root, name).value;
      && Identity(prior) == Identity(SessionIn(root, step.staging).value) && Str(prior, "reauthMid").None?
      && Str(prior, "mid").None? && IsTrue(prior, "nativeTokenRequestStarted")
    ensures Selected(root, step).Some? && Selected(root, step).value in step.listing
    ensures Eligible(root, SessionIn(root, step.staging).value, Selected(root, step).value)
  {
    var staged := SessionIn(root, step.staging).value;
    assert Eligible(root, staged, name);
    ScanFinds(root, staged, step.listing);
    ScanIsListed(root, staged, step.listing);
    ScanIsEligible(root, staged, step.listing);
    hide Eligible, Scan, Named;
  }

  lemma {:induction false} ScanIsListed(root: Root, staged: Doc, listing: seq<string>)
    ensures Scan(root, staged, listing).Some? ==> Scan(root, staged, listing).value in listing
  {
    hide Eligible;
    if listing != [] && !Eligible(root, staged, listing[0]) {
      ScanIsListed(root, staged, listing[1..]);
    }
  }
}
