/** Concrete runs of the reconciliation pass and of startup, stated on literal
    snapshots. */
module Scenarios {
  import opened Updates
  import opened Gauges
  import opened Reconciliation
  import opened MetricsService

  const Vim: Update := Update("vim", "security")
  const Curl: Update := Update("curl", "bugfix")
  const OpenSsl: Update := Update("openssl", "security")

  /** The target of a literal snapshot, written out series by series. */
  lemma TargetOfPair(a: Update, b: Update)
    requires a != b
    ensures Target({a, b}) == map[ToArray(a) := Present, ToArray(b) := Present]
  {
    assert Encode({a, b}) == {ToArray(a), ToArray(b)};
  }

  /** One pending update on an empty gauge gives exactly one series,
      labelled name=vim and level=security, with value 1. */
  lemma SingleUpdate()
    ensures Reconcile(Empty, {Vim}) == map[["vim", "security"] := Present]
  {
    Convergence(Empty, {Vim});
    assert Encode({Vim}) == {ToArray(Vim)};
  }

  /** When that update goes away the gauge is left with no series at all. */
  lemma UpdateWithdrawn()
    ensures Reconcile(Reconcile(Empty, {Vim}), {}) == Empty
  {
    SingleUpdate();
    EmptySnapshot(Reconcile(Empty, {Vim}));
  }

  /** Replacing {vim, curl} by {curl, openssl} deletes the vim series, keeps
      the curl series at 1 and adds the openssl series at 1. */
  lemma PartialReplacement()
    ensures var r1 := Reconcile(Empty, {Vim, Curl});
            var r2 := Reconcile(r1, {Curl, OpenSsl});
            && r2 == map[["curl", "bugfix"] := Present, ["openssl", "security"] := Present]
            && ["vim", "security"] in r1 && ["vim", "security"] !in r2
  {
    var r1 := Reconcile(Empty, {Vim, Curl});
    Convergence(Empty, {Vim, Curl});
    TargetOfPair(Vim, Curl);
    Convergence(r1, {Curl, OpenSsl});
    TargetOfPair(Curl, OpenSsl);
  }

  /** Startup with one known update populates the gauge before the server
      accepts its first scrape. */
  lemma PopulatedBeforeFirstScrape()
    ensures var t := ExecuteSteps(Constructed, {Update("a", "x")});
            forall i :: 0 <= i < |t| && t[i].serverStarted ==> t[i].registry == map[["a", "x"] := Present]
  {
    assert Encode({Update("a", "x")}) == {["a", "x"]};
  }
}
