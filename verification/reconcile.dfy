/** The reconciliation pass `SetGauges`: bring the gauge in line with a snapshot
    of pending updates.

    The pass first deletes every series whose decoded update is not in the
    snapshot, then sets the series of every update in the snapshot to 1.
    A withdrawn update therefore disappears from the gauge instead of being
    reported with value 0.
 */
module Reconciliation {
  import opened Updates
  import opened Gauges

  /** The gauge value that marks an update as pending. */
  const Present: real := 1.0

  /** The gauge the exporter should expose for a snapshot: one series per update,
      each with value 1, and nothing else. */
  function Target(updates: set<Update>): (reg: Registry)
    ensures WellLabelled(reg)
    ensures forall u :: u in updates ==> ToArray(u) in reg && reg[ToArray(u)] == Present
    ensures forall g :: g in reg ==> FromArray(g) in updates
  {
    map g | g in Encode(updates) :: Present
  }

  /** The series the removal step deletes: those whose update left the snapshot. */
  function Obsolete(reg: Registry, updates: set<Update>): (labels: set<seq<string>>)
    requires WellLabelled(reg)
    ensures labels == reg.Keys - Encode(updates)
  {
    set g | g in AllLabelValues(reg) && FromArray(g) !in updates
  }

  /** The removal step on its own. */
  function RemoveObsolete(reg: Registry, updates: set<Update>): (r: Registry)
    requires WellLabelled(reg)
    ensures WellLabelled(r)
    ensures r.Keys == reg.Keys - Obsolete(reg, updates)
    ensures forall g :: g in r ==> r[g] == reg[g]
    ensures forall g :: g in r ==> FromArray(g) in updates
    ensures forall g :: g in reg && FromArray(g) in updates ==> g in r && r[g] == reg[g]
  {
    reg - Obsolete(reg, updates)
  }

  /** The whole pass as a function: removal step, then the set step. */
  function Reconcile(reg: Registry, updates: set<Update>): (r: Registry)
    requires WellLabelled(reg)
    ensures WellLabelled(r)
    ensures forall u :: u in updates ==> ToArray(u) in r && r[ToArray(u)] == Present
    ensures forall g :: g in r ==> FromArray(g) in updates
    ensures forall g :: g in reg && FromArray(g) !in updates ==> g !in r
    ensures forall g :: g in reg && FromArray(g) in updates ==> g in r
  {
    RemoveObsolete(reg, updates) + Target(updates)
  }

  /** The removal loop: deletes the given series one at a time, in an
      unspecified order. */
  method RemoveAll(reg: Registry, labels: set<seq<string>>) returns (r: Registry)
    ensures r.Keys == reg.Keys - labels
    ensures forall g :: g in r ==> r[g] == reg[g]
  {
    var todo := labels;
    r := reg;
    while todo != {}
      invariant todo <= labels
      invariant r.Keys == reg.Keys - (labels - todo)
      invariant forall g :: g in r ==> r[g] == reg[g]
      decreases todo
    {
      var g :| g in todo;
      r := Gauges.Remove(r, g);
      todo := todo - {g};
    }
  }

  /** The set loop: sets the series of every update to 1, in an unspecified
      order, leaving every other series as it was. */
  method SetAll(reg: Registry, updates: set<Update>) returns (r: Registry)
    requires WellLabelled(reg)
    ensures WellLabelled(r)
    ensures r.Keys == reg.Keys + Encode(updates)
    ensures forall g :: g in r ==> r[g] == if g in Encode(updates) then Present else reg[g]
  {
    var pending := updates;
    ghost var done: set<Update> := {};
    r := reg;
    while pending != {}
      invariant done + pending == updates
      invariant WellLabelled(r)
      invariant r.Keys == reg.Keys + Encode(done)
      invariant forall g :: g in r ==> r[g] == if g in Encode(done) then Present else reg[g]
      decreases pending
    {
      var u :| u in pending;
      EncodeInsert(done, u);
      r := Gauges.Set(r, ToArray(u), Present);
      pending := pending - {u};
      done := done + {u};
    }
  }

  /** The pass as the exporter runs it: the removal loop over the obsolete
      series, then the set loop over the snapshot. */
  method SetGauges(reg: Registry, updates: set<Update>) returns (r: Registry, removed: Registry)
    requires WellLabelled(reg)
    ensures removed.Keys == reg.Keys - Obsolete(reg, updates)
    ensures forall g :: g in reg && FromArray(g) in updates ==> g in removed && removed[g] == reg[g]
    ensures forall g :: g in removed ==> g in reg && FromArray(g) in updates
    ensures removed == RemoveObsolete(reg, updates)
    ensures WellLabelled(r)
    ensures forall u :: u in updates ==> ToArray(u) in r && r[ToArray(u)] == Present
    ensures forall g :: g in r ==> FromArray(g) in updates
    ensures forall g :: g in reg && FromArray(g) !in updates ==> g !in r
    ensures forall g :: g in reg && FromArray(g) in updates ==> g in r
    ensures r == Reconcile(reg, updates)
  {
    removed := RemoveAll(reg, Obsolete(reg, updates));
    assert removed == RemoveObsolete(reg, updates);
    r := SetAll(removed, updates);
    assert r == Reconcile(reg, updates);
  }

  /** Convergence: whatever the gauge held before, after the pass it is exactly
      the target of the snapshot. */
  lemma Convergence(reg: Registry, updates: set<Update>)
    requires WellLabelled(reg)
    ensures Reconcile(reg, updates) == Target(updates)
  {
    var r := Reconcile(reg, updates);
    assert r.Keys == Target(updates).Keys by {
      forall g | g in r
        ensures g in Encode(updates)
      {
        if g in RemoveObsolete(reg, updates) {
          EncodeMembership(updates, g);
        }
      }
    }
  }

  /** The key set after the pass is exactly the encoded snapshot. */
  lemma ConvergedKeys(reg: Registry, updates: set<Update>)
    requires WellLabelled(reg)
    ensures Reconcile(reg, updates).Keys == Encode(updates)
    ensures |Reconcile(reg, updates)| == |updates|
  {
    Convergence(reg, updates);
    EncodeCardinality(updates);
  }

  /** Idempotence: running the pass twice with the same snapshot leaves the
      gauge as running it once does. */
  lemma Idempotence(reg: Registry, updates: set<Update>)
    requires WellLabelled(reg)
    ensures Reconcile(Reconcile(reg, updates), updates) == Reconcile(reg, updates)
  {
    Convergence(reg, updates);
    Convergence(Reconcile(reg, updates), updates);
  }

  /** An empty snapshot leaves the gauge with no series. */
  lemma EmptySnapshot(reg: Registry)
    requires WellLabelled(reg)
    ensures Reconcile(reg, {}) == Empty
  {
    Convergence(reg, {});
  }

  /** Minimal churn between two snapshots: the removal step of the second pass
      selects exactly the series of updates that left; over the whole pass the
      gauge loses exactly those, gains exactly the series of updates that
      arrived, and the series of updates in both keep value 1. */
  lemma ChurnBetweenSnapshots(reg: Registry, before: set<Update>, after: set<Update>)
    requires WellLabelled(reg)
    ensures Obsolete(Reconcile(reg, before), after) == Encode(before - after)
    ensures var r1 := Reconcile(reg, before);
            var r2 := Reconcile(r1, after);
            && r1.Keys - r2.Keys == Encode(before - after)
            && r2.Keys - r1.Keys == Encode(after - before)
            && forall g :: g in r1 && g in r2 ==> r1[g] == r2[g] == Present
  {
    var r1 := Reconcile(reg, before);
    Convergence(reg, before);
    Convergence(r1, after);
    EncodeDifference(before, after);
    EncodeDifference(after, before);
    forall g | g in r1
      ensures g in Encode(before - after) <==> FromArray(g) !in after
    {
      EncodeMembership(before - after, g);
      EncodeMembership(before, g);
    }
  }
}
