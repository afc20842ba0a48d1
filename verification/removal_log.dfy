/** The number the pass logs as "removed obsolete gauge values".

    The obsolete series are described by a deferred query over the gauge's live
    series, and the count is taken by running that query again after the removal
    loop. By then the gauge no longer holds any of the series the query selects.
 */
module RemovalLog {
  import opened Updates
  import opened Gauges
  import opened Reconciliation

  /** The count as written: the obsolete query evaluated against the gauge after
      the removal loop has run. */
  function LoggedRemovedCount(reg: Registry, updates: set<Update>): (n: nat)
    requires WellLabelled(reg)
    ensures n <= |RemoveObsolete(reg, updates)|
  {
    |Obsolete(RemoveObsolete(reg, updates), updates)|
  }

  /** The count as written is zero on every input, whatever was removed. */
  lemma LoggedCountIsZero(reg: Registry, updates: set<Update>)
    requires WellLabelled(reg)
    ensures LoggedRemovedCount(reg, updates) == 0
  {
    assert Obsolete(RemoveObsolete(reg, updates), updates) == {};
  }

  /** A gauge holding the vim series, reconciled against an empty snapshot,
      loses one series while the logged count says none. */
  lemma LoggedCountMissesRemoval()
    ensures var reg := map[["vim", "security"] := Present];
            |reg.Keys - Reconcile(reg, {}).Keys| == 1 && LoggedRemovedCount(reg, {}) == 0
  {
    var reg := map[["vim", "security"] := Present];
    EmptySnapshot(reg);
    LoggedCountIsZero(reg, {});
  }

  /** The count as intended: the obsolete query evaluated once, before any
      series is removed. */
  function RemovedCount(reg: Registry, updates: set<Update>): (n: nat)
    requires WellLabelled(reg)
    ensures n == |reg.Keys - Encode(updates)|
    ensures n <= |reg|
  {
    |Obsolete(reg, updates)|
  }

  /** The intended count is the number of series the pass deletes. */
  lemma RemovedCountIsChurn(reg: Registry, updates: set<Update>)
    requires WellLabelled(reg)
    ensures RemovedCount(reg, updates) == |reg.Keys - Reconcile(reg, updates).Keys|
  {
    Convergence(reg, updates);
    assert reg.Keys - Reconcile(reg, updates).Keys == Obsolete(reg, updates) by {
      forall g | g in reg
        ensures g in Encode(updates) <==> FromArray(g) in updates
      {
        EncodeMembership(updates, g);
      }
    }
  }
}
