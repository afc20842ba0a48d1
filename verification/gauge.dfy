/** The labelled gauge `checkupdates_available` as the exporter uses it.

    The metrics library keeps, per gauge, one series per label-value sequence.
    Here the gauge is the finite map from label-value sequences to the series'
    values; the three library calls the exporter makes become a read of the
    key set, a key deletion and a key update.
 */
module Gauges {
  import opened Updates

  /** The series of the gauge: label values to gauge value. */
  type Registry = map<seq<string>, real>

  /** Every stored series has one value per label name. The library refuses
      label-value sequences of another length, so this holds of every gauge. */
  ghost predicate WellLabelled(reg: Registry)
  {
    forall g :: g in reg ==> |g| == Arity
  }

  /** The gauge with no series, as it is right after creation. */
  const Empty: Registry := map[]

  /** All label-value sequences that currently have a series. */
  function AllLabelValues(reg: Registry): (labels: set<seq<string>>)
    ensures forall g :: g in labels <==> g in reg
  {
    reg.Keys
  }

  /** Deletes the series for `g`; every other series keeps its value. */
  function Remove(reg: Registry, g: seq<string>): (r: Registry)
    ensures g !in r
    ensures forall h :: h in reg && h != g ==> h in r && r[h] == reg[h]
    ensures forall h :: h in r ==> h in reg
  {
    reg - {g}
  }

  /** Sets the series for `g` to `v`, creating it if absent; every other series
      keeps its value. */
  function Set(reg: Registry, g: seq<string>, v: real): (r: Registry)
    requires |g| == Arity
    ensures g in r && r[g] == v
    ensures forall h :: h in reg && h != g ==> h in r && r[h] == reg[h]
    ensures forall h :: h in r ==> h in reg || h == g
  {
    reg[g := v]
  }
}
