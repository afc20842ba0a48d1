/** A pending package update and its encoding as the label values of one gauge series.

    The exporter identifies an update by its package name and its level; the two
    strings are also the values of the gauge's two labels, in the order [name, level].
 */
module Updates {

  /** One pending update. The pair (name, level) is its whole identity, so two
      updates with the same name and level are the same value. */
  datatype Update = Update(name: string, level: string)

  /** The label names of the exported gauge, in the order label values are given. */
  const LabelNames: seq<string> := ["name", "level"]

  /** Number of labels of the exported gauge, and so of every encoded update. */
  const Arity: nat := |LabelNames|

  /** The label values of the series that exposes `u`. */
  function ToArray(u: Update): (a: seq<string>)
    ensures |a| == Arity
  {
    [u.name, u.level]
  }

  /** Decodes the label values of a stored series back into the update it exposes.
      Only label sequences of the gauge's arity are ever stored, so only those
      are decoded here. */
  function FromArray(a: seq<string>): (u: Update)
    requires |a| == Arity
    ensures ToArray(u) == a
  {
    Update(a[0], a[1])
  }

  /** Decoding the encoding of an update gives the update back. */
  lemma DecodeEncode(u: Update)
    ensures FromArray(ToArray(u)) == u
  {
  }

  /** Distinct updates are exposed under distinct label sequences. */
  lemma EncodeInjective(u: Update, v: Update)
    ensures ToArray(u) == ToArray(v) <==> u == v
  {
    if ToArray(u) == ToArray(v) {
      DecodeEncode(u);
      DecodeEncode(v);
    }
  }

  /** The label sequences of all updates in a snapshot. */
  function Encode(updates: set<Update>): (labels: set<seq<string>>)
    ensures forall u :: u in updates ==> ToArray(u) in labels
    ensures forall g :: g in labels ==> |g| == Arity && FromArray(g) in updates
  {
    set u | u in updates :: ToArray(u)
  }

  /** A label sequence of the right arity belongs to the encoding of a snapshot
      exactly when the update it decodes to is in the snapshot. */
  lemma EncodeMembership(updates: set<Update>, g: seq<string>)
    requires |g| == Arity
    ensures g in Encode(updates) <==> FromArray(g) in updates
  {
  }

  /** Adding one update to a snapshot adds exactly its series. */
  lemma EncodeInsert(updates: set<Update>, u: Update)
    ensures Encode(updates + {u}) == Encode(updates) + {ToArray(u)}
  {
  }

  /** Encoding commutes with set difference, because encoding is injective. */
  lemma EncodeDifference(a: set<Update>, b: set<Update>)
    ensures Encode(a - b) == Encode(a) - Encode(b)
  {
    forall g | g in Encode(a) - Encode(b)
      ensures g in Encode(a - b)
    {
      assert FromArray(g) in a;
      assert FromArray(g) !in b;
    }
  }

  /** A snapshot of n updates is exposed as exactly n series. */
  lemma {:induction false} EncodeCardinality(updates: set<Update>)
    ensures |Encode(updates)| == |updates|
    decreases updates
  {
    if updates != {} {
      var u :| u in updates;
      var rest := updates - {u};
      EncodeCardinality(rest);
      assert Encode(updates) == Encode(rest) + {ToArray(u)};
      DecodeEncode(u);
      assert ToArray(u) !in Encode(rest);
    } else {
      assert Encode(updates) == {};
    }
  }
}
