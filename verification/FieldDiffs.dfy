/**
Snapshots and field-level diffs of records, for any type of values that can be compared
and made JSON-safe.
*/
module FieldDiffs {

  /** How values are made safe and compared, and the value that stands for a missing field. */
  datatype Values<!V> = Values(none: V, safe: V -> V, same: (V, V) -> bool)

  ghost predicate Lawful<V(!new)>(k: Values<V>) {
    && (forall a :: k.same(a, a))
    && (forall a, b, c | k.same(a, b) && k.same(b, c) :: k.same(a, c))
    && (forall a, b {:trigger k.safe(a), k.safe(b)} | k.same(a, b) :: k.same(k.safe(a), k.safe(b)))
  }

  type Record<V> = map<string, V>

  datatype FieldChange<V> = FieldChange(before: V, after: V)

  /** The changes of a diff, by field. */
  type Changes<V> = map<string, FieldChange<V>>

  const SKIPPED := "updated_at"

  /** `snapshot_record`. */
  function Snapshot<V>(k: Values<V>, r: Record<V>): Record<V> {
    map f | f in r :: k.safe(r[f])
  }

  ghost predicate IsSnapshot<V>(k: Values<V>, r: Record<V>, snapshot: Record<V>) {
    snapshot.Keys == r.Keys && forall f | f in r :: snapshot[f] == k.safe(r[f])
  }

  function Get<V>(k: Values<V>, r: Record<V>, f: string): V {
    if f in r then r[f] else k.none
  }

  predicate Differs<V>(k: Values<V>, before: Record<V>, after: Record<V>, f: string) {
    f != SKIPPED && !k.same(Get(k, before, f), Get(k, after, f))
  }

  function ChangeOf<V>(k: Values<V>, before: Record<V>, after: Record<V>, f: string): FieldChange<V> {
    FieldChange(k.safe(Get(k, before, f)), k.safe(Get(k, after, f)))
  }

  /** Exactly the fields of `after` that differ, with their safe values. */
  ghost predicate IsDiff<V>(k: Values<V>, before: Record<V>, after: Record<V>, changes: Changes<V>) {
    && (forall f :: f in changes <==> f in after && Differs(k, before, after, f))
    && (forall f | f in changes :: changes[f] == ChangeOf(k, before, after, f))
  }

  /** `diff_records`: field by field through `after`. */
  method DiffRecords<V>(k: Values<V>, before: Record<V>, after: Record<V>) returns (changes: Changes<V>)
    ensures IsDiff(k, before, after, changes)
  {
    changes := map[];
    var rest := after.Keys;
    while rest != {}
      invariant rest <= after.Keys
      invariant forall f :: f in changes <==> f in after && f !in rest && Differs(k, before, after, f)
      invariant forall f | f in changes :: changes[f] == ChangeOf(k, before, after, f)
      decreases |rest|
    {
      var field: string :| field in rest;
      rest := rest - {field};
      if field == SKIPPED {
        continue;
      }
      var old_ := Get(k, before, field);
      if !k.same(old_, after[field]) {
        changes := changes[field := FieldChange(k.safe(old_), k.safe(after[field]))];
      }
    }
  }

  // ----- Reading diffs back -----

  /** A snapshot with the new values of a diff put in. */
  function Applied<V>(snapshot: Record<V>, changes: Changes<V>): Record<V> {
    map f | f in snapshot.Keys + changes.Keys :: if f in changes then changes[f].after else snapshot[f]
  }

  /** A reconstructed snapshot agrees with a record in all fields but `updated_at`, as values compare. */
  predicate Agrees<V>(k: Values<V>, r: Record<V>, row: Record<V>) {
    r.Keys == row.Keys && forall f | f in row && f != SKIPPED :: k.same(r[f], k.safe(row[f]))
  }

  lemma DiffKeepsAgreement<V(!new)>(k: Values<V>, r: Record<V>, before: Record<V>, after: Record<V>, changes: Changes<V>)
    requires Lawful(k) && Agrees(k, r, before) && before.Keys == after.Keys && IsDiff(k, before, after, changes)
    ensures Agrees(k, Applied(r, changes), after)
  {
    var r' := Applied(r, changes);
    assert r'.Keys == after.Keys;
    forall f | f in after && f != SKIPPED
      ensures k.same(r'[f], k.safe(after[f]))
    {
      if Differs(k, before, after, f) {
        assert r'[f] == k.safe(after[f]);
      } else {
        assert r'[f] == r[f] && k.same(r[f], k.safe(before[f])) && k.same(k.safe(before[f]), k.safe(after[f]));
      }
    }
  }

  /** The same with equality in place of comparison. */
  ghost predicate AgreesExactly<V>(k: Values<V>, r: Record<V>, row: Record<V>) {
    r.Keys == row.Keys && forall f | f in row && f != SKIPPED :: r[f] == k.safe(row[f])
  }

  /** A field's change that the comparison does not see does not change its JSON either. */
  ghost predicate Lossless<V>(k: Values<V>, before: Record<V>, after: Record<V>) {
    forall f | f in before && f in after && f != SKIPPED && k.same(before[f], after[f]) :: k.safe(before[f]) == k.safe(after[f])
  }

  /** From an exact snapshot a diff leads to an exact one if and only if the change is lossless. */
  lemma DiffIsExactIfLossless<V>(k: Values<V>, r: Record<V>, before: Record<V>, after: Record<V>, changes: Changes<V>)
    requires AgreesExactly(k, r, before) && before.Keys == after.Keys && IsDiff(k, before, after, changes)
    ensures AgreesExactly(k, Applied(r, changes), after) <==> Lossless(k, before, after)
  {
    var r' := Applied(r, changes);
    assert r'.Keys == after.Keys;
    forall f | f in after && f != SKIPPED
      ensures r'[f] == if Differs(k, before, after, f) then k.safe(after[f]) else k.safe(before[f])
    {
      assert f in changes <==> Differs(k, before, after, f);
    }
  }
}
