/**
 * The record storage behind one record kind, as the configuration store
 * uses it: records keyed by identity, each with a version that storage
 * assigns on `add` and advances on every `write`. The entity adapters and the
 * database are not part of this model; these definitions state what the store
 * relies on them for.
 */
module Store {
  import opened Wrappers
  import Decimal

  /** The version storage gives a record when it is first added. */
  const InitialVersion: nat := 1

  /** A stored record (a database document): the entity's fields and the version storage keeps for it. */
  datatype Doc<E> = Doc(entity: E, version: nat)

  /** The version token readers see: the decimal rendering of the stored version. */
  function Token<E>(d: Doc<E>): string {
    Decimal.DecimalString(d.version)
  }

  /** Every record is stored under its entity's own identity. */
  ghost predicate KeyedBy<K, E>(m: map<K, Doc<E>>, keyOf: E -> K) {
    forall k :: k in m ==> keyOf(m[k].entity) == k
  }

  //
  // Optimistic concurrency control
  //

  /** What the checks before an update decide: no such record, a stale caller version, or go ahead. */
  datatype Verdict = Missing | Stale | Current

  /**
   * The checks every update makes before writing: the record must exist,
   * and a caller-supplied version must equal the stored version's rendering;
   * no caller version means an unconditional update.
   */
  function CheckVersion<K, E>(m: map<K, Doc<E>>, k: K, version: Option<string>): (v: Verdict)
    ensures v == Missing <==> k !in m
    ensures v == Stale ==> version.Some?
    ensures v == Current && version.Some? ==> Decimal.ParseDecimal(version.value) == Some(m[k].version)
  {
    if k !in m then Missing
    else if version.Some? && version.value != Token(m[k]) then Stale
    else Decimal.ParseDecimalString(m[k].version); Current
  }

  /** `write`: storage replaces the record's fields and advances its version. */
  function Write<K, E>(m: map<K, Doc<E>>, k: K, e: E): (r: map<K, Doc<E>>)
    requires k in m
    ensures r.Keys == m.Keys
    ensures r[k].entity == e && r[k].version > m[k].version
    ensures forall j :: j in m && j != k ==> r[j] == m[j]
  {
    m[k := Doc(e, m[k].version + 1)]
  }

  /** A caller who read a record and hands back the version it read passes the check, as does one who hands back none. */
  lemma ReadVersionIsCurrent<K, E>(m: map<K, Doc<E>>, k: K)
    requires k in m
    ensures CheckVersion(m, k, Some(Token(m[k]))) == Current
    ensures CheckVersion(m, k, None) == Current
  {
  }

  /**
   * Compare-and-swap: of two updates that carry the same version, once the
   * first has been written the second is refused as stale, and the record
   * holds the first one's fields.
   */
  lemma CompareAndSwap<K, E>(m: map<K, Doc<E>>, k: K, v: string, first: E)
    requires CheckVersion(m, k, Some(v)) == Current
    ensures k in Write(m, k, first) && Write(m, k, first)[k].entity == first
    ensures CheckVersion(Write(m, k, first), k, Some(v)) == Stale
  {
    Decimal.DecimalStringInjective(m[k].version, m[k].version + 1);
  }

  /** A caller who does not hand back a version can never be refused as stale: only a missing record stops it. */
  lemma UnconditionalUpdate<K, E>(m: map<K, Doc<E>>, k: K)
    ensures CheckVersion(m, k, None) != Stale
    ensures CheckVersion(m, k, None) == Current <==> k in m
  {
  }

  //
  // Seeding from defaults
  //

  /** The result of adding records one after another: what is stored now, and the identity of the add that clashed, if one did. */
  datatype Batch<K, E> = Batch(records: map<K, Doc<E>>, duplicate: Option<K>)

  /** `add` for each item in list order; an add whose identity is already stored raises and stops the rest. */
  function AddAll<K, E>(m: map<K, Doc<E>>, items: seq<E>, keyOf: E -> K): Batch<K, E>
    decreases |items|
  {
    if items == [] then Batch(m, None)
    else
      var k := keyOf(items[0]);
      if k in m then Batch(m, Some(k))
      else AddAll(m[k := Doc(items[0], InitialVersion)], items[1..], keyOf)
  }

  /** The seeding callback of one kind: nothing when the defaults list is null or empty, every default otherwise. */
  function Seed<K, E>(m: map<K, Doc<E>>, defaults: Option<seq<E>>, keyOf: E -> K): Batch<K, E> {
    if defaults.None? || defaults.value == [] then Batch(m, None)
    else AddAll(m, defaults.value, keyOf)
  }

  /** The items' identities are pairwise distinct and none is stored yet. */
  ghost predicate FreshKeys<K, E>(m: map<K, Doc<E>>, items: seq<E>, keyOf: E -> K) {
    && (forall i :: 0 <= i < |items| ==> keyOf(items[i]) !in m)
    && (forall i, j :: 0 <= i < j < |items| ==> keyOf(items[i]) != keyOf(items[j]))
  }

  ghost function KeysOf<K, E>(items: seq<E>, keyOf: E -> K): set<K> {
    set i | 0 <= i < |items| :: keyOf(items[i])
  }

  /** Seeding never loses or alters a record that was already there, and keeps every record under its own identity. */
  lemma {:induction false} AddAllKeeps<K, E>(m: map<K, Doc<E>>, items: seq<E>, keyOf: E -> K)
    ensures var b := AddAll(m, items, keyOf);
      && m.Keys <= b.records.Keys
      && (forall k :: k in m ==> b.records[k] == m[k])
      && (KeyedBy(m, keyOf) ==> KeyedBy(b.records, keyOf))
    decreases |items|
  {
    if items != [] && keyOf(items[0]) !in m {
      AddAllKeeps(m[keyOf(items[0]) := Doc(items[0], InitialVersion)], items[1..], keyOf);
    }
  }

  /** Freshness of a list is freshness of its head, then of its tail once the head is stored. */
  lemma FreshKeysStep<K, E>(m: map<K, Doc<E>>, items: seq<E>, keyOf: E -> K)
    requires items != []
    ensures FreshKeys(m, items, keyOf) <==>
      keyOf(items[0]) !in m && FreshKeys(m[keyOf(items[0]) := Doc(items[0], InitialVersion)], items[1..], keyOf)
  {
    var k := keyOf(items[0]);
    var m' := m[k := Doc(items[0], InitialVersion)];
    var rest := items[1..];
    if FreshKeys(m, items, keyOf) {
      forall i | 0 <= i < |rest| ensures keyOf(rest[i]) !in m' {
        assert rest[i] == items[i + 1];
      }
      forall i, j | 0 <= i < j < |rest| ensures keyOf(rest[i]) != keyOf(rest[j]) {
        assert rest[i] == items[i + 1] && rest[j] == items[j + 1];
      }
    }
    if k !in m && FreshKeys(m', rest, keyOf) {
      forall i | 0 <= i < |items| ensures keyOf(items[i]) !in m {
        if i > 0 { assert items[i] == rest[i - 1]; }
      }
      forall i, j | 0 <= i < j < |items| ensures keyOf(items[i]) != keyOf(items[j]) {
        assert items[j] == rest[j - 1];
        if i > 0 { assert items[i] == rest[i - 1]; }
      }
    }
  }

  /** Seeding succeeds exactly when the identities of the items are fresh. */
  lemma {:induction false} AddAllSucceedsIffFresh<K, E>(m: map<K, Doc<E>>, items: seq<E>, keyOf: E -> K)
    ensures AddAll(m, items, keyOf).duplicate.None? <==> FreshKeys(m, items, keyOf)
    decreases |items|
  {
    if items != [] {
      FreshKeysStep(m, items, keyOf);
      var k := keyOf(items[0]);
      if k !in m {
        AddAllSucceedsIffFresh(m[k := Doc(items[0], InitialVersion)], items[1..], keyOf);
      }
    }
  }

  /** A seeding that succeeds stores exactly the identities that were there and those of the items. */
  lemma {:induction false} AddAllStoredKeys<K, E>(m: map<K, Doc<E>>, items: seq<E>, keyOf: E -> K)
    requires AddAll(m, items, keyOf).duplicate.None?
    ensures AddAll(m, items, keyOf).records.Keys == m.Keys + KeysOf(items, keyOf)
    decreases |items|
  {
    if items != [] {
      var k := keyOf(items[0]);
      var rest := items[1..];
      AddAllStoredKeys(m[k := Doc(items[0], InitialVersion)], rest, keyOf);
      assert KeysOf(items, keyOf) == {k} + KeysOf(rest, keyOf) by {
        forall x | x in KeysOf(items, keyOf) ensures x in {k} + KeysOf(rest, keyOf) {
          var i :| 0 <= i < |items| && keyOf(items[i]) == x;
          if i > 0 { assert items[i] == rest[i - 1]; }
        }
        forall x | x in KeysOf(rest, keyOf) ensures x in KeysOf(items, keyOf) {
          var i :| 0 <= i < |rest| && keyOf(rest[i]) == x;
          assert rest[i] == items[i + 1];
        }
      }
    }
  }

  /** A seeding that succeeds adds exactly one record per item. */
  lemma {:induction false} AddAllSize<K, E>(m: map<K, Doc<E>>, items: seq<E>, keyOf: E -> K)
    requires AddAll(m, items, keyOf).duplicate.None?
    ensures |AddAll(m, items, keyOf).records| == |m| + |items|
    decreases |items|
  {
    if items != [] {
      var k := keyOf(items[0]);
      assert k !in m;
      AddAllSize(m[k := Doc(items[0], InitialVersion)], items[1..], keyOf);
    }
  }

  /** A seeding that succeeds stores every item at its identity, with the initial version. */
  lemma {:induction false} AddAllStoresEveryItem<K, E>(m: map<K, Doc<E>>, items: seq<E>, keyOf: E -> K)
    requires AddAll(m, items, keyOf).duplicate.None?
    ensures forall i :: 0 <= i < |items| ==>
      keyOf(items[i]) in AddAll(m, items, keyOf).records &&
      AddAll(m, items, keyOf).records[keyOf(items[i])] == Doc(items[i], InitialVersion)
    decreases |items|
  {
    if items != [] {
      var k := keyOf(items[0]);
      var m' := m[k := Doc(items[0], InitialVersion)];
      var rest := items[1..];
      var b := AddAll(m', rest, keyOf);
      assert AddAll(m, items, keyOf) == b;
      AddAllStoresEveryItem(m', rest, keyOf);
      AddAllKeeps(m', rest, keyOf);
      forall i | 0 <= i < |items| ensures keyOf(items[i]) in b.records && b.records[keyOf(items[i])] == Doc(items[i], InitialVersion) {
        if i > 0 { assert items[i] == rest[i - 1]; }
      }
    }
  }

  /**
   * In list order: when an add clashes, the items before it have all been
   * added, and nothing after it has.
   */
  lemma {:induction false} AddAllStopsAtClash<K, E>(m: map<K, Doc<E>>, items: seq<E>, keyOf: E -> K)
    ensures var b := AddAll(m, items, keyOf);
      b.duplicate.Some? ==>
        exists j :: 0 <= j < |items| && keyOf(items[j]) == b.duplicate.value
          && AddAll(m, items[..j], keyOf) == Batch(b.records, None)
          && b.duplicate.value in b.records
    decreases |items|
  {
    var b := AddAll(m, items, keyOf);
    if items != [] && b.duplicate.Some? {
      var k := keyOf(items[0]);
      if k in m {
        assert items[..0] == [];
        assert keyOf(items[0]) == b.duplicate.value;
      } else {
        var m' := m[k := Doc(items[0], InitialVersion)];
        var rest := items[1..];
        AddAllStopsAtClash(m', rest, keyOf);
        var j :| 0 <= j < |rest| && keyOf(rest[j]) == b.duplicate.value
          && AddAll(m', rest[..j], keyOf) == Batch(b.records, None)
          && b.duplicate.value in b.records;
        assert items[..j + 1][0] == items[0];
        assert items[..j + 1][1..] == rest[..j];
        assert items[j + 1] == rest[j];
      }
    }
  }

  /** The seeding loop: adds the items one after another, stopping at the first that clashes. */
  method AddEach<K, E>(m: map<K, Doc<E>>, items: seq<E>, keyOf: E -> K) returns (b: Batch<K, E>)
    ensures b == AddAll(m, items, keyOf)
  {
    var stored := m;
    var i := 0;
    while i < |items|
      invariant 0 <= i <= |items|
      invariant AddAll(stored, items[i..], keyOf) == AddAll(m, items, keyOf)
    {
      var k := keyOf(items[i]);
      assert items[i..][0] == items[i] && items[i..][1..] == items[i + 1..];
      if k in stored {
        return Batch(stored, Some(k));
      }
      stored := stored[k := Doc(items[i], InitialVersion)];
      i := i + 1;
    }
    return Batch(stored, None);
  }

  //
  // Browsing
  //

  /** `browse`: every stored identity exactly once, in no particular order. */
  method ListKeys<K, E>(m: map<K, Doc<E>>) returns (ks: seq<K>)
    ensures |ks| == |m|
    ensures forall k :: k in ks <==> k in m
    ensures forall i, j :: 0 <= i < j < |ks| ==> ks[i] != ks[j]
  {
    var rest := m.Keys;
    ks := [];
    while rest != {}
      invariant rest <= m.Keys
      invariant forall k :: k in ks <==> k in m.Keys - rest
      invariant forall i, j :: 0 <= i < j < |ks| ==> ks[i] != ks[j]
      invariant |ks| + |rest| == |m.Keys|
      decreases rest
    {
      var k :| k in rest;
      assert k !in ks;
      ks := ks + [k];
      rest := rest - {k};
    }
  }

  /** `ks` lists every stored identity exactly once. */
  ghost predicate Lists<K, E>(ks: seq<K>, m: map<K, Doc<E>>) {
    && |ks| == |m|
    && (forall k :: k in m ==> k in ks)
    && (forall i :: 0 <= i < |ks| ==> ks[i] in m)
    && (forall i, j :: 0 <= i < j < |ks| ==> ks[i] != ks[j])
  }

  /** `browse` as a reader sees it: the view of every stored record, each exactly once, in no particular order. */
  method Browse<K, E, V>(m: map<K, Doc<E>>, view: Doc<E> -> V) returns (vs: seq<V>)
    ensures |vs| == |m|
    ensures forall k :: k in m ==> view(m[k]) in vs
    ensures forall i :: 0 <= i < |vs| ==> exists k :: k in m && vs[i] == view(m[k])
    ensures exists ks :: Lists(ks, m) && |ks| == |vs| && forall i :: 0 <= i < |ks| ==> ks[i] in m && vs[i] == view(m[ks[i]])
  {
    var ks := ListKeys(m);
    vs := seq(|ks|, i requires 0 <= i < |ks| => view(m[ks[i]]));
    assert Lists(ks, m) && |ks| == |vs| && forall i :: 0 <= i < |ks| ==> ks[i] in m && vs[i] == view(m[ks[i]]);
    forall k | k in m ensures view(m[k]) in vs {
      var i :| 0 <= i < |ks| && ks[i] == k;
      assert vs[i] == view(m[k]);
    }
  }
}
