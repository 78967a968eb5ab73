/** The settings of a device: its own rows laid over the global ones. */
module Settings {
  import opened Wrappers

  /** A global setting has no device. */
  datatype Setting = Setting(deviceId: Option<string>, key: string, value: string)

  /** Collecting rows into a map: a later row replaces an earlier one with the same key. */
  function Collect(rows: seq<Setting>): map<string, string> {
    if rows == [] then
      map[]
    else
      var n := |rows| - 1;
      Collect(rows[..n])[rows[n].key := rows[n].value]
  }

  function GetSetting(settings: map<string, string>, key: string): Option<string> {
    if key in settings then Some(settings[key]) else None
  }

  /**
   A result of `get_settings_for_device`: the global rows, in some order, and then those of the device, in some
   order.
   */
  ghost predicate QueryResult(rows: seq<Setting>, global: seq<Setting>, own: seq<Setting>) {
    exists g, d :: rows == g + d && Permutation(g, global) && Permutation(d, own)
  }

  ghost predicate Permutation(a: seq<Setting>, b: seq<Setting>) {
    multiset(a) == multiset(b)
  }

  ghost predicate HasKey(rows: seq<Setting>, key: string) {
    exists k :: 0 <= k < |rows| && rows[k].key == key
  }

  /** Rows of one key carry one value. Unique keys are a special case. */
  ghost predicate Consistent(rows: seq<Setting>) {
    forall j, k :: 0 <= j < |rows| && 0 <= k < |rows| && rows[j].key == rows[k].key ==> rows[j].value == rows[k].value
  }

  /** The same, for the keys that the device does not set itself. */
  ghost predicate ConsistentOutside(rows: seq<Setting>, own: seq<Setting>) {
    forall j, k ::
      0 <= j < |rows| && 0 <= k < |rows| && rows[j].key == rows[k].key && !HasKey(own, rows[j].key) ==>
        rows[j].value == rows[k].value
  }

  lemma {:induction false} CollectKeys(rows: seq<Setting>, key: string)
    ensures key in Collect(rows) <==> HasKey(rows, key)
    ensures key in Collect(rows) ==>
              exists k :: 0 <= k < |rows| && rows[k].key == key && rows[k].value == Collect(rows)[key]
  {
    if rows != [] {
      var n := |rows| - 1;
      CollectKeys(rows[..n], key);
      if rows[n].key == key {
        assert HasKey(rows, key);
      } else {
        assert forall k :: 0 <= k < n ==> rows[..n][k] == rows[k];
        assert HasKey(rows, key) <==> HasKey(rows[..n], key);
      }
    }
  }

  /** Laying one list over another is a lookup in two levels. */
  lemma {:induction false} CollectConcat(a: seq<Setting>, b: seq<Setting>, key: string)
    ensures GetSetting(Collect(a + b), key) == GetSetting(Collect(b), key).Or(GetSetting(Collect(a), key))
  {
    if b == [] {
      assert a + b == a;
    } else {
      CollectConcat(a, b[..|b| - 1], key);
      assert (a + b)[..|a + b| - 1] == a + b[..|b| - 1];
    }
  }

  lemma PermutationKeys(a: seq<Setting>, b: seq<Setting>)
    requires Permutation(a, b)
    ensures forall x :: x in a <==> x in b
    ensures forall key :: HasKey(a, key) <==> HasKey(b, key)
    ensures Consistent(b) ==> Consistent(a)
    ensures forall own :: ConsistentOutside(b, own) ==> ConsistentOutside(a, own)
  {
    forall x ensures x in a <==> x in b {
      assert x in a <==> x in multiset(a);
      assert x in b <==> x in multiset(b);
    }
    forall k | 0 <= k < |a| ensures a[k] in b {
    }
    forall k | 0 <= k < |b| ensures b[k] in a {
    }
  }

  /**
   The merge: the device's value if it has one, else a global one, else none. Where the rows of the key in that tier
   agree, as they do when the key is unique in it, the value is theirs, whatever order the rows came in.
   */
  lemma MergeIsTwoLevelLookup(rows: seq<Setting>, global: seq<Setting>, own: seq<Setting>, key: string)
    requires QueryResult(rows, global, own)
    ensures GetSetting(Collect(rows), key).Some? <==> HasKey(own, key) || HasKey(global, key)
    ensures HasKey(own, key) ==>
      exists s :: s in own && s.key == key && GetSetting(Collect(rows), key) == Some(s.value)
    ensures !HasKey(own, key) && HasKey(global, key) ==>
      exists s :: s in global && s.key == key && GetSetting(Collect(rows), key) == Some(s.value)
  {
    var g, d :| rows == g + d && Permutation(g, global) && Permutation(d, own);
    PermutationKeys(g, global);
    PermutationKeys(d, own);
    CollectConcat(g, d, key);
    CollectKeys(g, key);
    CollectKeys(d, key);
  }

  /** The map is the same for every order of the rows exactly when, in the tier that decides a key, its rows agree. */
  lemma OrderIsIrrelevantIff(global: seq<Setting>, own: seq<Setting>)
    ensures
      (forall rows :: QueryResult(rows, global, own) ==> Collect(rows) == Collect(global + own))
      <==>
      Consistent(own) && ConsistentOutside(global, own)
  {
    if Consistent(own) && ConsistentOutside(global, own) {
      forall rows | QueryResult(rows, global, own) ensures Collect(rows) == Collect(global + own) {
        ConsistentMerge(rows, global, own);
      }
    }
    if forall rows :: QueryResult(rows, global, own) ==> Collect(rows) == Collect(global + own) {
      forall j, k | 0 <= j < |own| && 0 <= k < |own| && own[j].key == own[k].key ensures own[j].value == own[k].value {
        OwnRowDecides(global, own, j);
        OwnRowDecides(global, own, k);
      }
      forall j, k | 0 <= j < |global| && 0 <= k < |global| && global[j].key == global[k].key
                    && !HasKey(own, global[j].key)
        ensures global[j].value == global[k].value
      {
        GlobalRowDecides(global, own, j);
        GlobalRowDecides(global, own, k);
      }
    }
  }

  lemma ConsistentMerge(rows: seq<Setting>, global: seq<Setting>, own: seq<Setting>)
    requires QueryResult(rows, global, own) && Consistent(own) && ConsistentOutside(global, own)
    ensures Collect(rows) == Collect(global + own)
  {
    assert QueryResult(global + own, global, own) by {
      assert Permutation(global, global) && Permutation(own, own);
    }
    forall key ensures GetSetting(Collect(rows), key) == GetSetting(Collect(global + own), key) {
      MergeIsTwoLevelLookup(rows, global, own, key);
      MergeIsTwoLevelLookup(global + own, global, own, key);
    }
    assert forall key :: key in Collect(rows) <==> GetSetting(Collect(rows), key).Some?;
    assert forall key :: key in Collect(global + own) <==> GetSetting(Collect(global + own), key).Some?;
    assert Collect(rows).Keys == Collect(global + own).Keys;
  }

  /** The same rows, with row k moved to the end. */
  function MovedLast(rows: seq<Setting>, k: nat): seq<Setting>
    requires k < |rows|
  {
    rows[..k] + rows[k + 1..] + [rows[k]]
  }

  lemma MovedLastIsPermutation(rows: seq<Setting>, k: nat)
    requires k < |rows|
    ensures Permutation(MovedLast(rows, k), rows)
  {
    assert rows == rows[..k] + [rows[k]] + rows[k + 1..];
  }

  lemma LastRowDecides(rows: seq<Setting>, k: nat)
    requires k < |rows|
    ensures GetSetting(Collect(MovedLast(rows, k)), rows[k].key) == Some(rows[k].value)
  {
    var m := MovedLast(rows, k);
    assert m[|m| - 1] == rows[k];
  }

  lemma OwnRowDecides(global: seq<Setting>, own: seq<Setting>, k: nat)
    requires k < |own|
    requires forall rows :: QueryResult(rows, global, own) ==> Collect(rows) == Collect(global + own)
    ensures GetSetting(Collect(global + own), own[k].key) == Some(own[k].value)
  {
    MovedLastIsPermutation(own, k);
    assert Permutation(global, global);
    assert QueryResult(global + MovedLast(own, k), global, own);
    CollectConcat(global, MovedLast(own, k), own[k].key);
    LastRowDecides(own, k);
  }

  lemma GlobalRowDecides(global: seq<Setting>, own: seq<Setting>, k: nat)
    requires k < |global| && !HasKey(own, global[k].key)
    requires forall rows :: QueryResult(rows, global, own) ==> Collect(rows) == Collect(global + own)
    ensures GetSetting(Collect(global + own), global[k].key) == Some(global[k].value)
  {
    MovedLastIsPermutation(global, k);
    assert Permutation(own, own);
    assert QueryResult(MovedLast(global, k) + own, global, own);
    CollectConcat(MovedLast(global, k), own, global[k].key);
    CollectKeys(own, global[k].key);
    LastRowDecides(global, k);
  }
}
