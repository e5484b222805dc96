/** ORDER BY an integer column, ties by primary key. */
module Ordering {

  /** `keys` maps the primary keys of the selected rows to the ordering column. */
  predicate Before(keys: map<nat, int>, a: nat, b: nat)
    requires a in keys && b in keys
  {
    keys[a] < keys[b] || (keys[a] == keys[b] && a < b)
  }

  predicate IsFirst(keys: map<nat, int>, m: nat) {
    m in keys && forall j :: j in keys && j != m ==> Before(keys, m, j)
  }

  /** `ids` lists every selected row once, in order. */
  ghost predicate IsOrdering(keys: map<nat, int>, ids: seq<nat>) {
    && (forall i :: 0 <= i < |ids| ==> ids[i] in keys)
    && (forall k {:trigger k in ids} :: k in keys ==> k in ids)
    && (forall i, j :: 0 <= i < j < |ids| ==> Before(keys, ids[i], ids[j]))
  }

  lemma {:induction false} FirstExists(keys: map<nat, int>)
    requires keys.Keys != {}
    ensures exists m :: IsFirst(keys, m)
    decreases keys.Keys
  {
    var k :| k in keys.Keys;
    var rest := keys - {k};
    assert rest.Keys == keys.Keys - {k};
    if rest.Keys == {} {
      assert forall j :: j in keys && j != k ==> j in rest;
      assert IsFirst(keys, k);
    } else {
      FirstExists(rest);
      var m :| IsFirst(rest, m);
      var f := if Before(keys, k, m) then k else m;
      forall j | j in keys && j != f ensures Before(keys, f, j) {
        if j != k { assert j in rest; }
      }
      assert IsFirst(keys, f);
    }
  }

  lemma FirstUnique(keys: map<nat, int>, a: nat, b: nat)
    requires IsFirst(keys, a) && IsFirst(keys, b)
    ensures a == b
  {
  }

  function First(keys: map<nat, int>): (m: nat)
    requires keys.Keys != {}
    ensures IsFirst(keys, m)
  {
    FirstExists(keys);
    assert forall a, b :: IsFirst(keys, a) && IsFirst(keys, b) ==> a == b by {
      forall a, b | IsFirst(keys, a) && IsFirst(keys, b) ensures a == b { FirstUnique(keys, a, b); }
    }
    var m :| m in keys.Keys && IsFirst(keys, m); m
  }

  function Sorted(keys: map<nat, int>): (ids: seq<nat>)
    ensures |ids| == |keys|
    ensures IsOrdering(keys, ids)
    decreases keys.Keys
  {
    if keys.Keys == {} then [] else
      var m := First(keys);
      assert (keys - {m}).Keys == keys.Keys - {m};
      var rest := Sorted(keys - {m});
      ConsIsOrdering(keys, m, rest);
      [m] + rest
  }

  lemma ConsIsOrdering(keys: map<nat, int>, m: nat, rest: seq<nat>)
    requires IsFirst(keys, m) && IsOrdering(keys - {m}, rest)
    ensures IsOrdering(keys, [m] + rest)
  {
    var ids := [m] + rest;
    forall k | k in keys ensures k in ids {
      if k != m { assert k in keys - {m} && k in rest; }
    }
    forall i, j | 0 <= i < j < |ids|
      ensures ids[i] in keys && ids[j] in keys && Before(keys, ids[i], ids[j])
    {
      assert rest[j - 1] in keys - {m};
      if i > 0 { assert Before(keys - {m}, rest[i - 1], rest[j - 1]); }
    }
  }

  /** The ordering is unique, so it may be spoken of without saying how it is computed. */
  lemma {:induction false} TwoOrderingsAgree(keys: map<nat, int>, a: seq<nat>, b: seq<nat>)
    requires IsOrdering(keys, a) && IsOrdering(keys, b)
    ensures a == b
    decreases |a|
  {
    assert |b| > 0 ==> b[0] in a;
    if a != [] {
      assert a[0] in b;
      assert a[0] == b[0];
      var rest := keys - {a[0]};
      RestIsOrdering(keys, a);
      RestIsOrdering(keys, b);
      TwoOrderingsAgree(rest, a[1..], b[1..]);
      assert a == [a[0]] + a[1..] && b == [b[0]] + b[1..];
    }
  }

  lemma RestIsOrdering(keys: map<nat, int>, a: seq<nat>)
    requires a != [] && IsOrdering(keys, a)
    ensures IsOrdering(keys - {a[0]}, a[1..])
  {
    var rest := keys - {a[0]};
    forall k | k in rest ensures k in a[1..] {
      assert k in a;
      var i :| 0 <= i < |a| && a[i] == k;
      assert a[1..][i - 1] == k;
    }
    forall i | 0 <= i < |a[1..]| ensures a[1..][i] in rest {
      assert Before(keys, a[0], a[i + 1]);
    }
  }
}
