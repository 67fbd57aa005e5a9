/** The event filter that keeps the staff controller from waking itself up. */
module StaffFilter {

  const LAST_SYNCED := "kdp-workspaces.cncf.io/last-synced"
  const SYNC_STATUS := "kdp-workspaces.cncf.io/sync-status"
  const WORKSPACE_COUNT := "kdp-workspaces.cncf.io/workspace-count"

  type Annotations = map<string, string>
  datatype Object = Object(annotations: Annotations, generation: int)

  predicate IsSyncKey(k: string) { k == LAST_SYNCED || k == SYNC_STATUS || k == WORKSPACE_COUNT }

  /** The annotations that are not the controller's own. */
  function Filtered(a: Annotations): Annotations {
    map k | k in a && !IsSyncKey(k) :: a[k]
  }

  /** A Go map read: an absent key reads as the empty string. */
  function Read(a: Annotations, k: string): string { if k in a then a[k] else "" }

  predicate Passes(before: Object, after: Object) {
    var (o, n) := (Filtered(before.annotations), Filtered(after.annotations));
    || |o| != |n|
    || (exists k :: k in o && Read(n, k) != o[k])
    || before.generation != after.generation
  }

  method Filter(a: Annotations) returns (kept: Annotations)
    ensures kept == Filtered(a)
  {
    kept := map[];
    var keys := a.Keys;
    while keys != {}
      invariant keys <= a.Keys
      invariant kept == Filtered(map k | k in a && k !in keys :: a[k])
      decreases |keys|
    {
      var k :| k in keys;
      keys := keys - {k};
      if !IsSyncKey(k) {
        kept := kept[k := a[k]];
      }
    }
    assert (map k | k in a && k !in keys :: a[k]) == a;
  }

  method UpdateFunc(before: Object, after: Object) returns (pass: bool)
    ensures pass == Passes(before, after)
  {
    var o := Filter(before.annotations);
    var n := Filter(after.annotations);
    if |o| != |n| {
      return true;
    }
    var keys := o.Keys;
    while keys != {}
      invariant keys <= o.Keys
      invariant forall k :: k in o && k !in keys ==> Read(n, k) == o[k]
      decreases |keys|
    {
      var k :| k in keys;
      if Read(n, k) != o[k] {
        return true;
      }
      keys := keys - {k};
    }
    return before.generation != after.generation;
  }

  /** The write of the sync status. */
  function WriteStatus(x: Object, time: string, status: string, count: string): Object {
    x.(annotations := x.annotations[LAST_SYNCED := time][SYNC_STATUS := status][WORKSPACE_COUNT := count])
  }

  /** The controller's own write never wakes it, whatever the object held. */
  lemma OwnWriteIsIgnored(x: Object, time: string, status: string, count: string)
    ensures !Passes(x, WriteStatus(x, time, status, count))
  {
    assert Filtered(x.annotations) == Filtered(WriteStatus(x, time, status, count).annotations);
  }

  lemma SameKeys(o: Annotations, n: Annotations)
    requires o.Keys <= n.Keys && |o| == |n|
    ensures o.Keys == n.Keys
  {
    assert n.Keys == o.Keys + (n.Keys - o.Keys);
    assert |o.Keys| == |o| && |n.Keys| == |n|;
  }

  ghost predicate Changed(before: Object, after: Object) {
    Filtered(before.annotations) != Filtered(after.annotations) || before.generation != after.generation
  }

  predicate NoEmptyValue(a: Annotations) {
    forall k :: k in a ==> a[k] != ""
  }

  /** Comparing sizes and old keys decides equality of the whole maps, when no old value is empty. */
  lemma PassesIfChanged(before: Object, after: Object)
    requires NoEmptyValue(Filtered(before.annotations))
    ensures Passes(before, after) <==> Changed(before, after)
  {
    var (o, n) := (Filtered(before.annotations), Filtered(after.annotations));
    if !Passes(before, after) {
      assert forall k :: k in o ==> Read(n, k) == o[k];
      assert o.Keys <= n.Keys;
      SameKeys(o, n);
      assert o == n;
    }
  }

  lemma {:induction false} FreshKey(keys: set<string>) returns (l: string)
    ensures |l| > |LAST_SYNCED| + |SYNC_STATUS| + |WORKSPACE_COUNT|
    ensures forall k :: k in keys ==> |k| < |l|
    decreases |keys|
  {
    if keys == {} {
      l := LAST_SYNCED + SYNC_STATUS + WORKSPACE_COUNT + ".";
    } else {
      var k :| k in keys;
      var rest := FreshKey(keys - {k});
      l := if |k| < |rest| then rest else k + ".";
    }
  }

  lemma SameSize(o: Annotations, k: string, l: string, v: string)
    requires k in o && l !in o
    ensures |(o - {k})[l := v]| == |o|
  {
    var rest := o - {k};
    assert o.Keys == rest.Keys + {k} && rest[l := v].Keys == rest.Keys + {l};
  }

  /** Replacing an empty annotation by another key is a change the filter drops. */
  lemma EmptyValueHidesAChange(before: Object, k: string)
    requires k in Filtered(before.annotations) && before.annotations[k] == ""
    ensures exists after :: Changed(before, after) && !Passes(before, after)
  {
    var o := Filtered(before.annotations);
    var l := FreshKey(o.Keys);
    var n := (o - {k})[l := "moved"];
    var after := Object(n, before.generation);
    assert Filtered(n) == n;
    SameSize(o, k, l, "moved");
    assert l in n && l !in o;
    assert Changed(before, after) && !Passes(before, after);
  }

  /** From a given object, the filter lets through exactly the changes of foreign annotations and of
      the spec, if and only if no foreign annotation is empty. */
  lemma FilterIsExactWhen(before: Object)
    ensures (forall after :: Passes(before, after) <==> Changed(before, after)) <==>
            NoEmptyValue(Filtered(before.annotations))
  {
    hide Passes, Changed;
    if NoEmptyValue(Filtered(before.annotations)) {
      forall after ensures Passes(before, after) <==> Changed(before, after) {
        PassesIfChanged(before, after);
      }
    } else {
      var k :| k in Filtered(before.annotations) && Filtered(before.annotations)[k] == "";
      EmptyValueHidesAChange(before, k);
    }
  }
}
