/** Fixed tables of keyed slots, and the finite map such a table stands for. */
module Table {

  datatype Slot<+V> = Empty | Used(key: nat, value: V)

  /** No two used slots carry the same key. */
  ghost predicate Unique<V>(s: seq<Slot<V>>) {
    forall i, j :: 0 <= i < j < |s| && s[i].Used? && s[j].Used? ==> s[i].key != s[j].key
  }

  function View<V>(s: seq<Slot<V>>): map<nat, V> {
    if s == [] then map[]
    else
      var n := |s| - 1;
      if s[n].Used? then View(s[..n])[s[n].key := s[n].value] else View(s[..n])
  }

  lemma {:induction false} KeysGrow<V>(a: map<nat, V>, k: nat, v: V)
    requires k !in a
    ensures |a[k := v]| == |a| + 1
  {
    assert a[k := v].Keys == a.Keys + {k};
    assert |a[k := v]| == |a[k := v].Keys| && |a| == |a.Keys|;
  }

  lemma {:induction false} SubsetSize<T>(a: set<T>, b: set<T>)
    requires a <= b
    ensures |a| <= |b|
  {
    assert b == a + (b - a);
  }

  lemma {:induction false} KeysShrink<V>(a: map<nat, V>, b: map<nat, V>)
    requires a.Keys <= b.Keys
    ensures |a| <= |b|
  {
    SubsetSize(a.Keys, b.Keys);
    assert |a| == |a.Keys| && |b| == |b.Keys|;
  }

  /** The map has exactly the used keys, with their values. */
  lemma {:induction false} ViewIs<V>(s: seq<Slot<V>>)
    requires Unique(s)
    ensures forall i :: 0 <= i < |s| && s[i].Used? ==> s[i].key in View(s) && View(s)[s[i].key] == s[i].value
    ensures forall k :: k in View(s) ==> exists i :: 0 <= i < |s| && s[i].Used? && s[i].key == k
  {
    if s != [] {
      var n := |s| - 1;
      ViewIs(s[..n]);
      assert forall i :: 0 <= i < n ==> s[..n][i] == s[i];
      forall k | k in View(s) ensures exists i :: 0 <= i < |s| && s[i].Used? && s[i].key == k {
        if s[n].Used? && s[n].key == k {
        } else {
          var i :| 0 <= i < n && s[..n][i].Used? && s[..n][i].key == k;
          assert s[i].Used? && s[i].key == k;
        }
      }
    }
  }

  /** A table has a free slot exactly when its map is smaller than the table. */
  lemma {:induction false} ViewSize<V>(s: seq<Slot<V>>)
    requires Unique(s)
    ensures |View(s)| <= |s|
    ensures (forall i :: 0 <= i < |s| ==> s[i].Used?) ==> |View(s)| == |s|
    ensures forall i :: 0 <= i < |s| && s[i].Empty? ==> |View(s)| < |s|
  {
    if s != [] {
      var n := |s| - 1;
      ViewSize(s[..n]);
      assert forall i :: 0 <= i < n ==> s[..n][i] == s[i];
      if s[n].Used? {
        ViewIs(s[..n]);
        KeysGrow(View(s[..n]), s[n].key, s[n].value);
      }
    }
  }

  /** Filling a free slot with a new key adds one binding. */
  lemma {:induction false} ViewInsert<V>(s: seq<Slot<V>>, i: nat, key: nat, value: V)
    requires Unique(s) && i < |s| && s[i].Empty? && key !in View(s)
    ensures Unique(s[i := Used(key, value)])
    ensures View(s[i := Used(key, value)]) == View(s)[key := value]
  {
    var t := s[i := Used(key, value)];
    ViewIs(s);
    ViewIs(t);
    assert t[i].Used? && t[i].key == key;
    forall k ensures k in View(t) <==> k in View(s)[key := value] {
      if k in View(s) {
        var j :| 0 <= j < |s| && s[j].Used? && s[j].key == k;
        assert t[j] == s[j];
      }
      if k in View(t) {
        var j :| 0 <= j < |t| && t[j].Used? && t[j].key == k;
        assert j != i ==> s[j] == t[j];
      }
    }
    forall k | k in View(t) ensures View(t)[k] == View(s)[key := value][k] {
      var j :| 0 <= j < |t| && t[j].Used? && t[j].key == k;
      assert j != i ==> s[j] == t[j];
    }
  }

  /** Replacing the value in a used slot replaces its binding. */
  lemma {:induction false} ViewReplace<V>(s: seq<Slot<V>>, i: nat, value: V)
    requires Unique(s) && i < |s| && s[i].Used?
    ensures Unique(s[i := Used(s[i].key, value)])
    ensures View(s[i := Used(s[i].key, value)]) == View(s)[s[i].key := value]
  {
    var t := s[i := Used(s[i].key, value)];
    ViewIs(s);
    ViewIs(t);
    forall k ensures k in View(t) <==> k in View(s) {
      if k in View(s) {
        var j :| 0 <= j < |s| && s[j].Used? && s[j].key == k;
        assert t[j].Used? && t[j].key == k;
      }
      if k in View(t) {
        var j :| 0 <= j < |t| && t[j].Used? && t[j].key == k;
        assert s[j].Used? && s[j].key == k;
      }
    }
    forall k | k in View(t) ensures View(t)[k] == View(s)[s[i].key := value][k] {
      var j :| 0 <= j < |t| && t[j].Used? && t[j].key == k;
    }
  }

  /** `t` is `s` with the slots that fail a test emptied. */
  ghost predicate Filtered<V>(s: seq<Slot<V>>, t: seq<Slot<V>>, keep: (nat, V) -> bool) {
    && |t| == |s|
    && forall i :: 0 <= i < |s| ==> t[i] == if s[i].Used? && !keep(s[i].key, s[i].value) then Empty else s[i]
  }

  lemma {:induction false} ViewFilterKeys<V>(s: seq<Slot<V>>, t: seq<Slot<V>>, keep: (nat, V) -> bool, k: nat)
    requires Unique(s) && Unique(t) && Filtered(s, t, keep)
    ensures k in View(t) <==> k in View(s) && keep(k, View(s)[k])
    ensures k in View(t) ==> View(t)[k] == View(s)[k]
  {
    ViewIs(s);
    ViewIs(t);
    if k in View(s) {
      var j :| 0 <= j < |s| && s[j].Used? && s[j].key == k;
      assert t[j] == if keep(k, View(s)[k]) then s[j] else Empty;
    }
    if k in View(t) {
      var j :| 0 <= j < |t| && t[j].Used? && t[j].key == k;
      assert s[j] == t[j];
    }
  }

  /** Emptying every slot that fails a test keeps exactly the bindings that pass it. */
  lemma {:induction false} ViewFilter<V>(s: seq<Slot<V>>, t: seq<Slot<V>>, keep: (nat, V) -> bool)
    requires Unique(s) && Filtered(s, t, keep)
    ensures Unique(t)
    ensures View(t) == map k | k in View(s) && keep(k, View(s)[k]) :: View(s)[k]
  {
    forall k ensures k in View(t) <==> k in View(s) && keep(k, View(s)[k])
             ensures k in View(t) ==> View(t)[k] == View(s)[k] {
      ViewFilterKeys(s, t, keep, k);
    }
  }

  /** Emptying one used slot removes one binding. */
  lemma {:induction false} ViewErase<V>(s: seq<Slot<V>>, i: nat)
    requires Unique(s) && i < |s| && s[i].Used?
    ensures Unique(s[i := Empty])
    ensures |View(s[i := Empty])| + 1 == |View(s)|
  {
    ViewIs(s);
    var key := s[i].key;
    var keep := (k: nat, v: V) => k != key;
    ViewFilter(s, s[i := Empty], keep);
    assert View(s).Keys == View(s[i := Empty]).Keys + {key};
    assert |View(s)| == |View(s).Keys| && |View(s[i := Empty])| == |View(s[i := Empty]).Keys|;
  }
}
