/** Lists of distinct texts in increasing order. */
module Sorting {
  import opened Values

  ghost predicate Sorted(keys: seq<string>) {
    forall i, j :: 0 <= i < j < |keys| ==> CompareText(keys[i], keys[j]) < 0
  }

  ghost predicate Distinct(keys: seq<string>) {
    forall i, j :: 0 <= i < j < |keys| ==> keys[i] != keys[j]
  }

  lemma SortedIsDistinct(keys: seq<string>)
    requires Sorted(keys)
    ensures Distinct(keys)
  {
    forall i, j | 0 <= i < j < |keys| ensures keys[i] != keys[j] {
      assert CompareText(keys[i], keys[j]) < 0;
    }
  }

  ghost function InsertKey(keys: seq<string>, x: string): (out: seq<string>)
    requires Sorted(keys) && x !in keys
    ensures Sorted(out) && forall k :: k in out <==> k == x || k in keys
  {
    if keys == [] then [x]
    else if CompareText(x, keys[0]) < 0 then
      PutFirst(keys, x);
      [x] + keys
    else
      var out := InsertKey(keys[1..], x);
      KeepFirst(keys, x, out);
      [keys[0]] + out
  }

  lemma KeepFirst(keys: seq<string>, x: string, out: seq<string>)
    requires Sorted(keys) && keys != [] && x !in keys && CompareText(x, keys[0]) >= 0
    requires Sorted(out) && forall k :: k in out <==> k == x || k in keys[1..]
    ensures Sorted([keys[0]] + out)
  {
    CompareTextOrder(x, keys[0], x);
    forall j | 0 <= j < |out| ensures CompareText(keys[0], out[j]) < 0 {
      assert out[j] == x || out[j] in keys[1..];
    }
  }

  lemma PutFirst(keys: seq<string>, x: string)
    requires Sorted(keys) && keys != [] && CompareText(x, keys[0]) < 0
    ensures Sorted([x] + keys)
  {
    forall j | 0 <= j < |keys| ensures CompareText(x, keys[j]) < 0 {
      CompareTextOrder(x, keys[0], keys[j]);
    }
  }

  /** The one increasing list of a set of texts. */
  ghost function SortedKeys(names: set<string>): (keys: seq<string>)
    ensures Sorted(keys) && forall k :: k in keys <==> k in names
    decreases |names|
  {
    if names == {} then []
    else
      var x :| x in names;
      InsertKey(SortedKeys(names - {x}), x)
  }

  lemma {:induction false} SortedIsUnique(a: seq<string>, b: seq<string>)
    requires Sorted(a) && Sorted(b) && forall k :: k in a <==> k in b
    ensures a == b
  {
    if a != [] && b != [] {
      SortedIsDistinct(a);
      SortedIsDistinct(b);
      SameFirst(a, b);
      assert forall k :: k in a[1..] <==> k in a && k != a[0];
      assert forall k :: k in b[1..] <==> k in b && k != b[0];
      SortedIsUnique(a[1..], b[1..]);
      assert a == [a[0]] + a[1..] && b == [b[0]] + b[1..];
    } else {
      BothEmpty(a, b);
    }
  }

  lemma BothEmpty(a: seq<string>, b: seq<string>)
    requires forall k :: k in a <==> k in b
    ensures a == [] <==> b == []
  {
    if a != [] {
      assert a[0] in b;
    }
    if b != [] {
      assert b[0] in a;
    }
  }

  lemma SameFirst(a: seq<string>, b: seq<string>)
    requires Sorted(a) && Sorted(b) && (forall k :: k in a <==> k in b) && a != [] && b != []
    ensures a[0] == b[0]
  {
    assert a[0] in b && b[0] in a;
    var i :| 0 <= i < |b| && b[i] == a[0];
    var j :| 0 <= j < |a| && a[j] == b[0];
    CompareTextOrder(a[0], b[0], a[0]);
  }

  /** Puts `x` at its place in a strictly sorted list. */
  method InsertSorted(keys: seq<string>, x: string) returns (out: seq<string>)
    requires Sorted(keys) && x !in keys
    ensures Sorted(out) && |out| == |keys| + 1
    ensures forall k :: k in out <==> k == x || k in keys
  {
    var i := |keys|;
    while i > 0 && CompareText(x, keys[i - 1]) < 0
      invariant 0 <= i <= |keys|
      invariant forall j :: i <= j < |keys| ==> CompareText(x, keys[j]) < 0
    {
      i := i - 1;
    }
    out := keys[..i] + [x] + keys[i..];
    forall j | 0 <= j < i ensures CompareText(keys[j], x) < 0 {
      assert keys[j] in keys;
      CompareTextOrder(x, keys[i - 1], x);
      CompareTextOrder(keys[j], keys[i - 1], x);
    }
  }

  /** sort.Strings over the keys of a map. */
  method SortKeys(names: set<string>) returns (keys: seq<string>)
    ensures keys == SortedKeys(names)
  {
    keys := [];
    var rest := names;
    while rest != {}
      invariant rest <= names && Sorted(keys)
      invariant forall k :: k in keys <==> k in names - rest
    {
      var x :| x in rest;
      keys := InsertSorted(keys, x);
      rest := rest - {x};
    }
    SortedIsUnique(keys, SortedKeys(names));
  }
}
