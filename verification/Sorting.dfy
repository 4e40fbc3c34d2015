/** The order of Go's string comparison and the sorted enumeration of a key set,
    shared by pg.sortedKeys (internal/pg/mutate.go) and the object-key sort of
    audit.writeCanonical (internal/audit/hashchain.go). */
module Sorting {
  /** a <= b in the order of Go's string comparison (code points here, which
      order valid UTF-8 exactly as its bytes do). */
  predicate Le(a: string, b: string) {
    a == "" || (b != "" && (a[0] < b[0] || (a[0] == b[0] && Le(a[1..], b[1..]))))
  }

  lemma {:induction false} LeTotal(a: string, b: string)
    ensures Le(a, b) || Le(b, a)
  {
    if a != "" && b != "" && a[0] == b[0] { LeTotal(a[1..], b[1..]); }
  }

  lemma {:induction false} LeRefl(a: string)
    ensures Le(a, a)
  {
    if a != "" { LeRefl(a[1..]); }
  }

  lemma {:induction false} LeAntisym(a: string, b: string)
    requires Le(a, b) && Le(b, a)
    ensures a == b
  {
    if a != "" {
      LeAntisym(a[1..], b[1..]);
      assert a == [a[0]] + a[1..] && b == [b[0]] + b[1..];
    }
  }

  lemma {:induction false} LeTrans(a: string, b: string, c: string)
    requires Le(a, b) && Le(b, c)
    ensures Le(a, c)
  {
    if a != "" && a[0] == b[0] == c[0] { LeTrans(a[1..], b[1..], c[1..]); }
  }

  /** Where two texts first differ the smaller character comes first; where one
      ends first, the shorter does. */
  lemma {:induction false} FirstDifference(a: string, b: string, i: nat)
    requires i <= |a| && i <= |b| && a[..i] == b[..i]
    ensures i < |a| && i < |b| && a[i] != b[i] ==> (Le(a, b) <==> a[i] < b[i])
    ensures i == |a| ==> Le(a, b)
    ensures i == |b| < |a| ==> !Le(a, b)
  {
    if i > 0 {
      assert a[0] == a[..i][0] && b[0] == b[..i][0];
      assert a[1..][..i - 1] == a[..i][1..] && b[1..][..i - 1] == b[..i][1..];
      FirstDifference(a[1..], b[1..], i - 1);
    }
  }

  ghost predicate Least(x: string, keys: set<string>) {
    x in keys && forall y | y in keys :: Le(x, y)
  }

  lemma {:induction false} LeastExists(keys: set<string>) returns (x: string)
    requires keys != {}
    ensures Least(x, keys)
    decreases |keys|
  {
    x :| x in keys;
    LeRefl(x);
    if keys != {x} {
      var rest := keys - {x};
      assert keys == rest + {x};
      var y := LeastExists(rest);
      LeTotal(x, y);
      if Le(x, y) {
        forall z | z in keys ensures Le(x, z) {
          if z != x { LeTrans(x, y, z); }
        }
      } else {
        x := y;
      }
    }
  }

  /** The keys in ascending order. */
  ghost function Sorted(keys: set<string>): (r: seq<string>)
    decreases |keys|
  {
    if keys == {} then []
    else
      LeastOf(keys);
      var x :| Least(x, keys);
      [x] + Sorted(keys - {x})
  }

  lemma LeastOf(keys: set<string>)
    requires keys != {}
    ensures exists x :: Least(x, keys)
  {
    var x := LeastExists(keys);
  }

  /** Strictly ascending: sorted and free of repeats. */
  ghost predicate Ascending(s: seq<string>) {
    forall i, j | 0 <= i < j < |s| :: Le(s[i], s[j]) && s[i] != s[j]
  }

  lemma {:induction false} SortedIsAscending(keys: set<string>)
    ensures Ascending(Sorted(keys))
    ensures forall k :: k in Sorted(keys) <==> k in keys
    decreases |keys|
  {
    if keys != {} {
      var s := Sorted(keys);
      LeastOf(keys);
      assert Least(s[0], keys);
      assert s[1..] == Sorted(keys - {s[0]});
      SortedIsAscending(keys - {s[0]});
      forall i, j | 0 <= i < j < |s| ensures Le(s[i], s[j]) && s[i] != s[j] {
        if i == 0 { assert s[j] == s[1..][j - 1] && s[j] in s[1..]; }
        else { assert s[i] == s[1..][i - 1] && s[j] == s[1..][j - 1]; }
      }
      forall k ensures k in s <==> k in keys {
        assert s == [s[0]] + s[1..];
      }
    }
  }

  lemma TailKeys(s: seq<string>)
    requires Ascending(s) && s != []
    ensures forall k :: k in s[1..] <==> k in s && k != s[0]
  {
    assert s == [s[0]] + s[1..];
    assert forall j | 0 <= j < |s[1..]| :: s[1..][j] == s[j + 1];
  }

  /** Two ascending enumerations of the same keys are the same sequence, so a
      sort leaves no trace of the order in which a Go map yielded its keys. */
  lemma {:induction false} AscendingUnique(s: seq<string>, t: seq<string>)
    requires Ascending(s) && Ascending(t)
    requires forall k :: k in s <==> k in t
    ensures s == t
  {
    if t != [] { assert t[0] in t; }
    if s != [] {
      assert s[0] in t && t != [];
      assert t[0] in s;
      assert s[0] == t[0] by {
        var i :| 0 <= i < |t| && t[i] == s[0];
        var j :| 0 <= j < |s| && s[j] == t[0];
        if i != 0 && j != 0 { LeAntisym(s[0], t[0]); }
      }
      TailKeys(s);
      TailKeys(t);
      AscendingUnique(s[1..], t[1..]);
      assert s == [s[0]] + s[1..] && t == [t[0]] + t[1..];
    }
  }

  /** sort.Strings on a list of distinct keys, done as an insertion sort. */
  method SortStrings(keys: seq<string>) returns (r: seq<string>)
    requires forall i, j | 0 <= i < j < |keys| :: keys[i] != keys[j]
    ensures r == Sorted(set k | k in keys)
  {
    r := [];
    var i := 0;
    while i < |keys|
      invariant 0 <= i <= |keys|
      invariant Ascending(r)
      invariant forall k :: k in r <==> k in keys[..i]
    {
      assert keys[i] !in keys[..i];
      r := Insert(r, keys[i]);
      assert keys[..i + 1] == keys[..i] + [keys[i]];
      i := i + 1;
    }
    assert keys[..i] == keys;
    SortedIsAscending(set k | k in keys);
    AscendingUnique(r, Sorted(set k | k in keys));
  }

  /** Puts a new key into its place in an ascending list. */
  method Insert(s: seq<string>, x: string) returns (r: seq<string>)
    requires Ascending(s) && x !in s
    ensures Ascending(r)
    ensures forall k :: k in r <==> k in s || k == x
  {
    var i := 0;
    while i < |s| && Le(s[i], x)
      invariant 0 <= i <= |s|
      invariant forall j | 0 <= j < i :: Le(s[j], x)
    {
      i := i + 1;
    }
    forall j | i <= j < |s| ensures Le(x, s[j]) {
      LeTotal(x, s[i]);
      if j > i { LeTrans(x, s[i], s[j]); }
    }
    InsertedAt(s, x, i);
    r := s[..i] + [x] + s[i..];
  }

  lemma InsertedAt(s: seq<string>, x: string, i: nat)
    requires Ascending(s) && x !in s && i <= |s|
    requires forall j | 0 <= j < i :: Le(s[j], x)
    requires forall j | i <= j < |s| :: Le(x, s[j])
    ensures Ascending(s[..i] + [x] + s[i..])
    ensures forall k :: k in s[..i] + [x] + s[i..] <==> k in s || k == x
  {
    hide Le;
    var r := s[..i] + [x] + s[i..];
    assert s == s[..i] + s[i..];
    forall a, b | 0 <= a < b < |r| ensures Le(r[a], r[b]) && r[a] != r[b] {
      assert a < i ==> r[a] == s[a];
      assert b < i ==> r[b] == s[b];
      assert a > i ==> r[a] == s[a - 1];
      assert b > i ==> r[b] == s[b - 1];
    }
  }
}
