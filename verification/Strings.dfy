/** Go's byte-wise order on strings, and the sorted list of a set of them. */
module Strings {

  predicate Less(a: string, b: string) {
    b != [] && (a == [] || a[0] < b[0] || (a[0] == b[0] && Less(a[1..], b[1..])))
  }

  /** a and b agree on their first i characters. */
  ghost predicate AgreeTo(a: string, b: string, i: nat) {
    i <= |a| && i <= |b| && forall j | 0 <= j < i :: a[j] == b[j]
  }

  /** a comes first if it is a proper prefix of b, or has the smaller character where they first differ. */
  lemma {:induction false} LessMeans(a: string, b: string)
    ensures Less(a, b) <==> exists i: nat :: AgreeTo(a, b, i) && i < |b| && (i == |a| || a[i] < b[i])
  {
    if a == [] || b == [] || a[0] != b[0] {
      assert AgreeTo(a, b, 0);
      assert forall i: nat | AgreeTo(a, b, i) && a != [] && b != [] :: i == 0;
    } else {
      LessMeans(a[1..], b[1..]);
      if Less(a[1..], b[1..]) {
        var i: nat :| AgreeTo(a[1..], b[1..], i) && i < |b[1..]| && (i == |a[1..]| || a[1..][i] < b[1..][i]);
        AgreeOneMore(a, b, i);
        assert AgreeTo(a, b, i + 1);
      }
      if i: nat :| AgreeTo(a, b, i) && i < |b| && (i == |a| || a[i] < b[i]) {
        assert AgreeTo(a[1..], b[1..], i - 1);
      }
    }
  }

  lemma AgreeOneMore(a: string, b: string, i: nat)
    requires a != [] && b != [] && a[0] == b[0] && AgreeTo(a[1..], b[1..], i)
    ensures AgreeTo(a, b, i + 1)
  {
    forall j | 0 <= j < i + 1 ensures a[j] == b[j] {
      assert j > 0 ==> a[j] == a[1..][j - 1] && b[j] == b[1..][j - 1];
    }
  }

  lemma {:induction false} LessTotal(a: string, b: string)
    ensures Less(a, b) || a == b || Less(b, a)
    ensures !(Less(a, b) && Less(b, a)) && (a == b ==> !Less(a, b))
  {
    if a != [] && b != [] && a[0] == b[0] {
      LessTotal(a[1..], b[1..]);
      if a[1..] == b[1..] {
        assert a == [a[0]] + a[1..] && b == [b[0]] + b[1..];
      }
    }
  }

  lemma {:induction false} LessTransitive(a: string, b: string, c: string)
    requires Less(a, b) && Less(b, c)
    ensures Less(a, c)
  {
    if a != [] && a[0] == b[0] && b[0] == c[0] {
      LessTransitive(a[1..], b[1..], c[1..]);
    }
  }

  ghost predicate Ascending(ks: seq<string>) {
    forall i, j | 0 <= i < j < |ks| :: Less(ks[i], ks[j])
  }

  /** k goes where it belongs in an ascending list. */
  method Insert(ks: seq<string>, k: string) returns (r: seq<string>)
    requires Ascending(ks) && k !in ks
    ensures Ascending(r) && multiset(r) == multiset(ks) + multiset{k}
  {
    var i := 0;
    while i < |ks| && Less(ks[i], k)
      invariant 0 <= i <= |ks|
      invariant forall j | 0 <= j < i :: Less(ks[j], k)
    {
      i := i + 1;
    }
    r := ks[..i] + [k] + ks[i..];
    assert ks == ks[..i] + ks[i..];
    if i < |ks| {
      LessTotal(ks[i], k);
      assert ks[i] in ks;
      AboveAll(ks, k, i);
    }
    InsertedAscending(ks, k, i);
  }

  lemma AboveAll(ks: seq<string>, k: string, i: nat)
    requires Ascending(ks) && i < |ks| && Less(k, ks[i])
    ensures forall j | i <= j < |ks| :: Less(k, ks[j])
  {
    forall j | i < j < |ks| ensures Less(k, ks[j]) {
      LessTransitive(k, ks[i], ks[j]);
    }
  }

  lemma InsertedAscending(ks: seq<string>, k: string, i: nat)
    requires Ascending(ks) && i <= |ks|
    requires (forall j | 0 <= j < i :: Less(ks[j], k)) && forall j | i <= j < |ks| :: Less(k, ks[j])
    ensures Ascending(ks[..i] + [k] + ks[i..])
  {
  }

  /** sort.Strings on the keys of a map, which arrive in no particular order. */
  method SortedKeys(keys: set<string>) returns (ks: seq<string>)
    ensures Ascending(ks) && (set k | k in ks) == keys
  {
    ks := [];
    var left := keys;
    while left != {}
      invariant left <= keys && Ascending(ks)
      invariant forall k :: k in ks <==> k in keys - left
      decreases |left|
    {
      var k :| k in left;
      var ks' := Insert(ks, k);
      forall x ensures x in ks' <==> x in ks || x == k {
        assert x in ks' <==> x in multiset(ks');
        assert x in ks <==> x in multiset(ks);
      }
      ks := ks';
      left := left - {k};
    }
  }
}
