/** Strings in dictionary order, and the keys of an object sorted by it. */
module Ordering {

  predicate Less(a: string, b: string) {
    b != "" && (a == "" || a[0] < b[0] || (a[0] == b[0] && Less(a[1..], b[1..])))
  }

  lemma {:induction false} LessIsTotal(a: string, b: string)
    ensures a == b || Less(a, b) || Less(b, a)
  {
    if a != "" && b != "" && a[0] == b[0] {
      LessIsTotal(a[1..], b[1..]);
      assert a == [a[0]] + a[1..] && b == [b[0]] + b[1..];
    }
  }

  lemma {:induction false} LessIsTransitive(a: string, b: string, c: string)
    requires Less(a, b) && Less(b, c)
    ensures Less(a, c)
  {
    if a != "" && a[0] == b[0] == c[0] {
      LessIsTransitive(a[1..], b[1..], c[1..]);
    }
  }

  lemma {:induction false} LessIsIrreflexive(a: string)
    ensures !Less(a, a)
  {
    if a != "" {
      LessIsIrreflexive(a[1..]);
    }
  }

  predicate IsLeast(k: string, ks: set<string>) {
    k in ks && forall x :: x in ks && x != k ==> Less(k, x)
  }

  lemma {:induction false} LeastExists(ks: set<string>)
    requires ks != {}
    ensures exists k :: IsLeast(k, ks)
  {
    var k :| k in ks;
    if ks == {k} {
      assert IsLeast(k, ks);
    } else {
      LeastExists(ks - {k});
      var m :| IsLeast(m, ks - {k});
      LessIsTotal(k, m);
      var least := if Less(k, m) then k else m;
      forall x | x in ks && x != least
        ensures Less(least, x)
      {
        if least == k && x != m {
          LessIsTransitive(k, m, x);
        }
      }
      assert IsLeast(least, ks);
    }
  }

  lemma LeastIsUnique(ks: set<string>, k: string, m: string)
    requires IsLeast(k, ks) && IsLeast(m, ks)
    ensures k == m
  {
    if k != m {
      LessIsTransitive(k, m, k);
      LessIsIrreflexive(k);
    }
  }

  function SortedKeys(ks: set<string>): (sorted: seq<string>)
    ensures forall k :: k in sorted <==> k in ks
    ensures forall i, j :: 0 <= i < j < |sorted| ==> Less(sorted[i], sorted[j])
  {
    if ks == {} then []
    else
      LeastExists(ks);
      assert forall k, m :: IsLeast(k, ks) && IsLeast(m, ks) ==> k == m by {
        forall k, m | IsLeast(k, ks) && IsLeast(m, ks)
          ensures k == m
        {
          LeastIsUnique(ks, k, m);
        }
      }
      var k :| IsLeast(k, ks);
      [k] + SortedKeys(ks - {k})
  }

  /** One path comes before another when, at the first segment where they part, its key is the
      lesser one. In particular neither is a prefix of the other. */
  ghost predicate PathBefore(p: seq<string>, q: seq<string>) {
    exists n :: 0 <= n < |p| && n < |q| && p[..n] == q[..n] && Less(p[n], q[n])
  }

  lemma PathBeforeIsIrreflexive(p: seq<string>)
    ensures !PathBefore(p, p)
  {
    forall n | 0 <= n < |p|
      ensures !Less(p[n], p[n])
    {
      LessIsIrreflexive(p[n]);
    }
  }
}
