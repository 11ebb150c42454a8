/** The order Go sorts strings by, and the sorted keys of a map. */
module ByteOrder {

  predicate Less(a: string, b: string) {
    b != [] && (a == [] || a[0] < b[0] || (a[0] == b[0] && Less(a[1..], b[1..])))
  }

  lemma {:induction false} LessTotal(a: string, b: string)
    ensures a == b || Less(a, b) || Less(b, a)
    ensures !(Less(a, b) && Less(b, a)) && !Less(a, a)
  {
    if a != [] && b != [] && a[0] == b[0] {
      LessTotal(a[1..], b[1..]);
      assert a == [a[0]] + a[1..] && b == [b[0]] + b[1..];
    }
    if a != [] {
      LessTotal(a[1..], a[1..]);
    }
  }

  lemma {:induction false} LessTransitive(a: string, b: string, c: string)
    requires Less(a, b) && Less(b, c)
    ensures Less(a, c)
  {
    if a != [] && a[0] == b[0] == c[0] {
      LessTransitive(a[1..], b[1..], c[1..]);
    }
  }

  lemma {:induction false} PrefixIsLess(a: string, b: string)
    requires a < b
    ensures Less(a, b)
  {
    if a != [] {
      PrefixIsLess(a[1..], b[1..]);
    }
  }

  lemma {:induction false} DifferenceDecides(a: string, b: string, k: nat)
    requires k < |a| && k < |b| && a[..k] == b[..k] && a[k] < b[k]
    ensures Less(a, b)
  {
    if k > 0 {
      assert a[1..][..k - 1] == a[..k][1..] && b[1..][..k - 1] == b[..k][1..];
      assert a[0] == a[..k][0] == b[..k][0] == b[0];
      DifferenceDecides(a[1..], b[1..], k - 1);
    }
  }

  lemma {:induction false} LessHasDifference(a: string, b: string) returns (k: nat)
    requires Less(a, b) && !(a < b)
    ensures k < |a| && k < |b| && a[..k] == b[..k] && a[k] < b[k]
  {
    if a[0] < b[0] {
      k := 0;
    } else {
      assert a == [a[0]] + a[1..] && b == [b[0]] + b[1..];
      k := LessHasDifference(a[1..], b[1..]);
      assert a[..k + 1] == [a[0]] + a[1..][..k] && b[..k + 1] == [b[0]] + b[1..][..k];
      k := k + 1;
    }
  }

  /** Go's order on strings: a proper prefix first, otherwise by the first place that differs. */
  lemma LessMeans(a: string, b: string)
    ensures Less(a, b) <==> a < b || exists k: nat :: k < |a| && k < |b| && a[..k] == b[..k] && a[k] < b[k]
  {
    if a < b {
      PrefixIsLess(a, b);
    } else if Less(a, b) {
      var k := LessHasDifference(a, b);
    } else if k: nat :| k < |a| && k < |b| && a[..k] == b[..k] && a[k] < b[k] {
      DifferenceDecides(a, b, k);
    }
  }

  predicate IsLeast(s: set<string>, k: string) {
    k in s && forall j | j in s && j != k :: Less(k, j)
  }

  lemma {:induction false} LeastExists(s: set<string>)
    requires s != {}
    ensures exists k :: IsLeast(s, k)
    decreases |s|
  {
    var j :| j in s;
    var rest := s - {j};
    if rest == {} {
      assert s == {j};
      assert IsLeast(s, j);
    } else {
      LeastExists(rest);
      var k :| IsLeast(rest, k);
      LessTotal(j, k);
      if Less(j, k) {
        forall i | i in s && i != j ensures Less(j, i) {
          if i != k {
            LessTransitive(j, k, i);
          }
        }
        assert IsLeast(s, j);
      } else {
        assert IsLeast(s, k);
      }
    }
  }

  lemma LeastIsUnique(s: set<string>, j: string, k: string)
    requires IsLeast(s, j) && IsLeast(s, k)
    ensures j == k
  {
    LessTotal(j, k);
  }

  /** The members in ascending order. */
  function Sorted(s: set<string>): (r: seq<string>)
    ensures |r| == |s|
  {
    if s == {} then []
    else
      LeastExists(s);
      assert forall j, k | IsLeast(s, j) && IsLeast(s, k) :: j == k by {
        forall j, k | IsLeast(s, j) && IsLeast(s, k) ensures j == k {
          LeastIsUnique(s, j, k);
        }
      }
      var k :| IsLeast(s, k);
      [k] + Sorted(s - {k})
  }

  lemma {:induction false} SortedMembers(s: set<string>)
    ensures forall k :: k in Sorted(s) <==> k in s
    decreases |s|
  {
    if s != {} {
      var k := Sorted(s)[0];
      assert IsLeast(s, k) && Sorted(s) == [k] + Sorted(s - {k}) by {
        LeastExists(s);
      }
      SortedMembers(s - {k});
    }
  }

  lemma {:induction false} SortedAscends(s: set<string>)
    ensures forall i, j | 0 <= i < j < |Sorted(s)| :: Less(Sorted(s)[i], Sorted(s)[j])
    decreases |s|
  {
    if s != {} {
      var k := Sorted(s)[0];
      assert IsLeast(s, k) && Sorted(s) == [k] + Sorted(s - {k}) by {
        LeastExists(s);
      }
      SortedAscends(s - {k});
      SortedMembers(s - {k});
      forall j | 0 <= j < |Sorted(s - {k})| ensures Less(k, Sorted(s - {k})[j]) {
        assert Sorted(s - {k})[j] in Sorted(s - {k});
      }
    }
  }
}
