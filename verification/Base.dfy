/** Small vocabulary shared by every module: names and when they are true, optional values, sequences without
    repetition, suffixes, the cut that takes stale timestamps from the front of a queue, and the order in which Python
    sorts strings. */
module Base {
  /** The name of a node, an action or an agent. */
  datatype Id = Id(text: string)

  datatype Option<+T> = None | Some(value: T)

  /** Python truthiness of an optional name: None and the empty string are both false. */
  predicate Truthy(d: Option<Id>) {
    d.Some? && d.value.text != ""
  }

  ghost function SetOf<T>(s: seq<T>): set<T> {
    set x | x in s
  }

  ghost predicate NoDup<T>(s: seq<T>) {
    forall i, j :: 0 <= i < j < |s| ==> s[i] != s[j]
  }

  lemma {:induction false} NoDupSize<T>(s: seq<T>)
    requires NoDup(s)
    ensures |SetOf(s)| == |s|
  {
    if s != [] {
      var front := s[..|s| - 1];
      NoDupSize(front);
      assert s == front + [s[|s| - 1]];
      assert SetOf(s) == SetOf(front) + {s[|s| - 1]};
    }
  }

  lemma TakeNext<T>(s: seq<T>, k: nat)
    requires k < |s|
    ensures s[..k + 1] == s[..k] + [s[k]]
  {
  }

  lemma NoDupParts<T>(a: seq<T>, b: seq<T>)
    requires NoDup(a + b)
    ensures NoDup(a) && NoDup(b)
    ensures forall x :: x in a ==> x !in b
  {
    forall i, j | 0 <= i < j < |a| ensures a[i] != a[j] {
      assert (a + b)[i] != (a + b)[j];
    }
    forall i, j | 0 <= i < j < |b| ensures b[i] != b[j] {
      assert (a + b)[|a| + i] != (a + b)[|a| + j];
    }
    forall i, j | 0 <= i < |a| && 0 <= j < |b| ensures a[i] != b[j] {
      assert (a + b)[i] != (a + b)[|a| + j];
    }
  }

  lemma NoDupJoin<T>(a: seq<T>, b: seq<T>)
    requires NoDup(a) && NoDup(b) && SetOf(a) !! SetOf(b)
    ensures NoDup(a + b)
  {
    forall i, j | 0 <= i < j < |a + b| ensures (a + b)[i] != (a + b)[j] {
      if i < |a| <= j {
        assert a[i] in SetOf(a) && b[j - |a|] in SetOf(b);
      }
    }
  }

  lemma SubsetSize<T>(a: set<T>, b: set<T>)
    requires a <= b
    ensures |a| <= |b|
    ensures |a| == |b| ==> a == b
  {
    assert b == a + (b - a);
    assert |b| == |a| + |b - a|;
  }

  ghost predicate Suffix<T>(a: seq<T>, b: seq<T>) {
    |a| <= |b| && a == b[|b| - |a|..]
  }

  /** The timestamps left when everything older than the cutoff is taken from the front. */
  function CutBefore(q: seq<real>, cutoff: real): seq<real> {
    if q != [] && q[0] < cutoff then CutBefore(q[1..], cutoff) else q
  }

  lemma {:induction false} CutAt(q: seq<real>, cutoff: real) returns (d: nat)
    ensures d <= |q| && CutBefore(q, cutoff) == q[d..]
    ensures forall i :: 0 <= i < d ==> q[i] < cutoff
    ensures d < |q| ==> q[d] >= cutoff
  {
    d := 0;
    if q != [] && q[0] < cutoff {
      var rest := q[1..];
      d := CutAt(rest, cutoff);
      forall i | 0 <= i < d + 1 ensures q[i] < cutoff {
        assert i > 0 ==> rest[i - 1] == q[i];
      }
      assert rest[d..] == q[d + 1..];
      d := d + 1;
    }
  }

  lemma CutIsSuffix(q: seq<real>, cutoff: real)
    ensures Suffix(CutBefore(q, cutoff), q)
    ensures forall i :: 0 <= i < |q| - |CutBefore(q, cutoff)| ==> q[i] < cutoff
    ensures CutBefore(q, cutoff) != [] ==> CutBefore(q, cutoff)[0] >= cutoff
  {
    var d := CutAt(q, cutoff);
    assert |q[d..]| == |q| - d;
  }

  /** String order: by the first character that differs, a proper prefix coming first. */
  predicate Less(a: string, b: string) {
    b != [] && (a == [] || a[0] < b[0] || (a[0] == b[0] && Less(a[1..], b[1..])))
  }

  lemma {:induction false} LessExactly(a: string, b: string)
    ensures Less(a, b) <==> (a <= b && a != b) || exists i: nat :: DifferFirst(a, b, i) && a[i] < b[i]
  {
    if a != [] && b != [] {
      if a[0] == b[0] {
        LessExactly(a[1..], b[1..]);
        assert a == [a[0]] + a[1..] && b == [b[0]] + b[1..];
        DifferLater(a, b);
      } else {
        assert DifferFirst(a, b, 0);
        assert forall i: nat :: DifferFirst(a, b, i) ==> i == 0 || a[..i][0] == b[..i][0];
      }
    }
  }

  lemma DifferLater(a: string, b: string)
    requires a != [] && b != [] && a[0] == b[0]
    ensures (exists i: nat :: DifferFirst(a, b, i) && a[i] < b[i]) <==>
              exists i: nat :: DifferFirst(a[1..], b[1..], i) && a[1..][i] < b[1..][i]
  {
    if i: nat :| DifferFirst(a[1..], b[1..], i) && a[1..][i] < b[1..][i] {
      assert a[..i + 1] == [a[0]] + a[1..][..i] && b[..i + 1] == [b[0]] + b[1..][..i];
      assert DifferFirst(a, b, i + 1) && a[i + 1] < b[i + 1];
    }
    if i: nat :| DifferFirst(a, b, i) && a[i] < b[i] {
      assert a[1..][..i - 1] == a[..i][1..] && b[1..][..i - 1] == b[..i][1..];
      assert DifferFirst(a[1..], b[1..], i - 1) && a[1..][i - 1] < b[1..][i - 1];
    }
  }

  predicate DifferFirst(a: string, b: string, i: nat) {
    i < |a| && i < |b| && a[..i] == b[..i] && a[i] != b[i]
  }

  lemma {:induction false} LessIrreflexive(a: string)
    ensures !Less(a, a)
  {
    if a != [] {
      LessIrreflexive(a[1..]);
    }
  }

  lemma {:induction false} LessTotal(a: string, b: string)
    ensures Less(a, b) || Less(b, a) || a == b
    ensures !(Less(a, b) && Less(b, a))
  {
    if a != [] && b != [] {
      LessTotal(a[1..], b[1..]);
      assert a == [a[0]] + a[1..] && b == [b[0]] + b[1..];
    }
  }

  lemma {:induction false} LessTransitive(a: string, b: string, c: string)
    requires Less(a, b) && Less(b, c)
    ensures Less(a, c)
  {
    if a != [] && a[0] == b[0] && b[0] == c[0] {
      LessTransitive(a[1..], b[1..], c[1..]);
    }
  }
}
