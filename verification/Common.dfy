/** Options and the ordering of text keys shared by the other modules. */
module Common {

  datatype Option<+T> = None | Some(value: T)

  /** Text order as the database compares keys: character by character, a proper prefix first. */
  predicate Less(a: string, b: string) {
    if b == "" then false
    else if a == "" then true
    else if a[0] != b[0] then a[0] < b[0]
    else Less(a[1..], b[1..])
  }

  predicate AtMost(a: string, b: string) {
    a == b || Less(a, b)
  }

  lemma {:induction false} LessIrreflexive(a: string)
    ensures !Less(a, a)
  {
    if a != "" { LessIrreflexive(a[1..]); }
  }

  lemma {:induction false} LessTransitive(a: string, b: string, c: string)
    requires Less(a, b) && Less(b, c)
    ensures Less(a, c)
  {
    if a != "" && a[0] == b[0] && b[0] == c[0] {
      LessTransitive(a[1..], b[1..], c[1..]);
    }
  }

  lemma {:induction false} LessTotal(a: string, b: string)
    ensures Less(a, b) || a == b || Less(b, a)
  {
    if a != "" && b != "" && a[0] == b[0] {
      LessTotal(a[1..], b[1..]);
      assert a == [a[0]] + a[1..] && b == [b[0]] + b[1..];
    }
  }

  lemma LessAsymmetric(a: string, b: string)
    requires Less(a, b)
    ensures !Less(b, a) && a != b
  {
    LessIrreflexive(a);
    if Less(b, a) { LessTransitive(a, b, a); }
  }

  /** The texts agree on their first k characters, and there a ends or has the smaller one. */
  ghost predicate DivergesAt(a: string, b: string, k: nat) {
    k <= |a| && k < |b| && a[..k] == b[..k] && (k < |a| ==> a[k] < b[k])
  }

  /** Alphabetical order, said by the position where two texts part. */
  ghost predicate Precedes(a: string, b: string) {
    exists k: nat :: DivergesAt(a, b, k)
  }

  lemma DivergesLater(a: string, b: string, k: nat)
    requires a != "" && b != "" && a[0] == b[0]
    ensures DivergesAt(a, b, k + 1) <==> DivergesAt(a[1..], b[1..], k)
  {
    if k + 1 <= |a| && k + 1 <= |b| {
      assert a[..k + 1] == [a[0]] + a[1..][..k] && b[..k + 1] == [b[0]] + b[1..][..k];
    }
  }

  lemma DivergesAfterFirst(a: string, b: string)
    ensures forall k: nat :: k > 0 && DivergesAt(a, b, k) ==> a != "" && b != "" && a[0] == b[0]
  {
    forall k: nat | k > 0 && DivergesAt(a, b, k) ensures a != "" && b != "" && a[0] == b[0] {
      assert a[..k][0] == b[..k][0];
    }
  }

  lemma {:induction false} LessIsAlphabetical(a: string, b: string)
    ensures Less(a, b) <==> Precedes(a, b)
  {
    if b == "" {
    } else if a == "" || a[0] != b[0] {
      if Less(a, b) { assert DivergesAt(a, b, 0); }
      DivergesAfterFirst(a, b);
      if k: nat :| DivergesAt(a, b, k) { assert k == 0; }
    } else {
      LessIsAlphabetical(a[1..], b[1..]);
      if k: nat :| DivergesAt(a[1..], b[1..], k) {
        DivergesLater(a, b, k);
        assert DivergesAt(a, b, k + 1);
      }
      if k: nat :| DivergesAt(a, b, k) { DivergesLater(a, b, k - 1); }
    }
  }

  /** A subset has no more elements. */
  lemma {:induction false} SubsetSize<T>(a: set<T>, b: set<T>)
    requires a <= b
    ensures |a| <= |b|
  {
    if a != {} {
      var x :| x in a;
      SubsetSize(a - {x}, b - {x});
    }
  }

  /** Two sets in one-to-one correspondence have equally many elements. */
  lemma {:induction false} SameSize<S, T>(a: set<S>, b: set<T>, f: S -> T)
    requires forall x, y :: x in a && y in a && f(x) == f(y) ==> x == y
    requires forall x :: x in a ==> f(x) in b
    requires forall y :: y in b ==> exists x :: x in a && f(x) == y
    ensures |a| == |b|
    decreases a
  {
    if a == {} {
      assert b == {};
    } else {
      var x :| x in a;
      var a', b' := a - {x}, b - {f(x)};
      forall y | y in b' ensures exists z :: z in a' && f(z) == y {
        var z :| z in a && f(z) == y;
        assert z in a';
      }
      SameSize(a', b', f);
    }
  }

  /** The first k items applied in order. */
  function Fold<A, C>(f: (A, C) -> C, xs: seq<A>, k: nat, c: C): C
    requires k <= |xs|
  {
    if k == 0 then c else f(xs[k - 1], Fold(f, xs, k - 1, c))
  }

  /** Items after the first k do not matter. */
  lemma {:induction false} FoldOfPrefix<A, C>(f: (A, C) -> C, xs: seq<A>, more: seq<A>, k: nat, c: C)
    requires k <= |xs|
    ensures Fold(f, xs + more, k, c) == Fold(f, xs, k, c)
  {
    if k > 0 { FoldOfPrefix(f, xs, more, k - 1, c); }
  }

  lemma FoldOneMore<A, C>(f: (A, C) -> C, xs: seq<A>, x: A, c: C)
    ensures Fold(f, xs + [x], |xs| + 1, c) == f(x, Fold(f, xs, |xs|, c))
  {
    FoldOfPrefix(f, xs, [x], |xs|, c);
  }
}
