/** Types and small facts shared by every part of the model. */
module Common {

  /** Identifiers are compared and ordered as text, the way PostgreSQL renders a UUID. */
  datatype Uuid = Uuid(text: string)

  /** An Ory Hydra login session identifier. */
  datatype Sid = Sid(text: string)

  /** An OAuth client identifier. */
  datatype ClientId = ClientId(text: string)

  /** An instant, in milliseconds. */
  type Time = int

  const SECOND: Time := 1000
  const MINUTE: Time := 60 * SECOND

  datatype Option<+T> = None | Some(value: T)

  /** Lexicographic order on text, the order an ORDER BY on a text column uses. */
  predicate TextLess(a: string, b: string) {
    b != [] && (a == [] || a[0] < b[0] || (a[0] == b[0] && TextLess(a[1..], b[1..])))
  }

  /** `a` ends, or has the smaller character, at the first place where the two differ. */
  predicate DiffersAt(a: string, b: string, n: nat) {
    n <= |a| && n < |b| && a[..n] == b[..n] && (n == |a| || a[n] < b[n])
  }

  predicate Dictionary(a: string, b: string) {
    exists n :: 0 <= n < |b| && DiffersAt(a, b, n)
  }

  lemma {:induction false} TextOrderIsDictionary(a: string, b: string)
    ensures TextLess(a, b) <==> Dictionary(a, b)
    decreases |a|
  {
    if a != [] && b != [] && a[0] == b[0] {
      TextOrderIsDictionary(a[1..], b[1..]);
      if Dictionary(a[1..], b[1..]) {
        var n :| 0 <= n < |b[1..]| && DiffersAt(a[1..], b[1..], n);
        DiffersNext(a, b, n);
      }
      if Dictionary(a, b) {
        var n :| 0 <= n < |b| && DiffersAt(a, b, n);
        DiffersNext(a, b, n - 1);
      }
    } else if b != [] && TextLess(a, b) {
      assert DiffersAt(a, b, 0);
    } else if Dictionary(a, b) {
      var n :| 0 <= n < |b| && DiffersAt(a, b, n);
      DiffersLater(a, b, n);
    }
  }

  lemma DiffersLater(a: string, b: string, n: nat)
    requires DiffersAt(a, b, n)
    ensures n > 0 ==> a[0] == b[0]
  {
    assert n > 0 ==> a[..n][0] == b[..n][0];
  }

  lemma DiffersNext(a: string, b: string, n: nat)
    requires a != [] && b != [] && a[0] == b[0]
    ensures DiffersAt(a[1..], b[1..], n) <==> DiffersAt(a, b, n + 1)
  {
    if n < |a| && n < |b| {
      assert a[..n + 1] == [a[0]] + a[1..][..n] && b[..n + 1] == [b[0]] + b[1..][..n];
    }
  }

  lemma {:induction false} TextOrderIsTotal(a: string, b: string)
    ensures TextLess(a, b) || a == b || TextLess(b, a)
    ensures !(TextLess(a, b) && TextLess(b, a))
    ensures !TextLess(a, a)
    decreases |a|
  {
    if a != [] {
      TextOrderIsTotal(a[1..], a[1..]);
      if b != [] && a[0] == b[0] {
        TextOrderIsTotal(a[1..], b[1..]);
        if a[1..] == b[1..] {
          assert a == [a[0]] + a[1..] == [b[0]] + b[1..] == b;
        }
      }
    }
  }

  lemma {:induction false} TextOrderIsTransitive(a: string, b: string, c: string)
    requires TextLess(a, b) && TextLess(b, c)
    ensures TextLess(a, c)
    decreases |a|
  {
    if a != [] && a[0] == b[0] && b[0] == c[0] {
      TextOrderIsTransitive(a[1..], b[1..], c[1..]);
    }
  }

  /** A set is as large as its image under a map that is injective on it. */
  lemma {:induction false} InjectiveImageHasSameSize<A, B>(domain: set<A>, image: set<B>, f: map<A, B>)
    requires domain <= f.Keys
    requires forall a, b :: a in domain && b in domain && a != b ==> f[a] != f[b]
    requires image == set a | a in domain :: f[a]
    ensures |image| == |domain|
    decreases |domain|
  {
    if domain != {} {
      var a :| a in domain;
      var rest := domain - {a};
      var restImage := set b | b in rest :: f[b];
      InjectiveImageHasSameSize(rest, restImage, f);
      assert image == restImage + {f[a]};
    }
  }

  lemma SubsetIsNoLarger<T>(small: set<T>, large: set<T>)
    requires small <= large
    ensures |small| <= |large|
    ensures |large - small| == |large| - |small|
  {
    assert large == small + (large - small);
  }
}
