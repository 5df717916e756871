/** Absolute paths and the ordering of path strings.

    A path is kept as the list of components the path library reports for it
    (`AbsolutePath.components`); the library's own parsing and normalisation
    are not part of this model. Paths are compared by their string form, as
    Swift's `<` on `AbsolutePath` does; that comparison is modelled as the
    lexicographic order on characters, without the Unicode canonical
    equivalence Swift's `String` comparison applies. */
module Paths {

  datatype AbsolutePath = AbsolutePath(components: seq<string>)

  /** `path.appending(component:)` */
  function Appending(p: AbsolutePath, component: string): (r: AbsolutePath)
    ensures |r.components| == |p.components| + 1
    ensures r.components[..|p.components|] == p.components
    ensures Basename(r) == component
  {
    AbsolutePath(p.components + [component])
  }

  /** `path.basename`: the last component. */
  function Basename(p: AbsolutePath): string
  {
    if |p.components| == 0 then "" else p.components[|p.components| - 1]
  }

  /** `a <= b` on path strings: lexicographic order on characters. */
  predicate LessOrEqual(a: string, b: string)
  {
    |a| == 0 || (|b| > 0 && (a[0] < b[0] || (a[0] == b[0] && LessOrEqual(a[1..], b[1..]))))
  }

  lemma {:induction false} LessOrEqualTotal(a: string, b: string)
    ensures LessOrEqual(a, b) || LessOrEqual(b, a)
  {
    if |a| > 0 && |b| > 0 && a[0] == b[0] {
      LessOrEqualTotal(a[1..], b[1..]);
    }
  }

  lemma {:induction false} LessOrEqualAntisymmetric(a: string, b: string)
    requires LessOrEqual(a, b) && LessOrEqual(b, a)
    ensures a == b
  {
    if |a| > 0 && |b| > 0 {
      LessOrEqualAntisymmetric(a[1..], b[1..]);
      assert a == [a[0]] + a[1..] && b == [b[0]] + b[1..];
    }
  }

  lemma {:induction false} LessOrEqualTransitive(a: string, b: string, c: string)
    requires LessOrEqual(a, b) && LessOrEqual(b, c)
    ensures LessOrEqual(a, c)
  {
    if |a| > 0 && |b| > 0 && |c| > 0 && a[0] == b[0] && b[0] == c[0] {
      LessOrEqualTransitive(a[1..], b[1..], c[1..]);
    }
  }
}
