// Shared vocabulary of the two scripts: the cells of a flattened JSON record,
// parsed timestamps with their sort order, and the row filter that both the
// transformer and the dashboard use (a pandas boolean mask keeps rows in order).

module Table {

  datatype Option<+T> = None | Some(value: T)

  /** One cell of a flattened record: a JSON number, a JSON string, or a JSON
      null. A key that a record lacks reads as Null as well (pandas fills it
      with NaN). */
  datatype Cell = Num(number: real) | Text(text: string) | Null

  /** A parsed date-time. Instants are abstract and totally ordered; NaT is
      pandas' missing date-time. */
  datatype Stamp = At(instant: int) | NaT

  /** Ascending date-time order as pandas sorts it: missing values last. */
  predicate StampLe(a: Stamp, b: Stamp) {
    match a
    case NaT => b.NaT?
    case At(x) => b.NaT? || x <= b.instant
  }

  /** Strictly earlier in that order. */
  predicate StampLt(a: Stamp, b: Stamp) {
    StampLe(a, b) && !StampLe(b, a)
  }

  lemma StampLeIsTotalOrder(a: Stamp, b: Stamp, c: Stamp)
    ensures StampLe(a, a)
    ensures StampLe(a, b) || StampLe(b, a)
    ensures StampLe(a, b) && StampLe(b, a) ==> a == b
    ensures StampLe(a, b) && StampLe(b, c) ==> StampLe(a, c)
  {
  }

  /** `a` is `b` with some elements left out, the rest in the same order. */
  ghost predicate SubsequenceOf<T>(a: seq<T>, b: seq<T>)
    decreases |b|
  {
    if b == [] then a == []
    else (a != [] && a[0] == b[0] && SubsequenceOf(a[1..], b[1..])) || SubsequenceOf(a, b[1..])
  }

  lemma {:induction false} SubsequenceMembers<T>(a: seq<T>, b: seq<T>)
    requires SubsequenceOf(a, b)
    ensures forall x :: x in a ==> x in b
    decreases |b|
  {
    if b != [] {
      if a != [] && a[0] == b[0] && SubsequenceOf(a[1..], b[1..]) {
        SubsequenceMembers(a[1..], b[1..]);
        forall x | x in a ensures x in b {
          if x != a[0] {
            assert x in a[1..];
          }
        }
      } else {
        SubsequenceMembers(a, b[1..]);
      }
    }
  }

  /** The elements of `s` that satisfy `keep`, in their original order. */
  function Filter<T(==)>(s: seq<T>, keep: T -> bool): (kept: seq<T>)
    ensures |kept| <= |s|
    ensures forall i :: 0 <= i < |kept| ==> kept[i] in s && keep(kept[i])
    ensures forall i :: 0 <= i < |s| && keep(s[i]) ==> s[i] in kept
    ensures SubsequenceOf(kept, s)
    ensures |kept| == |s| <==> forall i :: 0 <= i < |s| ==> keep(s[i])
    ensures (forall i :: 0 <= i < |s| ==> keep(s[i])) ==> kept == s
  {
    if s == [] then []
    else
      var rest := Filter(s[1..], keep);
      assert forall i :: 0 < i < |s| ==> s[i] == s[1..][i - 1];
      if keep(s[0]) then [s[0]] + rest else rest
  }

  lemma {:induction false} FilterAppend<T>(a: seq<T>, b: seq<T>, keep: T -> bool)
    ensures Filter(a + b, keep) == Filter(a, keep) + Filter(b, keep)
  {
    if a != [] {
      assert (a + b)[0] == a[0];
      assert (a + b)[1..] == a[1..] + b;
      FilterAppend(a[1..], b, keep);
      var head := if keep(a[0]) then [a[0]] else [];
      assert Filter(a + b, keep) == head + Filter(a[1..] + b, keep);
      assert Filter(a, keep) == head + Filter(a[1..], keep);
    } else {
      assert a + b == b;
    }
  }

  /** The filter keeps every copy of a kept value: its count is the input's count when
      `keep` holds and zero otherwise. */
  lemma {:induction false} FilterCounts<T(!new)>(s: seq<T>, keep: T -> bool)
    ensures forall x :: multiset(Filter(s, keep))[x] == if keep(x) then multiset(s)[x] else 0
  {
    if s != [] {
      FilterCounts(s[1..], keep);
      assert s == [s[0]] + s[1..];
    }
  }

  /** Filtering depends only on which values occur how often, not on their order. */
  lemma FilterOfPermutation<T(!new)>(a: seq<T>, b: seq<T>, keep: T -> bool)
    requires multiset(a) == multiset(b)
    ensures multiset(Filter(a, keep)) == multiset(Filter(b, keep))
    ensures |Filter(a, keep)| == |Filter(b, keep)|
  {
    FilterCounts(a, keep);
    FilterCounts(b, keep);
    assert multiset(Filter(a, keep)) == multiset(Filter(b, keep));
    assert |multiset(Filter(a, keep))| == |Filter(a, keep)|;
  }
}
