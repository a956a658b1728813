/** Python's `list.sort(key=...)` and the orders the scripts sort by. The sort
    is a stable insertion sort; it is proved to return a sorted permutation.
    Mixed key types (a number against a string, or `None` against anything)
    make Python's comparison raise, which `SortKeysComparable` describes. */
module Sorting {

  /** `le` is a total preorder: any two values compare, and it is transitive. */
  ghost predicate TotalPreorder<T(!new)>(le: (T, T) -> bool)
  {
    (forall a, b :: le(a, b) || le(b, a))
    && (forall a, b, c :: le(a, b) && le(b, c) ==> le(a, c))
  }

  predicate SortedBy<T>(xs: seq<T>, le: (T, T) -> bool)
  {
    forall i, j :: 0 <= i < j < |xs| ==> le(xs[i], xs[j])
  }

  /** Put `x` before the first element it does not exceed. */
  function Insert<T>(x: T, xs: seq<T>, le: (T, T) -> bool): seq<T>
  {
    if xs == [] then [x]
    else if le(x, xs[0]) then [x] + xs
    else [xs[0]] + Insert(x, xs[1..], le)
  }

  lemma {:induction false} InsertCount<T>(x: T, xs: seq<T>, le: (T, T) -> bool)
    ensures multiset(Insert(x, xs, le)) == multiset(xs) + multiset{x}
  {
    if xs != [] && !le(x, xs[0]) {
      InsertCount(x, xs[1..], le);
      assert xs == [xs[0]] + xs[1..];
    }
  }

  lemma {:induction false} InsertElements<T>(x: T, xs: seq<T>, le: (T, T) -> bool)
    ensures |Insert(x, xs, le)| == |xs| + 1
    ensures forall k :: 0 <= k < |Insert(x, xs, le)| ==> Insert(x, xs, le)[k] == x || Insert(x, xs, le)[k] in xs
  {
    if xs != [] && !le(x, xs[0]) {
      InsertElements(x, xs[1..], le);
      assert xs == [xs[0]] + xs[1..];
    }
  }

  lemma {:induction false} InsertSorted<T(!new)>(x: T, xs: seq<T>, le: (T, T) -> bool)
    requires TotalPreorder(le) && SortedBy(xs, le)
    ensures SortedBy(Insert(x, xs, le), le)
  {
    if xs != [] && !le(x, xs[0]) {
      InsertSorted(x, xs[1..], le);
      InsertElements(x, xs[1..], le);
      var r := Insert(x, xs[1..], le);
      forall k | 0 <= k < |r| ensures le(xs[0], r[k]) {
        if r[k] != x {
          var m :| 0 <= m < |xs[1..]| && xs[1..][m] == r[k];
          assert xs[m + 1] == r[k];
        }
      }
      assert Insert(x, xs, le) == [xs[0]] + r;
    }
  }

  /** The elements of `xs`, sorted by `le`; elements that compare equal keep
      their original order. */
  function SortBy<T(!new)>(xs: seq<T>, le: (T, T) -> bool): (r: seq<T>)
    requires TotalPreorder(le)
    ensures SortedBy(r, le)
    ensures multiset(r) == multiset(xs)
  {
    if xs == [] then []
    else
      var rest := SortBy(xs[1..], le);
      SortStep(xs, rest, le);
      Insert(xs[0], rest, le)
  }

  /** Inserting the head of `xs` into the sorted rest sorts `xs`. */
  lemma SortStep<T(!new)>(xs: seq<T>, rest: seq<T>, le: (T, T) -> bool)
    requires xs != [] && TotalPreorder(le)
    requires SortedBy(rest, le) && multiset(rest) == multiset(xs[1..])
    ensures SortedBy(Insert(xs[0], rest, le), le)
    ensures multiset(Insert(xs[0], rest, le)) == multiset(xs)
  {
    InsertSorted(xs[0], rest, le);
    InsertCount(xs[0], rest, le);
    assert xs == [xs[0]] + xs[1..];
  }

  /** The elements of `xs` that compare equal to `y` under `le`, in order. */
  function Ties<T>(xs: seq<T>, y: T, le: (T, T) -> bool): seq<T>
  {
    if xs == [] then []
    else (if le(xs[0], y) && le(y, xs[0]) then [xs[0]] else []) + Ties(xs[1..], y, le)
  }

  /** Inserting `x` puts it in front of every element it ties with. */
  lemma {:induction false} InsertTies<T(!new)>(x: T, xs: seq<T>, y: T, le: (T, T) -> bool)
    requires TotalPreorder(le)
    ensures Ties(Insert(x, xs, le), y, le)
         == (if le(x, y) && le(y, x) then [x] else []) + Ties(xs, y, le)
  {
    if xs == [] {
    } else if le(x, xs[0]) {
      assert Insert(x, xs, le) == [x] + xs;
      assert ([x] + xs)[1..] == xs;
    } else {
      var r := Insert(x, xs[1..], le);
      InsertTies(x, xs[1..], y, le);
      assert Insert(x, xs, le) == [xs[0]] + r;
      assert ([xs[0]] + r)[1..] == r;
      // `x` and `xs[0]` cannot both tie with `y`: by transitivity `x` would
      // not exceed `xs[0]`.
      assert !(le(x, y) && le(y, x) && le(xs[0], y) && le(y, xs[0]));
    }
  }

  /** The sort is stable: the elements that tie with any `y` come out in the
      order they went in. */
  lemma {:induction false} SortByStable<T(!new)>(xs: seq<T>, le: (T, T) -> bool, y: T)
    requires TotalPreorder(le)
    ensures Ties(SortBy(xs, le), y, le) == Ties(xs, y, le)
  {
    if xs != [] {
      SortByStable(xs[1..], le, y);
      InsertTies(xs[0], SortBy(xs[1..], le), y, le);
    }
  }

  lemma SortByMembers<T(!new)>(xs: seq<T>, le: (T, T) -> bool, x: T)
    requires TotalPreorder(le)
    ensures x in SortBy(xs, le) <==> x in xs
  {
    assert x in SortBy(xs, le) <==> x in multiset(SortBy(xs, le));
  }

  /** Python's string comparison: lexicographic on code points, a proper
      prefix first. */
  predicate StrLe(a: string, b: string)
  {
    a == [] || (b != [] && (a[0] < b[0] || (a[0] == b[0] && StrLe(a[1..], b[1..]))))
  }

  lemma {:induction false} StrLeTotal(a: string, b: string)
    ensures StrLe(a, b) || StrLe(b, a)
  {
    if a != [] && b != [] && a[0] == b[0] { StrLeTotal(a[1..], b[1..]); }
  }

  lemma {:induction false} StrLeTransitive(a: string, b: string, c: string)
    requires StrLe(a, b) && StrLe(b, c)
    ensures StrLe(a, c)
  {
    if a != [] && b != [] && c != [] && a[0] == b[0] && b[0] == c[0] {
      StrLeTransitive(a[1..], b[1..], c[1..]);
    }
  }

  /** A sort key read from a JSON field: a number, a string, or `None`. */
  datatype DateKey = Stamp(ms: int) | Label(text: string) | NoKey

  /** Python can compare two keys: both numbers or both strings. */
  predicate Comparable(a: DateKey, b: DateKey)
  {
    (a.Stamp? && b.Stamp?) || (a.Label? && b.Label?)
  }

  /** Python's `<=` on comparable keys, extended to a total order on all keys
      (numbers, then strings, then `None`) so that a sort is defined; the
      extension is only used where `SortKeysComparable` holds. */
  predicate KeyLe(a: DateKey, b: DateKey)
  {
    match (a, b)
    case (Stamp(x), Stamp(y)) => x <= y
    case (Label(x), Label(y)) => StrLe(x, y)
    case (Stamp(_), _) => true
    case (Label(_), Stamp(_)) => false
    case (Label(_), NoKey) => true
    case (NoKey, NoKey) => true
    case (NoKey, _) => false
  }

  lemma KeyLeTotalPreorder()
    ensures forall a, b :: KeyLe(a, b) || KeyLe(b, a)
    ensures forall a, b, c :: KeyLe(a, b) && KeyLe(b, c) ==> KeyLe(a, c)
  {
    forall a, b ensures KeyLe(a, b) || KeyLe(b, a) {
      if a.Label? && b.Label? { StrLeTotal(a.text, b.text); }
    }
    forall a, b, c | KeyLe(a, b) && KeyLe(b, c) ensures KeyLe(a, c) {
      if a.Label? && b.Label? && c.Label? { StrLeTransitive(a.text, b.text, c.text); }
    }
  }

  /** Sorting a list whose keys are `keys` does not raise in Python: every
      comparison the sort needs is between comparable keys. A list of fewer
      than two elements is never compared; otherwise all keys must be numbers
      or all strings (a comparison sort must compare every adjacent pair of
      its output, so one incomparable pair always surfaces). */
  predicate SortKeysComparable(keys: seq<DateKey>)
  {
    |keys| <= 1 || (forall k :: k in keys ==> k.Stamp?) || (forall k :: k in keys ==> k.Label?)
  }

  /** Any two keys of a comparable list compare without raising. */
  lemma ComparableKeysPairwise(keys: seq<DateKey>, i: int, j: int)
    requires SortKeysComparable(keys) && 0 <= i < |keys| && 0 <= j < |keys| && i != j
    ensures Comparable(keys[i], keys[j])
  {
    assert keys[i] in keys && keys[j] in keys;
  }

  /** `str(e)` of the TypeError a sort over mixed key types raises (the
      types named in the message are not modelled). */
  const Unorderable := "'<' not supported between instances"
}
