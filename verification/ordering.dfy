/**
 * The order behind `ORDER BY created_at DESC` and `ORDER BY date DESC`.
 * Both columns hold text, which the row store compares character by
 * character (a proper prefix sorts first). The sort itself is the row
 * store's; it is given here as an insertion sort so that the listing
 * handlers have a definite result to be proved against.
 */
module Ordering {
  import opened Wire

  /** Lexicographic order on text, as the row store's binary collation orders it. */
  predicate LexLe(a: string, b: string)
    decreases |a|
  {
    a == [] || (b != [] && (a[0] < b[0] || (a[0] == b[0] && LexLe(a[1..], b[1..]))))
  }

  lemma {:induction false} LexLeReflexive(a: string)
    ensures LexLe(a, a)
    decreases |a|
  {
    if a != [] {
      LexLeReflexive(a[1..]);
    }
  }

  lemma {:induction false} LexLeTotal(a: string, b: string)
    ensures LexLe(a, b) || LexLe(b, a)
    decreases |a|
  {
    if a != [] && b != [] && a[0] == b[0] {
      LexLeTotal(a[1..], b[1..]);
    }
  }

  lemma {:induction false} LexLeTransitive(a: string, b: string, c: string)
    requires LexLe(a, b) && LexLe(b, c)
    ensures LexLe(a, c)
    decreases |a|
  {
    if a != [] && b != [] && c != [] && a[0] == b[0] && b[0] == c[0] {
      LexLeTransitive(a[1..], b[1..], c[1..]);
    }
  }

  /** Two keys that each sort no later than the other are the same text. */
  lemma {:induction false} LexLeAntisymmetric(a: string, b: string)
    requires LexLe(a, b) && LexLe(b, a)
    ensures a == b
    decreases |a|
  {
    if a != [] && b != [] {
      LexLeAntisymmetric(a[1..], b[1..]);
      assert a == [a[0]] + a[1..] && b == [b[0]] + b[1..];
    }
  }

  /** The column a listing orders by: `date` for calendar rows, `created_at` for the others. */
  function SortKey(r: Row): string {
    match r
    case Row(_, _, createdAt) => createdAt
    case CalendarRow(_, _, date, _, _) => date
  }

  /** Rows in descending order of their sort key. */
  predicate SortedDesc(s: seq<Row>) {
    forall i, j :: 0 <= i < j < |s| ==> LexLe(SortKey(s[j]), SortKey(s[i]))
  }

  /** No row of `s` sorts after the key `k`. */
  predicate AtMost(s: seq<Row>, k: string) {
    forall y :: y in s ==> LexLe(SortKey(y), k)
  }

  lemma ConsSorted(x: Row, s: seq<Row>)
    requires SortedDesc(s) && AtMost(s, SortKey(x))
    ensures SortedDesc([x] + s)
  {
    forall i, j | 0 <= i < j < |[x] + s|
      ensures LexLe(SortKey(([x] + s)[j]), SortKey(([x] + s)[i]))
    {
      assert ([x] + s)[j] == s[j - 1] && s[j - 1] in s;
    }
  }

  /** The tail of a descending sequence, with a row placed after its head, stays bounded by the head. */
  lemma TailBounded(r: Row, s: seq<Row>)
    requires s != [] && SortedDesc(s) && LexLe(SortKey(r), SortKey(s[0]))
    ensures AtMost(s[1..] + [r], SortKey(s[0]))
  {
    forall y | y in s[1..] + [r]
      ensures LexLe(SortKey(y), SortKey(s[0]))
    {
      if y != r {
        var j :| 0 <= j < |s[1..]| && s[1..][j] == y;
        assert s[j + 1] == y;
      }
    }
  }

  /** In a descending sequence every row is bounded by anything that bounds its head. */
  lemma HeadBounds(s: seq<Row>, k: string)
    requires s != [] && SortedDesc(s) && LexLe(SortKey(s[0]), k)
    ensures AtMost(s, k)
  {
    forall y | y in s
      ensures LexLe(SortKey(y), k)
    {
      var j :| 0 <= j < |s| && s[j] == y;
      if j > 0 {
        LexLeTransitive(SortKey(y), SortKey(s[0]), k);
      }
    }
  }

  lemma AtMostPermutation(a: seq<Row>, b: seq<Row>, k: string)
    requires multiset(a) == multiset(b) && AtMost(a, k)
    ensures AtMost(b, k)
  {
    forall y | y in b
      ensures LexLe(SortKey(y), k)
    {
      assert y in multiset(b);
    }
  }

  /** Places `r` into a descending sequence, after every row whose key is larger. */
  function Insert(r: Row, s: seq<Row>): (t: seq<Row>)
    requires SortedDesc(s)
    ensures SortedDesc(t)
    ensures multiset(t) == multiset(s) + multiset{r}
    decreases |s|
  {
    if s == [] then
      [r]
    else if LexLe(SortKey(s[0]), SortKey(r)) then
      HeadBounds(s, SortKey(r));
      ConsSorted(r, s);
      [r] + s
    else
      LexLeTotal(SortKey(s[0]), SortKey(r));
      var rest := Insert(r, s[1..]);
      TailBounded(r, s);
      assert multiset(s[1..] + [r]) == multiset(rest);
      AtMostPermutation(s[1..] + [r], rest, SortKey(s[0]));
      ConsSorted(s[0], rest);
      assert s == [s[0]] + s[1..];
      [s[0]] + rest
  }

  /** The rows of `s`, rearranged in descending order of their sort key. */
  function SortDesc(s: seq<Row>): (t: seq<Row>)
    ensures SortedDesc(t)
    ensures multiset(t) == multiset(s)
    decreases |s|
  {
    if s == [] then
      []
    else
      assert s == [s[0]] + s[1..];
      Insert(s[0], SortDesc(s[1..]))
  }
}
