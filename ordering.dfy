/** Orders on strings and the stable insertion sort used wherever the source sorts a list:
    String.compareTo order for Collections.sort, and an abstract total preorder standing in
    for java.text.Collator in Arrays.sort. */
module Ordering {

  /** A comparison usable for sorting: total and transitive (ties allowed, as a Collator of
      PRIMARY strength has them). */
  ghost predicate TotalPreorder(leq: (string, string) -> bool)
  {
    && (forall a, b :: leq(a, b) || leq(b, a))
    && (forall a, b, c :: leq(a, b) && leq(b, c) ==> leq(a, c))
  }

  predicate SortedBy(s: seq<string>, leq: (string, string) -> bool)
  {
    forall i, j :: 0 <= i < j < |s| ==> leq(s[i], s[j])
  }

  /** String.compareTo(a, b) <= 0: lexicographic on characters, a proper prefix first. */
  predicate LexLeq(a: string, b: string)
  {
    if a == [] then true
    else if b == [] then false
    else if a[0] != b[0] then a[0] < b[0]
    else LexLeq(a[1..], b[1..])
  }

  lemma {:induction false} LexTotal(a: string, b: string)
    ensures LexLeq(a, b) || LexLeq(b, a)
  {
    if a != [] && b != [] && a[0] == b[0] {
      LexTotal(a[1..], b[1..]);
    }
  }

  lemma {:induction false} LexTransitive(a: string, b: string, c: string)
    requires LexLeq(a, b) && LexLeq(b, c)
    ensures LexLeq(a, c)
  {
    if a != [] && b != [] && c != [] && a[0] == b[0] && b[0] == c[0] {
      LexTransitive(a[1..], b[1..], c[1..]);
    }
  }

  lemma LexIsTotalPreorder()
    ensures TotalPreorder(LexLeq)
  {
    forall a, b ensures LexLeq(a, b) || LexLeq(b, a) {
      LexTotal(a, b);
    }
    forall a, b, c | LexLeq(a, b) && LexLeq(b, c) ensures LexLeq(a, c) {
      LexTransitive(a, b, c);
    }
  }

  /** Inserts `x` before the first element `y` with `leq(x, y)`, so ahead of the elements equal
      to it; since Sort inserts the earlier elements into the sorted rest, equal elements keep
      their original order. */
  function Insert(x: string, s: seq<string>, leq: (string, string) -> bool): (r: seq<string>)
    ensures multiset(r) == multiset(s) + multiset{x}
    ensures |r| == |s| + 1
  {
    if s == [] then [x]
    else if leq(x, s[0]) then [x] + s
    else
      var rest := Insert(x, s[1..], leq);
      assert s == [s[0]] + s[1..];
      [s[0]] + rest
  }

  /** Insertion sort: a permutation of its input (for any comparison). */
  function Sort(s: seq<string>, leq: (string, string) -> bool): (r: seq<string>)
    ensures multiset(r) == multiset(s)
    ensures |r| == |s|
  {
    if s == [] then []
    else
      var r := Insert(s[0], Sort(s[1..], leq), leq);
      assert s == [s[0]] + s[1..];
      r
  }

  lemma {:induction false} InsertSorted(x: string, s: seq<string>, leq: (string, string) -> bool)
    requires TotalPreorder(leq)
    requires SortedBy(s, leq)
    ensures SortedBy(Insert(x, s, leq), leq)
  {
    if s != [] && !leq(x, s[0]) {
      InsertSorted(x, s[1..], leq);
      var rest := Insert(x, s[1..], leq);
      assert leq(s[0], x);
      forall e | e in multiset(rest) ensures leq(s[0], e) {
        assert e in multiset(s[1..]) + multiset{x};
        if e in multiset(s[1..]) {
          var k :| 0 <= k < |s[1..]| && s[1..][k] == e;
          assert s[1 + k] == e;
        }
      }
      forall i, j | 0 <= i < j < |[s[0]] + rest| ensures leq(([s[0]] + rest)[i], ([s[0]] + rest)[j]) {
        if i == 0 {
          assert rest[j - 1] in multiset(rest);
        }
      }
    }
  }

  /** Under a total preorder the result of Sort is sorted. */
  lemma {:induction false} SortSorted(s: seq<string>, leq: (string, string) -> bool)
    requires TotalPreorder(leq)
    ensures SortedBy(Sort(s, leq), leq)
  {
    if s != [] {
      SortSorted(s[1..], leq);
      InsertSorted(s[0], Sort(s[1..], leq), leq);
    }
  }
}
