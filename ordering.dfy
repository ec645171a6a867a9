/** The orderings used by the list queries: a flag-first key ("desc" on a boolean column)
    followed by the name in ascending order, an insertion sort on it, and the enumeration
    of a table's rows into a sequence. */
module Ordering {

  /** Lexicographic order on strings, character by character. */
  predicate LexLe(a: string, b: string)
  {
    |a| == 0 || (|b| != 0 && (a[0] < b[0] || (a[0] == b[0] && LexLe(a[1..], b[1..]))))
  }

  lemma {:induction false} LexLeTotal(a: string, b: string)
    ensures LexLe(a, b) || LexLe(b, a)
  {
    if |a| != 0 && |b| != 0 && a[0] == b[0] {
      LexLeTotal(a[1..], b[1..]);
    }
  }

  lemma {:induction false} LexLeTransitive(a: string, b: string, c: string)
    requires LexLe(a, b) && LexLe(b, c)
    ensures LexLe(a, c)
  {
    if |a| != 0 && |b| != 0 && |c| != 0 && a[0] == b[0] == c[0] {
      LexLeTransitive(a[1..], b[1..], c[1..]);
    }
  }

  /** `orderBy: [{ flag: 'desc' }, { name: 'asc' }]`: rows with the flag set come first,
      then by name. */
  datatype SortKey = SortKey(flag: bool, name: string)

  predicate KeyLe(x: SortKey, y: SortKey)
  {
    (x.flag && !y.flag) || (x.flag == y.flag && LexLe(x.name, y.name))
  }

  lemma KeyLeTotal(x: SortKey, y: SortKey)
    ensures KeyLe(x, y) || KeyLe(y, x)
  {
    LexLeTotal(x.name, y.name);
  }

  lemma KeyLeTransitive(x: SortKey, y: SortKey, z: SortKey)
    requires KeyLe(x, y) && KeyLe(y, z)
    ensures KeyLe(x, z)
  {
    if x.flag == y.flag == z.flag {
      LexLeTransitive(x.name, y.name, z.name);
    }
  }

  predicate SortedBy<T>(s: seq<T>, key: T -> SortKey)
  {
    forall i, j :: 0 <= i < j < |s| ==> KeyLe(key(s[i]), key(s[j]))
  }

  /** What a sorted listing means: every flagged row comes before every unflagged one, and
      rows with the same flag are in name order. */
  lemma SortedByMeans<T>(s: seq<T>, key: T -> SortKey)
    requires SortedBy(s, key)
    ensures forall i, j :: 0 <= i < j < |s| && key(s[j]).flag ==> key(s[i]).flag
    ensures forall i, j :: 0 <= i < j < |s| && key(s[i]).flag == key(s[j]).flag ==> LexLe(key(s[i]).name, key(s[j]).name)
  {
  }

  function Insert<T>(x: T, s: seq<T>, key: T -> SortKey): seq<T>
  {
    if |s| == 0 then [x]
    else if KeyLe(key(x), key(s[0])) then [x] + s
    else [s[0]] + Insert(x, s[1..], key)
  }

  function SortByKey<T>(s: seq<T>, key: T -> SortKey): seq<T>
  {
    if |s| == 0 then [] else Insert(s[0], SortByKey(s[1..], key), key)
  }

  lemma {:induction false} InsertPermutes<T>(x: T, s: seq<T>, key: T -> SortKey)
    ensures multiset(Insert(x, s, key)) == multiset(s) + multiset{x}
  {
    if |s| != 0 && !KeyLe(key(x), key(s[0])) {
      InsertPermutes(x, s[1..], key);
      assert s == [s[0]] + s[1..];
    }
  }

  /** A lower bound of `x` and of every element of `s` bounds every element of the insertion. */
  lemma {:induction false} InsertLowerBound<T>(x: T, s: seq<T>, key: T -> SortKey, lo: SortKey)
    requires KeyLe(lo, key(x))
    requires forall i :: 0 <= i < |s| ==> KeyLe(lo, key(s[i]))
    ensures forall i :: 0 <= i < |Insert(x, s, key)| ==> KeyLe(lo, key(Insert(x, s, key)[i]))
  {
    if |s| != 0 && !KeyLe(key(x), key(s[0])) {
      InsertLowerBound(x, s[1..], key, lo);
    }
  }

  lemma {:induction false} InsertSorted<T>(x: T, s: seq<T>, key: T -> SortKey)
    requires SortedBy(s, key)
    ensures SortedBy(Insert(x, s, key), key)
  {
    if |s| == 0 {
    } else if KeyLe(key(x), key(s[0])) {
      var r := [x] + s;
      forall i, j | 0 <= i < j < |r| ensures KeyLe(key(r[i]), key(r[j])) {
        if i == 0 && j > 1 {
          KeyLeTransitive(key(x), key(s[0]), key(s[j - 1]));
        }
      }
    } else {
      KeyLeTotal(key(x), key(s[0]));
      var rest := Insert(x, s[1..], key);
      assert SortedBy(s[1..], key) by {
        forall i, j | 0 <= i < j < |s[1..]| ensures KeyLe(key(s[1..][i]), key(s[1..][j])) {
          assert s[1..][i] == s[i + 1] && s[1..][j] == s[j + 1];
        }
      }
      InsertSorted(x, s[1..], key);
      InsertLowerBound(x, s[1..], key, key(s[0]));
      assert Insert(x, s, key) == [s[0]] + rest;
    }
  }

  /** The sort returns the same rows, ordered by the key. */
  lemma {:induction false} SortByKeyCorrect<T>(s: seq<T>, key: T -> SortKey)
    ensures SortedBy(SortByKey(s, key), key)
    ensures multiset(SortByKey(s, key)) == multiset(s)
  {
    if |s| != 0 {
      SortByKeyCorrect(s[1..], key);
      InsertSorted(s[0], SortByKey(s[1..], key), key);
      InsertPermutes(s[0], SortByKey(s[1..], key), key);
      assert s == [s[0]] + s[1..];
    }
  }

  /** Lists the rows of a finite set, each exactly once, in an order the caller does not rely on. */
  method SetToSeq<T>(rows: set<T>) returns (xs: seq<T>)
    ensures forall x :: x in xs <==> x in rows
    ensures |xs| == |rows|
    ensures forall i, j :: 0 <= i < j < |xs| ==> xs[i] != xs[j]
    ensures multiset(xs) == multiset(rows)
  {
    xs := [];
    var rest := rows;
    while rest != {}
      invariant rest <= rows
      invariant forall x :: x in xs <==> x in rows && x !in rest
      invariant |xs| + |rest| == |rows|
      invariant forall i, j :: 0 <= i < j < |xs| ==> xs[i] != xs[j]
      invariant multiset(xs) == multiset(rows - rest)
      decreases |rest|
    {
      var x :| x in rest;
      assert rows - (rest - {x}) == (rows - rest) + {x};
      xs := xs + [x];
      rest := rest - {x};
    }
    assert rows - rest == rows;
  }
}
