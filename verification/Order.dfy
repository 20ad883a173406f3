/** The total order both job stores sort by, and the unique ascending listing of a set of keys.

    `sort.Slice` in the in-memory store and a Redis sorted set agree on one order: the numeric
    score first and, among equal scores, the identifier compared character by character.
 */
module Order {

  /** Go's `<` on strings, which is also how Redis breaks ties between equal scores. */
  predicate StrLt(a: string, b: string) {
    b != [] && (a == [] || a[0] < b[0] || (a[0] == b[0] && StrLt(a[1..], b[1..])))
  }

  /** At the first place where the strings differ, the first one has the smaller character. */
  ghost predicate SmallerWhereTheyDiffer(a: string, b: string) {
    exists i :: 0 <= i < |a| && i < |b| && a[..i] == b[..i] && a[i] < b[i]
  }

  /** One string comes before another exactly if it is a proper beginning of it, or has the smaller character where they
      first differ. */
  lemma {:induction false} StrLtIff(a: string, b: string)
    ensures StrLt(a, b) <==> (|a| < |b| && a == b[..|a|]) || SmallerWhereTheyDiffer(a, b)
  {
    hide StrLt;
    StrLtUnfold(a, b);
    if a != [] && b != [] && a[0] == b[0] {
      StrLtIff(a[1..], b[1..]);
      DifferLater(a, b);
      hide SmallerWhereTheyDiffer;
      assert |a| < |b| ==> (a == b[..|a|] <==> a[1..] == b[1..][..|a| - 1]);
    } else if a != [] && b != [] {
      assert a[..0] == b[..0];
    }
  }

  lemma DifferLater(a: string, b: string)
    requires a != [] && b != [] && a[0] == b[0]
    ensures SmallerWhereTheyDiffer(a, b) <==> SmallerWhereTheyDiffer(a[1..], b[1..])
  {
    if i :| 0 <= i < |a| && i < |b| && a[..i] == b[..i] && a[i] < b[i] {
      SameTails(a, b, i);
      assert a[1..][i - 1] < b[1..][i - 1];
    }
    if i :| 0 <= i < |a[1..]| && i < |b[1..]| && a[1..][..i] == b[1..][..i] && a[1..][i] < b[1..][i] {
      SameTails(a, b, i + 1);
      assert a[i + 1] < b[i + 1];
    }
  }

  lemma SameTails(a: string, b: string, i: nat)
    requires 0 < i <= |a| && i <= |b| && a[0] == b[0]
    ensures a[..i] == b[..i] <==> a[1..][..i - 1] == b[1..][..i - 1]
  {
    assert a[..i] == [a[0]] + a[1..][..i - 1] && b[..i] == [b[0]] + b[1..][..i - 1];
    assert a[1..][..i - 1] == a[..i][1..] && b[1..][..i - 1] == b[..i][1..];
  }

  lemma StrLtUnfold(a: string, b: string)
    ensures StrLt(a, b) <==> b != [] && (a == [] || a[0] < b[0] || (a[0] == b[0] && StrLt(a[1..], b[1..])))
  {
  }

  lemma {:induction false} StrLtTransitive(a: string, b: string, c: string)
    requires StrLt(a, b) && StrLt(b, c)
    ensures StrLt(a, c)
  {
    if a != [] && a[0] == b[0] == c[0] {
      StrLtTransitive(a[1..], b[1..], c[1..]);
    }
  }

  lemma {:induction false} StrLtTotal(a: string, b: string)
    ensures StrLt(a, b) || StrLt(b, a) || a == b
    ensures !(StrLt(a, b) && StrLt(b, a))
    ensures !StrLt(a, a)
  {
    if a != [] {
      StrLtTotal(a[1..], a[1..]);
    }
    if a != [] && b != [] && a[0] == b[0] {
      StrLtTotal(a[1..], b[1..]);
      assert a[1..] == b[1..] ==> a == [a[0]] + a[1..] == b;
    }
  }

  datatype Key = Key(at: int, id: string)

  predicate Lt(a: Key, b: Key) {
    a.at < b.at || (a.at == b.at && StrLt(a.id, b.id))
  }

  lemma LtTransitive(a: Key, b: Key, c: Key)
    requires Lt(a, b) && Lt(b, c)
    ensures Lt(a, c)
  {
    if a.at == b.at == c.at {
      StrLtTransitive(a.id, b.id, c.id);
    }
  }

  lemma LtTotal(a: Key, b: Key)
    ensures Lt(a, b) || Lt(b, a) || a == b
    ensures !(Lt(a, b) && Lt(b, a))
    ensures !Lt(a, a)
  {
    StrLtTotal(a.id, b.id);
  }

  ghost predicate Ascending(s: seq<Key>) {
    forall i, j :: 0 <= i < j < |s| ==> Lt(s[i], s[j])
  }

  function Elems<T>(s: seq<T>): set<T> {
    set x | x in s
  }

  /** Puts one key into its place of an ascending sequence. */
  function Insert(s: seq<Key>, k: Key): (r: seq<Key>)
    requires Ascending(s) && k !in s
    ensures Ascending(r)
    ensures Elems(r) == Elems(s) + {k}
    ensures |r| == |s| + 1
  {
    if s == [] then [k]
    else if Lt(k, s[0]) then
      InsertFirst(s, k);
      [k] + s
    else
      var rest := Insert(s[1..], k);
      InsertLater(s, k, rest);
      [s[0]] + rest
  }

  lemma InsertFirst(s: seq<Key>, k: Key)
    requires s != [] && Ascending(s) && Lt(k, s[0])
    ensures Ascending([k] + s)
    ensures Elems([k] + s) == Elems(s) + {k}
  {
    forall j | 0 < j < |s| ensures Lt(k, s[j]) { LtTransitive(k, s[0], s[j]); }
    assert forall x :: x in [k] + s <==> x == k || x in s;
  }

  lemma InsertLater(s: seq<Key>, k: Key, rest: seq<Key>)
    requires s != [] && Ascending(s) && k != s[0] && !Lt(k, s[0])
    requires Ascending(rest) && Elems(rest) == Elems(s[1..]) + {k}
    ensures Ascending([s[0]] + rest)
    ensures Elems([s[0]] + rest) == Elems(s) + {k}
  {
    LtTotal(k, s[0]);
    forall j | 0 <= j < |rest| ensures Lt(s[0], rest[j]) {
      assert rest[j] in Elems(rest);
      if rest[j] != k {
        assert rest[j] in Elems(s[1..]);
      }
    }
    assert s == [s[0]] + s[1..];
    assert forall x :: x in [s[0]] + rest <==> x == s[0] || x in Elems(rest);
  }

  /** The ascending listing of a finite set of keys. */
  ghost function Sort(s: set<Key>): (r: seq<Key>)
    ensures Ascending(r)
    ensures Elems(r) == s
    ensures |r| == |s|
  {
    if s == {} then []
    else
      var k :| k in s;
      var rest := Sort(s - {k});
      assert k in rest ==> k in Elems(rest);
      Insert(rest, k)
  }

  /** An ascending sequence is determined by the set of its elements. */
  lemma {:induction false} AscendingUnique(a: seq<Key>, b: seq<Key>)
    requires Ascending(a) && Ascending(b) && Elems(a) == Elems(b)
    ensures a == b
    decreases |a|
  {
    assert b != [] ==> b[0] in Elems(b);
    if a != [] {
      assert a[0] in Elems(b);
      assert b != [];
      assert b[0] in Elems(a);
      var i :| 0 <= i < |a| && a[i] == b[0];
      var j :| 0 <= j < |b| && b[j] == a[0];
      LtTotal(a[0], b[0]);
      assert a[0] == b[0];
      TailElems(a);
      TailElems(b);
      AscendingUnique(a[1..], b[1..]);
      assert a == [a[0]] + a[1..] && b == [b[0]] + b[1..];
    }
  }

  lemma TailElems(a: seq<Key>)
    requires a != [] && Ascending(a)
    ensures Elems(a[1..]) == Elems(a) - {a[0]}
  {
    LtTotal(a[0], a[0]);
    assert a == [a[0]] + a[1..];
  }

  lemma SortUnique(r: seq<Key>, s: set<Key>)
    requires Ascending(r) && Elems(r) == s
    ensures r == Sort(s)
  {
    AscendingUnique(r, Sort(s));
  }

  /** Keys of an ascending sequence are pairwise different. */
  lemma AscendingDistinct(s: seq<Key>, i: nat, j: nat)
    requires Ascending(s) && i < |s| && j < |s| && s[i] == s[j]
    ensures i == j
  {
    LtTotal(s[i], s[j]);
  }

  /** The sorting step of `ClaimReady` and `List`, on keys listed in any order. */
  method SortKeys(ks: seq<Key>) returns (r: seq<Key>)
    requires forall i, j :: 0 <= i < j < |ks| ==> ks[i] != ks[j]
    ensures r == Sort(Elems(ks))
  {
    r := [];
    for n := 0 to |ks|
      invariant Ascending(r) && Elems(r) == Elems(ks[..n])
    {
      assert forall x :: x in r <==> x in Elems(r);
      assert ks[..n + 1] == ks[..n] + [ks[n]];
      r := Insert(r, ks[n]);
    }
    assert ks[..|ks|] == ks;
    SortUnique(r, Elems(ks));
  }

  /** The elements of `s` that belong to `keep`, in order. */
  function Keep<T(==)>(s: seq<T>, keep: set<T>): (r: seq<T>)
    ensures |r| <= |s|
    ensures Elems(r) == Elems(s) * keep
  {
    if s == [] then []
    else
      var head := if s[0] in keep then [s[0]] else [];
      var rest := Keep(s[1..], keep);
      assert s == [s[0]] + s[1..];
      assert Elems(head + rest) == Elems(head) + Elems(rest);
      head + rest
  }

  function Take<T>(n: int, s: seq<T>): (r: seq<T>)
  {
    if n <= 0 then [] else if n <= |s| then s[..n] else s
  }

  function Drop<T>(n: int, s: seq<T>): (r: seq<T>)
  {
    if n <= 0 then s else if n <= |s| then s[n..] else []
  }

  lemma {:induction false} KeepAppend<T>(a: seq<T>, b: seq<T>, keep: set<T>)
    ensures Keep(a + b, keep) == Keep(a, keep) + Keep(b, keep)
  {
    if a == [] {
      assert a + b == b;
    } else {
      assert (a + b)[1..] == a[1..] + b;
      KeepAppend(a[1..], b, keep);
      var head := if a[0] in keep then [a[0]] else [];
      assert Keep(a + b, keep) == head + (Keep(a[1..], keep) + Keep(b, keep));
      assert Keep(a, keep) == head + Keep(a[1..], keep);
    }
  }

  /** Filtering keeps an ascending sequence ascending. */
  lemma {:induction false} KeepAscending(s: seq<Key>, keep: set<Key>)
    requires Ascending(s)
    ensures Ascending(Keep(s, keep))
  {
    if s != [] {
      var rest := Keep(s[1..], keep);
      KeepAscending(s[1..], keep);
      forall j | 0 <= j < |rest| ensures Lt(s[0], rest[j]) {
        assert rest[j] in Elems(rest);
        assert rest[j] in Elems(s[1..]);
      }
    }
  }

  /** Sorting a part of a set gives the same sequence as filtering the sorted whole. */
  lemma SortSubset(all: set<Key>, part: set<Key>)
    requires part <= all
    ensures Sort(part) == Keep(Sort(all), part)
  {
    KeepAscending(Sort(all), part);
    assert all * part == part;
    SortUnique(Keep(Sort(all), part), part);
  }

  /** Filtering the first `n` elements gives a prefix of the filtered whole. */
  lemma KeepOfTake<T>(n: int, s: seq<T>, keep: set<T>)
    ensures Keep(Take(n, s), keep) == Take(|Keep(Take(n, s), keep)|, Keep(s, keep))
  {
    var t := Take(n, s);
    assert s == t + s[|t|..];
    KeepAppend(t, s[|t|..], keep);
  }

  lemma {:induction false} KeepAll<T>(s: seq<T>, keep: set<T>)
    requires Elems(s) <= keep
    ensures Keep(s, keep) == s
  {
    if s != [] {
      assert s[0] in Elems(s);
      assert Elems(s[1..]) <= Elems(s);
      KeepAll(s[1..], keep);
    }
  }

  lemma {:induction false} KeepCongruent<T>(s: seq<T>, a: set<T>, b: set<T>)
    requires Elems(s) * a == Elems(s) * b
    ensures Keep(s, a) == Keep(s, b)
  {
    if s != [] {
      assert s[0] in a <==> s[0] in Elems(s) * a;
      assert s[0] in b <==> s[0] in Elems(s) * b;
      assert Elems(s[1..]) <= Elems(s);
      assert Elems(s[1..]) * a == Elems(s[1..]) * (Elems(s) * a);
      assert Elems(s[1..]) * b == Elems(s[1..]) * (Elems(s) * b);
      KeepCongruent(s[1..], a, b);
    }
  }
}
