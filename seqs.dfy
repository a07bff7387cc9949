/** Sequence operations the dashboard borrows from pandas and Python lists:
    concatenation of tables, `unique()` in first-seen order, and `[:-1]`. */
module Seqs {

  /** Total length of a list of tables. */
  function SumLengths<T>(ts: seq<seq<T>>): nat
  {
    if ts == [] then 0 else SumLengths(ts[..|ts| - 1]) + |ts[|ts| - 1]|
  }

  /** The tables laid end to end, in order (what `pd.concat` does to the rows). */
  function Flat<T>(ts: seq<seq<T>>): (r: seq<T>)
    ensures |r| == SumLengths(ts)
  {
    if ts == [] then [] else Flat(ts[..|ts| - 1]) + ts[|ts| - 1]
  }

  /** Concatenating two lists of tables drops and duplicates nothing. */
  lemma {:induction false} FlatAppend<T>(a: seq<seq<T>>, b: seq<seq<T>>)
    ensures Flat(a + b) == Flat(a) + Flat(b)
  {
    if b != [] {
      var b' := b[..|b| - 1];
      assert (a + b)[..|a + b| - 1] == a + b';
      FlatAppend(a, b');
    } else {
      assert a + b == a;
    }
  }

  /** Table i keeps its rows contiguous: its row j sits right after the rows of
      the tables before it. */
  lemma {:induction false} FlatAt<T>(ts: seq<seq<T>>, i: nat, j: nat)
    requires i < |ts| && j < |ts[i]|
    ensures SumLengths(ts[..i]) + j < |Flat(ts)|
    ensures Flat(ts)[SumLengths(ts[..i]) + j] == ts[i][j]
  {
    var init := ts[..|ts| - 1];
    if i == |ts| - 1 {
      assert ts[..i] == init;
    } else {
      assert init[..i] == ts[..i];
      FlatAt(init, i, j);
    }
  }

  /** The middle and the last part of a three-part concatenation can be
      sliced back out. */
  lemma SlicesOfConcat<T>(a: seq<T>, b: seq<T>, c: seq<T>)
    ensures (a + b + c)[|a|..|a| + |b|] == b
    ensures (a + b + c)[|a| + |b|..|a| + |b| + |c|] == c
  {
    var s := a + b + c;
    assert s[|a|..|a| + |b|] == b;
    assert s[|a| + |b|..] == c;
  }

  /** Python's `s[:-1]`: everything but the last element, and nothing for an
      empty list. */
  function AllButLast<T>(s: seq<T>): (r: seq<T>)
    ensures |r| == if |s| == 0 then 0 else |s| - 1
    ensures forall i :: 0 <= i < |r| ==> r[i] == s[i]
  {
    if |s| == 0 then [] else s[..|s| - 1]
  }

  /** Position of the first occurrence of `x`. */
  function FirstIndex<T(==)>(s: seq<T>, x: T): (i: nat)
    requires x in s
    ensures i < |s| && s[i] == x
    ensures forall j :: 0 <= j < i ==> s[j] != x
  {
    if s[0] == x then 0 else 1 + FirstIndex(s[1..], x)
  }

  /** The distinct elements, in first-seen order (`Series.unique().tolist()`). */
  function Unique<T(==)>(s: seq<T>): (u: seq<T>)
    ensures |u| <= |s|
    ensures s != [] ==> u != []
  {
    if s == [] then []
    else
      var u := Unique(s[..|s| - 1]);
      if s[|s| - 1] in u then u else u + [s[|s| - 1]]
  }

  /** `Unique` keeps every element and adds none. */
  lemma {:induction false} UniqueMembers<T>(s: seq<T>)
    ensures forall i :: 0 <= i < |s| ==> s[i] in Unique(s)
    ensures forall i :: 0 <= i < |Unique(s)| ==> Unique(s)[i] in s
  {
    if s != [] {
      var init, last := s[..|s| - 1], s[|s| - 1];
      UniqueMembers(init);
      assert s == init + [last];
    }
  }

  /** `Unique` lists each element once. */
  lemma {:induction false} UniqueDistinct<T>(s: seq<T>)
    ensures forall i, j :: 0 <= i < j < |Unique(s)| ==> Unique(s)[i] != Unique(s)[j]
  {
    if s != [] {
      UniqueDistinct(s[..|s| - 1]);
    }
  }

  lemma FirstIndexExtend<T>(s: seq<T>, y: T, x: T)
    requires x in s
    ensures x in s + [y] && FirstIndex(s + [y], x) == FirstIndex(s, x)
  {
    var a, b := FirstIndex(s + [y], x), FirstIndex(s, x);
    assert (s + [y])[b] == x;
  }

  /** `Unique` lists the elements in the order of their first occurrences. */
  lemma {:induction false} UniqueFirstSeen<T>(s: seq<T>)
    ensures forall i, j :: 0 <= i < j < |Unique(s)| ==>
              Unique(s)[i] in s && Unique(s)[j] in s &&
              FirstIndex(s, Unique(s)[i]) < FirstIndex(s, Unique(s)[j])
  {
    if s != [] {
      var init, last := s[..|s| - 1], s[|s| - 1];
      assert s == init + [last];
      var u := Unique(init);
      UniqueMembers(init);
      UniqueFirstSeen(init);
      forall x | x in init ensures x in s && FirstIndex(s, x) == FirstIndex(init, x) < |init| {
        FirstIndexExtend(init, last, x);
      }
      var v := Unique(s);
      assert v == if last in u then u else u + [last];
      forall i, j | 0 <= i < j < |v|
        ensures v[i] in s && v[j] in s && FirstIndex(s, v[i]) < FirstIndex(s, v[j])
      {
        assert v[i] == u[i] && u[i] in init;
        if j < |u| {
          assert v[j] == u[j] && u[j] in init;
        } else {
          assert v[j] == last && last !in init;
          assert FirstIndex(s, last) == |init|;
        }
      }
    } else {
      assert Unique(s) == [];
    }
  }

  /** The first distinct element is the first element. */
  lemma UniqueFirst<T>(s: seq<T>)
    requires s != []
    ensures |Unique(s)| > 0 && Unique(s)[0] == s[0]
  {
    var u := Unique(s);
    UniqueMembers(s);
    UniqueFirstSeen(s);
    assert FirstIndex(s, s[0]) == 0;
    forall j | 0 < j < |u| ensures u[j] != s[0] {
      assert FirstIndex(s, u[0]) < FirstIndex(s, u[j]);
    }
    assert s[0] in u;
  }

  /** The last distinct element is the one whose first occurrence comes latest. */
  lemma UniqueLast<T>(s: seq<T>, i: nat)
    requires i < |s|
    ensures |Unique(s)| > 0 && Unique(s)[|Unique(s)| - 1] in s
    ensures FirstIndex(s, s[i]) <= FirstIndex(s, Unique(s)[|Unique(s)| - 1])
  {
    var u := Unique(s);
    UniqueMembers(s);
    assert s[i] in u;
    var m :| 0 <= m < |u| && u[m] == s[i];
    if m < |u| - 1 {
      UniqueFirstSeen(s);
      assert FirstIndex(s, u[m]) < FirstIndex(s, u[|u| - 1]);
    }
  }
}
