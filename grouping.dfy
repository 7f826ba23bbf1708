/** `groupby(keys)[cols].sum()`: the grouping both pandas and the SQL
    `GROUP BY ... ORDER BY` of the chart queries perform. The result holds one
    entry per distinct key, in ascending key order, and each summed column of
    an entry is the sum of that column over the input rows with its key. */
module Grouping {
  import opened Basics
  import opened Text

  /** A group-key component that is a number (a month as an integer) or a
      string (a category, a transaction type, a "YYYY-MM" month bucket). */
  datatype Atom = Num(n: int) | Txt(s: string)

  predicate AtomLt(x: Atom, y: Atom)
  {
    match (x, y)
    case (Num(a), Num(b)) => a < b
    case (Txt(a), Txt(b)) => StrLt(a, b)
    case (Num(_), Txt(_)) => true
    case (Txt(_), Num(_)) => false
  }

  /** A key component as Python's `str()` / `f"{...}"` writes it. */
  function AtomText(a: Atom): string
  {
    match a
    case Num(n) => IntToString(n)
    case Txt(s) => s
  }

  /** A two-level group key, ordered by `major` and then by `minor`. */
  datatype Key = Key(major: Atom, minor: string)

  predicate KeyLt(k: Key, l: Key)
  {
    AtomLt(k.major, l.major) || (k.major == l.major && StrLt(k.minor, l.minor))
  }

  lemma AtomLtIrreflexive(x: Atom)
    ensures !AtomLt(x, x)
  {
    if x.Txt? { StrLtIrreflexive(x.s); }
  }

  lemma AtomLtTransitive(x: Atom, y: Atom, z: Atom)
    requires AtomLt(x, y) && AtomLt(y, z)
    ensures AtomLt(x, z)
  {
    if x.Txt? && y.Txt? && z.Txt? {
      StrLtTransitive(x.s, y.s, z.s);
    }
  }

  lemma KeyLtIrreflexive(k: Key)
    ensures !KeyLt(k, k)
  {
    StrLtIrreflexive(k.minor);
    AtomLtIrreflexive(k.major);
  }

  lemma KeyLtTransitive(a: Key, b: Key, c: Key)
    requires KeyLt(a, b) && KeyLt(b, c)
    ensures KeyLt(a, c)
  {
    if AtomLt(a.major, b.major) && AtomLt(b.major, c.major) {
      AtomLtTransitive(a.major, b.major, c.major);
    } else if a.major == b.major && b.major == c.major {
      AtomLtIrreflexive(a.major);
      StrLtTransitive(a.minor, b.minor, c.minor);
    }
  }

  lemma KeyLtTotal(a: Key, b: Key)
    ensures a == b || KeyLt(a, b) || KeyLt(b, a)
  {
    StrLtTotal(a.minor, b.minor);
    if a.major.Txt? && b.major.Txt? { StrLtTotal(a.major.s, b.major.s); }
  }

  /** One input row, reduced to its group key and the columns to be summed. */
  datatype Row = Row(key: Key, vals: seq<int>)

  predicate Width(rows: seq<Row>, w: nat)
  {
    forall i :: 0 <= i < |rows| ==> |rows[i].vals| == w
  }

  predicate HasColumn(rows: seq<Row>, j: nat)
  {
    forall i :: 0 <= i < |rows| ==> j < |rows[i].vals|
  }

  predicate StrictlySorted(g: seq<Row>)
  {
    forall i, j :: 0 <= i < j < |g| ==> KeyLt(g[i].key, g[j].key)
  }

  function Keys(rows: seq<Row>): set<Key>
  {
    set i | 0 <= i < |rows| :: rows[i].key
  }

  /** Sum of column `j` over the rows whose key is `k` (0 when there are none). */
  function ColSum(rows: seq<Row>, k: Key, j: nat): int
    requires HasColumn(rows, j)
  {
    if rows == [] then 0
    else
      var last := rows[|rows| - 1];
      ColSum(rows[..|rows| - 1], k, j) + (if last.key == k then last.vals[j] else 0)
  }

  /** Column `j` of the first entry with key `k`, or 0 when `k` is absent
      (pandas' `fill_value=0`). */
  function Lookup(g: seq<Row>, k: Key, j: nat): int
    requires HasColumn(g, j)
  {
    if g == [] then 0 else if g[0].key == k then g[0].vals[j] else Lookup(g[1..], k, j)
  }

  function AddVals(a: seq<int>, b: seq<int>): (r: seq<int>)
    requires |a| == |b|
    ensures |r| == |a| && forall j :: 0 <= j < |a| ==> r[j] == a[j] + b[j]
  {
    seq(|a|, j requires 0 <= j < |a| => a[j] + b[j])
  }

  /** Adds one row to a sorted grouping: a new key is put in its place, an
      existing key has the row's columns added to its sums. */
  function Insert(g: seq<Row>, r: Row): (res: seq<Row>)
    requires Width(g, |r.vals|)
    ensures Width(res, |r.vals|)
  {
    if g == [] then [r]
    else if KeyLt(r.key, g[0].key) then [r] + g
    else if r.key == g[0].key then [Row(r.key, AddVals(g[0].vals, r.vals))] + g[1..]
    else [g[0]] + Insert(g[1..], r)
  }

  /** `groupby(...).sum()` of rows whose summed columns number `w`. */
  function GroupSum(rows: seq<Row>, w: nat): (g: seq<Row>)
    requires Width(rows, w)
    ensures Width(g, w)
  {
    if rows == [] then []
    else Insert(GroupSum(rows[..|rows| - 1], w), rows[|rows| - 1])
  }

  lemma ColSumSnoc(rows: seq<Row>, r: Row, k: Key, j: nat)
    requires HasColumn(rows + [r], j) && j < |r.vals|
    ensures HasColumn(rows, j)
    ensures ColSum(rows + [r], k, j) == ColSum(rows, k, j) + (if r.key == k then r.vals[j] else 0)
  {
    assert (rows + [r])[..|rows|] == rows;
    assert forall i :: 0 <= i < |rows| ==> rows[i] == (rows + [r])[i];
  }

  lemma LookupAbsent(g: seq<Row>, k: Key, j: nat)
    requires HasColumn(g, j) && k !in Keys(g)
    ensures Lookup(g, k, j) == 0
  {
    if g != [] {
      assert Keys(g[1..]) <= Keys(g) by {
        forall x | x in Keys(g[1..]) ensures x in Keys(g) {
          var i :| 0 <= i < |g[1..]| && g[1..][i].key == x;
          assert g[i + 1].key == x;
        }
      }
      assert g[0].key in Keys(g);
      LookupAbsent(g[1..], k, j);
    }
  }

  lemma SortedTail(g: seq<Row>)
    requires StrictlySorted(g) && g != []
    ensures StrictlySorted(g[1..])
    ensures forall k :: k in Keys(g[1..]) ==> KeyLt(g[0].key, k)
    ensures Keys(g) == Keys(g[1..]) + {g[0].key} && g[0].key !in Keys(g[1..])
  {
    forall k | k in Keys(g[1..]) ensures KeyLt(g[0].key, k) {
      var i :| 0 <= i < |g[1..]| && g[1..][i].key == k;
      assert g[i + 1].key == k;
    }
    KeyLtIrreflexive(g[0].key);
    assert Keys(g) == Keys(g[1..]) + {g[0].key} by {
      forall x | x in Keys(g) ensures x in Keys(g[1..]) + {g[0].key} {
        var i :| 0 <= i < |g| && g[i].key == x;
        if i > 0 { assert g[1..][i - 1].key == x; }
      }
      forall x | x in Keys(g[1..]) ensures x in Keys(g) {
        var i :| 0 <= i < |g[1..]| && g[1..][i].key == x;
        assert g[i + 1].key == x;
      }
    }
  }

  lemma SortedCons(x: Row, g: seq<Row>)
    requires StrictlySorted(g)
    requires forall k :: k in Keys(g) ==> KeyLt(x.key, k)
    ensures StrictlySorted([x] + g)
  {
    var s := [x] + g;
    forall i, j | 0 <= i < j < |s| ensures KeyLt(s[i].key, s[j].key) {
      if i == 0 {
        assert s[j].key == g[j - 1].key && g[j - 1].key in Keys(g);
      } else {
        assert s[i] == g[i - 1] && s[j] == g[j - 1];
      }
    }
  }

  lemma {:induction false} InsertProperties(g: seq<Row>, r: Row)
    requires StrictlySorted(g) && Width(g, |r.vals|)
    ensures StrictlySorted(Insert(g, r))
    ensures Keys(Insert(g, r)) == Keys(g) + {r.key}
    ensures forall k, j :: 0 <= j < |r.vals| ==>
      Lookup(Insert(g, r), k, j) == Lookup(g, k, j) + (if k == r.key then r.vals[j] else 0)
  {
    var res := Insert(g, r);
    if g == [] {
      assert res == [r];
      assert Keys(res) == {r.key} by {
        assert res[0].key == r.key;
        assert forall x :: x in Keys(res) ==> x == r.key;
      }
    } else {
      SortedTail(g);
      var head, tail := g[0], g[1..];
      KeyLtTotal(r.key, head.key);
      if KeyLt(r.key, head.key) {
        forall k | k in Keys(g) ensures KeyLt(r.key, k) {
          if k != head.key { KeyLtTransitive(r.key, head.key, k); }
        }
        SortedCons(r, g);
        assert r.key !in Keys(g) by { KeyLtIrreflexive(r.key); }
        assert res[1..] == g;
        SortedTail(res);
        forall j | 0 <= j < |r.vals| ensures Lookup(g, r.key, j) == 0 {
          LookupAbsent(g, r.key, j);
        }
      } else if r.key == head.key {
        var merged := Row(r.key, AddVals(head.vals, r.vals));
        assert res == [merged] + tail;
        SortedCons(merged, tail);
        assert res[1..] == tail;
        SortedTail(res);
      } else {
        assert KeyLt(head.key, r.key);
        InsertProperties(tail, r);
        var rest := Insert(tail, r);
        assert res == [head] + rest && res[1..] == rest;
        SortedCons(head, rest);
        SortedTail(res);
      }
    }
  }

  /** The grouping is sorted, holds exactly the input's keys, and every
      column of every key is the sum over the input rows with that key. */
  lemma {:induction false} GroupSumProperties(rows: seq<Row>, w: nat)
    requires Width(rows, w)
    ensures StrictlySorted(GroupSum(rows, w))
    ensures Keys(GroupSum(rows, w)) == Keys(rows)
    ensures forall k, j :: 0 <= j < w ==> Lookup(GroupSum(rows, w), k, j) == ColSum(rows, k, j)
  {
    if rows != [] {
      var init, last := rows[..|rows| - 1], rows[|rows| - 1];
      GroupSumProperties(init, w);
      InsertProperties(GroupSum(init, w), last);
      assert Keys(rows) == Keys(init) + {last.key} by {
        assert rows == init + [last];
        forall x | x in Keys(rows) ensures x in Keys(init) + {last.key} {
          var i :| 0 <= i < |rows| && rows[i].key == x;
          if i < |init| { assert init[i].key == x; }
        }
        forall x | x in Keys(init) ensures x in Keys(rows) {
          var i :| 0 <= i < |init| && init[i].key == x;
          assert rows[i].key == x;
        }
      }
    }
  }

  /** In a sorted grouping, looking up an entry's key finds that entry. */
  lemma {:induction false} LookupAt(g: seq<Row>, i: nat, j: nat)
    requires StrictlySorted(g) && HasColumn(g, j) && i < |g|
    ensures Lookup(g, g[i].key, j) == g[i].vals[j]
  {
    if i > 0 {
      KeyLtIrreflexive(g[0].key);
      assert g[1..][i - 1] == g[i];
      LookupAt(g[1..], i - 1, j);
    }
  }

  lemma {:induction false} InsertGreatest(g: seq<Row>, r: Row)
    requires Width(g, |r.vals|)
    requires forall i :: 0 <= i < |g| ==> KeyLt(g[i].key, r.key)
    ensures Insert(g, r) == g + [r]
  {
    if g != [] {
      assert KeyLt(g[0].key, r.key);
      KeyLtIrreflexive(r.key);
      StrLtAsymmetricKey(g[0].key, r.key);
      InsertGreatest(g[1..], r);
      assert [g[0]] + (g[1..] + [r]) == g + [r];
    }
  }

  lemma StrLtAsymmetricKey(k: Key, l: Key)
    requires KeyLt(k, l)
    ensures !KeyLt(l, k)
  {
    if KeyLt(l, k) {
      KeyLtTransitive(k, l, k);
      KeyLtIrreflexive(k);
    }
  }

  /** Grouping an already grouped (sorted, one row per key) frame returns it
      unchanged. */
  lemma {:induction false} GroupSumOfGrouped(g: seq<Row>, w: nat)
    requires Width(g, w) && StrictlySorted(g)
    ensures GroupSum(g, w) == g
  {
    if g != [] {
      var init, last := g[..|g| - 1], g[|g| - 1];
      assert StrictlySorted(init);
      GroupSumOfGrouped(init, w);
      InsertGreatest(init, last);
      assert init + [last] == g;
    }
  }

  /** Regrouping is idempotent: `groupby().sum()` of a `groupby().sum()`. */
  lemma GroupSumIdempotent(rows: seq<Row>, w: nat)
    requires Width(rows, w)
    ensures GroupSum(GroupSum(rows, w), w) == GroupSum(rows, w)
  {
    GroupSumProperties(rows, w);
    GroupSumOfGrouped(GroupSum(rows, w), w);
  }

  /** `sorted(col.unique())`: the distinct values in ascending order, obtained
      as the keys of a grouping on that column alone. */
  function SortedUnique(xs: seq<Atom>): seq<Atom>
  {
    var g := GroupSum(seq(|xs|, i requires 0 <= i < |xs| => Row(Key(xs[i], ""), [])), 0);
    seq(|g|, i requires 0 <= i < |g| => g[i].key.major)
  }

  lemma SortedUniqueProperties(xs: seq<Atom>)
    ensures forall i, j :: 0 <= i < j < |SortedUnique(xs)| ==> AtomLt(SortedUnique(xs)[i], SortedUnique(xs)[j])
    ensures forall a :: a in SortedUnique(xs) <==> a in xs
  {
    var rows := seq(|xs|, i requires 0 <= i < |xs| => Row(Key(xs[i], ""), []));
    var g := GroupSum(rows, 0);
    GroupSumProperties(rows, 0);
    var u := SortedUnique(xs);
    assert |u| == |g|;
    forall i, j | 0 <= i < j < |u| ensures AtomLt(u[i], u[j]) {
      assert KeyLt(g[i].key, g[j].key);
      assert g[i].key.minor == "" == g[j].key.minor by {
        assert g[i].key in Keys(rows) && g[j].key in Keys(rows);
      }
      StrLtIrreflexive("");
    }
    forall a ensures a in u <==> a in xs {
      if a in u {
        var i :| 0 <= i < |u| && u[i] == a;
        assert g[i].key in Keys(rows);
        var k :| 0 <= k < |rows| && rows[k].key == g[i].key;
        assert xs[k] == a;
      }
      if a in xs {
        var k :| 0 <= k < |xs| && xs[k] == a;
        assert rows[k].key in Keys(g);
        var i :| 0 <= i < |g| && g[i].key == rows[k].key;
        assert u[i] == a;
      }
    }
  }
}
