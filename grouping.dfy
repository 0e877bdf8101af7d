/**
 * Grouped sums over sequences of records: the groupby-sum and the
 * outer union of grouping keys that every aggregation view is built from.
 * A record type R is grouped by a key function `key: R -> K` and a numeric
 * column is a function `f: R -> nat`.
 */
module Grouping {

  /** No key occurs twice. */
  predicate NoDups<K(==)>(ks: seq<K>)
  {
    forall i, j | 0 <= i < j < |ks| :: ks[i] != ks[j]
  }

  /** The key of every record, in record order. */
  function KeysOf<R, K>(rs: seq<R>, key: R -> K): (ks: seq<K>)
    ensures |ks| == |rs|
    ensures forall i | 0 <= i < |rs| :: ks[i] == key(rs[i])
  {
    if rs == [] then [] else [key(rs[0])] + KeysOf(rs[1..], key)
  }

  /** The keys of ks with repetitions removed: the union of the keys as a list. */
  function Distinct<K(==)>(ks: seq<K>): (d: seq<K>)
    ensures NoDups(d)
    ensures forall i | 0 <= i < |ks| :: ks[i] in d
    ensures forall i | 0 <= i < |d| :: d[i] in ks
    ensures |d| <= |ks|
  {
    if ks == [] then []
    else
      var init := Distinct(ks[..|ks| - 1]);
      var last := ks[|ks| - 1];
      assert ks == ks[..|ks| - 1] + [last];
      if last in init then init else init + [last]
  }

  /** A key is among the distinct keys of a list exactly when it is in the list. */
  lemma DistinctMembers<K>(ks: seq<K>)
    ensures forall k :: k in Distinct(ks) <==> k in ks
  {
    var d := Distinct(ks);
    forall k ensures k in d <==> k in ks {
      if k in d {
        var i :| 0 <= i < |d| && d[i] == k;
      }
      if k in ks {
        var i :| 0 <= i < |ks| && ks[i] == k;
      }
    }
  }

  /** The column f summed over all records. */
  function Sum<R>(rs: seq<R>, f: R -> nat): nat
  {
    if rs == [] then 0 else f(rs[0]) + Sum(rs[1..], f)
  }

  /** The sum can be taken from the last record as well as from the first. */
  lemma {:induction false} SumLast<R>(rs: seq<R>, f: R -> nat)
    requires rs != []
    ensures Sum(rs, f) == Sum(rs[..|rs| - 1], f) + f(rs[|rs| - 1])
  {
    if |rs| > 1 {
      SumLast(rs[1..], f);
      assert rs[1..][..|rs[1..]| - 1] == rs[..|rs| - 1][1..];
    }
  }

  /**
   * The column f summed over the records whose key is k: one cell of a
   * groupby-sum. A key that no record carries sums to zero, which is the
   * zero-fill of an outer merge.
   */
  function GroupSum<R, K(==)>(rs: seq<R>, key: R -> K, k: K, f: R -> nat): (total: nat)
    ensures total <= Sum(rs, f)
    ensures k !in KeysOf(rs, key) ==> total == 0
    ensures (forall i | 0 <= i < |rs| :: key(rs[i]) == k) ==> total == Sum(rs, f)
  {
    if rs == [] then 0
    else (if key(rs[0]) == k then f(rs[0]) else 0) + GroupSum(rs[1..], key, k, f)
  }

  /** Grouping commutes with adding two columns. */
  lemma {:induction false} GroupSumAdditive<R, K>(rs: seq<R>, key: R -> K, k: K, f: R -> nat, g: R -> nat, h: R -> nat)
    requires forall i | 0 <= i < |rs| :: f(rs[i]) == g(rs[i]) + h(rs[i])
    ensures GroupSum(rs, key, k, f) == GroupSum(rs, key, k, g) + GroupSum(rs, key, k, h)
  {
    if rs != [] {
      GroupSumAdditive(rs[1..], key, k, f, g, h);
    }
  }

  /** Grouping commutes with adding three columns. */
  lemma {:induction false} GroupSumAdditive3<R, K>(rs: seq<R>, key: R -> K, k: K, f: R -> nat, g: R -> nat, h: R -> nat, j: R -> nat)
    requires forall i | 0 <= i < |rs| :: f(rs[i]) == g(rs[i]) + h(rs[i]) + j(rs[i])
    ensures GroupSum(rs, key, k, f) == GroupSum(rs, key, k, g) + GroupSum(rs, key, k, h) + GroupSum(rs, key, k, j)
  {
    if rs != [] {
      GroupSumAdditive3(rs[1..], key, k, f, g, h, j);
    }
  }

  /**
   * The group sums of the keys ks whose coarser key is c, added up: for
   * (state, district) keys and c a state, the total of that state's rows.
   */
  function KeyedSum<R, K(==), C(==)>(ks: seq<K>, coarse: K -> C, c: C, rs: seq<R>, key: R -> K, f: R -> nat): nat
  {
    if ks == [] then 0
    else (if coarse(ks[0]) == c then GroupSum(rs, key, ks[0], f) else 0) + KeyedSum(ks[1..], coarse, c, rs, key, f)
  }

  lemma {:induction false} KeyedSumOfNoRecords<R, K, C>(ks: seq<K>, coarse: K -> C, c: C, key: R -> K, f: R -> nat)
    ensures KeyedSum(ks, coarse, c, [], key, f) == 0
  {
    if ks != [] {
      KeyedSumOfNoRecords(ks[1..], coarse, c, key, f);
    }
  }

  /** Peeling the first record off every group sum of a list of distinct keys. */
  lemma {:induction false} KeyedSumFirstRecord<R, K, C>(ks: seq<K>, coarse: K -> C, c: C, rs: seq<R>, key: R -> K, f: R -> nat)
    requires NoDups(ks)
    requires rs != []
    ensures KeyedSum(ks, coarse, c, rs, key, f)
         == KeyedSum(ks, coarse, c, rs[1..], key, f)
            + (if key(rs[0]) in ks && coarse(key(rs[0])) == c then f(rs[0]) else 0)
  {
    if ks != [] {
      assert NoDups(ks[1..]) by {
        forall i, j | 0 <= i < j < |ks[1..]| ensures ks[1..][i] != ks[1..][j] {
          assert ks[1..][i] == ks[i + 1] && ks[1..][j] == ks[j + 1];
        }
      }
      KeyedSumFirstRecord(ks[1..], coarse, c, rs, key, f);
      assert ks[0] !in ks[1..] by {
        forall j | 0 <= j < |ks[1..]| ensures ks[1..][j] != ks[0] {
          assert ks[1..][j] == ks[j + 1];
        }
      }
      assert key(rs[0]) in ks <==> key(rs[0]) == ks[0] || key(rs[0]) in ks[1..] by {
        assert ks == [ks[0]] + ks[1..];
      }
    }
  }

  /**
   * Refinement: when ks lists every record key once and the coarse key of
   * each record's key is its coarse key ckey, summing the fine groups of a
   * coarse value c gives the coarse group sum of c.
   */
  lemma {:induction false} KeyedSumRefines<R, K, C>(ks: seq<K>, coarse: K -> C, c: C, rs: seq<R>, key: R -> K, ckey: R -> C, f: R -> nat)
    requires NoDups(ks)
    requires forall i | 0 <= i < |rs| :: key(rs[i]) in ks
    requires forall i | 0 <= i < |rs| :: coarse(key(rs[i])) == ckey(rs[i])
    ensures KeyedSum(ks, coarse, c, rs, key, f) == GroupSum(rs, ckey, c, f)
  {
    if rs == [] {
      KeyedSumOfNoRecords(ks, coarse, c, key, f);
    } else {
      assert key(rs[0]) in ks && coarse(key(rs[0])) == ckey(rs[0]);
      forall i | 0 <= i < |rs[1..]| ensures key(rs[1..][i]) in ks && coarse(key(rs[1..][i])) == ckey(rs[1..][i]) {
        assert rs[1..][i] == rs[i + 1];
      }
      KeyedSumRefines(ks, coarse, c, rs[1..], key, ckey, f);
      KeyedSumFirstRecord(ks, coarse, c, rs, key, f);
    }
  }
}
