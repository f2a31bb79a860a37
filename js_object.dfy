/** The key order of an ordinary JavaScript object: how `keys[k] = 1` on a plain `{}` records
    keys, and the order in which `Object.keys` lists them. */
module JsObject {

  /** Assigning to this key on a plain object runs the inherited `__proto__` setter, which
      ignores a number, so no own property is created. */
  const ProtoKey: string := "__proto__"

  predicate IsDigits(k: string)
  {
    forall i :: 0 <= i < |k| ==> '0' <= k[i] <= '9'
  }

  /** The number a string of decimal digits stands for. */
  function DigitsValue(k: string): int
  {
    if k == [] then 0 else 10 * DigitsValue(k[..|k| - 1]) + (k[|k| - 1] as int - '0' as int)
  }

  /** An array index in the ECMAScript sense: the canonical decimal form of an integer below
      2^32 - 1. */
  predicate IsArrayIndex(k: string)
  {
    && |k| > 0
    && IsDigits(k)
    && (k[0] == '0' ==> |k| == 1)
    && DigitsValue(k) < 0xFFFF_FFFF
  }

  /** The keys of `ks` that are (`index`) or are not (`!index`) array indices, in their order. */
  function KeysWhere(ks: seq<string>, index: bool): seq<string>
  {
    if ks == [] then []
    else
      var n := |ks| - 1;
      KeysWhere(ks[..n], index) + (if IsArrayIndex(ks[n]) == index then [ks[n]] else [])
  }

  /** 10 to the power `n`. */
  function Pow10(n: nat): nat
  {
    if n == 0 then 1 else 10 * Pow10(n - 1)
  }

  lemma {:induction false} Pow10Grows(m: nat, n: nat)
    requires m <= n
    ensures Pow10(m) <= Pow10(n)
    decreases n
  {
    if m < n {
      Pow10Grows(m, n - 1);
    }
  }

  /** Digits without a leading zero stand for at least 10 to the power of one less than their
      number. */
  lemma {:induction false} DigitsValueLower(k: string)
    requires |k| > 0 && IsDigits(k) && k[0] != '0'
    ensures DigitsValue(k) >= Pow10(|k| - 1)
  {
    var n := |k| - 1;
    if n > 0 {
      var p := k[..n];
      assert p[0] == k[0];
      DigitsValueLower(p);
    }
  }

  /** An array index has at most ten digits, and only "0" starts with a zero. */
  lemma {:induction false} ArrayIndexLength(k: string)
    requires IsArrayIndex(k)
    ensures 1 <= |k| <= 10
    ensures k[0] == '0' ==> k == "0"
  {
    if |k| > 10 {
      DigitsValueLower(k);
      Pow10Grows(10, |k| - 1);
    }
  }

  predicate Ascending(s: seq<string>)
  {
    forall i, j :: 0 <= i < j < |s| ==> DigitsValue(s[i]) <= DigitsValue(s[j])
  }

  /** Inserts `k` before the first key of `sorted` whose numeric value is not smaller. */
  function Insert(k: string, sorted: seq<string>): (r: seq<string>)
    ensures |r| == |sorted| + 1
  {
    if sorted == [] || DigitsValue(k) <= DigitsValue(sorted[0]) then [k] + sorted
    else [sorted[0]] + Insert(k, sorted[1..])
  }

  /** Inserting into an ascending sequence keeps it ascending and adds exactly that key. */
  lemma {:induction false} InsertSpec(k: string, sorted: seq<string>)
    requires Ascending(sorted)
    ensures Ascending(Insert(k, sorted))
    ensures multiset(Insert(k, sorted)) == multiset(sorted) + multiset{k}
    ensures Insert(k, sorted)[0] == k || (sorted != [] && Insert(k, sorted)[0] == sorted[0])
  {
    if sorted == [] || DigitsValue(k) <= DigitsValue(sorted[0]) {
      AscendingCons(k, sorted);
    } else {
      var rest := sorted[1..];
      AscendingTail(sorted);
      InsertSpec(k, rest);
      var tail := Insert(k, rest);
      assert DigitsValue(sorted[0]) <= DigitsValue(tail[0]);
      AscendingCons(sorted[0], tail);
      assert sorted == [sorted[0]] + rest;
      assert multiset([sorted[0]] + tail) == multiset{sorted[0]} + multiset(tail);
    }
  }

  lemma {:induction false} AscendingTail(s: seq<string>)
    requires Ascending(s) && s != []
    ensures Ascending(s[1..])
    ensures s[1..] != [] ==> DigitsValue(s[0]) <= DigitsValue(s[1])
  {
    forall i, j | 0 <= i < j < |s| - 1 ensures DigitsValue(s[1..][i]) <= DigitsValue(s[1..][j]) {
      assert s[1..][i] == s[i + 1] && s[1..][j] == s[j + 1];
    }
  }

  lemma {:induction false} AscendingCons(x: string, s: seq<string>)
    requires Ascending(s)
    requires s != [] ==> DigitsValue(x) <= DigitsValue(s[0])
    ensures Ascending([x] + s)
  {
    var r := [x] + s;
    forall i, j | 0 <= i < j < |r| ensures DigitsValue(r[i]) <= DigitsValue(r[j]) {
      if i == 0 {
        assert r[j] == s[j - 1];
        assert DigitsValue(s[0]) <= DigitsValue(s[j - 1]) || j == 1;
      } else {
        assert r[i] == s[i - 1] && r[j] == s[j - 1];
      }
    }
  }

  /** Sorts keys ascending by numeric value, by insertion. */
  function Sort(ks: seq<string>): (r: seq<string>)
    ensures |r| == |ks|
  {
    if ks == [] then [] else Insert(ks[0], Sort(ks[1..]))
  }

  /** Sorting yields an ascending permutation of its input. */
  lemma {:induction false} SortSpec(ks: seq<string>)
    ensures Ascending(Sort(ks))
    ensures multiset(Sort(ks)) == multiset(ks)
  {
    if ks != [] {
      SortSpec(ks[1..]);
      InsertSpec(ks[0], Sort(ks[1..]));
      assert ks == [ks[0]] + ks[1..];
    }
  }

  /** `Object.keys` of an ordinary object whose own keys were created in the order `created`:
      array indices first, in ascending numeric order, then the other keys in creation order. */
  function ObjectKeys(created: seq<string>): (listed: seq<string>)
    ensures multiset(listed) == multiset(created)
  {
    KeysWhereSplit(created);
    SortSpec(KeysWhere(created, true));
    Sort(KeysWhere(created, true)) + KeysWhere(created, false)
  }

  /** Filtering keeps each key of the requested kind exactly as often as it occurs, and no key
      of the other kind. */
  lemma {:induction false} KeysWhereCounts(ks: seq<string>, index: bool)
    ensures forall x :: multiset(KeysWhere(ks, index))[x] == if IsArrayIndex(x) == index then multiset(ks)[x] else 0
  {
    if ks != [] {
      var n := |ks| - 1;
      var prev := ks[..n];
      KeysWhereCounts(prev, index);
      assert ks == prev + [ks[n]];
    }
  }

  lemma {:induction false} KeysWhereSplit(ks: seq<string>)
    ensures multiset(KeysWhere(ks, true)) + multiset(KeysWhere(ks, false)) == multiset(ks)
    ensures forall x :: x in KeysWhere(ks, true) <==> x in ks && IsArrayIndex(x)
    ensures forall x :: x in KeysWhere(ks, false) <==> x in ks && !IsArrayIndex(x)
  {
    KeysWhereCounts(ks, true);
    KeysWhereCounts(ks, false);
    var t, f := KeysWhere(ks, true), KeysWhere(ks, false);
    forall x ensures (multiset(t) + multiset(f))[x] == multiset(ks)[x] {
    }
    forall x ensures x in t <==> x in multiset(t) {
    }
    forall x ensures x in f <==> x in multiset(f) {
    }
  }

  /** `Object.keys` puts the array indices first, ascending, and then the remaining keys in the
      order they were created. */
  lemma {:induction false} ObjectKeysLayout(created: seq<string>)
    ensures var listed := ObjectKeys(created);
            var n := |KeysWhere(created, true)|;
            && n <= |listed|
            && (forall i :: 0 <= i < n ==> IsArrayIndex(listed[i]))
            && Ascending(listed[..n])
            && (forall i :: n <= i < |listed| ==> !IsArrayIndex(listed[i]))
            && listed[n..] == KeysWhere(created, false)
  {
    KeysWhereSplit(created);
    var listed := ObjectKeys(created);
    var sorted := Sort(KeysWhere(created, true));
    SortSpec(KeysWhere(created, true));
    var n := |KeysWhere(created, true)|;
    assert |sorted| == n by {
      assert |multiset(sorted)| == |multiset(KeysWhere(created, true))|;
    }
    assert listed[..n] == sorted;
    forall i | 0 <= i < n ensures IsArrayIndex(listed[i]) {
      assert listed[i] in multiset(sorted);
    }
    forall i | n <= i < |listed| ensures !IsArrayIndex(listed[i]) {
      assert listed[i] in KeysWhere(created, false);
    }
  }

  /** With no array-index key among them, keys are listed in creation order. */
  lemma {:induction false} ObjectKeysWithoutIndices(created: seq<string>)
    requires forall i :: 0 <= i < |created| ==> !IsArrayIndex(created[i])
    ensures ObjectKeys(created) == created
  {
    KeysWhereOfNone(created);
  }

  lemma {:induction false} KeysWhereOfNone(ks: seq<string>)
    requires forall i :: 0 <= i < |ks| ==> !IsArrayIndex(ks[i])
    ensures KeysWhere(ks, true) == [] && KeysWhere(ks, false) == ks
  {
    if ks != [] {
      var n := |ks| - 1;
      KeysWhereOfNone(ks[..n]);
      assert ks == ks[..n] + [ks[n]];
    }
  }

  /** `keys[k] = 1` on a plain object whose own keys, in creation order, are `keys`: a new key
      goes last, an existing key keeps its place, and `__proto__` creates nothing. */
  function AssignKey(keys: seq<string>, k: string): (r: seq<string>)
    ensures keys <= r
    ensures |r| == |keys| + (if k == ProtoKey || k in keys then 0 else 1)
    ensures forall x :: x in r <==> x in keys || (x == k && k != ProtoKey)
  {
    if k == ProtoKey || k in keys then keys else keys + [k]
  }

  /** The own keys, in creation order, of a plain `{}` after `keys[k] = 1` for each `k` of
      `written` in turn. */
  function OwnKeys(written: seq<string>): (own: seq<string>)
    ensures |own| <= |written|
    ensures ProtoKey !in own
  {
    if written == [] then []
    else
      var n := |written| - 1;
      AssignKey(OwnKeys(written[..n]), written[n])
  }

  /** Index of the first occurrence of `x` in `s`. */
  ghost function FirstIndex(s: seq<string>, x: string): (i: nat)
    requires x in s
    ensures i < |s| && s[i] == x && x !in s[..i]
  {
    var n := |s| - 1;
    assert s == s[..n] + [s[n]];
    if x in s[..n] then
      var i := FirstIndex(s[..n], x);
      assert s[..n][..i] == s[..i];
      i
    else n
  }

  /** Every element of `s` occurs in `written`, and `s` lists them in the order of their first
      occurrence there. */
  ghost predicate InFirstSeenOrder(s: seq<string>, written: seq<string>)
  {
    && (forall i :: 0 <= i < |s| ==> s[i] in written)
    && (forall i, j :: 0 <= i < j < |s| ==> FirstIndex(written, s[i]) < FirstIndex(written, s[j]))
  }

  lemma {:induction false} FirstIndexExtend(prev: seq<string>, k: string, x: string)
    requires x in prev
    ensures FirstIndex(prev + [k], x) == FirstIndex(prev, x)
  {
    assert (prev + [k])[..|prev|] == prev;
  }

  /** After the assignments, the object has one own key per distinct written key other than
      `__proto__`. */
  lemma {:induction false} OwnKeysCount(written: seq<string>)
    ensures forall x :: multiset(OwnKeys(written))[x] == if x in written && x != ProtoKey then 1 else 0
  {
    if written != [] {
      var n := |written| - 1;
      OwnKeysCount(written[..n]);
      assert written == written[..n] + [written[n]];
    }
  }

  /** The own keys follow the order in which the keys were first written. */
  lemma {:induction false} OwnKeysOrder(written: seq<string>)
    ensures InFirstSeenOrder(OwnKeys(written), written)
  {
    if written != [] {
      var n := |written| - 1;
      var prev := written[..n];
      var k := written[n];
      assert written == prev + [k];
      OwnKeysOrder(prev);
      OwnKeysCount(prev);
      var before := OwnKeys(prev);
      forall i | 0 <= i < |before|
        ensures before[i] in prev && FirstIndex(written, before[i]) == FirstIndex(prev, before[i])
      {
        FirstIndexExtend(prev, k, before[i]);
      }
      if k != ProtoKey && k !in before {
        assert multiset(before)[k] == 0;
        assert k !in prev;
        assert FirstIndex(written, k) == n;
        var after := before + [k];
        forall i, j | 0 <= i < j < |after|
          ensures FirstIndex(written, after[i]) < FirstIndex(written, after[j])
        {
          if j == |before| {
            assert FirstIndex(prev, before[i]) < n;
          }
        }
      }
    }
  }

  /** Keys first written before a bound stay so after dropping the keys of one kind. */
  lemma {:induction false} KeysWhereBound(ks: seq<string>, written: seq<string>, index: bool, bound: nat)
    requires forall i :: 0 <= i < |ks| ==> ks[i] in written && FirstIndex(written, ks[i]) < bound
    ensures forall i :: 0 <= i < |KeysWhere(ks, index)| ==>
              KeysWhere(ks, index)[i] in written && FirstIndex(written, KeysWhere(ks, index)[i]) < bound
  {
    if ks != [] {
      var n := |ks| - 1;
      var prev := ks[..n];
      forall i | 0 <= i < n ensures prev[i] in written && FirstIndex(written, prev[i]) < bound {
        assert prev[i] == ks[i];
      }
      KeysWhereBound(prev, written, index, bound);
    }
  }

  /** Order is kept by dropping the keys of one kind. */
  lemma {:induction false} KeysWhereKeepsOrder(s: seq<string>, written: seq<string>, index: bool)
    requires InFirstSeenOrder(s, written)
    ensures InFirstSeenOrder(KeysWhere(s, index), written)
  {
    if s != [] {
      var n := |s| - 1;
      var prev, last := s[..n], s[n];
      assert InFirstSeenOrder(prev, written) by {
        assert forall i :: 0 <= i < n ==> prev[i] == s[i];
      }
      KeysWhereKeepsOrder(prev, written, index);
      if IsArrayIndex(last) == index {
        var kept := KeysWhere(prev, index);
        var bound := FirstIndex(written, last);
        forall i | 0 <= i < n ensures prev[i] in written && FirstIndex(written, prev[i]) < bound {
          assert prev[i] == s[i];
        }
        KeysWhereBound(prev, written, index, bound);
        var out := kept + [last];
        assert KeysWhere(s, index) == out;
        forall i, j | 0 <= i < j < |out|
          ensures FirstIndex(written, out[i]) < FirstIndex(written, out[j])
        {
          if j < |kept| {
            assert out[i] == kept[i] && out[j] == kept[j];
          }
        }
      }
    }
  }

  /** What `Object.keys` lists after assigning every key of `written` to a plain `{}`: each
      distinct key other than `__proto__` exactly once; the array indices first, ascending;
      then the other keys in the order they were first written. */
  lemma {:induction false} ListedKeys(written: seq<string>)
    ensures var listed := ObjectKeys(OwnKeys(written));
            var n := |KeysWhere(OwnKeys(written), true)|;
            && (forall x :: multiset(listed)[x] == if x in written && x != ProtoKey then 1 else 0)
            && n <= |listed|
            && (forall i :: 0 <= i < n ==> IsArrayIndex(listed[i]))
            && Ascending(listed[..n])
            && (forall i :: n <= i < |listed| ==> !IsArrayIndex(listed[i]))
            && InFirstSeenOrder(listed[n..], written)
  {
    var own := OwnKeys(written);
    OwnKeysCount(written);
    OwnKeysOrder(written);
    ObjectKeysLayout(own);
    KeysWhereKeepsOrder(own, written, false);
  }
}
