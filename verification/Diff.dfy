/** Comparing two flattened trees: `FindDiffBetweenNodes` of `mapnode/node.go` and the
    post-processing of its result in `mapnode/diff.go`. */
module Diff {
  import opened Text
  import opened Tree

  type Flat = map<string, Scalar>

  datatype Difference = Difference(key: string, before: Option<Scalar>, after: Option<Scalar>)

  predicate SameType(a: Scalar, b: Scalar) { a.Str? == b.Str? && a.Num? == b.Num? }

  function Lookup(m: Flat, k: string): Option<Scalar> { if k in m then Some(m[k]) else None }

  predicate Differs(m1: Flat, m2: Flat, k: string) { Lookup(m1, k) != Lookup(m2, k) }

  /** Both sides have the key, with values of different types. */
  predicate TypeDiffers(m1: Flat, m2: Flat, k: string) { k in m1 && k in m2 && !SameType(m1[k], m2[k]) }

  /** What the comparison is given: how a value prints in a type difference, and whether the
      search expression built from the first key matches the second key. */
  datatype Printer = Printer(show: Scalar -> string, twin: (string, string) -> bool)

  function ItemAt(pr: Printer, m1: Flat, m2: Flat, k: string): Difference {
    if TypeDiffers(m1, m2, k) then Difference(k, Some(Str(pr.show(m1[k]))), Some(Str(pr.show(m2[k]))))
    else Difference(k, Lookup(m1, k), Lookup(m2, k))
  }

  /** The regular expression \.\d+\. : a numeric segment with a segment on either side. */
  predicate NumericMiddle(key: string) {
    exists i, j :: 0 <= i < j < |key| && key[i] == '.' && key[j] == '.' && i + 1 < j && AllDigits(key[i + 1..j])
  }

  /** A number between dots, with something in front of the first and after the second. */
  predicate NumberBetween(key: string, a: string, d: string, b: string) {
    key == a + "." + d + "." + b && d != "" && AllDigits(d)
  }

  lemma BetweenIsMiddle(key: string, a: string, d: string, b: string)
    requires NumberBetween(key, a, d, b)
    ensures NumericMiddle(key)
  {
    hide AllDigits;
    var i, j := |a|, |a| + 1 + |d|;
    assert key == a + ("." + (d + ("." + b)));
    assert key[i] == '.' && key[j] == '.' && key[i + 1..j] == d;
  }

  lemma MiddleIsBetween(key: string) returns (a: string, d: string, b: string)
    requires NumericMiddle(key)
    ensures NumberBetween(key, a, d, b)
  {
    hide AllDigits;
    var i, j :| 0 <= i < j < |key| && key[i] == '.' && key[j] == '.' && i + 1 < j && AllDigits(key[i + 1..j]);
    a, d, b := key[..i], key[i + 1..j], key[j + 1..];
    assert key == a + "." + d + "." + b;
  }

  /** That is what the expression finds. */
  lemma NumericMiddleExactly(key: string)
    ensures NumericMiddle(key) <==> exists a, d, b :: NumberBetween(key, a, d, b)
  {
    hide NumberBetween;
    if NumericMiddle(key) { var a, d, b := MiddleIsBetween(key); }
    if a, d, b :| NumberBetween(key, a, d, b) { BetweenIsMiddle(key, a, d, b); }
  }

  /** Two scalars have one type when both are strings, both numbers, or both booleans. */
  lemma SameTypeExactly(a: Scalar, b: Scalar)
    ensures SameType(a, b) <==> (a.Str? && b.Str?) || (a.Num? && b.Num?) || (a.Bool? && b.Bool?)
  {}

  /** A deletion and a creation of one value at keys that differ in list indices only. */
  predicate CancelledBy(pr: Printer, m1: Flat, m2: Flat, k: string, k2: string) {
    && pr.twin(k, k2)
    && ((Lookup(m2, k).None? && Lookup(m1, k2).None? && Lookup(m1, k) == Lookup(m2, k2)) ||
        (Lookup(m1, k).None? && Lookup(m2, k2).None? && Lookup(m2, k) == Lookup(m1, k2)))
  }

  predicate Cancelled(pr: Printer, m1: Flat, m2: Flat, k: string) {
    NumericMiddle(k) && Differs(m1, m2, k) && exists k2 :: k2 in m1.Keys + m2.Keys && CancelledBy(pr, m1, m2, k, k2)
  }

  predicate Reported(pr: Printer, m1: Flat, m2: Flat, k: string) { Differs(m1, m2, k) && !Cancelled(pr, m1, m2, k) }

  predicate Ascending(items: seq<Difference>) {
    forall i, j :: 0 <= i < j < |items| ==> Less(items[i].key, items[j].key)
  }

  /** The whole meaning of a comparison: nothing when the maps are equal, otherwise the
      reported keys, once each, in ascending order. */
  ghost predicate IsDiff(pr: Printer, m1: Flat, m2: Flat, r: Option<seq<Difference>>) {
    && (r.None? <==> m1 == m2)
    && (r.Some? ==> Ascending(r.value) && ExactlyReported(pr, m1, m2, r.value))
  }

  ghost predicate ExactlyReported(pr: Printer, m1: Flat, m2: Flat, items: seq<Difference>) {
    && (forall d :: d in items ==> Reported(pr, m1, m2, d.key) && d == ItemAt(pr, m1, m2, d.key))
    && (forall k :: Reported(pr, m1, m2, k) ==> ItemAt(pr, m1, m2, k) in items)
  }

  // ---- The result is a function of the two maps ----

  lemma AscendingTail(a: seq<Difference>)
    requires a != [] && Ascending(a)
    ensures Ascending(a[1..]) && a[0] !in a[1..]
    ensures forall d :: d in a ==> d == a[0] || (d in a[1..] && Less(a[0].key, d.key))
  {
    hide Less;
    LessTotal(a[0].key, a[0].key);
    assert forall i :: 0 <= i < |a[1..]| ==> a[1..][i] == a[i + 1];
    assert forall d :: d in a[1..] ==> Less(a[0].key, d.key);
    assert a == [a[0]] + a[1..];
  }

  lemma {:induction false} AscendingUnique(a: seq<Difference>, b: seq<Difference>)
    requires Ascending(a) && Ascending(b) && forall d :: d in a <==> d in b
    ensures a == b
  {
    hide Less, Ascending;
    assert (a != [] ==> a[0] in b) && (b != [] ==> b[0] in a);
    if a != [] {
      AscendingTail(a);
      AscendingTail(b);
      LessTotal(a[0].key, b[0].key);
      assert b[0] in a;
      assert a[0] == b[0];
      forall d ensures d in a[1..] <==> d in b[1..] {
        assert d in a[1..] ==> d in a;
        assert d in b[1..] ==> d in b;
      }
      AscendingUnique(a[1..], b[1..]);
      assert a == [a[0]] + a[1..] && b == [b[0]] + b[1..];
    }
  }

  lemma DiffUnique(pr: Printer, m1: Flat, m2: Flat, r: Option<seq<Difference>>, r': Option<seq<Difference>>)
    requires IsDiff(pr, m1, m2, r) && IsDiff(pr, m1, m2, r')
    ensures r == r'
  {
    hide Ascending, Reported, ItemAt;
    if r.Some? {
      forall d ensures d in r.value <==> d in r'.value {}
      AscendingUnique(r.value, r'.value);
    }
  }

  // ---- Swapping the two sides ----

  function SwapItem(d: Difference): Difference { Difference(d.key, d.after, d.before) }

  function Swapped(items: seq<Difference>): (r: seq<Difference>)
    ensures |r| == |items| && forall i :: 0 <= i < |r| ==> r[i] == SwapItem(items[i])
  {
    seq(|items|, i requires 0 <= i < |items| => SwapItem(items[i]))
  }

  lemma ReportedSymmetric(pr: Printer, m1: Flat, m2: Flat, k: string)
    ensures Reported(pr, m1, m2, k) <==> Reported(pr, m2, m1, k)
    ensures ItemAt(pr, m2, m1, k) == SwapItem(ItemAt(pr, m1, m2, k))
  {
    hide NumericMiddle;
    assert m1.Keys + m2.Keys == m2.Keys + m1.Keys;
    assert forall k2 :: CancelledBy(pr, m1, m2, k, k2) <==> CancelledBy(pr, m2, m1, k, k2);
  }

  /** Comparing in the other direction reports the same keys with before and after swapped. */
  lemma DiffSymmetric(pr: Printer, m1: Flat, m2: Flat, r: Option<seq<Difference>>)
    requires IsDiff(pr, m1, m2, r)
    ensures IsDiff(pr, m2, m1, if r.None? then None else Some(Swapped(r.value)))
  {
    hide Reported, ItemAt, Less;
    if r.Some? {
      var items := Swapped(r.value);
      forall d | d in items ensures Reported(pr, m2, m1, d.key) && d == ItemAt(pr, m2, m1, d.key) {
        var i :| 0 <= i < |items| && items[i] == d;
        assert r.value[i] in r.value;
        ReportedSymmetric(pr, m1, m2, d.key);
      }
      forall k | Reported(pr, m2, m1, k) ensures ItemAt(pr, m2, m1, k) in items {
        ReportedSymmetric(pr, m1, m2, k);
        var i :| 0 <= i < |r.value| && r.value[i] == ItemAt(pr, m1, m2, k);
        assert items[i] == ItemAt(pr, m2, m1, k);
      }
    }
  }

  /** Without numeric middle segments every differing key is reported. */
  lemma DiffWithoutLists(pr: Printer, m1: Flat, m2: Flat, items: seq<Difference>)
    requires IsDiff(pr, m1, m2, Some(items))
    requires forall k :: k in m1.Keys + m2.Keys ==> !NumericMiddle(k)
    ensures forall k :: Differs(m1, m2, k) <==> exists i :: 0 <= i < |items| && items[i].key == k
  {
    hide NumericMiddle, Ascending;
    forall k | Differs(m1, m2, k) ensures exists i :: 0 <= i < |items| && items[i].key == k {
      assert Reported(pr, m1, m2, k);
      var i :| 0 <= i < |items| && items[i] == ItemAt(pr, m1, m2, k);
    }
  }

  // ---- The code ----

  /** One difference per key, all of them among `ks`. */
  ghost predicate OncePerKey(items: seq<Difference>) {
    forall i, j :: 0 <= i < j < |items| ==> items[i].key != items[j].key
  }

  /** `extractComparableMap`: keys whose values have different types become type differences
      and leave both maps. */
  method ExtractComparableMap(pr: Printer, m1: Flat, m2: Flat)
    returns (nm1: Flat, nm2: Flat, typeDiffs: seq<Difference>)
    ensures forall k :: Lookup(nm1, k) == if TypeDiffers(m1, m2, k) then None else Lookup(m1, k)
    ensures forall k :: Lookup(nm2, k) == if TypeDiffers(m1, m2, k) then None else Lookup(m2, k)
    ensures OncePerKey(typeDiffs)
    ensures forall d :: d in typeDiffs ==> TypeDiffers(m1, m2, d.key) && d == ItemAt(pr, m1, m2, d.key)
    ensures forall k :: TypeDiffers(m1, m2, k) ==> ItemAt(pr, m1, m2, k) in typeDiffs
  {
    nm1, nm2, typeDiffs := map[], map[], [];
    var todo := m1.Keys + m2.Keys;
    while todo != {}
      invariant forall k :: Lookup(nm1, k) == if k in todo || TypeDiffers(m1, m2, k) then None else Lookup(m1, k)
      invariant forall k :: Lookup(nm2, k) == if k in todo || TypeDiffers(m1, m2, k) then None else Lookup(m2, k)
      invariant OncePerKey(typeDiffs)
      invariant forall d :: d in typeDiffs ==>
                  d.key !in todo && TypeDiffers(m1, m2, d.key) && d == ItemAt(pr, m1, m2, d.key)
      invariant forall k :: TypeDiffers(m1, m2, k) && k !in todo ==> ItemAt(pr, m1, m2, k) in typeDiffs
      decreases todo
    {
      var k :| k in todo;
      todo := todo - {k};
      if k in m1 && k in m2 && !SameType(m1[k], m2[k]) {
        typeDiffs := typeDiffs + [Difference(k, Some(Str(pr.show(m1[k]))), Some(Str(pr.show(m2[k]))))];
      } else {
        if k in m1 { nm1 := nm1[k := m1[k]]; }
        if k in m2 { nm2 := nm2[k := m2[k]]; }
      }
    }
  }

  /** The map comparison of the r3labs/diff library: one change per differing key, in no
      particular order. */
  method ChangeLog(m1: Flat, m2: Flat) returns (items: seq<Difference>)
    ensures OncePerKey(items)
    ensures forall d :: d in items ==>
              Differs(m1, m2, d.key) && d == Difference(d.key, Lookup(m1, d.key), Lookup(m2, d.key))
    ensures forall k :: Differs(m1, m2, k) ==> Difference(k, Lookup(m1, k), Lookup(m2, k)) in items
  {
    items := [];
    var todo := m1.Keys + m2.Keys;
    while todo != {}
      invariant todo <= m1.Keys + m2.Keys && OncePerKey(items)
      invariant forall d :: d in items ==>
                  d.key !in todo && Differs(m1, m2, d.key) &&
                      d == Difference(d.key, Lookup(m1, d.key), Lookup(m2, d.key))
      invariant forall k :: Differs(m1, m2, k) && k !in todo ==> Difference(k, Lookup(m1, k), Lookup(m2, k)) in items
      decreases todo
    {
      var k :| k in todo;
      todo := todo - {k};
      if Differs(m1, m2, k) { items := items + [Difference(k, Lookup(m1, k), Lookup(m2, k))]; }
    }
  }

  predicate CancelsItem(pr: Printer, item: Difference, other: Difference) {
    && pr.twin(item.key, other.key)
    && ((item.before == other.after && other.before.None? && item.after.None?) ||
        (item.after == other.before && other.after.None? && item.before.None?))
  }

  predicate CancelledIn(pr: Printer, items: seq<Difference>, item: Difference) {
    && NumericMiddle(item.key)
    && (item.before.None? || item.after.None?)
    && exists j :: 0 <= j < |items| && CancelsItem(pr, item, items[j])
  }

  /** `removeKeyDiffsInListNode`: drops, in place, the items that only moved inside a list. */
  method RemoveKeyDiffsInListNode(pr: Printer, items: seq<Difference>) returns (items2: seq<Difference>)
    ensures items2 == Filter(items, d => !CancelledIn(pr, items, d))
  {
    hide NumericMiddle;
    var f := d => !CancelledIn(pr, items, d);
    items2 := [];
    for i := 0 to |items|
      invariant items2 == Filter(items[..i], f)
    {
      assert items[..i + 1][..i] == items[..i];
      var item, addThis := items[i], true;
      if NumericMiddle(item.key) && (item.before.None? || item.after.None?) {
        var j := 0;
        while j < |items| && addThis
          invariant 0 <= j <= |items|
          invariant !addThis <==> exists l :: 0 <= l < j && CancelsItem(pr, item, items[l])
        {
          if CancelsItem(pr, item, items[j]) { addThis := false; }
          j := j + 1;
        }
      }
      if addThis { items2 := items2 + [item]; }
    }
    assert items[..|items|] == items;
  }

  lemma {:induction false} FilterOnce(items: seq<Difference>, f: Difference -> bool)
    requires OncePerKey(items)
    ensures OncePerKey(Filter(items, f))
  {
    if items != [] {
      var front, last := items[..|items| - 1], items[|items| - 1];
      FilterOnce(front, f);
      forall d | d in Filter(front, f) ensures d.key != last.key {
        FilterMember(front, f, d);
        var i :| 0 <= i < |front| && front[i] == d;
      }
    }
  }

  /** `sort.SliceStable` by key. */
  function Insert(d: Difference, items: seq<Difference>): seq<Difference> {
    if items == [] || Less(d.key, items[0].key) then [d] + items else [items[0]] + Insert(d, items[1..])
  }

  function SortByKey(items: seq<Difference>): seq<Difference> {
    if items == [] then [] else Insert(items[|items| - 1], SortByKey(items[..|items| - 1]))
  }

  lemma {:induction false} InsertSorts(d: Difference, items: seq<Difference>)
    requires Ascending(items) && forall e :: e in items ==> e.key != d.key
    ensures Ascending(Insert(d, items))
    ensures forall e :: e in Insert(d, items) <==> e == d || e in items
  {
    hide Less;
    if items != [] {
      assert items[0] in items;
      LessTotal(d.key, items[0].key);
      if Less(d.key, items[0].key) {
        forall i | 1 <= i < |items| ensures Less(d.key, items[i].key) {
          LessTransitive(d.key, items[0].key, items[i].key);
        }
      } else {
        AscendingTail(items);
        assert forall e :: e in items[1..] ==> e in items;
        InsertSorts(d, items[1..]);
        var rest := Insert(d, items[1..]);
        forall i | 0 <= i < |rest| ensures Less(items[0].key, rest[i].key) { assert rest[i] in rest; }
      }
    }
  }

  lemma {:induction false} SortSorts(items: seq<Difference>)
    requires OncePerKey(items)
    ensures Ascending(SortByKey(items)) && forall e :: e in SortByKey(items) <==> e in items
  {
    hide Insert, Ascending;
    if items == [] {
      EmptyAscending();
    } else {
      var front, last := items[..|items| - 1], items[|items| - 1];
      SortSorts(front);
      assert items == front + [last];
      forall e | e in SortByKey(front) ensures e.key != last.key {
        var i :| 0 <= i < |front| && front[i] == e;
      }
      InsertSorts(last, SortByKey(front));
    }
  }

  lemma EmptyAscending() ensures Ascending([]) {}

  lemma MapsDiffer(m1: Flat, m2: Flat)
    ensures m1 != m2 ==> exists k :: Differs(m1, m2, k)
  {
    if forall k :: !Differs(m1, m2, k) {
      forall k | k in m1 ensures k in m2 && m1[k] == m2[k] { assert !Differs(m1, m2, k); }
      forall k | k in m2 ensures k in m1 { assert !Differs(m1, m2, k); }
      assert m1 == m2;
    }
  }

  /** A change survives the list cancellation exactly when its key is reported. */
  lemma CancellationMeaning(pr: Printer, m1: Flat, m2: Flat, nm1: Flat, nm2: Flat, changes: seq<Difference>, k: string)
    requires forall k :: Lookup(nm1, k) == if TypeDiffers(m1, m2, k) then None else Lookup(m1, k)
    requires forall k :: Lookup(nm2, k) == if TypeDiffers(m1, m2, k) then None else Lookup(m2, k)
    requires forall d :: d in changes ==>
               Differs(nm1, nm2, d.key) && d == Difference(d.key, Lookup(nm1, d.key), Lookup(nm2, d.key))
    requires forall k :: Differs(nm1, nm2, k) ==> Difference(k, Lookup(nm1, k), Lookup(nm2, k)) in changes
    requires Differs(m1, m2, k) && !TypeDiffers(m1, m2, k)
    ensures CancelledIn(pr, changes, ItemAt(pr, m1, m2, k)) <==> Cancelled(pr, m1, m2, k)
  {
    hide NumericMiddle;
    var item := ItemAt(pr, m1, m2, k);
    if CancelledIn(pr, changes, item) {
      var j :| 0 <= j < |changes| && CancelsItem(pr, item, changes[j]);
      assert changes[j] in changes;
      assert CancelledBy(pr, m1, m2, k, changes[j].key);
    }
    if Cancelled(pr, m1, m2, k) {
      var k2 :| k2 in m1.Keys + m2.Keys && CancelledBy(pr, m1, m2, k, k2);
      assert Differs(nm1, nm2, k2);
      var j :| 0 <= j < |changes| && changes[j] == Difference(k2, Lookup(nm1, k2), Lookup(nm2, k2));
      assert CancelsItem(pr, item, changes[j]);
    }
  }

  lemma Uncancelled(pr: Printer, items: seq<Difference>)
    requires OncePerKey(items)
    ensures var kept := Filter(items, d => !CancelledIn(pr, items, d));
            OncePerKey(kept) && forall d :: d in kept <==> d in items && !CancelledIn(pr, items, d)
  {
    hide CancelledIn;
    var f := d => !CancelledIn(pr, items, d);
    FilterOnce(items, f);
    forall d ensures d in Filter(items, f) <==> d in items && f(d) { FilterMember(items, f, d); }
  }

  method FindDiff(pr: Printer, m1: Flat, m2: Flat) returns (r: Option<seq<Difference>>)
    ensures IsDiff(pr, m1, m2, r)
  {
    hide SortByKey, Ascending, NumericMiddle, CancelledIn, Cancelled, Filter;
    if m1 == m2 { return None; }
    var nm1, nm2, typeDiffs := ExtractComparableMap(pr, m1, m2);
    var changelog := ChangeLog(nm1, nm2);
    if |changelog| == 0 && |typeDiffs| == 0 {
      MapsDiffer(m1, m2);
      assert false;
    }
    var changes := RemoveKeyDiffsInListNode(pr, changelog);
    Uncancelled(pr, changelog);
    var items := changes + typeDiffs;
    forall k | Differs(m1, m2, k) && !TypeDiffers(m1, m2, k)
      ensures CancelledIn(pr, changelog, ItemAt(pr, m1, m2, k)) <==> Cancelled(pr, m1, m2, k)
    {
      CancellationMeaning(pr, m1, m2, nm1, nm2, changelog, k);
    }
    forall k | TypeDiffers(m1, m2, k) ensures !Cancelled(pr, m1, m2, k) { TypeDiffsStay(pr, m1, m2, k); }
    assert ExactlyReported(pr, m1, m2, items);
    SortSorts(items);
    r := Some(SortByKey(items));
  }

  lemma TypeDiffsStay(pr: Printer, m1: Flat, m2: Flat, k: string)
    requires TypeDiffers(m1, m2, k)
    ensures !Cancelled(pr, m1, m2, k)
  {}
}
