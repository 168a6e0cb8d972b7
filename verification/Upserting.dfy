// A keyed upsert over the rows of a table: the index of the existing rows is
// taken once, before the loop, and is not extended when a row is inserted.
module Upserting {
  import opened Wrappers

  datatype Table<!R(!new), !B(!new), !K(==,!new)> = Table(
    rowKey: R -> Option<K>,
    mapped: B -> bool,        // false: the item is skipped
    itemKey: B -> Option<K>,  // None: no row can be looked up
    create: B -> R,
    update: (R, B) -> R)
  {
    ghost predicate Lawful() {
      && (forall b :: mapped(b) ==> rowKey(create(b)) == itemKey(b))
      && (forall r, b :: rowKey(update(r, b)) == rowKey(r))
    }
  }

  // Rows keyed alike: the later one is indexed.
  function Index<R(!new), B(!new), K(!new)>(t: Table<R, B, K>, rows: seq<R>): (index: map<K, nat>)
    ensures forall k :: k in index ==> index[k] < |rows| && t.rowKey(rows[index[k]]) == Some(k)
    ensures forall i :: 0 <= i < |rows| && t.rowKey(rows[i]).Some? ==>
              t.rowKey(rows[i]).value in index && i <= index[t.rowKey(rows[i]).value]
  {
    if rows == [] then map[]
    else
      var last := |rows| - 1;
      var before := Index(t, rows[..last]);
      if t.rowKey(rows[last]).Some? then before[t.rowKey(rows[last]).value := last] else before
  }

  ghost predicate KeysUnique<R(!new), B(!new), K(!new)>(t: Table<R, B, K>, rows: seq<R>) {
    forall i, j :: 0 <= i < j < |rows| && t.rowKey(rows[i]).Some? ==> t.rowKey(rows[i]) != t.rowKey(rows[j])
  }

  predicate IsNew<R(!new), B(!new), K(!new)>(t: Table<R, B, K>, index: map<K, nat>, b: B) {
    t.mapped(b) && !(t.itemKey(b).Some? && t.itemKey(b).value in index)
  }

  predicate IsFor<R(!new), B(!new), K(!new)>(t: Table<R, B, K>, b: B, k: K) {
    t.mapped(b) && t.itemKey(b) == Some(k)
  }

  // The rows the loop inserts, in order.
  function Insertions<R(!new), B(!new), K(!new)>(t: Table<R, B, K>, index: map<K, nat>, items: seq<B>): seq<R> {
    if items == [] then []
    else
      var before := Insertions(t, index, items[..|items| - 1]);
      if IsNew(t, index, items[|items| - 1]) then before + [t.create(items[|items| - 1])] else before
  }

  // What the items for key k make of a row.
  function Updates<R(!new), B(!new), K(!new)>(t: Table<R, B, K>, r: R, items: seq<B>, k: K): R {
    if items == [] then r
    else
      var before := Updates(t, r, items[..|items| - 1], k);
      if IsFor(t, items[|items| - 1], k) then t.update(before, items[|items| - 1]) else before
  }

  function Updated<R(!new), B(!new), K(!new)>(t: Table<R, B, K>, rows: seq<R>, index: map<K, nat>, items: seq<B>,
                     i: nat): R
    requires i < |rows|
  {
    var key := t.rowKey(rows[i]);
    if key.Some? && key.value in index && index[key.value] == i then Updates(t, rows[i], items, key.value) else rows[i]
  }

  function Upserted<R(!new), B(!new), K(!new)>(t: Table<R, B, K>, rows: seq<R>, index: map<K, nat>,
                      items: seq<B>): seq<R> {
    seq(|rows|, i requires 0 <= i < |rows| => Updated(t, rows, index, items, i)) + Insertions(t, index, items)
  }

  lemma UpdatesStep<R(!new), B(!new), K(!new)>(t: Table<R, B, K>, r: R, items: seq<B>, n: nat, k: K)
    requires n < |items|
    ensures Updates(t, r, items[..n + 1], k)
         == if IsFor(t, items[n], k) then t.update(Updates(t, r, items[..n], k), items[n])
            else Updates(t, r, items[..n], k)
  {
    assert items[..n + 1][..n] == items[..n];
  }

  lemma InsertionsStep<R(!new), B(!new), K(!new)>(t: Table<R, B, K>, index: map<K, nat>, items: seq<B>, n: nat)
    requires n < |items|
    ensures Insertions(t, index, items[..n + 1])
         == if IsNew(t, index, items[n]) then Insertions(t, index, items[..n]) + [t.create(items[n])]
            else Insertions(t, index, items[..n])
  {
    assert items[..n + 1][..n] == items[..n];
  }

  lemma UpdatedStep<R(!new), B(!new), K(!new)>(t: Table<R, B, K>, rows: seq<R>, index: map<K, nat>, items: seq<B>,
                      n: nat, i: nat)
    requires n < |items| && i < |rows| && index == Index(t, rows)
    ensures var b := items[n];
            Updated(t, rows, index, items[..n + 1], i)
            == if t.mapped(b) && t.itemKey(b).Some? && t.itemKey(b).value in index && index[t.itemKey(b).value] == i
               then t.update(Updated(t, rows, index, items[..n], i), b) else Updated(t, rows, index, items[..n], i)
  {
    var key := t.rowKey(rows[i]);
    if key.Some? {
      UpdatesStep(t, rows[i], items, n, key.value);
    }
  }

  // One more item changes one indexed row, adds one row, or changes nothing.
  lemma UpsertStep<R(!new), B(!new), K(!new)>(t: Table<R, B, K>, rows: seq<R>, index: map<K, nat>, items: seq<B>,
                     n: nat)
    requires n < |items| && index == Index(t, rows)
    ensures var b := items[n];
            var before, after := Upserted(t, rows, index, items[..n]), Upserted(t, rows, index, items[..n + 1]);
            after == if !t.mapped(b) then before
                     else if IsNew(t, index, b) then before + [t.create(b)]
                     else before[index[t.itemKey(b).value] := t.update(before[index[t.itemKey(b).value]], b)]
    ensures |rows| <= |Upserted(t, rows, index, items[..n])|
  {
    InsertionsStep(t, index, items, n);
    forall i | 0 <= i < |rows|
      ensures var b := items[n];
              Updated(t, rows, index, items[..n + 1], i)
              == if t.mapped(b) && t.itemKey(b).Some? && t.itemKey(b).value in index && index[t.itemKey(b).value] == i
                 then t.update(Updated(t, rows, index, items[..n], i), b) else Updated(t, rows, index, items[..n], i)
    {
      UpdatedStep(t, rows, index, items, n, i);
    }
    hide Updated, Insertions, Index;
  }

  lemma UpsertNothing<R(!new), B(!new), K(!new)>(t: Table<R, B, K>, rows: seq<R>, index: map<K, nat>)
    ensures Upserted(t, rows, index, []) == rows
  {
  }

  // The key of a row never changes.
  lemma {:induction false} UpdatesKeepKey<R(!new), B(!new), K(!new)>(t: Table<R, B, K>, r: R, items: seq<B>, k: K)
    requires t.Lawful()
    ensures t.rowKey(Updates(t, r, items, k)) == t.rowKey(r)
  {
    if items != [] {
      UpdatesKeepKey(t, r, items[..|items| - 1], k);
    }
  }

  lemma UpsertedAt<R(!new), B(!new), K(!new)>(t: Table<R, B, K>, rows: seq<R>, items: seq<B>, i: nat)
    requires t.Lawful() && i < |rows|
    ensures var rows' := Upserted(t, rows, Index(t, rows), items);
            i < |rows'| && t.rowKey(rows'[i]) == t.rowKey(rows[i])
            && (KeysUnique(t, rows) && t.rowKey(rows[i]).Some? ==>
                  rows'[i] == Updates(t, rows[i], items, t.rowKey(rows[i]).value))
            && (t.rowKey(rows[i]).None? ==> rows'[i] == rows[i])
  {
    if t.rowKey(rows[i]).Some? {
      UpdatesKeepKey(t, rows[i], items, t.rowKey(rows[i]).value);
    }
  }

  ghost predicate CreatedFrom<R(!new), B(!new), K(!new)>(t: Table<R, B, K>, index: map<K, nat>, items: seq<B>, r: R) {
    exists m :: 0 <= m < |items| && IsNew(t, index, items[m]) && r == t.create(items[m])
  }

  lemma CreatedFromMore<R(!new), B(!new), K(!new)>(t: Table<R, B, K>, index: map<K, nat>, rest: seq<B>,
                          items: seq<B>, r: R)
    requires items != [] && rest == items[..|items| - 1] && CreatedFrom(t, index, rest, r)
    ensures CreatedFrom(t, index, items, r)
  {
  }

  // Every inserted row is one new item's row, and every new item has its row.
  lemma {:induction false} InsertedFrom<R(!new), B(!new), K(!new)>(t: Table<R, B, K>, index: map<K, nat>, items: seq<B>)
    ensures forall j :: 0 <= j < |Insertions(t, index, items)| ==>
              CreatedFrom(t, index, items, Insertions(t, index, items)[j])
    ensures forall m :: 0 <= m < |items| && IsNew(t, index, items[m]) ==>
              t.create(items[m]) in Insertions(t, index, items)
  {
    if items != [] {
      var n := |items| - 1;
      var rest := items[..n];
      InsertedFrom(t, index, rest);
      forall j | 0 <= j < |Insertions(t, index, items)|
        ensures CreatedFrom(t, index, items, Insertions(t, index, items)[j])
      {
        if j < |Insertions(t, index, rest)| {
          assert CreatedFrom(t, index, rest, Insertions(t, index, rest)[j]);
          CreatedFromMore(t, index, rest, items, Insertions(t, index, rest)[j]);
        }
      }
      forall m | 0 <= m < |items| && IsNew(t, index, items[m])
        ensures t.create(items[m]) in Insertions(t, index, items)
      {
        if m < n {
          assert rest[m] == items[m];
        }
      }
    }
  }

  // No two new items carry the same key.
  ghost predicate NewKeysOnce<R(!new), B(!new), K(!new)>(t: Table<R, B, K>, index: map<K, nat>, items: seq<B>) {
    forall m, n :: 0 <= m < n < |items| && IsNew(t, index, items[m]) && IsNew(t, index, items[n]) ==>
      t.itemKey(items[m]).None? || t.itemKey(items[m]) != t.itemKey(items[n])
  }

  ghost predicate KeyAmong<R(!new), B(!new), K(!new)>(t: Table<R, B, K>, rows: seq<R>, key: Option<K>) {
    key.Some? && exists j :: 0 <= j < |rows| && t.rowKey(rows[j]) == key
  }

  ghost predicate NewKeyAmong<R(!new), B(!new), K(!new)>(t: Table<R, B, K>, index: map<K, nat>, items: seq<B>,
                                key: Option<K>) {
    key.Some? && exists m :: 0 <= m < |items| && IsNew(t, index, items[m]) && t.itemKey(items[m]) == key
  }

  lemma UniqueSnoc<R(!new), B(!new), K(!new)>(t: Table<R, B, K>, rows: seq<R>, r: R)
    ensures KeysUnique(t, rows + [r]) <==> KeysUnique(t, rows) && !KeyAmong(t, rows, t.rowKey(r))
  {
    var more := rows + [r];
    if KeysUnique(t, more) {
      forall j | 0 <= j < |rows| && t.rowKey(rows[j]).Some? ensures t.rowKey(rows[j]) != t.rowKey(r) {
        assert more[j] == rows[j] && more[|rows|] == r;
      }
      forall i, j | 0 <= i < j < |rows| && t.rowKey(rows[i]).Some? ensures t.rowKey(rows[i]) != t.rowKey(rows[j]) {
        assert more[i] == rows[i] && more[j] == rows[j];
      }
    }
  }

  lemma OnceSnoc<R(!new), B(!new), K(!new)>(t: Table<R, B, K>, index: map<K, nat>, rest: seq<B>, b: B)
    ensures NewKeysOnce(t, index, rest + [b])
       <==> NewKeysOnce(t, index, rest) && !(IsNew(t, index, b) && NewKeyAmong(t, index, rest, t.itemKey(b)))
  {
    hide IsNew;
    var items := rest + [b];
    if NewKeysOnce(t, index, items) {
      forall m | 0 <= m < |rest| && IsNew(t, index, rest[m]) && IsNew(t, index, b)
        ensures t.itemKey(rest[m]).None? || t.itemKey(rest[m]) != t.itemKey(b)
      {
        assert items[m] == rest[m] && items[|rest|] == b;
      }
      forall m, n | 0 <= m < n < |rest| && IsNew(t, index, rest[m]) && IsNew(t, index, rest[n])
        ensures t.itemKey(rest[m]).None? || t.itemKey(rest[m]) != t.itemKey(rest[n])
      {
        assert items[m] == rest[m] && items[n] == rest[n];
      }
    }
  }

  lemma SameKeysAmong<R(!new), B(!new), K(!new)>(t: Table<R, B, K>, index: map<K, nat>, items: seq<B>, key: Option<K>)
    requires t.Lawful()
    ensures KeyAmong(t, Insertions(t, index, items), key) <==> NewKeyAmong(t, index, items, key)
  {
    InsertedFrom(t, index, items);
    var rows := Insertions(t, index, items);
    if KeyAmong(t, rows, key) {
      var j :| 0 <= j < |rows| && t.rowKey(rows[j]) == key;
      assert CreatedFrom(t, index, items, rows[j]);
    }
    if NewKeyAmong(t, index, items, key) {
      var m :| 0 <= m < |items| && IsNew(t, index, items[m]) && t.itemKey(items[m]) == key;
      assert t.create(items[m]) in rows;
    }
  }

  lemma {:induction false} InsertionsUnique<R(!new), B(!new), K(!new)>(t: Table<R, B, K>, index: map<K, nat>,
                                              items: seq<B>)
    requires t.Lawful()
    ensures KeysUnique(t, Insertions(t, index, items)) <==> NewKeysOnce(t, index, items)
  {
    if items != [] {
      var n := |items| - 1;
      var rest, b := items[..n], items[n];
      InsertionsUnique(t, index, rest);
      SameKeysAmong(t, index, rest, t.itemKey(b));
      OnceSnoc(t, index, rest, b);
      assert items == rest + [b];
      UniqueSnoc(t, Insertions(t, index, rest), t.create(b));
      hide KeysUnique, NewKeysOnce, KeyAmong, NewKeyAmong;
    }
  }

  lemma SameKeysUnique<R(!new), B(!new), K(!new)>(t: Table<R, B, K>, a: seq<R>, b: seq<R>)
    requires |a| == |b| && KeysUnique(t, a) && forall i :: 0 <= i < |a| ==> t.rowKey(a[i]) == t.rowKey(b[i])
    ensures KeysUnique(t, b)
  {
  }

  // Keys stay unique exactly when no two new items share one.
  lemma UniqueIff<R(!new), B(!new), K(!new)>(t: Table<R, B, K>, rows: seq<R>, items: seq<B>)
    requires t.Lawful() && KeysUnique(t, rows)
    ensures KeysUnique(t, Upserted(t, rows, Index(t, rows), items)) <==> NewKeysOnce(t, Index(t, rows), items)
  {
    var inserted := Insertions(t, Index(t, rows), items);
    var kept := Upserted(t, rows, Index(t, rows), items)[..|rows|];
    InsertionsUnique(t, Index(t, rows), items);
    forall i | 0 <= i < |rows| ensures t.rowKey(kept[i]) == t.rowKey(rows[i]) {
      UpsertedAt(t, rows, items, i);
    }
    forall i, j | 0 <= i < |rows| && 0 <= j < |inserted| && t.rowKey(kept[i]).Some?
      ensures t.rowKey(kept[i]) != t.rowKey(inserted[j])
    {
      InsertedFrom(t, Index(t, rows), items);
      assert CreatedFrom(t, Index(t, rows), items, inserted[j]);
      assert t.rowKey(rows[i]).value in Index(t, rows);
    }
    UniqueConcat(t, kept, inserted);
    assert Upserted(t, rows, Index(t, rows), items) == kept + inserted;
  }

  ghost predicate NoSharedKey<R(!new), B(!new), K(!new)>(t: Table<R, B, K>, a: seq<R>, b: seq<R>) {
    forall i, j :: 0 <= i < |a| && 0 <= j < |b| && t.rowKey(a[i]).Some? ==> t.rowKey(a[i]) != t.rowKey(b[j])
  }

  lemma NoSharedKeyAt<R(!new), B(!new), K(!new)>(t: Table<R, B, K>, rows: seq<R>, n: nat)
    requires n <= |rows|
    requires forall i, j :: 0 <= i < n <= j < |rows| && t.rowKey(rows[i]).Some? ==>
               t.rowKey(rows[i]) != t.rowKey(rows[j])
    ensures NoSharedKey(t, rows[..n], rows[n..])
  {
    forall i, j | 0 <= i < n && 0 <= j < |rows| - n && t.rowKey(rows[..n][i]).Some?
      ensures t.rowKey(rows[..n][i]) != t.rowKey(rows[n..][j])
    {
      assert rows[..n][i] == rows[i] && rows[n..][j] == rows[n + j];
    }
  }

  lemma UniqueConcat<R(!new), B(!new), K(!new)>(t: Table<R, B, K>, a: seq<R>, b: seq<R>)
    requires KeysUnique(t, a)
    ensures KeysUnique(t, a + b) <==> KeysUnique(t, b) && NoSharedKey(t, a, b)
  {
    var c := a + b;
    assert forall j :: 0 <= j < |b| ==> c[|a| + j] == b[j];
    if KeysUnique(t, c) {
      forall i, j | 0 <= i < j < |b| && t.rowKey(b[i]).Some? ensures t.rowKey(b[i]) != t.rowKey(b[j]) {
        assert c[|a| + i] == b[i] && c[|a| + j] == b[j];
      }
      forall i, j | 0 <= i < |a| && 0 <= j < |b| && t.rowKey(a[i]).Some? ensures t.rowKey(a[i]) != t.rowKey(b[j]) {
        assert c[i] == a[i] && c[|a| + j] == b[j];
      }
    }
  }

  // ---------------------------------------------------------------- repeating

  // The items for the row's key would leave the row as it is.
  ghost predicate Settled<R(!new), B(!new), K(!new)>(t: Table<R, B, K>, r: R, items: seq<B>) {
    t.rowKey(r).Some? ==> Updates(t, r, items, t.rowKey(r).value) == r
  }

  // Applying all of a response to a row twice is applying it once.
  ghost predicate Repeatable<R(!new), B(!new), K(!new)>(t: Table<R, B, K>, items: seq<B>) {
    && (forall r, k :: Updates(t, Updates(t, r, items, k), items, k) == Updates(t, r, items, k))
    && (forall b :: t.mapped(b) ==> t.update(t.create(b), b) == t.create(b))
  }

  // Every item can be looked up once its row exists.
  ghost predicate AllKeyed<R(!new), B(!new), K(!new)>(t: Table<R, B, K>, items: seq<B>) {
    forall m :: 0 <= m < |items| && t.mapped(items[m]) ==> t.itemKey(items[m]).Some?
  }

  function LastFor<R(!new), B(!new), K(!new)>(t: Table<R, B, K>, items: seq<B>, k: K): Option<B> {
    if items == [] then None
    else if IsFor(t, items[|items| - 1], k) then Some(items[|items| - 1])
    else LastFor(t, items[..|items| - 1], k)
  }

  // items[m] is the last item for key k.
  ghost predicate IsLast<R(!new), B(!new), K(!new)>(t: Table<R, B, K>, items: seq<B>, k: K, m: nat) {
    m < |items| && IsFor(t, items[m], k) && forall n :: m < n < |items| ==> !IsFor(t, items[n], k)
  }

  lemma {:induction false} LastForIs<R(!new), B(!new), K(!new)>(t: Table<R, B, K>, items: seq<B>, k: K, m: nat)
    requires IsLast(t, items, k, m)
    ensures LastFor(t, items, k) == Some(items[m])
  {
    if m < |items| - 1 {
      LastForIs(t, items[..|items| - 1], k, m);
    }
  }

  lemma {:induction false} LastForSome<R(!new), B(!new), K(!new)>(t: Table<R, B, K>, items: seq<B>, k: K)
    ensures LastFor(t, items, k).Some? <==> exists m :: 0 <= m < |items| && IsFor(t, items[m], k)
    ensures LastFor(t, items, k).Some? ==>
              LastFor(t, items, k).value in items && IsFor(t, LastFor(t, items, k).value, k)
  {
    if items != [] {
      var rest := items[..|items| - 1];
      LastForSome(t, rest, k);
      if m :| 0 <= m < |rest| && IsFor(t, rest[m], k) {
        assert IsFor(t, items[m], k);
      }
    }
  }

  // If items[m] is the only one for its key, it alone acts on a row.
  lemma {:induction false} OnlyItem<R(!new), B(!new), K(!new)>(t: Table<R, B, K>, r: R, items: seq<B>, k: K, m: nat)
    requires m < |items| && IsFor(t, items[m], k)
    requires forall n :: 0 <= n < |items| && n != m ==> !IsFor(t, items[n], k)
    ensures Updates(t, r, items, k) == t.update(r, items[m])
  {
    var last := |items| - 1;
    if m == last {
      NoItem(t, r, items[..last], k);
    } else {
      OnlyItem(t, r, items[..last], k, m);
    }
  }

  lemma {:induction false} NoItem<R(!new), B(!new), K(!new)>(t: Table<R, B, K>, r: R, items: seq<B>, k: K)
    requires forall n :: 0 <= n < |items| ==> !IsFor(t, items[n], k)
    ensures Updates(t, r, items, k) == r
  {
    if items != [] {
      NoItem(t, r, items[..|items| - 1], k);
    }
  }

  lemma InsertedSettled<R(!new), B(!new), K(!new)>(t: Table<R, B, K>, index: map<K, nat>, items: seq<B>, j: nat)
    requires t.Lawful() && Repeatable(t, items) && AllKeyed(t, items) && NewKeysOnce(t, index, items)
    requires j < |Insertions(t, index, items)|
    ensures Settled(t, Insertions(t, index, items)[j], items)
  {
    InsertedFrom(t, index, items);
    var r := Insertions(t, index, items)[j];
    assert CreatedFrom(t, index, items, r);
    var m :| 0 <= m < |items| && IsNew(t, index, items[m]) && r == t.create(items[m]);
    var k := t.itemKey(items[m]).value;
    forall n | 0 <= n < |items| && n != m ensures !IsFor(t, items[n], k) {
      if IsFor(t, items[n], k) {
        assert IsNew(t, index, items[n]);
      }
    }
    OnlyItem(t, r, items, k, m);
  }

  // After an upsert with distinct new keys, every row is settled.
  lemma AllSettled<R(!new), B(!new), K(!new)>(t: Table<R, B, K>, rows: seq<R>, items: seq<B>, i: nat)
    requires t.Lawful() && Repeatable(t, items) && AllKeyed(t, items)
    requires KeysUnique(t, rows) && NewKeysOnce(t, Index(t, rows), items)
    requires i < |Upserted(t, rows, Index(t, rows), items)|
    ensures Settled(t, Upserted(t, rows, Index(t, rows), items)[i], items)
  {
    if i < |rows| {
      UpsertedAt(t, rows, items, i);
    } else {
      InsertedSettled(t, Index(t, rows), items, i - |rows|);
    }
  }

  // Upserting the same response again changes no row and adds none.
  lemma UpsertAgain<R(!new), B(!new), K(!new)>(t: Table<R, B, K>, rows: seq<R>, items: seq<B>)
    requires t.Lawful() && Repeatable(t, items) && AllKeyed(t, items)
    requires KeysUnique(t, rows) && NewKeysOnce(t, Index(t, rows), items)
    ensures var rows' := Upserted(t, rows, Index(t, rows), items);
            Upserted(t, rows', Index(t, rows'), items) == rows'
  {
    var rows' := Upserted(t, rows, Index(t, rows), items);
    UniqueIff(t, rows, items);
    forall i | 0 <= i < |rows'|
      ensures Updated(t, rows', Index(t, rows'), items, i) == rows'[i]
    {
      AllSettled(t, rows, items, i);
    }
    forall m | 0 <= m < |items| ensures !IsNew(t, Index(t, rows'), items[m]) {
      if t.mapped(items[m]) {
        HasRow(t, rows, items, m);
      }
    }
    NoneNew(t, Index(t, rows'), items);
  }

  lemma {:induction false} NoneNew<R(!new), B(!new), K(!new)>(t: Table<R, B, K>, index: map<K, nat>, items: seq<B>)
    requires forall m :: 0 <= m < |items| ==> !IsNew(t, index, items[m])
    ensures Insertions(t, index, items) == []
  {
    if items != [] {
      NoneNew(t, index, items[..|items| - 1]);
    }
  }

  lemma HasRow<R(!new), B(!new), K(!new)>(t: Table<R, B, K>, rows: seq<R>, items: seq<B>, m: nat)
    requires t.Lawful() && m < |items| && t.mapped(items[m]) && t.itemKey(items[m]).Some?
    ensures t.itemKey(items[m]).value in Index(t, Upserted(t, rows, Index(t, rows), items))
  {
    var index := Index(t, rows);
    var rows' := Upserted(t, rows, index, items);
    var k := t.itemKey(items[m]).value;
    if k in index {
      UpsertedAt(t, rows, items, index[k]);
      assert t.rowKey(rows'[index[k]]) == Some(k);
    } else {
      InsertedFrom(t, index, items);
      var j :| 0 <= j < |Insertions(t, index, items)| && Insertions(t, index, items)[j] == t.create(items[m]);
      assert rows'[|rows| + j] == t.create(items[m]);
    }
  }

  // The row of the key of items[m] is an old row with all its updates, or, if
  // the key was new, the row that items[m] creates.
  lemma RowFor<R(!new), B(!new), K(!new)>(t: Table<R, B, K>, rows: seq<R>, items: seq<B>, k: K, m: nat)
    requires t.Lawful() && KeysUnique(t, rows) && NewKeysOnce(t, Index(t, rows), items) && IsLast(t, items, k, m)
    ensures var index := Index(t, rows);
            var rows' := Upserted(t, rows, index, items);
            && k in Index(t, rows')
            && rows'[Index(t, rows')[k]]
               == if k in index then Updates(t, rows[index[k]], items, k) else t.create(items[m])
  {
    var rows' := Upserted(t, rows, Index(t, rows), items);
    HasRow(t, rows, items, m);
    var i := Index(t, rows')[k];
    if i < |rows| {
      UpsertedAt(t, rows, items, i);
    } else {
      hide Index, Insertions, NewKeysOnce, KeysUnique;
      InsertedAt(t, rows, items, i);
      hide CreatedFrom;
      OnlyCreator(t, Index(t, rows), items, rows'[i], k, m);
    }
  }

  lemma InsertedAt<R(!new), B(!new), K(!new)>(t: Table<R, B, K>, rows: seq<R>, items: seq<B>, i: nat)
    requires |rows| <= i < |Upserted(t, rows, Index(t, rows), items)|
    ensures CreatedFrom(t, Index(t, rows), items, Upserted(t, rows, Index(t, rows), items)[i])
  {
    InsertedFrom(t, Index(t, rows), items);
    assert Upserted(t, rows, Index(t, rows), items)[i] == Insertions(t, Index(t, rows), items)[i - |rows|];
  }

  lemma OnlyCreator<R(!new), B(!new), K(!new)>(t: Table<R, B, K>, index: map<K, nat>, items: seq<B>, r: R, k: K, m: nat)
    requires t.Lawful() && NewKeysOnce(t, index, items) && IsLast(t, items, k, m)
    requires CreatedFrom(t, index, items, r) && t.rowKey(r) == Some(k)
    ensures k !in index && r == t.create(items[m])
  {
  }
}
