/**
 * The transaction ledger: records, id allocation, delete, bulk delete and
 * the in-place update of the first record with a given id.
 */
module Ledger {
  import opened Wrappers

  /** The `type` field of a record: the source only ever writes "Income" or "Expense". */
  datatype Kind = Income | Expense

  /** A calendar date as a day number; a larger number is a later day. */
  type Date = int

  datatype Transaction = Transaction(
    id: int,
    date: Date,
    category: string,
    amount: real,
    kind: Kind,
    description: string)

  /**
   * The fields a dictionary `update` may overwrite. There is no `id` field:
   * the edit form never sends one, so an edit cannot change an id.
   */
  datatype Patch = Patch(
    kind: Option<Kind>,
    category: Option<string>,
    amount: Option<real>,
    date: Option<Date>,
    description: Option<string>)

  /** `record.update(patch)`: present fields replace the record's, absent ones stay. */
  function Apply(t: Transaction, p: Patch): (r: Transaction)
    ensures r.id == t.id
    ensures p.date.Some? ==> r.date == p.date.value
    ensures p.date.None? ==> r.date == t.date
    ensures p.category.Some? ==> r.category == p.category.value
    ensures p.category.None? ==> r.category == t.category
    ensures p.amount.Some? ==> r.amount == p.amount.value
    ensures p.amount.None? ==> r.amount == t.amount
    ensures p.kind.Some? ==> r.kind == p.kind.value
    ensures p.kind.None? ==> r.kind == t.kind
    ensures p.description.Some? ==> r.description == p.description.value
    ensures p.description.None? ==> r.description == t.description
  {
    Transaction(
      t.id,
      p.date.GetOr(t.date),
      p.category.GetOr(t.category),
      p.amount.GetOr(t.amount),
      p.kind.GetOr(t.kind),
      p.description.GetOr(t.description))
  }

  /** The patch the edit form submits: all five editable fields. */
  function EditPatch(kind: Kind, category: string, amount: real, date: Date, description: string): Patch {
    Patch(Some(kind), Some(category), Some(amount), Some(date), Some(description))
  }

  /** Saving the edit form replaces every field of the record except its id. */
  lemma EditReplacesAllButId(t: Transaction, kind: Kind, category: string, amount: real, date: Date, description: string)
    ensures Apply(t, EditPatch(kind, category, amount, date, description))
         == Transaction(t.id, date, category, amount, kind, description)
  {
  }

  /** Applying the same patch twice is the same as applying it once. */
  lemma ApplyIdempotent(t: Transaction, p: Patch)
    ensures Apply(Apply(t, p), p) == Apply(t, p)
    ensures Apply(t, p).id == t.id
  {
  }

  // ---------------------------------------------------------------- ids

  function Ids(ts: seq<Transaction>): set<int> {
    set t | t in ts :: t.id
  }

  ghost predicate UniqueIds(ts: seq<Transaction>) {
    forall i, j :: 0 <= i < j < |ts| ==> ts[i].id != ts[j].id
  }

  ghost predicate PositiveAmounts(ts: seq<Transaction>) {
    forall t | t in ts :: t.amount > 0.0
  }

  /** The largest id in a non-empty ledger (Python's `max` over the ids). */
  function MaxId(ts: seq<Transaction>): (m: int)
    requires ts != []
    ensures m in Ids(ts)
    ensures forall t | t in ts :: t.id <= m
  {
    assert ts[0] in ts;
    if |ts| == 1 then ts[0].id
    else
      var rest := MaxId(ts[1..]);
      assert forall t | t in ts[1..] :: t in ts;
      assert forall t | t in ts :: t == ts[0] || t in ts[1..];
      if ts[0].id >= rest then ts[0].id else rest
  }

  /** `get_next_id`: 1 for an empty ledger, otherwise one more than the largest id. */
  function NextId(ts: seq<Transaction>): (r: int)
    ensures ts == [] ==> r == 1
    ensures forall t | t in ts :: t.id < r
    ensures ts != [] ==> r - 1 in Ids(ts)
    ensures r !in Ids(ts)
  {
    if ts == [] then 1 else MaxId(ts) + 1
  }

  /** Appending a record carrying `NextId` keeps ids unique. */
  lemma {:induction false} AppendFreshKeepsUnique(ts: seq<Transaction>, t: Transaction)
    requires UniqueIds(ts)
    requires t.id == NextId(ts)
    ensures UniqueIds(ts + [t])
    ensures Ids(ts + [t]) == Ids(ts) + {t.id}
  {
    var s := ts + [t];
    forall i, j | 0 <= i < j < |s| ensures s[i].id != s[j].id {
      if j == |ts| {
        assert s[i] == ts[i] && ts[i] in ts;
      } else {
        assert s[i] == ts[i] && s[j] == ts[j];
      }
    }
    assert forall u | u in s :: u in ts || u == t;
    assert forall u | u in ts :: u in s;
  }

  // ---------------------------------------------------------- subsequences

  /** `a` is `b` with some elements dropped and the rest kept in their order. */
  ghost predicate IsSubsequence<T>(a: seq<T>, b: seq<T>)
    decreases |b|
  {
    if a == [] then true
    else if b == [] then false
    else (a[0] == b[0] && IsSubsequence(a[1..], b[1..])) || IsSubsequence(a, b[1..])
  }

  // -------------------------------------------------- delete and bulk delete

  /**
   * The comprehension `[t for t in ts if t['id'] not in ids]`: the records
   * whose id is not selected, in their original order. Deleting one id is
   * the case `ids == {id}`.
   */
  function RemoveIds(ts: seq<Transaction>, ids: set<int>): (r: seq<Transaction>)
    ensures forall t :: t in r <==> t in ts && t.id !in ids
    ensures Ids(r) == Ids(ts) - ids
    ensures IsSubsequence(r, ts)
    ensures |r| <= |ts|
  {
    if ts == [] then []
    else
      var rest := RemoveIds(ts[1..], ids);
      assert forall t | t in ts :: t == ts[0] || t in ts[1..];
      assert forall t | t in ts[1..] :: t in ts;
      if ts[0].id in ids then
        assert rest == [] || IsSubsequence(rest, ts[1..]);
        rest
      else
        var r := [ts[0]] + rest;
        assert r[1..] == rest;
        assert forall t | t in r :: t == ts[0] || t in rest;
        r
  }

  /** Deletion keeps every copy of a surviving record: only records whose id is listed lose copies, and they lose all. */
  lemma {:induction false} RemoveIdsKeepsEveryCopy(ts: seq<Transaction>, ids: set<int>)
    ensures forall t :: multiset(RemoveIds(ts, ids))[t] == if t.id in ids then 0 else multiset(ts)[t]
  {
    if ts != [] {
      RemoveIdsKeepsEveryCopy(ts[1..], ids);
      assert ts == [ts[0]] + ts[1..];
      if ts[0].id !in ids {
        assert RemoveIds(ts, ids) == [ts[0]] + RemoveIds(ts[1..], ids);
      }
    }
  }

  /** Deleting ids that no record carries leaves the ledger as it was. */
  lemma {:induction false} RemoveAbsentIsNoOp(ts: seq<Transaction>, ids: set<int>)
    requires ids !! Ids(ts)
    ensures RemoveIds(ts, ids) == ts
  {
    if ts != [] {
      assert ts[0] in ts;
      assert Ids(ts[1..]) <= Ids(ts) by {
        forall x | x in Ids(ts[1..]) ensures x in Ids(ts) {
          var t :| t in ts[1..] && t.id == x;
          assert t in ts;
        }
      }
      RemoveAbsentIsNoOp(ts[1..], ids);
      assert ts == [ts[0]] + ts[1..];
    }
  }

  /** Unique ids survive dropping the first record, and the first id does not recur. */
  lemma UniqueSplit(ts: seq<Transaction>)
    requires ts != []
    requires UniqueIds(ts)
    ensures UniqueIds(ts[1..])
    ensures ts[0].id !in Ids(ts[1..])
  {
    var tail := ts[1..];
    forall i, j | 0 <= i < j < |tail| ensures tail[i].id != tail[j].id {
      assert tail[i] == ts[i + 1] && tail[j] == ts[j + 1];
    }
    forall t | t in tail ensures t.id != ts[0].id {
      var k :| 0 <= k < |tail| && tail[k] == t;
      assert ts[k + 1] == t;
    }
  }

  /** Putting a record with a new id in front keeps ids unique. */
  lemma ConsKeepsUnique(t: Transaction, ts: seq<Transaction>)
    requires UniqueIds(ts)
    requires t.id !in Ids(ts)
    ensures UniqueIds([t] + ts)
  {
    var r := [t] + ts;
    forall i, j | 0 <= i < j < |r| ensures r[i].id != r[j].id {
      if i == 0 {
        assert r[j] in ts;
      } else {
        assert r[i] == ts[i - 1] && r[j] == ts[j - 1];
      }
    }
  }

  /** A ledger with unique ids still has unique ids after any deletion. */
  lemma {:induction false} RemoveKeepsUnique(ts: seq<Transaction>, ids: set<int>)
    requires UniqueIds(ts)
    ensures UniqueIds(RemoveIds(ts, ids))
  {
    if ts != [] {
      UniqueSplit(ts);
      RemoveKeepsUnique(ts[1..], ids);
      var rest := RemoveIds(ts[1..], ids);
      if ts[0].id !in ids {
        assert ts[0].id !in Ids(rest);
        ConsKeepsUnique(ts[0], rest);
      }
    }
  }

  /** With unique ids, deleting a present id removes exactly one record. */
  lemma {:induction false} DeleteOneShrinksByOne(ts: seq<Transaction>, id: int)
    requires UniqueIds(ts)
    requires id in Ids(ts)
    ensures |RemoveIds(ts, {id})| == |ts| - 1
  {
    var tail := ts[1..];
    UniqueSplit(ts);
    assert forall t | t in ts :: t == ts[0] || t in tail;
    if ts[0].id == id {
      RemoveAbsentIsNoOp(tail, {id});
    } else {
      var t :| t in ts && t.id == id;
      assert t in tail;
      DeleteOneShrinksByOne(tail, id);
    }
  }

  // ---------------------------------------------------------------- update

  /** `k` is the position of the first record whose id is `id`. */
  ghost predicate FirstWithId(ts: seq<Transaction>, id: int, k: int) {
    0 <= k < |ts| && ts[k].id == id && forall j :: 0 <= j < k ==> ts[j].id != id
  }

  /**
   * `update_transaction`'s effect on the list: the first record with `id`
   * has the patch merged in, and the scan stops there.
   */
  function UpdateFirst(ts: seq<Transaction>, id: int, p: Patch): (r: seq<Transaction>)
    ensures |r| == |ts|
    ensures forall j :: 0 <= j < |ts| ==> r[j].id == ts[j].id
    ensures Ids(r) == Ids(ts)
  {
    if ts == [] then []
    else if ts[0].id == id then [Apply(ts[0], p)] + ts[1..]
    else [ts[0]] + UpdateFirst(ts[1..], id, p)
  }

  /** The update changes only the first matching record, and only by the patch. */
  lemma {:induction false} UpdateFirstAt(ts: seq<Transaction>, id: int, p: Patch, k: int)
    requires FirstWithId(ts, id, k)
    ensures UpdateFirst(ts, id, p) == ts[k := Apply(ts[k], p)]
  {
    if k == 0 {
      assert [Apply(ts[0], p)] + ts[1..] == ts[0 := Apply(ts[0], p)];
    } else {
      assert ts[0].id != id;
      var tail := ts[1..];
      assert FirstWithId(tail, id, k - 1) by {
        forall j | 0 <= j < k - 1 ensures tail[j].id != id {
          assert tail[j] == ts[j + 1];
        }
      }
      UpdateFirstAt(tail, id, p, k - 1);
      assert [ts[0]] + tail[k - 1 := Apply(tail[k - 1], p)] == ts[k := Apply(ts[k], p)];
    }
  }

  /** A scan that saw no record with `id` at any position shows that `id` is absent. */
  lemma NoIdBeforeEnd(ts: seq<Transaction>, id: int)
    requires forall j :: 0 <= j < |ts| ==> ts[j].id != id
    ensures id !in Ids(ts)
  {
    forall t | t in ts ensures t.id != id {
      var k :| 0 <= k < |ts| && ts[k] == t;
    }
  }

  /** When no record carries `id`, the update is a no-op. */
  lemma {:induction false} UpdateAbsentIsNoOp(ts: seq<Transaction>, id: int, p: Patch)
    requires id !in Ids(ts)
    ensures UpdateFirst(ts, id, p) == ts
  {
    if ts != [] {
      assert ts[0] in ts;
      assert Ids(ts[1..]) <= Ids(ts) by {
        forall x | x in Ids(ts[1..]) ensures x in Ids(ts) {
          var t :| t in ts[1..] && t.id == x;
          assert t in ts;
        }
      }
      UpdateAbsentIsNoOp(ts[1..], id, p);
      assert ts == [ts[0]] + ts[1..];
    }
  }

  /** An update keeps ids unique: it never touches an id. */
  lemma UpdateKeepsUnique(ts: seq<Transaction>, id: int, p: Patch)
    requires UniqueIds(ts)
    ensures UniqueIds(UpdateFirst(ts, id, p))
  {
  }

  // --------------------------------------------------------------- examples

  /** Selecting ids {2, 4} from a ledger with ids 1, 2, 3, 4 leaves the records 1 and 3. */
  lemma BulkDeleteExample(a: Transaction, b: Transaction, c: Transaction, d: Transaction)
    requires a.id == 1 && b.id == 2 && c.id == 3 && d.id == 4
    ensures RemoveIds([a, b, c, d], {2, 4}) == [a, c]
  {
    var ids := {2, 4};
    assert [d][1..] == [];
    assert RemoveIds([d], ids) == [];
    assert [c, d][1..] == [d];
    assert RemoveIds([c, d], ids) == [c];
    assert [b, c, d][1..] == [c, d];
    assert RemoveIds([b, c, d], ids) == [c];
    assert [a, b, c, d][1..] == [b, c, d];
  }

  /**
   * Ids are not monotone across deletes: after deleting the largest id, the
   * next record is given that same id again.
   */
  lemma NextIdReusedAfterDelete(a: Transaction, b: Transaction)
    requires a.id == 1 && b.id == 2
    ensures NextId([a, b]) == 2 + 1
    ensures NextId(RemoveIds([a, b], {2})) == 2
  {
    var s := [a, b];
    assert s[1..] == [b] && [b][1..] == [];
    assert RemoveIds(s, {2}) == [a];
  }
}
