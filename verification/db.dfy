/** The document store as an immutable value: one map per collection, the
    equality and `in` filters the handlers use, the referential links between
    plans, modules, lessons and notes, and an allocator for the identifiers
    that `collection.add()` generates. */
module Db {
  import opened Values

  type Id = string
  type Collection = map<Id, Doc>

  datatype Store = Store(
    users: Collection,
    plans: Collection,
    modules: Collection,
    lessons: Collection,
    notes: Collection,
    attempts: Collection)

  /** Ids of the documents whose `field` equals `v`
      (`where(field, '==', v)`; a document without the field never matches). */
  function Where(c: Collection, field: string, v: Value): set<Id> {
    set k | k in c && field in c[k] && c[k][field] == v
  }

  /** A document outside an equality query's result does not carry the
      queried (non-null) value. */
  lemma OutsideWhere(c: Collection, field: string, v: Value, k: Id)
    requires k in c && k !in Where(c, field, v) && v != Null
    ensures Get(c[k], field) != v
  {
  }

  /** Ids of the documents whose `field` is one of the string ids in `ids`
      (`where(field, 'in', ids)`). */
  function WhereIn(c: Collection, field: string, ids: set<Id>): set<Id> {
    set k | k in c && field in c[k] && c[k][field].Str? && c[k][field].s in ids
  }

  /** The plans owned by `uid`. */
  function PlansOf(s: Store, uid: Id): set<Id> {
    Where(s.plans, "userId", Str(uid))
  }

  /** The modules whose `planId` is one of `pids`. */
  function ModulesOf(s: Store, pids: set<Id>): set<Id> {
    WhereIn(s.modules, "planId", pids)
  }

  /** The lessons whose `moduleId` is one of `mids`. */
  function LessonsOf(s: Store, mids: set<Id>): set<Id> {
    WhereIn(s.lessons, "moduleId", mids)
  }

  /** The notes attached to plan `pid`. */
  function NotesOf(s: Store, pid: Id): set<Id> {
    Where(s.notes, "planId", Str(pid))
  }

  /** `collection.document(id)` accepts `id`: non-empty and no path separator. */
  predicate ValidDocId(id: string) {
    id != "" && '/' !in id
  }

  /** Python `coll.get(v, {})` on a dict keyed by document id. */
  function Lookup(c: Collection, v: Value): Doc {
    if v.Str? && v.s in c then c[v.s] else map[]
  }

  /** `c` with `d`'s fields merged into document `id` (`set(..., merge=True)`
      or `update(...)` on an existing document). */
  function Merge(c: Collection, id: Id, d: Doc): Collection
    requires id in c
  {
    c[id := c[id] + d]
  }

  /** `c2` is `c1` after an update of document `id` with the fields of
      `upd`: those fields take the new values, every other field and every
      other document stays as it was, and no document appears or vanishes. */
  predicate UpdatedOnly(c2: Collection, c1: Collection, id: Id, upd: Doc) {
    && id in c1 && c2.Keys == c1.Keys
    && (forall k :: k in c1 && k != id ==> c2[k] == c1[k])
    && c2[id].Keys == c1[id].Keys + upd.Keys
    && (forall f :: f in upd ==> c2[id][f] == upd[f])
    && (forall f :: f in c1[id] && f !in upd ==> c2[id][f] == c1[id][f])
  }

  lemma MergeUpdatesOnly(c: Collection, id: Id, d: Doc)
    requires id in c
    ensures UpdatedOnly(Merge(c, id, d), c, id, d)
  {
  }

  /** `order` lists every id of `ids` exactly once: the shape of a query
      result streamed from the store. */
  predicate Enumerates(order: seq<Id>, ids: set<Id>) {
    && (forall i, j :: 0 <= i < j < |order| ==> order[i] != order[j])
    && (forall i :: 0 <= i < |order| ==> order[i] in ids)
    && (forall k :: k in ids ==> k in order)
  }

  lemma EnumeratesSize(order: seq<Id>, ids: set<Id>)
    requires Enumerates(order, ids)
    ensures |order| == |ids|
  {
    if |order| > 0 {
      var last := order[|order| - 1];
      var rest := order[..|order| - 1];
      assert Enumerates(rest, ids - {last});
      EnumeratesSize(rest, ids - {last});
    }
  }

  /** The field `f` of document `id`, `Null` when either is missing. */
  function FieldAt(c: Collection, id: Id, f: string): Value {
    if id in c then Get(c[id], f) else Null
  }

  /** The documents of `ids` that have `field`: `order_by(field)` silently
      drops the others from a query result. */
  function Having(c: Collection, ids: set<Id>, field: string): set<Id> {
    set k | k in ids && k in c && field in c[k]
  }

  // ----- Ordering of field values -----

  /** Position of a value's type in the store's cross-type order:
      null < booleans < numbers < timestamps < strings. */
  function TypeRank(v: Value): nat {
    match v
    case Null => 0
    case Bool(_) => 1
    case Int(_) => 2
    case Stamp(_) => 3
    case Str(_) => 4
  }

  /** Strings compare code point by code point, a prefix first. */
  predicate StrLe(a: string, b: string) {
    |a| == 0 || (|b| > 0 && (a[0] < b[0] || (a[0] == b[0] && StrLe(a[1..], b[1..]))))
  }

  /** `a` sorts at or before `b` in an `order_by` on a field. */
  predicate ValueLe(a: Value, b: Value) {
    if TypeRank(a) != TypeRank(b) then TypeRank(a) < TypeRank(b)
    else match (a, b)
      case (Bool(x), Bool(y)) => !x || y
      case (Int(x), Int(y)) => x <= y
      case (Stamp(x), Stamp(y)) => x <= y
      case (Str(x), Str(y)) => StrLe(x, y)
      case _ => true
  }

  lemma {:induction false} StrLeRefl(a: string)
    ensures StrLe(a, a)
  {
    if |a| > 0 {
      StrLeRefl(a[1..]);
    }
  }

  lemma ValueLeRefl(v: Value)
    ensures ValueLe(v, v)
  {
    if v.Str? {
      StrLeRefl(v.s);
    }
  }

  /** `order` lists `ids` with `field` descending: the result of
      `order_by(field, direction=DESCENDING)`. */
  predicate Descending(c: Collection, order: seq<Id>, field: string) {
    forall i, j :: 0 <= i < j < |order| ==> ValueLe(FieldAt(c, order[j], field), FieldAt(c, order[i], field))
  }

  /** The head of a descending listing carries the greatest value of the
      field among all the listed documents. */
  lemma DescendingHeadIsGreatest(c: Collection, order: seq<Id>, ids: set<Id>, field: string)
    requires Enumerates(order, ids) && Descending(c, order, field) && |order| > 0
    ensures order[0] in ids
    ensures forall k :: k in ids ==> ValueLe(FieldAt(c, k, field), FieldAt(c, order[0], field))
  {
    forall k | k in ids
      ensures ValueLe(FieldAt(c, k, field), FieldAt(c, order[0], field))
    {
      var j :| 0 <= j < |order| && order[j] == k;
      if j == 0 {
        ValueLeRefl(FieldAt(c, k, field));
      }
    }
  }

  // ----- Growth of a collection -----

  /** `c2` is `c1` with the documents `added` inserted under fresh ids. */
  predicate Extends(c2: Collection, c1: Collection, added: set<Id>) {
    && c2.Keys == c1.Keys + added
    && c1.Keys !! added
    && forall k :: k in c1 ==> c2[k] == c1[k]
  }

  /** Two insertions in a row are one insertion of both id sets. */
  lemma ExtendsTrans(c3: Collection, c2: Collection, c1: Collection, a: set<Id>, b: set<Id>)
    requires Extends(c2, c1, a) && Extends(c3, c2, b)
    ensures Extends(c3, c1, a + b) && a !! b
  {
  }

  /** Inserting a document that matches an equality query adds exactly
      that document to the query's result. */
  lemma WhereAfterInsert(c2: Collection, c1: Collection, id: Id, field: string, v: Value)
    requires Extends(c2, c1, {id}) && field in c2[id] && c2[id][field] == v
    ensures Where(c2, field, v) == Where(c1, field, v) + {id}
    ensures |Where(c2, field, v)| == |Where(c1, field, v)| + 1
  {
    assert id !in Where(c1, field, v);
    forall k | k in c1 ensures (k in Where(c2, field, v) <==> k in Where(c1, field, v)) {
      assert c2[k] == c1[k];
    }
    assert Where(c2, field, v) == Where(c1, field, v) + {id};
  }

  /** Removing the inserted ids undoes the insertion. */
  lemma ExtendsUndone(c2: Collection, c1: Collection, added: set<Id>)
    requires Extends(c2, c1, added)
    ensures c2 - added == c1
  {
  }

  // ----- Identifier allocation -----

  /** The n-th candidate identifier. */
  function AutoId(n: nat): (r: Id)
    ensures |r| == n + 1 && ValidDocId(r)
  {
    seq(n + 1, _ => '#')
  }

  ghost function AutoIds(m: nat): set<Id> {
    set k | 0 <= k <= m :: AutoId(k)
  }

  lemma {:induction false} AutoIdsSize(m: nat)
    ensures |AutoIds(m)| == m + 1
  {
    if m == 0 {
      assert AutoIds(0) == {AutoId(0)};
    } else {
      AutoIdsSize(m - 1);
      assert AutoIds(m) == AutoIds(m - 1) + {AutoId(m)};
      assert AutoId(m) !in AutoIds(m - 1);
    }
  }

  /** Among the first |used| + 1 candidates at least one is unused. */
  lemma {:induction false} SomeAutoIdFree(used: set<Id>)
    ensures exists k :: 0 <= k <= |used| && AutoId(k) !in used
  {
    AutoIdsSize(|used|);
    var a := AutoIds(|used|);
    assert a == (a * used) + (a - used);
    SubsetSize(a * used, used);
    assert |a - used| > 0;
    var x :| x in a - used;
    var k :| 0 <= k <= |used| && AutoId(k) == x;
  }

  lemma SubsetSize<T>(a: set<T>, b: set<T>)
    requires a <= b
    ensures |a| <= |b|
  {
    assert b == a + (b - a);
  }

  function FreeFrom(used: set<Id>, n: nat): (r: Id)
    requires exists k :: n <= k <= |used| && AutoId(k) !in used
    ensures r !in used && ValidDocId(r)
    decreases |used| - n
  {
    if AutoId(n) !in used then AutoId(n) else FreeFrom(used, n + 1)
  }

  /** An identifier not yet used in a collection: the model of the random
      document id that `collection.add()` assigns. */
  function FreshId(used: set<Id>): (r: Id)
    ensures r !in used && ValidDocId(r)
  {
    SomeAutoIdFree(used);
    FreeFrom(used, 0)
  }

  // ----- Referential links -----

  /** `d[field]` names a document of `c`. */
  predicate RefersInto(d: Doc, field: string, c: Collection) {
    field in d && d[field].Str? && d[field].s in c
  }

  /** Every module belongs to an existing plan and every lesson that names a
      module names an existing one: the plan → module → lesson hierarchy has
      no orphans. */
  predicate Linked(s: Store) {
    && (forall m :: m in s.modules ==> RefersInto(s.modules[m], "planId", s.plans))
    && (forall l :: l in s.lessons && "moduleId" in s.lessons[l] ==>
          RefersInto(s.lessons[l], "moduleId", s.modules))
  }

  /** Every note belongs to an existing plan. */
  predicate NotesLinked(s: Store) {
    forall n :: n in s.notes ==> RefersInto(s.notes[n], "planId", s.plans)
  }
}
