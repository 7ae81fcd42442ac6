/**
 * The correlation sort of the end-to-end tests: a flat list of operation telemetry is put in
 * causal order. The records are stable-sorted by timestamp, the earliest becomes the root, and
 * a depth-first, pre-order walk takes out of a shared working list, for each parent, its
 * children in timestamp order. Records the walk never reaches are dropped.
 *
 * The recursive walk is specified by the functions SubtreeOrder and SiblingsOrder, which return
 * the emitted records together with what is left of the working list; the methods that mutate
 * the list in place are proved equal to them.
 */
module CorrelationSorting {
  import opened Wrappers
  import opened WebJobsTelemetry

  // ---------------------------------------------------------------------------------------
  // Stable sort by timestamp
  // ---------------------------------------------------------------------------------------

  ghost predicate SortedByTimestamp(s: seq<OperationTelemetry>)
  {
    forall i, j | 0 <= i < j < |s| :: s[i].Timestamp() <= s[j].Timestamp()
  }

  /** Inserts `x` before the first element that is not earlier than it. */
  function InsertByTimestamp(x: OperationTelemetry, s: seq<OperationTelemetry>): (r: seq<OperationTelemetry>)
    ensures |r| == |s| + 1
  {
    if s == [] then [x]
    else if x.Timestamp() <= s[0].Timestamp() then [x] + s
    else [s[0]] + InsertByTimestamp(x, s[1..])
  }

  /** Inserting adds exactly the one record. */
  lemma {:induction false} InsertByTimestampPerm(x: OperationTelemetry, s: seq<OperationTelemetry>)
    ensures multiset(InsertByTimestamp(x, s)) == multiset(s) + multiset{x}
  {
    if s != [] && x.Timestamp() > s[0].Timestamp() {
      assert s == [s[0]] + s[1..];
      InsertByTimestampPerm(x, s[1..]);
    }
  }

  /** A lower bound on the timestamps of the list and of `x` bounds the result too. */
  lemma {:induction false} InsertByTimestampBound(x: OperationTelemetry, s: seq<OperationTelemetry>, lo: int)
    requires x.Timestamp() >= lo
    requires forall i | 0 <= i < |s| :: s[i].Timestamp() >= lo
    ensures forall i | 0 <= i < |InsertByTimestamp(x, s)| :: InsertByTimestamp(x, s)[i].Timestamp() >= lo
  {
    if s != [] && x.Timestamp() > s[0].Timestamp() {
      InsertByTimestampBound(x, s[1..], lo);
      var tail := InsertByTimestamp(x, s[1..]);
      assert forall i | 1 <= i < |tail| + 1 :: ([s[0]] + tail)[i] == tail[i - 1];
    }
  }

  /** Inserting into a sorted list keeps it sorted. */
  lemma {:induction false} InsertByTimestampSorted(x: OperationTelemetry, s: seq<OperationTelemetry>)
    requires SortedByTimestamp(s)
    ensures SortedByTimestamp(InsertByTimestamp(x, s))
  {
    if s != [] && x.Timestamp() > s[0].Timestamp() {
      var tail := InsertByTimestamp(x, s[1..]);
      InsertByTimestampSorted(x, s[1..]);
      assert forall i | 0 <= i < |s[1..]| :: s[1..][i] == s[i + 1];
      InsertByTimestampBound(x, s[1..], s[0].Timestamp());
      var r := [s[0]] + tail;
      forall i, j | 0 <= i < j < |r| ensures r[i].Timestamp() <= r[j].Timestamp() {
        assert r[j] == tail[j - 1];
        if i > 0 {
          assert r[i] == tail[i - 1];
        }
      }
    }
  }

  /** LINQ's `OrderBy(p => p.Timestamp.Ticks)`: ascending and stable. */
  function OrderByTimestamp(s: seq<OperationTelemetry>): (r: seq<OperationTelemetry>)
    ensures |r| == |s|
  {
    if s == [] then []
    else InsertByTimestamp(s[0], OrderByTimestamp(s[1..]))
  }

  /** The sort is a permutation of its input. */
  lemma {:induction false} OrderByTimestampPerm(s: seq<OperationTelemetry>)
    ensures multiset(OrderByTimestamp(s)) == multiset(s)
  {
    if s != [] {
      assert s == [s[0]] + s[1..];
      OrderByTimestampPerm(s[1..]);
      InsertByTimestampPerm(s[0], OrderByTimestamp(s[1..]));
    }
  }

  lemma {:induction false} OrderByTimestampSorted(s: seq<OperationTelemetry>)
    ensures SortedByTimestamp(OrderByTimestamp(s))
  {
    if s != [] {
      OrderByTimestampSorted(s[1..]);
      InsertByTimestampSorted(s[0], OrderByTimestamp(s[1..]));
    }
  }

  /** The position of the earliest record; among records with equal timestamps, the first. */
  function EarliestIndex(s: seq<OperationTelemetry>): (k: nat)
    requires s != []
    ensures k < |s|
    ensures forall j | 0 <= j < |s| :: s[k].Timestamp() <= s[j].Timestamp()
    ensures forall j | 0 <= j < k :: s[k].Timestamp() < s[j].Timestamp()
  {
    if |s| == 1 then 0
    else
      var k := EarliestIndex(s[1..]);
      if s[0].Timestamp() <= s[k + 1].Timestamp() then 0 else k + 1
  }

  /** The stable sort puts first the earliest record, and of several earliest the first in the input. */
  lemma {:induction false} OrderByTimestampFirst(s: seq<OperationTelemetry>)
    requires s != []
    ensures OrderByTimestamp(s)[0] == s[EarliestIndex(s)]
  {
    if |s| > 1 {
      OrderByTimestampFirst(s[1..]);
    }
  }

  // ---------------------------------------------------------------------------------------
  // Removing a record by id
  // ---------------------------------------------------------------------------------------

  /** The index of the last record with the given id, or -1 when there is none. */
  function LastIndexOf(items: seq<OperationTelemetry>, id: string): (k: int)
    ensures -1 <= k < |items|
    ensures k >= 0 ==> items[k].Id() == id
  {
    if items == [] then -1
    else if items[|items| - 1].Id() == id then |items| - 1
    else LastIndexOf(items[..|items| - 1], id)
  }

  /** -1 exactly when no record has the id; otherwise no later record has it. */
  lemma {:induction false} LastIndexOfIsLast(items: seq<OperationTelemetry>, id: string)
    ensures var k := LastIndexOf(items, id);
      && (k == -1 <==> forall i | 0 <= i < |items| :: items[i].Id() != id)
      && (k >= 0 ==> forall i | k < i < |items| :: items[i].Id() != id)
  {
    if items != [] && items[|items| - 1].Id() != id {
      var init := items[..|items| - 1];
      LastIndexOfIsLast(init, id);
      assert forall i | 0 <= i < |init| :: init[i] == items[i];
    }
  }

  lemma MemberFound(items: seq<OperationTelemetry>, x: OperationTelemetry)
    requires x in items
    ensures LastIndexOf(items, x.Id()) != -1
  {
    LastIndexOfIsLast(items, x.Id());
    var i :| 0 <= i < |items| && items[i] == x;
    assert items[i].Id() == x.Id();
  }

  /** The list without its element at index `k`. */
  function RemoveAt(items: seq<OperationTelemetry>, k: nat): (r: seq<OperationTelemetry>)
    requires k < |items|
    ensures |r| == |items| - 1
  {
    items[..k] + items[k + 1..]
  }

  /** Removing at `k` takes out that one record. */
  lemma RemoveAtPerm(items: seq<OperationTelemetry>, k: nat)
    requires k < |items|
    ensures multiset(RemoveAt(items, k)) == multiset(items) - multiset{items[k]}
  {
    var a, b := items[..k], items[k + 1..];
    assert items == a + [items[k]] + b;
    assert multiset(items) == multiset(a) + multiset{items[k]} + multiset(b);
  }

  /** Removing at `k` keeps the other records in their order. */
  lemma RemoveAtOrder(items: seq<OperationTelemetry>, k: nat)
    requires k < |items|
    ensures forall i | 0 <= i < |items| - 1 :: RemoveAt(items, k)[i] == if i < k then items[i] else items[i + 1]
  {
    var a, b := items[..k], items[k + 1..];
    var r := a + b;
    assert RemoveAt(items, k) == r;
    forall i | 0 <= i < |r| ensures r[i] == if i < k then items[i] else items[i + 1] {
      if i < k {
        assert r[i] == a[i];
      } else {
        assert r[i] == b[i - k];
      }
    }
  }

  /** The list after removing the last record with the given id; unchanged when there is none. */
  function WithoutId(items: seq<OperationTelemetry>, id: string): (r: seq<OperationTelemetry>)
    ensures |r| == if LastIndexOf(items, id) == -1 then |items| else |items| - 1
  {
    var k := LastIndexOf(items, id);
    if k == -1 then items else RemoveAt(items, k)
  }

  /** Removal takes out exactly the record at the last matching index and keeps the others in order. */
  lemma WithoutIdContents(items: seq<OperationTelemetry>, id: string)
    ensures LastIndexOf(items, id) == -1 ==> WithoutId(items, id) == items
    ensures LastIndexOf(items, id) >= 0 ==>
      multiset(WithoutId(items, id)) == multiset(items) - multiset{items[LastIndexOf(items, id)]}
    ensures LastIndexOf(items, id) >= 0 ==>
      forall i | 0 <= i < |items| - 1 ::
        WithoutId(items, id)[i] == if i < LastIndexOf(items, id) then items[i] else items[i + 1]
  {
    var k := LastIndexOf(items, id);
    if k >= 0 {
      assert WithoutId(items, id) == RemoveAt(items, k);
      RemoveAtPerm(items, k);
      RemoveAtOrder(items, k);
    }
  }

  // ---------------------------------------------------------------------------------------
  // The walk, as functions
  // ---------------------------------------------------------------------------------------

  /** The records of the pool whose parent id is `parentId`, in pool order. */
  function ChildrenOf(pool: seq<OperationTelemetry>, parentId: string): (r: seq<OperationTelemetry>)
    ensures |r| <= |pool|
    ensures forall i | 0 <= i < |r| :: r[i].ParentId() == Some(parentId)
  {
    if pool == [] then []
    else
      var rest := ChildrenOf(pool[1..], parentId);
      if pool[0].ParentId() == Some(parentId) then [pool[0]] + rest else rest
  }

  /** Filtering keeps a part of the pool. */
  lemma {:induction false} ChildrenOfSub(pool: seq<OperationTelemetry>, parentId: string)
    ensures multiset(ChildrenOf(pool, parentId)) <= multiset(pool)
  {
    if pool != [] {
      assert pool == [pool[0]] + pool[1..];
      ChildrenOfSub(pool[1..], parentId);
    }
  }

  /** The children are exactly the records of the pool with that parent id. */
  lemma {:induction false} ChildrenOfMembers(pool: seq<OperationTelemetry>, parentId: string)
    ensures forall x | x in ChildrenOf(pool, parentId) :: x in pool && x.ParentId() == Some(parentId)
    ensures forall x | x in pool && x.ParentId() == Some(parentId) :: x in ChildrenOf(pool, parentId)
  {
    if pool != [] {
      assert pool == [pool[0]] + pool[1..];
      ChildrenOfMembers(pool[1..], parentId);
    }
  }

  /** The children in timestamp order: the records of the pool with that parent id, and only those. */
  lemma OrderedChildren(pool: seq<OperationTelemetry>, parentId: string)
    ensures var nexts := OrderByTimestamp(ChildrenOf(pool, parentId));
      && multiset(nexts) <= multiset(pool)
      && (forall x | x in nexts :: x in pool && x.ParentId() == Some(parentId))
      && (forall x | x in pool && x.ParentId() == Some(parentId) :: x in nexts)
  {
    var children := ChildrenOf(pool, parentId);
    var nexts := OrderByTimestamp(children);
    ChildrenOfMembers(pool, parentId);
    ChildrenOfSub(pool, parentId);
    OrderByTimestampPerm(children);
    forall x | x in nexts ensures x in children {
      assert x in multiset(nexts);
    }
    forall x | x in children ensures x in nexts {
      assert x in multiset(children);
    }
  }

  /**
   * Expanding `parent` over the working list `pool`: the records emitted (each child in
   * timestamp order, each followed by its own expansion) and the working list afterwards.
   */
  function SubtreeOrder(parent: OperationTelemetry, pool: seq<OperationTelemetry>)
    : (r: (seq<OperationTelemetry>, seq<OperationTelemetry>))
    ensures |r.1| <= |pool|
    decreases |pool|, 1
  {
    if |pool| == 0 then ([], pool)
    else
      var nexts := OrderByTimestamp(ChildrenOf(pool, parent.Id()));
      assert nexts != [] ==> LastIndexOf(pool, nexts[0].Id()) != -1 by {
        if nexts != [] {
          OrderedChildren(pool, parent.Id());
          MemberFound(pool, nexts[0]);
        }
      }
      SiblingsOrder(nexts, pool, |pool|)
  }

  /**
   * The loop over the children `nexts` (computed once, before the loop): remove each from the
   * working list, emit it, then expand it. `bound` is the size of the working list when the
   * loop started; the first removal always succeeds, so every expansion runs on a smaller list.
   */
  function SiblingsOrder(nexts: seq<OperationTelemetry>, pool: seq<OperationTelemetry>, bound: nat)
    : (r: (seq<OperationTelemetry>, seq<OperationTelemetry>))
    requires |pool| <= bound
    requires |pool| == bound && nexts != [] ==> LastIndexOf(pool, nexts[0].Id()) != -1
    ensures |r.1| <= |pool|
    decreases bound, 0, |nexts|
  {
    if nexts == [] then ([], pool)
    else
      var next := nexts[0];
      var current := WithoutId(pool, next.Id());
      var child := SubtreeOrder(next, current);
      var siblings := SiblingsOrder(nexts[1..], child.1, bound);
      ([next] + child.0 + siblings.0, siblings.1)
  }

  /** One round of the sibling loop, when its removal succeeds or the list has already shrunk. */
  lemma SiblingsUnfold(nexts: seq<OperationTelemetry>, pool: seq<OperationTelemetry>, bound: nat)
    requires nexts != [] && |pool| <= bound
    requires |pool| < bound || LastIndexOf(pool, nexts[0].Id()) != -1
    ensures var child := SubtreeOrder(nexts[0], WithoutId(pool, nexts[0].Id()));
      var siblings := SiblingsOrder(nexts[1..], child.1, bound);
      SiblingsOrder(nexts, pool, bound) == ([nexts[0]] + child.0 + siblings.0, siblings.1)
  {
    if |pool| == bound {
      LastIndexOfIsLast(pool, nexts[0].Id());
      var k := LastIndexOf(pool, nexts[0].Id());
      assert pool[k].Id() == nexts[0].Id();
    }
  }

  /** The whole sort: the earliest record, then the expansion of it over the other records. */
  function CorrelationSorted(telemetries: seq<OperationTelemetry>): (r: seq<OperationTelemetry>)
    ensures r == [] <==> telemetries == []
  {
    if |telemetries| == 0 then []
    else
      var sorted := OrderByTimestamp(telemetries);
      var parent := sorted[0];
      var current := WithoutId(sorted, parent.Id());
      [parent] + SubtreeOrder(parent, current).0
  }

  /** The sort starts with the earliest record (of several earliest, the first in the input). */
  lemma CorrelationSortedFirst(telemetries: seq<OperationTelemetry>)
    requires telemetries != []
    ensures CorrelationSorted(telemetries)[0] == telemetries[EarliestIndex(telemetries)]
  {
    OrderByTimestampFirst(telemetries);
  }

  // ---------------------------------------------------------------------------------------
  // Every emitted record hangs under the root or under a record emitted before it
  // ---------------------------------------------------------------------------------------

  ghost predicate LinkedFrom(rootId: string, out: seq<OperationTelemetry>)
  {
    forall j | 0 <= j < |out| ::
      out[j].ParentId() == Some(rootId) || exists i | 0 <= i < j :: out[j].ParentId() == Some(out[i].Id())
  }

  /** Every record after the first has a parent id, and that parent is among the records before it. */
  ghost predicate ParentsFirst(r: seq<OperationTelemetry>)
  {
    forall j | 1 <= j < |r| ::
      r[j].ParentId().Some? && exists i | 0 <= i < j :: r[j].ParentId() == Some(r[i].Id())
  }

  lemma {:induction false} SubtreeLinked(parent: OperationTelemetry, pool: seq<OperationTelemetry>)
    ensures LinkedFrom(parent.Id(), SubtreeOrder(parent, pool).0)
    decreases |pool|, 1
  {
    if |pool| != 0 {
      var nexts := OrderByTimestamp(ChildrenOf(pool, parent.Id()));
      OrderedChildren(pool, parent.Id());
      if nexts != [] { MemberFound(pool, nexts[0]); }
      SiblingsLinked(parent.Id(), nexts, pool, |pool|);
    }
  }

  lemma {:induction false} SiblingsLinked(parentId: string, nexts: seq<OperationTelemetry>,
                                          pool: seq<OperationTelemetry>, bound: nat)
    requires |pool| <= bound
    requires |pool| == bound && nexts != [] ==> LastIndexOf(pool, nexts[0].Id()) != -1
    requires forall x | x in nexts :: x.ParentId() == Some(parentId)
    ensures LinkedFrom(parentId, SiblingsOrder(nexts, pool, bound).0)
    decreases bound, 0, |nexts|
  {
    if nexts != [] {
      var next := nexts[0];
      var current := WithoutId(pool, next.Id());
      var child := SubtreeOrder(next, current);
      SubtreeLinked(next, current);
      assert forall x | x in nexts[1..] :: x in nexts;
      SiblingsLinked(parentId, nexts[1..], child.1, bound);
      LinkedConcat(parentId, next, child.0, SiblingsOrder(nexts[1..], child.1, bound).0);
    }
  }

  /** A child followed by its own linked expansion and by linked siblings is linked. */
  lemma LinkedConcat(parentId: string, next: OperationTelemetry, a: seq<OperationTelemetry>,
                     b: seq<OperationTelemetry>)
    requires next.ParentId() == Some(parentId)
    requires LinkedFrom(next.Id(), a) && LinkedFrom(parentId, b)
    ensures LinkedFrom(parentId, [next] + a + b)
  {
    var out := [next] + a + b;
    forall j | 0 <= j < |out|
      ensures out[j].ParentId() == Some(parentId) ||
              exists i | 0 <= i < j :: out[j].ParentId() == Some(out[i].Id())
    {
      if j == 0 {
      } else if j <= |a| {
        assert out[j] == a[j - 1];
        if a[j - 1].ParentId() == Some(next.Id()) {
          assert out[0] == next;
        } else {
          var i :| 0 <= i < j - 1 && a[j - 1].ParentId() == Some(a[i].Id());
          assert out[i + 1] == a[i];
        }
      } else {
        var jb := j - 1 - |a|;
        assert out[j] == b[jb];
        if b[jb].ParentId() != Some(parentId) {
          var i :| 0 <= i < jb && b[jb].ParentId() == Some(b[i].Id());
          assert out[1 + |a| + i] == b[i];
        }
      }
    }
  }

  /** Every record after the first has its parent among the records before it. */
  lemma CorrelationSortedLinked(telemetries: seq<OperationTelemetry>)
    ensures ParentsFirst(CorrelationSorted(telemetries))
  {
    if |telemetries| != 0 {
      var sorted := OrderByTimestamp(telemetries);
      var parent := sorted[0];
      var current := WithoutId(sorted, parent.Id());
      var out := SubtreeOrder(parent, current).0;
      SubtreeLinked(parent, current);
      RootedLinked(parent, out);
    }
  }

  lemma RootedLinked(root: OperationTelemetry, out: seq<OperationTelemetry>)
    requires LinkedFrom(root.Id(), out)
    ensures ParentsFirst([root] + out)
  {
    var r := [root] + out;
    forall j | 1 <= j < |r|
      ensures r[j].ParentId().Some? && exists i | 0 <= i < j :: r[j].ParentId() == Some(r[i].Id())
    {
      assert r[j] == out[j - 1];
      if out[j - 1].ParentId() == Some(root.Id()) {
        assert r[0] == root;
        assert r[j].ParentId() == Some(r[0].Id());
      } else {
        var i :| 0 <= i < j - 1 && out[j - 1].ParentId() == Some(out[i].Id());
        assert r[i + 1] == out[i];
        assert r[j].ParentId() == Some(r[i + 1].Id());
      }
    }
  }

  // ---------------------------------------------------------------------------------------
  // With unique ids: the output is a duplicate-free part of the input, and what is dropped
  // is exactly what no emitted record is a parent of
  // ---------------------------------------------------------------------------------------

  ghost predicate UniqueIds(s: seq<OperationTelemetry>)
  {
    forall i, j | 0 <= i < j < |s| :: s[i].Id() != s[j].Id()
  }

  /** Unique ids, said of a multiset: every record occurs once and no two share an id. */
  ghost predicate DistinctIds(m: multiset<OperationTelemetry>)
  {
    && (forall x | x in m :: m[x] == 1)
    && (forall x, y | x in m && y in m && x.Id() == y.Id() :: x == y)
  }

  lemma {:induction false} UniqueIdsDistinct(s: seq<OperationTelemetry>)
    requires UniqueIds(s)
    ensures DistinctIds(multiset(s))
  {
    if s != [] {
      var t := s[1..];
      assert s == [s[0]] + t;
      assert UniqueIds(t) by {
        forall i, j | 0 <= i < j < |t| ensures t[i].Id() != t[j].Id() {
          assert t[i] == s[i + 1] && t[j] == s[j + 1];
        }
      }
      UniqueIdsDistinct(t);
      assert forall y | y in t :: y.Id() != s[0].Id() by {
        forall y | y in t ensures y.Id() != s[0].Id() {
          var j :| 0 <= j < |t| && t[j] == y;
          assert s[j + 1] == y;
        }
      }
    }
  }

  lemma DistinctIdsSub(small: multiset<OperationTelemetry>, big: multiset<OperationTelemetry>)
    requires small <= big && DistinctIds(big)
    ensures DistinctIds(small)
  {
    forall x | x in small ensures small[x] == 1 {
      assert big[x] == 1;
    }
  }

  lemma {:induction false} DistinctIdsUnique(s: seq<OperationTelemetry>)
    requires DistinctIds(multiset(s))
    ensures UniqueIds(s)
  {
    forall i, j | 0 <= i < j < |s| ensures s[i].Id() != s[j].Id() {
      RepeatCounted(s, i, j);
    }
  }

  /** A record at two positions occurs at least twice. */
  lemma RepeatCounted(s: seq<OperationTelemetry>, i: nat, j: nat)
    requires i < j < |s|
    ensures s[i] == s[j] ==> multiset(s)[s[j]] >= 2
  {
    var front := s[..j];
    assert s == front + [s[j]] + s[j + 1..];
    assert front[i] == s[i];
    assert s[i] in multiset(front);
  }

  /** No record of `rest` is a child of a record of `emitted`. */
  ghost predicate NoChildLeft(rest: seq<OperationTelemetry>, emitted: seq<OperationTelemetry>)
  {
    forall x, v | x in rest && v in emitted :: x.ParentId() != Some(v.Id())
  }

  /** With distinct ids, removing by the id of a member removes that member and only it. */
  lemma WithoutMember(pool: seq<OperationTelemetry>, x: OperationTelemetry)
    requires x in pool && DistinctIds(multiset(pool))
    ensures var current := WithoutId(pool, x.Id());
      && multiset(current) == multiset(pool) - multiset{x}
      && DistinctIds(multiset(current))
      && (forall y | y in current :: y in pool && y.Id() != x.Id())
  {
    MemberFound(pool, x);
    var k := LastIndexOf(pool, x.Id());
    assert pool[k] in multiset(pool);
    assert pool[k] == x;
    WithoutIdContents(pool, x.Id());
    var current := WithoutId(pool, x.Id());
    DistinctIdsSub(multiset(current), multiset(pool));
    forall y | y in current ensures y in pool && y.Id() != x.Id() {
      assert y in multiset(current);
      assert multiset(current)[x] == 0;
    }
  }

  /**
   * The expansion of a child takes none of its later siblings: everything it emits hangs below
   * the child, and no record of the pool carries the parent's id.
   */
  lemma LaterSiblingsKept(parentId: string, next: OperationTelemetry, tail: seq<OperationTelemetry>,
                          pool: seq<OperationTelemetry>, a: seq<OperationTelemetry>, after: seq<OperationTelemetry>)
    requires DistinctIds(multiset(pool))
    requires forall x | x in pool :: x.Id() != parentId
    requires next in pool && multiset([next] + tail) <= multiset(pool)
    requires forall x | x in tail :: x.ParentId() == Some(parentId)
    requires multiset(a) + multiset(after) == multiset(pool) - multiset{next}
    requires LinkedFrom(next.Id(), a)
    ensures multiset(tail) <= multiset(after)
  {
    ExpansionOffParent(parentId, next, pool, a, after);
    assert multiset([next] + tail) == multiset{next} + multiset(tail);
    forall y ensures multiset(tail)[y] <= multiset(after)[y] {
      if y in tail {
        assert y in multiset(pool);
        assert multiset(tail)[y] == 1 && y != next;
        assert y !in multiset(a);
        assert y in multiset(pool) - multiset{next};
      }
    }
  }

  /** Nothing the expansion of a record emits is a child of a parent outside the pool. */
  lemma ExpansionOffParent(parentId: string, next: OperationTelemetry, pool: seq<OperationTelemetry>,
                           a: seq<OperationTelemetry>, after: seq<OperationTelemetry>)
    requires forall x | x in pool :: x.Id() != parentId
    requires next in pool
    requires multiset(a) + multiset(after) == multiset(pool) - multiset{next}
    requires LinkedFrom(next.Id(), a)
    ensures forall j | 0 <= j < |a| :: a[j].ParentId() != Some(parentId)
  {
    forall j | 0 <= j < |a| ensures a[j].ParentId() != Some(parentId) {
      if a[j].ParentId() != Some(next.Id()) {
        var i :| 0 <= i < j && a[j].ParentId() == Some(a[i].Id());
        assert a[i] in multiset(a);
        assert a[i] in multiset(pool) - multiset{next};
      }
    }
  }

  /** One round of the sibling loop keeps the partition and the closure facts. */
  lemma SiblingStep(next: OperationTelemetry, tail: seq<OperationTelemetry>, pool: seq<OperationTelemetry>,
                    a: seq<OperationTelemetry>, after: seq<OperationTelemetry>,
                    b: seq<OperationTelemetry>, rest: seq<OperationTelemetry>)
    requires DistinctIds(multiset(pool)) && next in pool
    requires multiset(a) + multiset(after) == multiset(pool) - multiset{next}
    requires forall x | x in after :: x.ParentId() != Some(next.Id())
    requires NoChildLeft(after, a)
    requires multiset(b) + multiset(rest) == multiset(after)
    requires forall x | x in rest :: x !in tail
    requires NoChildLeft(rest, b)
    ensures multiset([next] + a + b) + multiset(rest) == multiset(pool)
    ensures forall x | x in rest :: x !in [next] + tail
    ensures NoChildLeft(rest, [next] + a + b)
  {
    assert multiset(pool)[next] == 1;
    calc {
      multiset([next] + a + b) + multiset(rest);
      multiset{next} + multiset(a) + (multiset(b) + multiset(rest));
      multiset{next} + (multiset(a) + multiset(after));
      { PutBack(multiset(pool), next); }
      multiset(pool);
    }
    assert forall x | x in rest :: x in after by {
      forall x | x in rest ensures x in after {
        assert x in multiset(rest);
        assert x in multiset(after);
      }
    }
    assert forall x | x in after :: x != next by {
      forall x | x in after ensures x != next { assert x in multiset(after); }
    }
    forall x, v | x in rest && v in [next] + a + b ensures x.ParentId() != Some(v.Id()) {
      if v != next && v !in a {
        assert v in b;
      }
    }
  }

  lemma {:induction false} SubtreePartition(parent: OperationTelemetry, pool: seq<OperationTelemetry>)
    requires DistinctIds(multiset(pool))
    requires forall x | x in pool :: x.Id() != parent.Id()
    ensures var r := SubtreeOrder(parent, pool);
      && multiset(r.0) + multiset(r.1) == multiset(pool)
      && (forall x | x in r.1 :: x.ParentId() != Some(parent.Id()))
      && NoChildLeft(r.1, r.0)
    decreases |pool|, 1
  {
    if |pool| != 0 {
      var nexts := OrderByTimestamp(ChildrenOf(pool, parent.Id()));
      OrderedChildren(pool, parent.Id());
      if nexts != [] { MemberFound(pool, nexts[0]); }
      SiblingsPartition(parent.Id(), nexts, pool, |pool|);
      var r := SiblingsOrder(nexts, pool, |pool|);
      NoChildOfParentLeft(parent.Id(), nexts, pool, r.0, r.1);
    }
  }

  /** When every child is among the siblings and none of these is left, no child is left. */
  lemma NoChildOfParentLeft(parentId: string, nexts: seq<OperationTelemetry>, pool: seq<OperationTelemetry>,
                            emitted: seq<OperationTelemetry>, left: seq<OperationTelemetry>)
    requires forall x | x in pool && x.ParentId() == Some(parentId) :: x in nexts
    requires multiset(emitted) + multiset(left) == multiset(pool)
    requires forall x | x in left :: x !in nexts
    ensures forall x | x in left :: x.ParentId() != Some(parentId)
  {
    forall x | x in left ensures x.ParentId() != Some(parentId) {
      assert x in multiset(left);
      assert x in multiset(pool);
    }
  }

  lemma {:induction false} SiblingsPartition(parentId: string, nexts: seq<OperationTelemetry>,
                                             pool: seq<OperationTelemetry>, bound: nat)
    requires |pool| <= bound
    requires |pool| == bound && nexts != [] ==> LastIndexOf(pool, nexts[0].Id()) != -1
    requires DistinctIds(multiset(pool))
    requires forall x | x in pool :: x.Id() != parentId
    requires multiset(nexts) <= multiset(pool)
    requires forall x | x in nexts :: x.ParentId() == Some(parentId)
    ensures var r := SiblingsOrder(nexts, pool, bound);
      && multiset(r.0) + multiset(r.1) == multiset(pool)
      && (forall x | x in r.1 :: x !in nexts)
      && NoChildLeft(r.1, r.0)
    decreases bound, 0, |nexts|
  {
    if nexts != [] {
      var next, tail := nexts[0], nexts[1..];
      assert nexts == [next] + tail;
      assert next in multiset(nexts);
      var current := WithoutId(pool, next.Id());
      WithoutMember(pool, next);
      SubtreePartition(next, current);
      SubtreeLinked(next, current);
      var child := SubtreeOrder(next, current);
      var a, after := child.0, child.1;
      LaterSiblingsKept(parentId, next, tail, pool, a, after);
      DistinctIdsSub(multiset(after), multiset(current));
      assert forall y | y in after :: y in pool by {
        forall y | y in after ensures y in pool { assert y in multiset(after); }
      }
      SiblingsPartition(parentId, tail, after, bound);
      var siblings := SiblingsOrder(tail, after, bound);
      SiblingStep(next, tail, pool, a, after, siblings.0, siblings.1);
    }
  }

  // ---------------------------------------------------------------------------------------
  // Siblings come out in timestamp order, each followed by its whole expansion
  // ---------------------------------------------------------------------------------------

  lemma {:induction false} ChildrenOfAppend(a: seq<OperationTelemetry>, b: seq<OperationTelemetry>, parentId: string)
    ensures ChildrenOf(a + b, parentId) == ChildrenOf(a, parentId) + ChildrenOf(b, parentId)
    decreases |a|
  {
    if a == [] {
      assert a + b == b;
    } else {
      var x, rest := a[0], a[1..];
      assert a + b == [x] + (rest + b);
      ChildrenOfAppend(rest, b, parentId);
    }
  }

  lemma {:induction false} ChildrenOfNone(a: seq<OperationTelemetry>, parentId: string)
    requires forall j | 0 <= j < |a| :: a[j].ParentId() != Some(parentId)
    ensures ChildrenOf(a, parentId) == []
  {
    if a != [] {
      ChildrenOfNone(a[1..], parentId);
    }
  }

  /**
   * The children of `parentId` among the records the sibling loop emits are the siblings
   * themselves, in the loop's order: no expansion emits a record of the same parent.
   */
  lemma {:induction false} SiblingsChildren(parentId: string, nexts: seq<OperationTelemetry>,
                                            pool: seq<OperationTelemetry>, bound: nat)
    requires |pool| <= bound
    requires |pool| == bound && nexts != [] ==> LastIndexOf(pool, nexts[0].Id()) != -1
    requires DistinctIds(multiset(pool))
    requires forall x | x in pool :: x.Id() != parentId
    requires multiset(nexts) <= multiset(pool)
    requires forall x | x in nexts :: x.ParentId() == Some(parentId)
    ensures ChildrenOf(SiblingsOrder(nexts, pool, bound).0, parentId) == nexts
    decreases bound, 0, |nexts|
  {
    if nexts != [] {
      var next, tail := nexts[0], nexts[1..];
      assert nexts == [next] + tail;
      var child := SubtreeOrder(next, WithoutId(pool, next.Id()));
      SiblingRound(parentId, next, tail, pool);
      SiblingsChildren(parentId, tail, child.1, bound);
      ChildrenStep(parentId, next, child.0, SiblingsOrder(tail, child.1, bound).0, tail);
    }
  }

  /** What one round of the sibling loop leaves for the next: its expansion holds no sibling, and the rest of the siblings are still in the working list. */
  lemma SiblingRound(parentId: string, next: OperationTelemetry, tail: seq<OperationTelemetry>,
                     pool: seq<OperationTelemetry>)
    requires DistinctIds(multiset(pool))
    requires forall x | x in pool :: x.Id() != parentId
    requires multiset([next] + tail) <= multiset(pool)
    requires forall x | x in tail :: x.ParentId() == Some(parentId)
    ensures var child := SubtreeOrder(next, WithoutId(pool, next.Id()));
      && (forall j | 0 <= j < |child.0| :: child.0[j].ParentId() != Some(parentId))
      && DistinctIds(multiset(child.1))
      && (forall y | y in child.1 :: y.Id() != parentId)
      && multiset(tail) <= multiset(child.1)
  {
    assert next in multiset([next] + tail);
    var current := WithoutId(pool, next.Id());
    WithoutMember(pool, next);
    SubtreePartition(next, current);
    SubtreeLinked(next, current);
    var child := SubtreeOrder(next, current);
    var a, after := child.0, child.1;
    ExpansionOffParent(parentId, next, pool, a, after);
    LaterSiblingsKept(parentId, next, tail, pool, a, after);
    DistinctIdsSub(multiset(after), multiset(current));
    forall y | y in after ensures y.Id() != parentId {
      assert y in multiset(after);
      assert y in multiset(pool) - multiset{next};
    }
  }

  /** The children of a sibling followed by its expansion and the later rounds. */
  lemma ChildrenStep(parentId: string, next: OperationTelemetry, a: seq<OperationTelemetry>,
                     rest: seq<OperationTelemetry>, tail: seq<OperationTelemetry>)
    requires next.ParentId() == Some(parentId)
    requires forall j | 0 <= j < |a| :: a[j].ParentId() != Some(parentId)
    requires ChildrenOf(rest, parentId) == tail
    ensures ChildrenOf([next] + a + rest, parentId) == [next] + tail
  {
    ChildrenOfNone(a, parentId);
    ChildrenOfAppend([next] + a, rest, parentId);
    ChildrenOfAppend([next], a, parentId);
    assert ChildrenOf([next], parentId) == [next];
  }

  /**
   * Expanding a record emits all of its children found in the working list, in the order of
   * the stable sort by timestamp, each followed by its own expansion.
   */
  lemma SubtreeChildren(parent: OperationTelemetry, pool: seq<OperationTelemetry>)
    requires DistinctIds(multiset(pool))
    requires forall x | x in pool :: x.Id() != parent.Id()
    ensures var children := ChildrenOf(SubtreeOrder(parent, pool).0, parent.Id());
      && children == OrderByTimestamp(ChildrenOf(pool, parent.Id()))
      && SortedByTimestamp(children)
      && multiset(children) == multiset(ChildrenOf(pool, parent.Id()))
  {
    OrderByTimestampSorted(ChildrenOf(pool, parent.Id()));
    OrderByTimestampPerm(ChildrenOf(pool, parent.Id()));
    if |pool| != 0 {
      var nexts := OrderByTimestamp(ChildrenOf(pool, parent.Id()));
      OrderedChildren(pool, parent.Id());
      if nexts != [] { MemberFound(pool, nexts[0]); }
      SiblingsChildren(parent.Id(), nexts, pool, |pool|);
    }
  }

  /**
   * `r` is taken from `telemetries` without duplicates, and no record left out of it is a
   * child of a record in it.
   */
  ghost predicate DuplicateFreePart(r: seq<OperationTelemetry>, telemetries: seq<OperationTelemetry>)
  {
    && multiset(r) <= multiset(telemetries)
    && UniqueIds(r)
    && |r| <= |telemetries|
    && (forall x, v | x in telemetries && x !in r && v in r :: x.ParentId() != Some(v.Id()))
  }

  /**
   * With unique ids: the output is part of the input, without duplicates, and no dropped
   * record is a child of an emitted one (together with CorrelationSortedLinked: the output is
   * exactly what is reachable from the root through parent ids).
   */
  lemma CorrelationSortedPartition(telemetries: seq<OperationTelemetry>)
    requires UniqueIds(telemetries)
    ensures DuplicateFreePart(CorrelationSorted(telemetries), telemetries)
  {
    if |telemetries| != 0 {
      UniqueIdsDistinct(telemetries);
      var sorted := OrderByTimestamp(telemetries);
      OrderByTimestampPerm(telemetries);
      RootPartition(sorted);
      SamePart(CorrelationSorted(telemetries), sorted, telemetries);
    }
  }

  /** The walk from the first record of a list with distinct ids. */
  lemma RootPartition(sorted: seq<OperationTelemetry>)
    requires sorted != [] && DistinctIds(multiset(sorted))
    ensures DuplicateFreePart([sorted[0]] + SubtreeOrder(sorted[0], WithoutId(sorted, sorted[0].Id())).0, sorted)
  {
    var parent := sorted[0];
    assert parent in multiset(sorted);
    var current := WithoutId(sorted, parent.Id());
    WithoutMember(sorted, parent);
    SubtreePartition(parent, current);
    var sub := SubtreeOrder(parent, current);
    RootStep(sorted, parent, sub.0, sub.1);
  }

  /** The root followed by a closed expansion of it over the other records. */
  lemma RootStep(sorted: seq<OperationTelemetry>, parent: OperationTelemetry,
                 emitted: seq<OperationTelemetry>, left: seq<OperationTelemetry>)
    requires DistinctIds(multiset(sorted)) && parent in multiset(sorted)
    requires multiset(emitted) + multiset(left) == multiset(sorted) - multiset{parent}
    requires forall x | x in left :: x.ParentId() != Some(parent.Id())
    requires NoChildLeft(left, emitted)
    ensures DuplicateFreePart([parent] + emitted, sorted)
  {
    var r := [parent] + emitted;
    assert multiset(r) + multiset(left) == multiset(sorted) by {
      assert multiset(r) == multiset{parent} + multiset(emitted);
      PutBack(multiset(sorted), parent);
    }
    assert NoChildLeft(left, r) by {
      forall x, v | x in left && v in r ensures x.ParentId() != Some(v.Id()) {
        if v != parent {
          assert v in emitted;
        }
      }
    }
    PartitionOutcome(sorted, r, left);
  }

  /** Being such a part depends on the input only as a multiset. */
  lemma SamePart(r: seq<OperationTelemetry>, s: seq<OperationTelemetry>, t: seq<OperationTelemetry>)
    requires multiset(s) == multiset(t) && DuplicateFreePart(r, s)
    ensures DuplicateFreePart(r, t)
  {
    assert |s| == |multiset(s)| == |multiset(t)| == |t|;
    forall x | x in t ensures x in s {
      assert x in multiset(t);
    }
  }

  lemma PutBack(m: multiset<OperationTelemetry>, x: OperationTelemetry)
    requires x in m
    ensures multiset{x} + (m - multiset{x}) == m
  {
  }

  /** A split of distinct records into an emitted part and a closed remainder. */
  lemma PartitionOutcome(telemetries: seq<OperationTelemetry>, r: seq<OperationTelemetry>,
                         left: seq<OperationTelemetry>)
    requires DistinctIds(multiset(telemetries))
    requires multiset(r) + multiset(left) == multiset(telemetries)
    requires NoChildLeft(left, r)
    ensures DuplicateFreePart(r, telemetries)
  {
    DistinctIdsSub(multiset(r), multiset(telemetries));
    DistinctIdsUnique(r);
    assert |multiset(r)| <= |multiset(telemetries)|;
    forall x, v | x in telemetries && x !in r && v in r ensures x.ParentId() != Some(v.Id()) {
      assert x in multiset(telemetries);
      assert x in multiset(left);
    }
  }

  // ---------------------------------------------------------------------------------------
  // The list and the methods that work on it in place
  // ---------------------------------------------------------------------------------------

  /** A mutable list of operation telemetry. */
  class OperationList {
    var items: seq<OperationTelemetry>

    constructor (items: seq<OperationTelemetry>)
      ensures this.items == items
    {
      this.items := items;
    }

    /** Scans for the last record with the same id and removes it; false when there is none. */
    method RemoveOperationTelemetry(telemetry: OperationTelemetry) returns (removed: bool)
      modifies this
      ensures removed <==> exists i | 0 <= i < |old(items)| :: old(items)[i].Id() == telemetry.Id()
      ensures items == WithoutId(old(items), telemetry.Id())
    {
      var index := -1;
      var i := 0;
      while i < |items|
        invariant 0 <= i <= |items|
        invariant index == LastIndexOf(items[..i], telemetry.Id())
      {
        assert items[..i + 1][..i] == items[..i];
        if items[i].Id() == telemetry.Id() {
          index := i;
        }
        i := i + 1;
      }
      assert items[..i] == items;
      LastIndexOfIsLast(items, telemetry.Id());
      if index == -1 {
        return false;
      }
      items := RemoveAt(items, index);
      return true;
    }
  }

  /** Expands `parent` over `current`, removing from `current` every record it emits. */
  method GetCorrelationSortedList(parent: OperationTelemetry, current: OperationList)
    returns (result: seq<OperationTelemetry>)
    modifies current
    ensures (result, current.items) == SubtreeOrder(parent, old(current.items))
    decreases |current.items|
  {
    result := [];
    if |current.items| != 0 {
      // the children are selected and ordered once, before the loop changes `current`
      var nexts := OrderByTimestamp(ChildrenOf(current.items, parent.Id()));
      ghost var bound := |current.items|;
      assert nexts != [] ==> LastIndexOf(current.items, nexts[0].Id()) != -1 by {
        OrderedChildren(current.items, parent.Id());
        if nexts != [] { MemberFound(current.items, nexts[0]); }
      }
      ghost var whole := SiblingsOrder(nexts, current.items, bound);
      assert nexts[0..] == nexts;
      assert result + whole.0 == whole.0;
      var i := 0;
      while i < |nexts|
        invariant 0 <= i <= |nexts| && |current.items| <= bound
        invariant i < |nexts| ==> |current.items| < bound || LastIndexOf(current.items, nexts[i].Id()) != -1
        invariant whole.0 == result + SiblingsOrder(nexts[i..], current.items, bound).0
        invariant whole.1 == SiblingsOrder(nexts[i..], current.items, bound).1
      {
        var next := nexts[i];
        ghost var before, done := current.items, result;
        var _ := current.RemoveOperationTelemetry(next);
        result := result + [next];
        var childResult := GetCorrelationSortedList(next, current);
        SiblingsAdvance(nexts, i, before, bound, (childResult, current.items), done, whole);
        result := result + childResult;
        i := i + 1;
      }
      assert nexts[i..] == [];
      assert result + [] == result;
    }
  }

  /** The sibling loop after one more child: what it emitted so far, and what it will emit. */
  lemma SiblingsAdvance(nexts: seq<OperationTelemetry>, i: nat, before: seq<OperationTelemetry>, bound: nat,
                        child: (seq<OperationTelemetry>, seq<OperationTelemetry>), done: seq<OperationTelemetry>,
                        whole: (seq<OperationTelemetry>, seq<OperationTelemetry>))
    requires i < |nexts| && |before| <= bound
    requires |before| < bound || LastIndexOf(before, nexts[i].Id()) != -1
    requires whole.0 == done + SiblingsOrder(nexts[i..], before, bound).0
    requires whole.1 == SiblingsOrder(nexts[i..], before, bound).1
    requires child == SubtreeOrder(nexts[i], WithoutId(before, nexts[i].Id()))
    ensures |child.1| < bound
    ensures whole.0 == done + [nexts[i]] + child.0 + SiblingsOrder(nexts[i + 1..], child.1, bound).0
    ensures whole.1 == SiblingsOrder(nexts[i + 1..], child.1, bound).1
  {
    SiblingsUnfold(nexts[i..], before, bound);
    assert nexts[i..][1..] == nexts[i + 1..];
    ConcatRegroup(done, [nexts[i]], child.0, SiblingsOrder(nexts[i + 1..], child.1, bound).0);
  }

  lemma ConcatRegroup(a: seq<OperationTelemetry>, b: seq<OperationTelemetry>, c: seq<OperationTelemetry>,
                      d: seq<OperationTelemetry>)
    ensures a + b + c + d == a + (b + c + d)
  {
  }

  /** Sorts a copy of the list by timestamp, takes its first record as the root and expands it. */
  method CorrelationSort(telemetries: seq<OperationTelemetry>) returns (result: seq<OperationTelemetry>)
    ensures result == CorrelationSorted(telemetries)
    ensures result == [] <==> telemetries == []
    ensures telemetries != [] ==> result[0] == telemetries[EarliestIndex(telemetries)]
  {
    result := [];
    if |telemetries| == 0 {
      return;
    }
    var sortedTelemetries := new OperationList(OrderByTimestamp(telemetries));
    CorrelationSortedFirst(telemetries);
    var parent := sortedTelemetries.items[0];
    result := result + [parent];
    var _ := sortedTelemetries.RemoveOperationTelemetry(parent);
    var sortedList := GetCorrelationSortedList(parent, sortedTelemetries);
    result := result + sortedList;
  }
}
