/**
 * Two worked inputs for the correlation sort, each for any records with the given ids,
 * timestamps and parent ids. In the first, ids are distinct: a subtree is emitted before the
 * next sibling and an orphan is dropped. In the second, two pairs of records share an id;
 * removal by id then takes the last record with that id, which need not be the record just
 * emitted, and one record comes out twice, so the partition properties hold only for
 * distinct ids.
 */
module CorrelationSortExamples {
  import opened Wrappers
  import opened WebJobsTelemetry
  import opened CorrelationSorting

  predicate Shaped(x: OperationTelemetry, id: string, timestamp: int, parentId: Option<string>)
  {
    x.Id() == id && x.Timestamp() == timestamp && x.ParentId() == parentId
  }

  // ---------------------------------------------------------------------------------------
  // Steps of the walk, for any records
  // ---------------------------------------------------------------------------------------

  /** The last index of an id, read off a list where no later record has it. */
  lemma LastIndexAt(items: seq<OperationTelemetry>, k: nat, id: string)
    requires k < |items| && items[k].Id() == id
    requires forall i | k < i < |items| :: items[i].Id() != id
    ensures LastIndexOf(items, id) == k
  {
    LastIndexOfIsLast(items, id);
  }

  /** A record with no child left in the working list emits nothing. */
  lemma Leaf(x: OperationTelemetry, pool: seq<OperationTelemetry>)
    requires ChildrenOf(pool, x.Id()) == []
    ensures SubtreeOrder(x, pool) == ([], pool)
  {
    var none: seq<OperationTelemetry> := [];
    assert OrderByTimestamp(none) == none;
  }

  /** The expansion of a record with its only remaining child `next`. */
  lemma OnlyChild(parent: OperationTelemetry, next: OperationTelemetry, pool: seq<OperationTelemetry>)
    requires OrderByTimestamp(ChildrenOf(pool, parent.Id())) == [next]
    requires LastIndexOf(pool, next.Id()) != -1
    ensures var child := SubtreeOrder(next, WithoutId(pool, next.Id()));
      SubtreeOrder(parent, pool) == ([next] + child.0, child.1)
  {
    var child := SubtreeOrder(next, WithoutId(pool, next.Id()));
    SiblingsUnfold([next], pool, |pool|);
    assert [next][1..] == [];
    assert [next] + child.0 + [] == [next] + child.0;
  }

  /** The expansion of a record with exactly two remaining children, in this order. */
  lemma TwoChildren(parent: OperationTelemetry, first: OperationTelemetry, second: OperationTelemetry,
                    pool: seq<OperationTelemetry>, firstPool: seq<OperationTelemetry>,
                    firstEmitted: seq<OperationTelemetry>, rest: seq<OperationTelemetry>,
                    secondEmitted: seq<OperationTelemetry>, remaining: seq<OperationTelemetry>)
    requires OrderByTimestamp(ChildrenOf(pool, parent.Id())) == [first, second]
    requires LastIndexOf(pool, first.Id()) != -1 && WithoutId(pool, first.Id()) == firstPool
    requires SubtreeOrder(first, firstPool) == (firstEmitted, rest)
    requires SiblingsOrder([second], rest, |pool|) == (secondEmitted, remaining)
    ensures SubtreeOrder(parent, pool) == ([first] + firstEmitted + secondEmitted, remaining)
  {
    SiblingsUnfold([first, second], pool, |pool|);
    assert [first, second][1..] == [second];
  }

  /** The last round of the sibling loop, with `next` still in the working list. */
  lemma LastSibling(next: OperationTelemetry, pool: seq<OperationTelemetry>, bound: nat)
    requires |pool| < bound && LastIndexOf(pool, next.Id()) != -1
    ensures var child := SubtreeOrder(next, WithoutId(pool, next.Id()));
      SiblingsOrder([next], pool, bound) == ([next] + child.0, child.1)
  {
    var child := SubtreeOrder(next, WithoutId(pool, next.Id()));
    SiblingsUnfold([next], pool, bound);
    assert [next][1..] == [];
    assert [next] + child.0 + [] == [next] + child.0;
  }

  lemma Concat3<T>(x: T, y: T, z: T)
    ensures [x] + [y] + [z] == [x, y, z]
  {
  }

  /** The whole sort, once the root and its expansion are known. */
  lemma Sorted(telemetries: seq<OperationTelemetry>, sorted: seq<OperationTelemetry>, pool: seq<OperationTelemetry>,
               emitted: seq<OperationTelemetry>)
    requires telemetries != [] && OrderByTimestamp(telemetries) == sorted
    requires sorted != [] && WithoutId(sorted, sorted[0].Id()) == pool
    requires SubtreeOrder(sorted[0], pool).0 == emitted
    ensures CorrelationSorted(telemetries) == [sorted[0]] + emitted
  {
  }

  // ---------------------------------------------------------------------------------------
  // Distinct ids: a is the root, b and c its children, d the child of b, e an orphan
  // ---------------------------------------------------------------------------------------

  predicate TreeShaped(a: OperationTelemetry, b: OperationTelemetry, c: OperationTelemetry,
                       d: OperationTelemetry, e: OperationTelemetry)
  {
    && Shaped(a, "1", 0, None)
    && Shaped(b, "2", 1, Some("1"))
    && Shaped(c, "3", 3, Some("1"))
    && Shaped(d, "4", 2, Some("2"))
    && Shaped(e, "5", 5, Some("9"))
  }

  lemma TreeSorted(a: OperationTelemetry, b: OperationTelemetry, c: OperationTelemetry,
                   d: OperationTelemetry, e: OperationTelemetry)
    requires TreeShaped(a, b, c, d, e)
    ensures OrderByTimestamp([a, b, c, d, e]) == [a, b, d, c, e]
    ensures WithoutId([a, b, d, c, e], "1") == [b, d, c, e]
  {
    assert [e][1..] == [];
    assert OrderByTimestamp([e]) == [e];
    assert [d, e][1..] == [e];
    assert OrderByTimestamp([d, e]) == [d, e];
    assert InsertByTimestamp(c, [e]) == [c, e];
    assert InsertByTimestamp(c, [d, e]) == [d, c, e];
    assert [c, d, e][1..] == [d, e];
    assert OrderByTimestamp([c, d, e]) == [d, c, e];
    assert [b, c, d, e][1..] == [c, d, e];
    assert OrderByTimestamp([b, c, d, e]) == [b, d, c, e];
    assert [a, b, c, d, e][1..] == [b, c, d, e];
    LastIndexAt([a, b, d, c, e], 0, "1");
    assert [a, b, d, c, e][1..] == [b, d, c, e];
  }

  /** The root's children are b then c; b is taken out of the working list. */
  lemma TreeRootStep(a: OperationTelemetry, b: OperationTelemetry, c: OperationTelemetry,
                     d: OperationTelemetry, e: OperationTelemetry)
    requires TreeShaped(a, b, c, d, e)
    ensures OrderByTimestamp(ChildrenOf([b, d, c, e], a.Id())) == [b, c]
    ensures LastIndexOf([b, d, c, e], b.Id()) == 0 && WithoutId([b, d, c, e], b.Id()) == [d, c, e]
  {
    assert [e][1..] == [];
    assert [c, e][1..] == [e];
    assert [d, c, e][1..] == [c, e];
    assert [b, d, c, e][1..] == [d, c, e];
    assert ChildrenOf([e], "1") == [];
    assert ChildrenOf([c, e], "1") == [c];
    assert ChildrenOf([d, c, e], "1") == [c];
    assert ChildrenOf([b, d, c, e], "1") == [b, c];
    assert OrderByTimestamp([c]) == [c];
    assert InsertByTimestamp(b, [c]) == [b, c];
    assert [b, c][1..] == [c];
    LastIndexAt([b, d, c, e], 0, "2");
  }

  /** b's only child is d, which has none. */
  lemma TreeWalkB(a: OperationTelemetry, b: OperationTelemetry, c: OperationTelemetry,
                  d: OperationTelemetry, e: OperationTelemetry)
    requires TreeShaped(a, b, c, d, e)
    ensures SubtreeOrder(b, [d, c, e]) == ([d], [c, e])
  {
    assert [e][1..] == [];
    assert [c, e][1..] == [e];
    assert [d, c, e][1..] == [c, e];
    assert ChildrenOf([e], "2") == [];
    assert ChildrenOf([c, e], "2") == [];
    assert ChildrenOf([d, c, e], "2") == [d];
    assert OrderByTimestamp([d]) == [d];
    assert ChildrenOf([e], "4") == [];
    assert ChildrenOf([c, e], "4") == [];
    LastIndexAt([d, c, e], 0, "4");
    assert WithoutId([d, c, e], d.Id()) == [c, e];
    OnlyChild(b, d, [d, c, e]);
    Leaf(d, [c, e]);
  }

  /** c, the last sibling, has no child. */
  lemma TreeWalkC(a: OperationTelemetry, b: OperationTelemetry, c: OperationTelemetry,
                  d: OperationTelemetry, e: OperationTelemetry)
    requires TreeShaped(a, b, c, d, e)
    ensures SiblingsOrder([c], [c, e], 4) == ([c], [e])
  {
    assert [e][1..] == [];
    assert ChildrenOf([e], "3") == [];
    LastIndexAt([c, e], 0, "3");
    assert [c, e][1..] == [e];
    assert WithoutId([c, e], c.Id()) == [e];
    Leaf(c, [e]);
    LastSibling(c, [c, e], 4);
    assert [c] + [] == [c];
  }

  lemma TreeWalk(a: OperationTelemetry, b: OperationTelemetry, c: OperationTelemetry,
                 d: OperationTelemetry, e: OperationTelemetry)
    requires TreeShaped(a, b, c, d, e)
    ensures SubtreeOrder(a, [b, d, c, e]).0 == [b, d, c]
  {
    TreeRootStep(a, b, c, d, e);
    TreeWalkB(a, b, c, d, e);
    TreeWalkC(a, b, c, d, e);
    TwoChildren(a, b, c, [b, d, c, e], [d, c, e], [d], [c, e], [c], [e]);
    Concat3(b, d, c);
  }

  lemma TreeIdsUnique(a: OperationTelemetry, b: OperationTelemetry, c: OperationTelemetry,
                      d: OperationTelemetry, e: OperationTelemetry)
    requires TreeShaped(a, b, c, d, e)
    ensures UniqueIds([a, b, c, d, e])
  {
  }

  /** b's subtree, holding d, comes out before b's sibling c; the orphan e is dropped. */
  lemma SubtreeBeforeSibling(a: OperationTelemetry, b: OperationTelemetry, c: OperationTelemetry,
                             d: OperationTelemetry, e: OperationTelemetry)
    requires TreeShaped(a, b, c, d, e)
    ensures UniqueIds([a, b, c, d, e])
    ensures CorrelationSorted([a, b, c, d, e]) == [a, b, d, c]
  {
    TreeIdsUnique(a, b, c, d, e);
    TreeSorted(a, b, c, d, e);
    TreeWalk(a, b, c, d, e);
    Sorted([a, b, c, d, e], [a, b, d, c, e], [b, d, c, e], [b, d, c]);
  }

  // ---------------------------------------------------------------------------------------
  // Repeated ids: the root and the grandchild share id "0", the child and the stray "5"
  // ---------------------------------------------------------------------------------------

  predicate RepeatShaped(root: OperationTelemetry, child: OperationTelemetry, grandchild: OperationTelemetry,
                         orphan: OperationTelemetry, stray: OperationTelemetry)
  {
    && Shaped(root, "0", 0, None)
    && Shaped(child, "5", 1, Some("0"))
    && Shaped(grandchild, "0", 2, Some("5"))
    && Shaped(orphan, "0", 3, None)
    && Shaped(stray, "5", 4, Some("9"))
  }

  lemma RepeatSorted(r: OperationTelemetry, a: OperationTelemetry, z: OperationTelemetry,
                     o: OperationTelemetry, s: OperationTelemetry)
    requires RepeatShaped(r, a, z, o, s)
    ensures OrderByTimestamp([r, a, z, o, s]) == [r, a, z, o, s]
  {
    assert [s][1..] == [];
    assert OrderByTimestamp([s]) == [s];
    assert [o, s][1..] == [s];
    assert OrderByTimestamp([o, s]) == [o, s];
    assert [z, o, s][1..] == [o, s];
    assert OrderByTimestamp([z, o, s]) == [z, o, s];
    assert [a, z, o, s][1..] == [z, o, s];
    assert OrderByTimestamp([a, z, o, s]) == [a, z, o, s];
    assert [r, a, z, o, s][1..] == [a, z, o, s];
  }

  /** The root's id is also the orphan's, and the orphan comes last: the orphan is removed. */
  lemma RepeatRootRemoval(r: OperationTelemetry, a: OperationTelemetry, z: OperationTelemetry,
                          o: OperationTelemetry, s: OperationTelemetry)
    requires RepeatShaped(r, a, z, o, s)
    ensures WithoutId([r, a, z, o, s], "0") == [r, a, z, s]
  {
    LastIndexAt([r, a, z, o, s], 3, "0");
    assert [r, a, z, o, s][..3] == [r, a, z] && [r, a, z, o, s][4..] == [s];
  }

  /** Each removal takes the last record with the id, not the record the walk emits. */
  lemma RepeatRemovals(r: OperationTelemetry, a: OperationTelemetry, z: OperationTelemetry,
                       o: OperationTelemetry, s: OperationTelemetry)
    requires RepeatShaped(r, a, z, o, s)
    ensures LastIndexOf([r, a, z, s], "5") == 3 && WithoutId([r, a, z, s], "5") == [r, a, z]
    ensures LastIndexOf([r, a, z], "0") == 2 && WithoutId([r, a, z], "0") == [r, a]
    ensures LastIndexOf([r, a], "5") == 1 && WithoutId([r, a], "5") == [r]
  {
    LastIndexAt([r, a, z, s], 3, "5");
    LastIndexAt([r, a, z], 2, "0");
    LastIndexAt([r, a], 1, "5");
    assert [r, a, z, s][..3] == [r, a, z] && [r, a, z, s][4..] == [];
    assert [r, a, z][..2] == [r, a] && [r, a, z][3..] == [];
    assert [r, a][..1] == [r] && [r, a][2..] == [];
  }

  lemma RepeatChildren(r: OperationTelemetry, a: OperationTelemetry, z: OperationTelemetry,
                       o: OperationTelemetry, s: OperationTelemetry)
    requires RepeatShaped(r, a, z, o, s)
    ensures OrderByTimestamp(ChildrenOf([r, a, z, s], "0")) == [a]
    ensures OrderByTimestamp(ChildrenOf([r, a, z], "5")) == [z]
    ensures OrderByTimestamp(ChildrenOf([r, a], "0")) == [a]
    ensures ChildrenOf([r], "5") == []
  {
    assert [s][1..] == [];
    assert [z, s][1..] == [s];
    assert [a, z, s][1..] == [z, s];
    assert [r, a, z, s][1..] == [a, z, s];
    assert ChildrenOf([s], "0") == [];
    assert ChildrenOf([z, s], "0") == [];
    assert ChildrenOf([a, z, s], "0") == [a];
    assert ChildrenOf([r, a, z, s], "0") == [a];
    assert [z][1..] == [];
    assert [a, z][1..] == [z];
    assert [r, a, z][1..] == [a, z];
    assert ChildrenOf([z], "5") == [z];
    assert ChildrenOf([a, z], "5") == [z];
    assert ChildrenOf([r, a, z], "5") == [z];
    assert [a][1..] == [];
    assert [r, a][1..] == [a];
    assert ChildrenOf([a], "0") == [a];
    assert ChildrenOf([r, a], "0") == [a];
    assert [r][1..] == [];
    assert OrderByTimestamp([a]) == [a];
    assert OrderByTimestamp([z]) == [z];
  }

  /** Below the grandchild the walk finds the child again, under the id the root shares. */
  lemma RepeatWalk(r: OperationTelemetry, a: OperationTelemetry, z: OperationTelemetry,
                   o: OperationTelemetry, s: OperationTelemetry)
    requires RepeatShaped(r, a, z, o, s)
    ensures SubtreeOrder(r, [r, a, z, s]).0 == [a, z, a]
  {
    RepeatRemovals(r, a, z, o, s);
    RepeatChildren(r, a, z, o, s);
    Leaf(a, [r]);
    OnlyChild(z, a, [r, a]);
    OnlyChild(a, z, [r, a, z]);
    OnlyChild(r, a, [r, a, z, s]);
    assert [a] + ([z] + ([a] + [])) == [a, z, a];
  }

  /** With repeated ids the sort emits a record twice and drops two others. */
  lemma RepeatedIdsEmitTwice(r: OperationTelemetry, a: OperationTelemetry, z: OperationTelemetry,
                             o: OperationTelemetry, s: OperationTelemetry)
    requires RepeatShaped(r, a, z, o, s)
    ensures !UniqueIds([r, a, z, o, s])
    ensures CorrelationSorted([r, a, z, o, s]) == [r, a, z, a]
  {
    assert [r, a, z, o, s][0].Id() == [r, a, z, o, s][2].Id();
    RepeatSorted(r, a, z, o, s);
    RepeatRootRemoval(r, a, z, o, s);
    RepeatWalk(r, a, z, o, s);
    Sorted([r, a, z, o, s], [r, a, z, o, s], [r, a, z, s], [a, z, a]);
  }
}
