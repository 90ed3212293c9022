/** The compiler's cleanup of its temporary directory: Files.walk lists the
    directory and everything below it, the listing is sorted by
    Comparator.reverseOrder(), and each entry is deleted in that order,
    a failed deletion being skipped. The file system is a set of path
    strings; a path's descendants are the paths that extend it after a
    '/'. */
module Workspace {
  import opened Wrappers

  type Path = string

  /** `a` is a proper ancestor of `d`. */
  predicate IsAncestor(a: Path, d: Path) {
    |a| < |d| && d[..|a|] == a && d[|a|] == '/'
  }

  lemma AncestorTransitive(a: Path, b: Path, c: Path)
    requires IsAncestor(a, b) && IsAncestor(b, c)
    ensures IsAncestor(a, c)
  {
    assert c[..|b|][..|a|] == c[..|a|];
    assert c[|a|] == c[..|b|][|a|];
  }

  /* ---------------------------------------------------------------
     Path order: the natural order of paths compares them character by
     character, a proper prefix coming first.
     --------------------------------------------------------------- */

  predicate Lt(a: Path, b: Path)
    decreases |a|
  {
    if |a| == 0 then |b| > 0
    else if |b| == 0 then false
    else if a[0] != b[0] then a[0] < b[0]
    else Lt(a[1..], b[1..])
  }

  lemma {:induction false} LtIrreflexive(a: Path)
    ensures !Lt(a, a)
    decreases |a|
  {
    if |a| > 0 {
      LtIrreflexive(a[1..]);
    }
  }

  lemma {:induction false} LtTransitive(a: Path, b: Path, c: Path)
    requires Lt(a, b) && Lt(b, c)
    ensures Lt(a, c)
    decreases |a|
  {
    if |a| > 0 && a[0] == b[0] && b[0] == c[0] {
      LtTransitive(a[1..], b[1..], c[1..]);
    }
  }

  lemma {:induction false} LtTotal(a: Path, b: Path)
    requires a != b
    ensures Lt(a, b) || Lt(b, a)
    decreases |a|
  {
    if |a| > 0 && |b| > 0 && a[0] == b[0] {
      assert a == [a[0]] + a[1..] && b == [b[0]] + b[1..];
      LtTotal(a[1..], b[1..]);
    }
  }

  lemma {:induction false} LtAsymmetric(a: Path, b: Path)
    requires Lt(a, b)
    ensures !Lt(b, a)
    decreases |a|
  {
    if |a| > 0 && a[0] == b[0] {
      LtAsymmetric(a[1..], b[1..]);
    }
  }

  /** A proper prefix sorts first; in particular an ancestor sorts before
      its descendants. */
  lemma {:induction false} PrefixIsLess(a: Path, b: Path)
    requires |a| < |b| && b[..|a|] == a
    ensures Lt(a, b)
    decreases |a|
  {
    if |a| > 0 {
      assert a[0] == b[0];
      assert b[1..][..|a| - 1] == a[1..];
      PrefixIsLess(a[1..], b[1..]);
    }
  }

  /* ---------------------------------------------------------------
     sorted(Comparator.reverseOrder())
     --------------------------------------------------------------- */

  /** Non-increasing: no entry is less than an earlier one. */
  predicate Descending(s: seq<Path>) {
    forall i, j | 0 <= i < j < |s| :: !Lt(s[i], s[j])
  }

  function Insert(x: Path, s: seq<Path>): (r: seq<Path>)
    requires Descending(s)
    ensures Descending(r)
    ensures multiset(r) == multiset(s) + multiset{x}
    decreases |s|
  {
    if |s| == 0 || !Lt(x, s[0]) then
      InsertFront(x, s);
      [x] + s
    else
      var t := Insert(x, s[1..]);
      assert s == [s[0]] + s[1..];
      InsertBehind(x, s, t);
      [s[0]] + t
  }

  lemma InsertFront(x: Path, s: seq<Path>)
    requires Descending(s)
    requires |s| == 0 || !Lt(x, s[0])
    ensures Descending([x] + s)
  {
    var r := [x] + s;
    forall i, j | 0 <= i < j < |r|
      ensures !Lt(r[i], r[j])
    {
      if i == 0 {
        if Lt(x, s[j - 1]) {
          if j - 1 > 0 {
            assert !Lt(s[0], s[j - 1]);
            if s[0] == s[j - 1] {
            } else {
              LtTotal(s[0], s[j - 1]);
              LtTransitive(x, s[j - 1], s[0]);
            }
          }
        }
      }
    }
  }

  lemma InsertBehind(x: Path, s: seq<Path>, t: seq<Path>)
    requires |s| > 0 && Descending(s) && Lt(x, s[0])
    requires Descending(t)
    requires multiset(t) == multiset(s[1..]) + multiset{x}
    ensures Descending([s[0]] + t)
  {
    var r := [s[0]] + t;
    forall j | 0 < j < |r|
      ensures !Lt(s[0], r[j])
    {
      assert r[j] in multiset(t);
      if r[j] == x {
        LtAsymmetric(x, s[0]);
      } else {
        assert r[j] in multiset(s[1..]);
        var k :| 0 <= k < |s[1..]| && s[1..][k] == r[j];
        assert s[k + 1] == r[j];
      }
    }
  }

  /** The walk's listing sorted in reverse natural order. */
  function SortDescending(s: seq<Path>): (r: seq<Path>)
    ensures Descending(r)
    ensures multiset(r) == multiset(s)
    decreases |s|
  {
    if |s| == 0 then []
    else
      assert s == [s[0]] + s[1..];
      Insert(s[0], SortDescending(s[1..]))
  }

  /** Children before parents: in the sorted listing every path comes
      before each of its ancestors. */
  lemma DescendantsComeFirst(s: seq<Path>, i: int, j: int)
    requires Descending(s) && 0 <= i < |s| && 0 <= j < |s|
    requires IsAncestor(s[i], s[j])
    ensures j < i
  {
    PrefixIsLess(s[i], s[j]);
  }

  /* ---------------------------------------------------------------
     Deleting
     --------------------------------------------------------------- */

  /** Files.delete succeeds when the entry exists, has no entries below
      it, and is not refused by the system (`locked`). */
  predicate Deletable(fs: set<Path>, locked: set<Path>, p: Path) {
    p in fs && p !in locked && forall q | q in fs :: !IsAncestor(p, q)
  }

  function DeleteOne(fs: set<Path>, locked: set<Path>, p: Path): (r: set<Path>)
    ensures Deletable(fs, locked, p) ==> r == fs - {p}
    ensures !Deletable(fs, locked, p) ==> r == fs
  {
    if Deletable(fs, locked, p) then fs - {p} else fs
  }

  function Listed(order: seq<Path>): set<Path> {
    set p | p in order
  }

  /** forEach(Files.delete), each failure caught and skipped. */
  function DeleteInOrder(fs: set<Path>, locked: set<Path>, order: seq<Path>): (r: set<Path>)
    ensures r <= fs
    ensures forall p | p in fs && p !in r :: p in order
    decreases |order|
  {
    if |order| == 0 then fs else DeleteInOrder(DeleteOne(fs, locked, order[0]), locked, order[1..])
  }

  /** Paths under `root` that the file system holds, `root` included:
      what Files.walk lists. */
  predicate InTree(root: Path, p: Path) {
    p == root || IsAncestor(root, p)
  }

  /** cleanup: `walk` is the walk's listing, or None when starting the
      walk failed (the failure is only reported). */
  function Cleanup(fs: set<Path>, locked: set<Path>, walk: Option<seq<Path>>): (r: set<Path>)
    ensures r <= fs
    ensures walk.None? ==> r == fs
    ensures walk.Some? ==> forall p | p in fs && p !in r :: p in walk.value
  {
    if walk.None? then fs
    else
      var order := SortDescending(walk.value);
      assert forall p | p in order :: p in walk.value by {
        forall p | p in order
          ensures p in walk.value
        {
          assert p in multiset(order);
        }
      }
      DeleteInOrder(fs, locked, order)
  }

  /** Deletion is best effort and bounded: only listed entries go, and
      nothing is ever created. */
  lemma {:induction false} DeleteInOrderBounds(fs: set<Path>, locked: set<Path>, order: seq<Path>)
    ensures DeleteInOrder(fs, locked, order) <= fs
    ensures fs - Listed(order) <= DeleteInOrder(fs, locked, order)
    ensures fs * locked <= DeleteInOrder(fs, locked, order)
    decreases |order|
  {
    if |order| > 0 {
      var fs' := DeleteOne(fs, locked, order[0]);
      DeleteInOrderBounds(fs', locked, order[1..]);
      assert Listed(order) == {order[0]} + Listed(order[1..]);
    }
  }

  /** Every entry of the listing that has its descendants listed before it. */
  predicate ClosedBelow(fs: set<Path>, order: seq<Path>) {
    forall i, q | 0 <= i < |order| && q in fs && IsAncestor(order[i], q) :: q in order[..i]
  }

  /** A listing in which each entry's descendants come first and no entry
      is locked is deleted completely, and nothing else is. */
  lemma {:induction false} DeleteInOrderComplete(fs: set<Path>, locked: set<Path>, order: seq<Path>)
    requires ClosedBelow(fs, order)
    requires forall i | 0 <= i < |order| :: order[i] !in locked
    ensures DeleteInOrder(fs, locked, order) == fs - Listed(order)
    decreases |order|
  {
    if |order| > 0 {
      var p := order[0];
      var fs' := DeleteOne(fs, locked, p);
      assert fs' == fs - {p} by {
        if p in fs {
          forall q | q in fs
            ensures !IsAncestor(p, q)
          {
          }
        }
      }
      forall i, q | 0 <= i < |order[1..]| && q in fs' && IsAncestor(order[1..][i], q)
        ensures q in order[1..][..i]
      {
        assert order[1..][i] == order[i + 1];
        assert q in order[..i + 1];
        assert q != p;
        var k :| 0 <= k < i + 1 && order[k] == q;
        assert k > 0;
        assert order[1..][k - 1] == q;
      }
      DeleteInOrderComplete(fs', locked, order[1..]);
      assert Listed(order) == {order[0]} + Listed(order[1..]);
    }
  }

  /** A sorted listing meets ClosedBelow when it lists every descendant
      of each of its entries. */
  lemma SortedIsClosedBelow(fs: set<Path>, order: seq<Path>)
    requires Descending(order)
    requires forall i, q | 0 <= i < |order| && q in fs && IsAncestor(order[i], q) :: q in order
    ensures ClosedBelow(fs, order)
  {
    forall i, q | 0 <= i < |order| && q in fs && IsAncestor(order[i], q)
      ensures q in order[..i]
    {
      var j :| 0 <= j < |order| && order[j] == q;
      DescendantsComeFirst(order, i, j);
      assert order[..i][j] == q;
    }
  }

  /** The cleanup theorem: when the walk lists exactly the tree under
      `root` and nothing in it is locked, cleanup removes that tree and
      leaves every other path alone. */
  lemma CleanupRemovesTree(fs: set<Path>, locked: set<Path>, root: Path, walk: seq<Path>)
    requires forall p :: p in walk <==> p in fs && InTree(root, p)
    requires forall p | p in walk :: p !in locked
    ensures Cleanup(fs, locked, Some(walk)) == set p | p in fs && !InTree(root, p)
  {
    var order := SortDescending(walk);
    assert forall p :: p in order <==> p in walk by {
      forall p
        ensures p in order <==> p in walk
      {
        assert p in order <==> p in multiset(order);
        assert p in walk <==> p in multiset(walk);
      }
    }
    forall i, q | 0 <= i < |order| && q in fs && IsAncestor(order[i], q)
      ensures q in order
    {
      var p := order[i];
      assert p in walk;
      if p != root {
        AncestorTransitive(root, p, q);
      }
    }
    SortedIsClosedBelow(fs, order);
    DeleteInOrderComplete(fs, locked, order);
  }

  /** A locked entry keeps every ancestor it has: a directory that still
      holds something cannot be deleted. */
  lemma {:induction false} LockedKeepsAncestors(fs: set<Path>, locked: set<Path>, order: seq<Path>, p: Path, a: Path)
    requires p in fs && p in locked
    requires a in fs && IsAncestor(a, p)
    ensures p in DeleteInOrder(fs, locked, order)
    ensures a in DeleteInOrder(fs, locked, order)
    decreases |order|
  {
    if |order| > 0 {
      var fs' := DeleteOne(fs, locked, order[0]);
      assert p in fs' && a in fs';
      LockedKeepsAncestors(fs', locked, order[1..], p, a);
    }
  }

  /** A walk that could not start deletes nothing. */
  lemma FailedWalkDeletesNothing(fs: set<Path>, locked: set<Path>)
    ensures Cleanup(fs, locked, None) == fs
  {
  }
}
