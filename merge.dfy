/**
 * `LCDocument.add_or_update_codebase` on values.  The codebases of a document are
 * keyed by path: a codebase whose path is already present takes the place of the
 * first codebase with that path, any other codebase is appended.
 */
module Merge {
  import opened Wrappers
  import opened Model

  /** The position of the first codebase with the given path, if any. */
  function IndexOfPath(cs: seq<Snapshot>, path: string): (r: Option<nat>)
    ensures r.Some? ==> r.value < |cs| && cs[r.value].path == path
    ensures r.Some? ==> forall j | 0 <= j < r.value :: cs[j].path != path
    ensures r.None? <==> forall j | 0 <= j < |cs| :: cs[j].path != path
    decreases |cs|
  {
    if cs == [] then None
    else if cs[0].path == path then Some(0)
    else match IndexOfPath(cs[1..], path)
      case None =>
        assert forall j | 1 <= j < |cs| :: cs[j] == cs[1..][j - 1];
        None
      case Some(i) =>
        assert forall j | 1 <= j < i + 1 :: cs[j] == cs[1..][j - 1];
        Some(i + 1)
  }

  /** The codebase list after `add_or_update_codebase(c)`. */
  function AddOrUpdate(cs: seq<Snapshot>, c: Snapshot): seq<Snapshot> {
    match IndexOfPath(cs, c.path)
    case Some(i) => cs[i := c]
    case None => cs + [c]
  }

  /** The paths of a codebase list. */
  function Paths(cs: seq<Snapshot>): set<string> {
    set k | 0 <= k < |cs| :: cs[k].path
  }

  /** No two codebases share a path. */
  predicate UniquePaths(cs: seq<Snapshot>) {
    forall i, j | 0 <= i < j < |cs| :: cs[i].path != cs[j].path
  }

  /** A codebase whose path is already present replaces the first codebase with that
      path, at its index; the length and every other codebase stay as they were. */
  lemma AddOrUpdateReplaces(cs: seq<Snapshot>, c: Snapshot, i: nat)
    requires i < |cs| && cs[i].path == c.path
    requires forall j | 0 <= j < i :: cs[j].path != c.path
    ensures var r := AddOrUpdate(cs, c);
      && |r| == |cs| && r[i] == c
      && forall k | 0 <= k < |cs| && k != i :: r[k] == cs[k]
  {
  }

  /** A codebase with a new path is appended: every earlier codebase keeps its index. */
  lemma AddOrUpdateAppends(cs: seq<Snapshot>, c: Snapshot)
    requires c.path !in Paths(cs)
    ensures var r := AddOrUpdate(cs, c);
      && |r| == |cs| + 1 && r[|cs|] == c
      && forall k | 0 <= k < |cs| :: r[k] == cs[k]
  {
    assert forall j | 0 <= j < |cs| :: cs[j].path in Paths(cs);
  }

  /** The paths after the merge are the paths before it and the new codebase's path. */
  lemma AddOrUpdatePaths(cs: seq<Snapshot>, c: Snapshot)
    ensures Paths(AddOrUpdate(cs, c)) == Paths(cs) + {c.path}
  {
    var r := AddOrUpdate(cs, c);
    match IndexOfPath(cs, c.path)
    case Some(i) =>
      forall p | p in Paths(cs) + {c.path} ensures p in Paths(r) {
        if p != c.path {
          var k :| 0 <= k < |cs| && cs[k].path == p;
          assert r[k] == cs[k];
        } else {
          assert r[i] == c;
        }
      }
      forall p | p in Paths(r) ensures p in Paths(cs) + {c.path} {
        var k :| 0 <= k < |r| && r[k].path == p;
        if k != i {
          assert r[k] == cs[k];
        }
      }
    case None =>
      forall p | p in Paths(cs) + {c.path} ensures p in Paths(r) {
        if p != c.path {
          var k :| 0 <= k < |cs| && cs[k].path == p;
          assert r[k] == cs[k];
        } else {
          assert r[|cs|] == c;
        }
      }
      forall p | p in Paths(r) ensures p in Paths(cs) + {c.path} {
        var k :| 0 <= k < |r| && r[k].path == p;
        if k < |cs| {
          assert r[k] == cs[k];
        }
      }
  }

  /** Adding the same codebase twice leaves the list adding it once gave. */
  lemma AddOrUpdateIdempotent(cs: seq<Snapshot>, c: Snapshot)
    ensures AddOrUpdate(AddOrUpdate(cs, c), c) == AddOrUpdate(cs, c)
  {
    var r := AddOrUpdate(cs, c);
    match IndexOfPath(cs, c.path)
    case Some(i) =>
      AddOrUpdateReplaces(cs, c, i);
      AddOrUpdateReplaces(r, c, i);
    case None =>
      assert forall j | 0 <= j < |cs| :: r[j] == cs[j];
      AddOrUpdateReplaces(r, c, |cs|);
  }

  /** A list whose paths are distinct keeps them distinct. */
  lemma AddOrUpdateUnique(cs: seq<Snapshot>, c: Snapshot)
    requires UniquePaths(cs)
    ensures UniquePaths(AddOrUpdate(cs, c))
  {
    var r := AddOrUpdate(cs, c);
    match IndexOfPath(cs, c.path)
    case Some(i) =>
      forall a, b | 0 <= a < b < |r| ensures r[a].path != r[b].path {
        if a == i {
          assert r[b] == cs[b];
        } else if b == i {
          assert r[a] == cs[a];
        } else {
          assert r[a] == cs[a] && r[b] == cs[b];
        }
      }
    case None =>
      forall a, b | 0 <= a < b < |r| ensures r[a].path != r[b].path {
        assert r[a] == cs[a];
        if b < |cs| {
          assert r[b] == cs[b];
        }
      }
  }

  /** Every codebase after the merge is the new one or one that was there before. */
  lemma AddOrUpdateFrom(cs: seq<Snapshot>, c: Snapshot)
    ensures var r := AddOrUpdate(cs, c);
      forall k | 0 <= k < |r| :: r[k] == c || r[k] in cs
  {
  }
}
