/** `.sort({ createdAt: -1 })`: newest first. */
module Queries {
  import opened Models

  predicate NewestFirst(s: seq<Post>) {
    forall i, j :: 0 <= i < j < |s| ==> s[i].createdAt >= s[j].createdAt
  }

  function InsertNewestFirst(p: Post, s: seq<Post>): (r: seq<Post>)
    requires NewestFirst(s)
    ensures NewestFirst(r)
    ensures multiset(r) == multiset(s) + multiset{p}
    decreases |s|
  {
    if s == [] then [p]
    else if p.createdAt >= s[0].createdAt then
      HeadIsNewest(s);
      ConsNewestFirst(p, s);
      [p] + s
    else
      var rest := InsertNewestFirst(p, s[1..]);
      assert s == [s[0]] + s[1..];
      HeadIsNewest(s);
      NoNewerThan(s[0].createdAt, rest, s[1..], p);
      ConsNewestFirst(s[0], rest);
      [s[0]] + rest
  }

  /** In a newest-first list, nothing after the head is newer than it. */
  lemma HeadIsNewest(s: seq<Post>)
    requires NewestFirst(s) && s != []
    ensures forall i :: 0 <= i < |s| ==> s[i].createdAt <= s[0].createdAt
    ensures forall i :: 0 <= i < |s[1..]| ==> s[1..][i].createdAt <= s[0].createdAt
    ensures NewestFirst(s[1..])
  {
    forall i | 0 <= i < |s[1..]|
      ensures s[1..][i].createdAt <= s[0].createdAt
    {
      assert s[1..][i] == s[i + 1];
    }
    forall i, j | 0 <= i < j < |s[1..]|
      ensures s[1..][i].createdAt >= s[1..][j].createdAt
    {
      assert s[1..][i] == s[i + 1] && s[1..][j] == s[j + 1];
    }
  }

  /** A post no older than anything in a newest-first list can go in front of it. */
  lemma ConsNewestFirst(x: Post, s: seq<Post>)
    requires NewestFirst(s)
    requires forall i :: 0 <= i < |s| ==> s[i].createdAt <= x.createdAt
    ensures NewestFirst([x] + s)
  {
    var r := [x] + s;
    forall i, j | 0 <= i < j < |r|
      ensures r[i].createdAt >= r[j].createdAt
    {
      assert r[j] == s[j - 1];
      if i > 0 {
        assert r[i] == s[i - 1];
      }
    }
  }

  /** Every element of a permutation of `others + [p]` is no newer than `t` if all of those are. */
  lemma NoNewerThan(t: nat, rest: seq<Post>, others: seq<Post>, p: Post)
    requires multiset(rest) == multiset(others) + multiset{p}
    requires forall i :: 0 <= i < |others| ==> others[i].createdAt <= t
    requires p.createdAt <= t
    ensures forall i :: 0 <= i < |rest| ==> rest[i].createdAt <= t
  {
    forall i | 0 <= i < |rest|
      ensures rest[i].createdAt <= t
    {
      var x := rest[i];
      assert x in multiset(rest);
      if x != p {
        assert x in multiset(others);
        var k :| 0 <= k < |others| && others[k] == x;
      }
    }
  }

  /**
   * The posts of `s` ordered by creation time, newest first. Ties may come
   * in any order in the database; this contract holds for every such answer.
   */
  function SortNewestFirst(s: seq<Post>): (r: seq<Post>)
    ensures NewestFirst(r)
    ensures multiset(r) == multiset(s)
    decreases |s|
  {
    if s == [] then []
    else
      assert s == [s[0]] + s[1..];
      InsertNewestFirst(s[0], SortNewestFirst(s[1..]))
  }
}
