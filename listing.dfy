/** The sorted copy behind the in-memory list route (index.js:161-163):
    `arr.sort((a, b) => new Date(b.created_at) - new Date(a.created_at))`,
    newest first. */
module Listing {
  import opened Links

  predicate NewestFirst(s: seq<Link>)
  {
    forall i, j :: 0 <= i < j < |s| ==> s[i].createdAt >= s[j].createdAt
  }

  /** Put `x` in front of the first record that is not newer than it. */
  function Insert(x: Link, s: seq<Link>): (r: seq<Link>)
    requires NewestFirst(s)
    ensures NewestFirst(r)
    ensures multiset(r) == multiset(s) + multiset{x}
    ensures |r| == |s| + 1
    ensures r[0] == x || (s != [] && r[0] == s[0])
  {
    if s == [] || s[0].createdAt <= x.createdAt then [x] + s
    else
      var rest := Insert(x, s[1..]);
      InsertBehindHead(x, s, rest);
      [s[0]] + rest
  }

  /** When `x` goes behind the head of `s`, the head stays in front. */
  lemma InsertBehindHead(x: Link, s: seq<Link>, rest: seq<Link>)
    requires NewestFirst(s) && s != [] && s[0].createdAt > x.createdAt
    requires NewestFirst(rest) && multiset(rest) == multiset(s[1..]) + multiset{x}
    requires rest != [] && (rest[0] == x || (s[1..] != [] && rest[0] == s[1..][0]))
    ensures NewestFirst([s[0]] + rest)
    ensures multiset([s[0]] + rest) == multiset(s) + multiset{x}
  {
    assert s == [s[0]] + s[1..];
    PrependNewest(s[0], rest);
  }

  lemma PrependNewest(a: Link, s: seq<Link>)
    requires NewestFirst(s)
    requires s != [] ==> a.createdAt >= s[0].createdAt
    ensures NewestFirst([a] + s)
  {
    var r := [a] + s;
    forall i, j | 0 <= i < j < |r|
      ensures r[i].createdAt >= r[j].createdAt
    {
      if i == 0 && j > 1 {
        assert r[j] == s[j - 1];
      }
    }
  }

  /** Insertion sort by `createdAt`, newest first. It is stable by
      construction, not by proof: `Insert` puts the head of the input before
      every later element with the same creation time. */
  function SortNewestFirst(s: seq<Link>): (r: seq<Link>)
    ensures NewestFirst(r)
    ensures multiset(r) == multiset(s)
  {
    if s == [] then []
    else
      assert s == [s[0]] + s[1..];
      Insert(s[0], SortNewestFirst(s[1..]))
  }
}
