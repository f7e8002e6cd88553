/** The in-memory link registry `mem.links` (index.js:30-32) and its four
    helpers, in their in-memory branches (index.js:37-94). */
module Store {
  import opened Links

  /** `s` lists every record of `m` exactly once and nothing else: it is as
      long as `m`, holds only stored records and misses none. */
  ghost predicate IsListingOf(s: seq<Link>, m: map<string, Link>)
  {
    && |s| == |m|
    && (forall i :: 0 <= i < |s| ==> s[i].code in m && m[s[i].code] == s[i])
    && (forall k :: k in m ==> m[k] in s)
  }

  /** Rearranging a listing keeps it a listing of the same store. */
  lemma ListingPermutation(s: seq<Link>, t: seq<Link>, m: map<string, Link>)
    requires IsListingOf(s, m)
    requires multiset(t) == multiset(s)
    ensures IsListingOf(t, m)
  {
    assert |t| == |multiset(t)| == |multiset(s)| == |s|;
    forall i | 0 <= i < |t|
      ensures t[i].code in m && m[t[i].code] == t[i]
    {
      assert t[i] in multiset(t);
      assert t[i] in s;
    }
    forall k | k in m
      ensures m[k] in t
    {
      assert m[k] in multiset(s);
    }
  }

  class Registry {
    /** `mem.links`: short code to record. */
    var links: map<string, Link>

    ghost predicate Valid()
      reads this
    {
      KeyedByCode(links)
    }

    constructor ()
      ensures Valid() && links == map[]
    {
      links := map[];
    }

    /** `getLink(code)` (index.js:44): the record stored under `code`, if any,
        whatever its `deleted` flag. */
    method GetLink(code: string) returns (r: Option<Link>)
      requires Valid()
      ensures r.Some? <==> code in links
      ensures r.Some? ==> r.value == links[code] && r.value.code == code
    {
      if code in links {
        r := Some(links[code]);
      } else {
        r := None;
      }
    }

    /** `createLink(link)` (index.js:64-65): store the record under its own
        code, replacing whatever was there; the caller checks for conflicts. */
    method CreateLink(link: Link) returns (r: Link)
      requires Valid()
      modifies this
      ensures Valid()
      ensures links == old(links)[link.code := link]
      ensures r == link
      ensures link.code !in old(links) ==> StoreEvolves(old(links), links)
    {
      links := links[link.code := link];
      r := link;
    }

    /** `incrementClick(code)` (index.js:75-79). */
    method IncrementClick(code: string, now: nat) returns (r: Option<Link>)
      requires Valid()
      modifies this
      ensures Valid()
      ensures links == AfterClick(old(links), code, now)
      ensures r.Some? <==> code in old(links)
      ensures r.Some? ==> r.value == links[code]
    {
      if code in links {
        var clicked := Clicked(links[code], now);
        links := links[code := clicked];
        r := Some(clicked);
      } else {
        r := None;
      }
    }

    /** `softDelete(code)` (index.js:89-92). */
    method SoftDelete(code: string) returns (r: Option<Link>)
      requires Valid()
      modifies this
      ensures Valid()
      ensures links == AfterSoftDelete(old(links), code)
      ensures r.Some? <==> code in old(links)
      ensures r.Some? ==> r.value == links[code] && r.value.deleted
    {
      if code in links {
        var flagged := Flagged(links[code]);
        links := links[code := flagged];
        r := Some(flagged);
      } else {
        r := None;
      }
    }

    /** `Object.values(mem.links)` (index.js:161): every stored record once,
        in an order the model leaves open. */
    method Records() returns (s: seq<Link>)
      requires Valid()
      ensures IsListingOf(s, links)
    {
      var rest := links.Keys;
      s := [];
      while rest != {}
        invariant rest <= links.Keys
        invariant |s| + |rest| == |links|
        invariant forall i :: 0 <= i < |s| ==> s[i].code in links && s[i].code !in rest && links[s[i].code] == s[i]
        invariant forall k :: k in links && k !in rest ==> links[k] in s
        decreases |rest|
      {
        var k :| k in rest;
        s := s + [links[k]];
        rest := rest - {k};
      }
    }
  }
}
