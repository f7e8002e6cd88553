/** The link record, the one entity of the shortener, and the lifecycle that
    every stored record follows from creation on (index.js:134-142, 77-78, 91). */
module Links {

  datatype Option<T> = None | Some(value: T)

  /** One stored link. Timestamps are abstract instants; `lastClickedAt` is
      `None` where the source stores `null`. */
  datatype Link = Link(
    code: string,
    url: string,
    title: string,
    clicks: nat,
    createdAt: nat,
    lastClickedAt: Option<nat>,
    deleted: bool)

  /** The record the create route builds: no clicks, never clicked, not deleted. */
  function NewLink(code: string, url: string, title: string, now: nat): (l: Link)
    ensures l.code == code && l.url == url && l.title == title && l.createdAt == now
    ensures l.clicks == 0 && l.lastClickedAt == None && !l.deleted
  {
    Link(code, url, title, 0, now, None, false)
  }

  /** How one record may change over time: its code, url, title and creation
      time are fixed, the counter never goes down, a deleted record stays
      deleted and a recorded click time is never erased. */
  predicate Evolves(a: Link, b: Link)
  {
    && b.code == a.code
    && b.url == a.url
    && b.title == a.title
    && b.createdAt == a.createdAt
    && a.clicks <= b.clicks
    && (a.deleted ==> b.deleted)
    && (a.lastClickedAt.Some? ==> b.lastClickedAt.Some?)
  }

  /** Every record is stored under its own code (index.js:64). */
  ghost predicate KeyedByCode(m: map<string, Link>)
  {
    forall k :: k in m ==> m[k].code == k
  }

  /** How the whole store may change: no key ever disappears and every
      record that was there evolves. */
  ghost predicate StoreEvolves(m: map<string, Link>, m': map<string, Link>)
  {
    && m.Keys <= m'.Keys
    && forall k :: k in m ==> Evolves(m[k], m'[k])
  }

  lemma EvolvesIsPreorder(a: Link, b: Link, c: Link)
    ensures Evolves(a, a)
    ensures Evolves(a, b) && Evolves(b, c) ==> Evolves(a, c)
  {
  }

  lemma StoreEvolvesTransitive(m0: map<string, Link>, m1: map<string, Link>, m2: map<string, Link>)
    requires StoreEvolves(m0, m1) && StoreEvolves(m1, m2)
    ensures StoreEvolves(m0, m2)
  {
    forall k | k in m0
      ensures Evolves(m0[k], m2[k])
    {
      EvolvesIsPreorder(m0[k], m1[k], m2[k]);
    }
  }

  /** `mem.links[code] || null`, reading only the records actually stored. */
  function Find(m: map<string, Link>, code: string): (r: Option<Link>)
    ensures r.Some? <==> code in m
    ensures r.Some? ==> r.value == m[code]
  {
    if code in m then Some(m[code]) else None
  }

  /** The record after one click at instant `now` (index.js:77-78). */
  function Clicked(l: Link, now: nat): (r: Link)
    ensures Evolves(l, r)
    ensures r.clicks == l.clicks + 1 && r.lastClickedAt == Some(now)
    ensures r.deleted == l.deleted
  {
    l.(clicks := l.clicks + 1, lastClickedAt := Some(now))
  }

  /** The record after a soft delete (index.js:91). */
  function Flagged(l: Link): (r: Link)
    ensures Evolves(l, r) && r.deleted
    ensures r.clicks == l.clicks && r.lastClickedAt == l.lastClickedAt
  {
    l.(deleted := true)
  }

  /** The store after `incrementClick(code)`: only that record changes, and
      an absent code changes nothing (index.js:75-79). */
  function AfterClick(m: map<string, Link>, code: string, now: nat): (m': map<string, Link>)
    ensures m'.Keys == m.Keys
    ensures StoreEvolves(m, m')
    ensures KeyedByCode(m) ==> KeyedByCode(m')
    ensures code in m ==> m'[code] == Clicked(m[code], now)
    ensures forall k :: k in m && k != code ==> m'[k] == m[k]
  {
    if code in m then m[code := Clicked(m[code], now)] else m
  }

  /** The store after `softDelete(code)`: only that record changes, and an
      absent code changes nothing (index.js:89-92). */
  function AfterSoftDelete(m: map<string, Link>, code: string): (m': map<string, Link>)
    ensures m'.Keys == m.Keys
    ensures StoreEvolves(m, m')
    ensures KeyedByCode(m) ==> KeyedByCode(m')
    ensures code in m ==> m'[code] == Flagged(m[code])
    ensures forall k :: k in m && k != code ==> m'[k] == m[k]
  {
    if code in m then m[code := Flagged(m[code])] else m
  }

  /** Soft delete is idempotent. */
  lemma SoftDeleteIdempotent(m: map<string, Link>, code: string)
    ensures AfterSoftDelete(AfterSoftDelete(m, code), code) == AfterSoftDelete(m, code)
  {
  }

  /** Soft delete never clears the flag of any record. */
  lemma SoftDeleteNeverUndeletes(m: map<string, Link>, code: string, k: string)
    requires k in m
    ensures AfterSoftDelete(m, code)[k].deleted == (m[k].deleted || k == code)
  {
  }
}
