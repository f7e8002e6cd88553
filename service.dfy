/** The link service: the route handlers of `POST /api/links`,
    `GET /api/links`, `GET /api/links/:code`, `DELETE /api/links/:code` and
    `GET /:code` over the in-memory registry (index.js:103-228).

    Each route is specified by a function from the store before the request
    to a `Step`: the response and the store after it. The handler methods
    run the same guarded sequence against a `Registry` object and are proved
    to produce exactly that step. URL parsing (`new URL(url)`) is the
    caller-supplied predicate `isUrl`, the random number behind a generated
    code is its base-36 rendering `base36`, and the clock is `now`. */
module Service {
  import opened Links
  import opened Codes
  import opened Store
  import opened Listing

  /** The JSON body of a create request; an absent field is `None`. */
  datatype Body = Body(url: Option<string>, code: Option<string>, title: Option<string>)

  /** The HTTP responses of the routes. */
  datatype Outcome =
    | Created(link: Link)        // 201 with the new record
    | Found(link: Link)          // 200 with the record
    | Removed(link: Link)        // 200 {ok: true, deleted: record}
    | Healthy                    // 200 {ok: true, version: "1.0"}
    | Redirect(url: string)      // 302 to the stored url
    | BadRequest(error: string)  // 400
    | Conflict(error: string)    // 409
    | NotFound                   // 404

  const UrlRequired := "url is required"
  const InvalidUrl := "invalid url"
  const BadCodeFormat := "code must match /^[A-Za-z0-9]{6,8}$/"
  const CodeExists := "code already exists"

  /** A response together with the store it leaves behind. */
  datatype Step = Step(out: Outcome, links: map<string, Link>)

  /** `!field` for a string field: an absent or empty field is falsy,
      and every other string is truthy. */
  function Falsy(field: Option<string>): (b: bool)
    ensures !b <==> field.Some? && |field.value| > 0
  {
    field.None? || field.value == ""
  }

  /** The code a create request ends up with (index.js:114-119): a supplied
      non-empty code is used as it is; otherwise the generated one, which has
      at most six lowercase letters or digits. */
  function ResolvedCode(code: Option<string>, base36: string): (r: string)
    ensures !Falsy(code) ==> r == code.value && r != ""
    ensures Falsy(code) ==> |r| <= 6 && forall i :: 0 <= i < |r| ==> IsLowerAlnum(r[i])
  {
    if Falsy(code) then GenerateCode(base36) else code.value
  }

  /** `title || ""` (index.js:137): the supplied title, or the empty string
      when there is none. */
  function TitleOrEmpty(title: Option<string>): (r: string)
    ensures title.Some? ==> r == title.value
    ensures r == "" <==> Falsy(title)
  {
    if title.None? then "" else title.value
  }

  /** The paths the catch-all redirect route refuses to treat as codes
      (index.js:220). Of the three, only `healthz` is a well-formed code. */
  function IsReserved(code: string): (b: bool)
    ensures b ==> (MatchesCodeRe(code) <==> code == "healthz")
  {
    code == "healthz" || code == "api" || code == "code"
  }

  // ---------------------------------------------------------------- create

  /** `POST /api/links` (index.js:103-145). */
  function CreateRoute(m: map<string, Link>, body: Body, isUrl: string -> bool, base36: string, now: nat): (s: Step)
    ensures s.out.Created? || s.out.BadRequest? || s.out.Conflict?
    ensures !s.out.Created? ==> s.links == m
    ensures s.out.Created? ==>
      var l := s.out.link;
      && l.code == ResolvedCode(body.code, base36)
      && l.code !in m
      && s.links == m[l.code := l]
      && s.links.Keys == m.Keys + {l.code}
      && 6 <= |l.code| <= 8 && (forall i :: 0 <= i < |l.code| ==> IsCodeChar(l.code[i]))
      && body.url == Some(l.url) && l.url != "" && isUrl(l.url)
      && l.title == TitleOrEmpty(body.title)
      && l.clicks == 0 && l.lastClickedAt == None && !l.deleted && l.createdAt == now
    ensures KeyedByCode(m) ==> KeyedByCode(s.links) && StoreEvolves(m, s.links)
  {
    if Falsy(body.url) then Step(BadRequest(UrlRequired), m)
    else if !isUrl(body.url.value) then Step(BadRequest(InvalidUrl), m)
    else
      var code := ResolvedCode(body.code, base36);
      if !MatchesCodeRe(code) then Step(BadRequest(BadCodeFormat), m)
      else if code in m then Step(Conflict(CodeExists), m)
      else
        var link := NewLink(code, body.url.value, TitleOrEmpty(body.title), now);
        Step(Created(link), m[code := link])
  }

  /** The url checks come first: a missing url or one that does not parse is
      refused with 400 whatever the store holds, and nothing is stored. */
  lemma CreateRejectsBadUrl(m: map<string, Link>, body: Body, isUrl: string -> bool, base36: string, now: nat)
    requires Falsy(body.url) || !isUrl(body.url.value)
    ensures CreateRoute(m, body, isUrl, base36, now)
         == Step(BadRequest(if Falsy(body.url) then UrlRequired else InvalidUrl), m)
  {
  }

  /** The format check comes next and also needs no store access: a code,
      supplied or generated, that is not 6 to 8 letters or digits is refused. */
  lemma CreateRejectsBadCode(m: map<string, Link>, body: Body, isUrl: string -> bool, base36: string, now: nat)
    requires !Falsy(body.url) && isUrl(body.url.value)
    requires var code := ResolvedCode(body.code, base36);
      !(6 <= |code| <= 8 && forall i :: 0 <= i < |code| ==> IsCodeChar(code[i]))
    ensures CreateRoute(m, body, isUrl, base36, now) == Step(BadRequest(BadCodeFormat), m)
  {
  }

  /** A request that passes both checks conflicts exactly when its code is
      already a key of the store, deleted record or not. */
  lemma CreateConflictIff(m: map<string, Link>, body: Body, isUrl: string -> bool, base36: string, now: nat)
    requires !Falsy(body.url) && isUrl(body.url.value)
    requires MatchesCodeRe(ResolvedCode(body.code, base36))
    ensures CreateRoute(m, body, isUrl, base36, now).out.Conflict? <==> ResolvedCode(body.code, base36) in m
    ensures CreateRoute(m, body, isUrl, base36, now).out.Created? <==> ResolvedCode(body.code, base36) !in m
  {
  }

  /** Create succeeds exactly when the url is present and parses, the
      resolved code has the right format and is not yet stored. */
  lemma CreateSucceedsIff(m: map<string, Link>, body: Body, isUrl: string -> bool, base36: string, now: nat)
    ensures CreateRoute(m, body, isUrl, base36, now).out.Created? <==>
      && !Falsy(body.url) && isUrl(body.url.value)
      && var code := ResolvedCode(body.code, base36);
         && 6 <= |code| <= 8 && (forall i :: 0 <= i < |code| ==> IsCodeChar(code[i]))
         && code !in m
  {
  }

  /** Without a supplied code, a successful create stores the generated
      code: six lowercase letters or digits. */
  lemma CreateWithGeneratedCode(m: map<string, Link>, body: Body, isUrl: string -> bool, base36: string, now: nat)
    requires Falsy(body.code)
    requires CreateRoute(m, body, isUrl, base36, now).out.Created?
    ensures var code := CreateRoute(m, body, isUrl, base36, now).out.link.code;
      && code == GenerateCode(base36)
      && |code| == 6
      && forall i :: 0 <= i < |code| ==> IsLowerAlnum(code[i])
  {
    GeneratedCodeFormat(base36);
  }

  /** With a supplied code, a successful create stores the record under
      exactly that code. */
  lemma CreateWithSuppliedCode(m: map<string, Link>, body: Body, isUrl: string -> bool, base36: string, now: nat)
    requires !Falsy(body.code)
    requires CreateRoute(m, body, isUrl, base36, now).out.Created?
    ensures var s := CreateRoute(m, body, isUrl, base36, now);
      && s.out.link.code == body.code.value
      && s.links[body.code.value] == s.out.link
  {
  }

  /** Two creates with distinct, well-formed, unused codes both succeed, and
      afterwards each record is found under its own code. */
  lemma DistinctCodesBothRetrievable(m: map<string, Link>, isUrl: string -> bool, b1: Body, b2: Body, base36: string, now1: nat, now2: nat)
    requires !Falsy(b1.url) && isUrl(b1.url.value) && !Falsy(b2.url) && isUrl(b2.url.value)
    requires !Falsy(b1.code) && !Falsy(b2.code) && b1.code.value != b2.code.value
    requires MatchesCodeRe(b1.code.value) && MatchesCodeRe(b2.code.value)
    requires b1.code.value !in m && b2.code.value !in m
    ensures var s1 := CreateRoute(m, b1, isUrl, base36, now1);
      var s2 := CreateRoute(s1.links, b2, isUrl, base36, now2);
      && s1.out.Created? && s2.out.Created?
      && LookupRoute(s2.links, b1.code.value) == Found(s1.out.link)
      && LookupRoute(s2.links, b2.code.value) == Found(s2.out.link)
  {
  }

  // ---------------------------------------------------------------- lookup

  /** `GET /api/links/:code` (index.js:173-177): any stored record, deleted
      or not. */
  function LookupRoute(m: map<string, Link>, code: string): (o: Outcome)
    ensures o.Found? || o == NotFound
    ensures o.Found? <==> code in m
    ensures o.Found? ==> o.link == m[code]
  {
    match Find(m, code)
    case None => NotFound
    case Some(l) => Found(l)
  }

  // ---------------------------------------------------------------- delete

  /** `DELETE /api/links/:code` (index.js:185-190). */
  function DeleteRoute(m: map<string, Link>, code: string): (s: Step)
    ensures code !in m ==> s == Step(NotFound, m)
    ensures code in m ==>
      && s.links == AfterSoftDelete(m, code)
      && s.out == Removed(s.links[code])
      && s.links[code] == m[code].(deleted := true)
    ensures KeyedByCode(m) ==> KeyedByCode(s.links) && StoreEvolves(m, s.links)
  {
    match Find(m, code)
    case None => Step(NotFound, m)
    case Some(_) =>
      var m' := AfterSoftDelete(m, code);
      Step(Removed(m'[code]), m')
  }

  /** Deleting twice leaves the store as deleting once. */
  lemma DeleteIdempotent(m: map<string, Link>, code: string)
    ensures DeleteRoute(DeleteRoute(m, code).links, code).links == DeleteRoute(m, code).links
  {
    SoftDeleteIdempotent(m, code);
  }

  // -------------------------------------------------------------- redirect

  /** `GET /:code` (index.js:217-227). */
  function RedirectRoute(m: map<string, Link>, code: string, now: nat): (s: Step)
    ensures s.out == NotFound <==> IsReserved(code) || code !in m || m[code].deleted
    ensures s.out == NotFound ==> s.links == m
    ensures s.out != NotFound ==>
      && s.out == Redirect(m[code].url)
      && s.links == AfterClick(m, code, now)
      && s.links[code].clicks == m[code].clicks + 1
      && s.links[code].lastClickedAt == Some(now)
    ensures KeyedByCode(m) ==> KeyedByCode(s.links) && StoreEvolves(m, s.links)
  {
    if IsReserved(code) then Step(NotFound, m)
    else
      match Find(m, code)
      case None => Step(NotFound, m)
      case Some(l) =>
        if l.deleted then Step(NotFound, m)
        else Step(Redirect(l.url), AfterClick(m, code, now))
  }

  /** The store after a run of redirects to one code, at the given instants. */
  function RedirectMany(m: map<string, Link>, code: string, times: seq<nat>): map<string, Link>
    decreases |times|
  {
    if times == [] then m
    else RedirectMany(RedirectRoute(m, code, times[0]).links, code, times[1..])
  }

  /** N redirects to a live code raise its counter by exactly N, record the
      last instant, and leave every other record alone. */
  lemma {:induction false} RedirectsCountClicks(m: map<string, Link>, code: string, times: seq<nat>)
    requires code in m && !m[code].deleted && !IsReserved(code)
    ensures var m' := RedirectMany(m, code, times);
      && m'.Keys == m.Keys
      && m'[code].clicks == m[code].clicks + |times|
      && m'[code].lastClickedAt == (if times == [] then m[code].lastClickedAt else Some(times[|times| - 1]))
      && m'[code].url == m[code].url && !m'[code].deleted
      && forall k :: k in m && k != code ==> m'[k] == m[k]
    decreases |times|
  {
    if times != [] {
      var m1 := RedirectRoute(m, code, times[0]).links;
      RedirectsCountClicks(m1, code, times[1..]);
      if |times| > 1 {
        assert times[1..][|times[1..]| - 1] == times[|times| - 1];
      }
    }
  }

  // ------------------------------------------------------ cross-route facts

  /** A deleted code stops redirecting but stays visible to lookup with its
      flag set, and it can never be created again. */
  lemma DeletedLinkStaysVisible(m: map<string, Link>, code: string, now: nat, body: Body, isUrl: string -> bool, base36: string, now': nat)
    requires code in m
    requires !Falsy(body.url) && isUrl(body.url.value) && ResolvedCode(body.code, base36) == code
    requires MatchesCodeRe(code)
    ensures var m' := DeleteRoute(m, code).links;
      && RedirectRoute(m', code, now) == Step(NotFound, m')
      && LookupRoute(m', code) == Found(m[code].(deleted := true))
      && CreateRoute(m', body, isUrl, base36, now') == Step(Conflict(CodeExists), m')
  {
  }

  /** A freshly created link redirects to its url, and lookup then shows one
      click (the create, redirect, lookup sequence). */
  lemma CreateThenRedirect(m: map<string, Link>, body: Body, isUrl: string -> bool, base36: string, now: nat, now': nat)
    requires CreateRoute(m, body, isUrl, base36, now).out.Created?
    ensures var c := CreateRoute(m, body, isUrl, base36, now);
      var code := c.out.link.code;
      !IsReserved(code) ==>
        var r := RedirectRoute(c.links, code, now');
        && r.out == Redirect(body.url.value)
        && LookupRoute(r.links, code) == Found(c.out.link.(clicks := 1, lastClickedAt := Some(now')))
  {
  }

  // -------------------------------------------------------------- dispatch

  /** ASCII lower case. Express matches route paths ignoring case by default,
      and codes are ASCII. */
  function LowerAscii(s: string): (r: string)
    ensures |r| == |s|
    ensures forall i :: 0 <= i < |s| ==> r[i] == if 'A' <= s[i] <= 'Z' then (s[i] as int + 32) as char else s[i]
  {
    if s == [] then []
    else [if 'A' <= s[0] <= 'Z' then (s[0] as int + 32) as char else s[0]] + LowerAscii(s[1..])
  }

  /** `GET /<segment>`. The routes are tried in registration order, so the
      health route (index.js:98) takes every spelling of `healthz` before the
      catch-all redirect route (index.js:217) sees it. */
  function GetSegment(m: map<string, Link>, segment: string, now: nat): (s: Step)
    ensures s.out == Healthy <==> LowerAscii(segment) == "healthz"
    ensures s.out == Healthy ==> s.links == m
    ensures s.out != Healthy ==> s == RedirectRoute(m, segment, now)
    ensures s.out.Redirect? ==> segment in m && !m[segment].deleted && LowerAscii(segment) != "healthz"
  {
    if LowerAscii(segment) == "healthz" then Step(Healthy, m)
    else RedirectRoute(m, segment, now)
  }

  /** Every case variant of `healthz` passes `CODE_RE`. */
  lemma HealthzSpellingIsCode(code: string)
    requires LowerAscii(code) == "healthz"
    ensures MatchesCodeRe(code)
  {
    assert |code| == 7;
    forall i | 0 <= i < |code|
      ensures IsCodeChar(code[i])
    {
      assert 'a' <= LowerAscii(code)[i] <= 'z';
    }
  }

  /** Every one of the 128 spellings of `healthz` is a well-formed code, so it
      can be created, but a visit to that path never redirects: the health
      route answers first. */
  lemma HealthzSpellingsNeverRedirect(m: map<string, Link>, code: string, isUrl: string -> bool, base36: string, now: nat, now': nat)
    requires LowerAscii(code) == "healthz" && code !in m && isUrl("https://example.com")
    ensures var c := CreateRoute(m, Body(Some("https://example.com"), Some(code), None), isUrl, base36, now);
      && c.out.Created?
      && GetSegment(c.links, code, now') == Step(Healthy, c.links)
  {
    HealthzSpellingIsCode(code);
  }

  // ------------------------------------------------------------- sequences

  /** The requests that can reach the store. */
  datatype Request =
    | Post(body: Body, base36: string, now: nat)
    | Get(code: string)
    | Delete(code: string)
    | Visit(segment: string, now: nat)
    | List

  /** The store after one request. */
  function Apply(m: map<string, Link>, isUrl: string -> bool, r: Request): (m': map<string, Link>)
    ensures KeyedByCode(m) ==> KeyedByCode(m') && StoreEvolves(m, m')
  {
    match r
    case Post(body, base36, now) => CreateRoute(m, body, isUrl, base36, now).links
    case Get(_) => m
    case Delete(code) => DeleteRoute(m, code).links
    case Visit(segment, now) => GetSegment(m, segment, now).links
    case List => m
  }

  /** The store after a run of requests, in order. */
  function Run(m: map<string, Link>, isUrl: string -> bool, rs: seq<Request>): map<string, Link>
    decreases |rs|
  {
    if rs == [] then m else Run(Apply(m, isUrl, rs[0]), isUrl, rs[1..])
  }

  /** Over any run of requests no record is removed, none changes its code,
      url, title or creation time, no counter goes down and no deleted
      record comes back. */
  lemma {:induction false} RunEvolves(m: map<string, Link>, isUrl: string -> bool, rs: seq<Request>)
    requires KeyedByCode(m)
    ensures KeyedByCode(Run(m, isUrl, rs)) && StoreEvolves(m, Run(m, isUrl, rs))
    decreases |rs|
  {
    if rs == [] {
      forall k | k in m
        ensures Evolves(m[k], m[k])
      {
        EvolvesIsPreorder(m[k], m[k], m[k]);
      }
    } else {
      var m1 := Apply(m, isUrl, rs[0]);
      RunEvolves(m1, isUrl, rs[1..]);
      StoreEvolvesTransitive(m, m1, Run(m1, isUrl, rs[1..]));
    }
  }

  // -------------------------------------------------------------- handlers

  /** The create handler: checks first, then one registry read, then one
      registry write (index.js:103-145). */
  method CreateHandler(reg: Registry, body: Body, isUrl: string -> bool, base36: string, now: nat) returns (out: Outcome)
    requires reg.Valid()
    modifies reg
    ensures reg.Valid()
    ensures out == CreateRoute(old(reg.links), body, isUrl, base36, now).out
    ensures reg.links == CreateRoute(old(reg.links), body, isUrl, base36, now).links
  {
    if Falsy(body.url) {
      return BadRequest(UrlRequired);
    }
    var url := body.url.value;
    if !isUrl(url) {
      return BadRequest(InvalidUrl);
    }
    var code := if Falsy(body.code) then GenerateCode(base36) else body.code.value;
    if !MatchesCodeRe(code) {
      return BadRequest(BadCodeFormat);
    }
    var existing := reg.GetLink(code);
    if existing.Some? {
      return Conflict(CodeExists);
    }
    var link := NewLink(code, url, TitleOrEmpty(body.title), now);
    var created := reg.CreateLink(link);
    out := Created(created);
  }

  /** The lookup handler (index.js:173-177). */
  method LookupHandler(reg: Registry, code: string) returns (out: Outcome)
    requires reg.Valid()
    ensures out == LookupRoute(reg.links, code)
  {
    var l := reg.GetLink(code);
    if l.None? {
      return NotFound;
    }
    out := Found(l.value);
  }

  /** The delete handler: a lookup, then the soft delete (index.js:185-190). */
  method DeleteHandler(reg: Registry, code: string) returns (out: Outcome)
    requires reg.Valid()
    modifies reg
    ensures reg.Valid()
    ensures out == DeleteRoute(old(reg.links), code).out
    ensures reg.links == DeleteRoute(old(reg.links), code).links
  {
    var l := reg.GetLink(code);
    if l.None? {
      return NotFound;
    }
    var deleted := reg.SoftDelete(code);
    out := Removed(deleted.value);
  }

  /** The redirect handler: reserved words, then unknown or deleted codes,
      then one click and the redirect (index.js:217-227). */
  method RedirectHandler(reg: Registry, code: string, now: nat) returns (out: Outcome)
    requires reg.Valid()
    modifies reg
    ensures reg.Valid()
    ensures out == RedirectRoute(old(reg.links), code, now).out
    ensures reg.links == RedirectRoute(old(reg.links), code, now).links
  {
    if IsReserved(code) {
      return NotFound;
    }
    var l := reg.GetLink(code);
    if l.None? || l.value.deleted {
      return NotFound;
    }
    var _ := reg.IncrementClick(code, now);
    out := Redirect(l.value.url);
  }

  /** The in-memory list handler (index.js:161-164): every stored record,
      deleted ones included, newest first, with no cap on the count. */
  method ListHandler(reg: Registry) returns (arr: seq<Link>)
    requires reg.Valid()
    ensures IsListingOf(arr, reg.links)
    ensures NewestFirst(arr)
    ensures |arr| == |reg.links|
  {
    var values := reg.Records();
    arr := SortNewestFirst(values);
    ListingPermutation(values, arr, reg.links);
  }
}
