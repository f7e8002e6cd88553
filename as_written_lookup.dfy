/** The registry lookup as written: `mem.links[code] || null` (index.js:44)
    reads a property of a plain JavaScript object, so besides the stored
    records it also finds what that object inherits from `Object.prototype`.
    What it inherits depends on earlier requests, because the click and
    delete helpers (index.js:77-78, 91) write onto whatever the lookup found.
    The rest of the model uses the lookup the PostgreSQL branch performs
    (index.js:39-42): only stored records are found. */
module AsWrittenLookup {
  import opened Links
  import opened Codes
  import opened Service

  /** What a plain object inherits in a fresh process: the prototype itself
      under `__proto__`, and eleven functions. */
  const InheritedNames: set<string> := {
    "constructor", "hasOwnProperty", "isPrototypeOf", "propertyIsEnumerable",
    "toLocaleString", "toString", "valueOf", "__proto__",
    "__defineGetter__", "__defineSetter__", "__lookupGetter__", "__lookupSetter__"
  }

  /** What earlier requests have written through inherited names.
      - A click through `__proto__` writes `clicks` (a number of at least 1)
        and `last_clicked_at` (a time string) onto `Object.prototype`.
      - A delete through `__proto__` writes `deleted = true` onto
        `Object.prototype`, so every value then inherits a truthy `deleted`.
      - A delete through an inherited function writes `deleted = true` onto
        that function only (`flagged`).
      - Writes onto the primitive values under `clicks`, `last_clicked_at` and
        `deleted` are dropped, since the file does not use strict mode.
      - A click through a function writes only onto that function, and no
        lookup of the store reads those properties. */
  datatype Proto = Proto(protoClicked: bool, protoDeleted: bool, flagged: set<string>)

  /** A fresh process: nothing written onto inherited values yet. */
  const Fresh := Proto(false, false, {})

  /** The inherited names that the store object currently answers, all with
      truthy values. */
  function InheritedNow(p: Proto): (names: set<string>)
    ensures InheritedNames <= names
    ensures names - InheritedNames <= {"clicks", "last_clicked_at", "deleted"}
    ensures p == Fresh ==> names == InheritedNames
  {
    InheritedNames
      + (if p.protoClicked then {"clicks", "last_clicked_at"} else {})
      + (if p.protoDeleted then {"deleted"} else {})
  }

  /** `l.deleted` is truthy for the inherited value under `name`. */
  predicate InheritedDeleted(p: Proto, name: string)
  {
    p.protoDeleted || name in p.flagged
  }

  /** What a property read on the store object yields. */
  datatype Slot = Own(link: Link) | Inherited(name: string) | Missing

  /** `mem.links[code]`: a record stored under `code` shadows an inherited
      member of the same name. */
  function PropertyRead(m: map<string, Link>, p: Proto, code: string): (r: Slot)
    ensures r.Own? <==> code in m
    ensures r.Missing? <==> code !in m && code !in InheritedNow(p)
    ensures r.Own? ==> r.link == m[code]
    ensures r.Inherited? ==> r.name == code
  {
    if code in m then Own(m[code])
    else if code in InheritedNow(p) then Inherited(code)
    else Missing
  }

  /** `mem.links[code] || null` is not null: records and inherited values
      are all truthy. */
  predicate Truthy(s: Slot)
  {
    !s.Missing?
  }

  /** `POST /api/links` as written: the conflict test asks whether the
      property read is truthy. */
  function CreateRouteAsWritten(m: map<string, Link>, p: Proto, body: Body, isUrl: string -> bool, base36: string, now: nat): (s: Step)
    ensures s.out.Conflict? <==>
      && !Falsy(body.url) && isUrl(body.url.value)
      && MatchesCodeRe(ResolvedCode(body.code, base36))
      && (ResolvedCode(body.code, base36) in m || ResolvedCode(body.code, base36) in InheritedNow(p))
    ensures !s.out.Created? ==> s.links == m
    ensures ResolvedCode(body.code, base36) !in InheritedNow(p) ==> s == CreateRoute(m, body, isUrl, base36, now)
  {
    if Falsy(body.url) then Step(BadRequest(UrlRequired), m)
    else if !isUrl(body.url.value) then Step(BadRequest(InvalidUrl), m)
    else
      var code := ResolvedCode(body.code, base36);
      if !MatchesCodeRe(code) then Step(BadRequest(BadCodeFormat), m)
      else if Truthy(PropertyRead(m, p, code)) then Step(Conflict(CodeExists), m)
      else
        var link := NewLink(code, body.url.value, TitleOrEmpty(body.title), now);
        Step(Created(link), m[code := link])
  }

  /** A response as written: its status, the redirect target of a 302
      (`None` for the undefined `url` of an inherited value), and the store
      and prototype state after it. */
  datatype RawStep = RawStep(status: nat, location: Option<string>, links: map<string, Link>, proto: Proto)

  /** `GET /:code` as written (index.js:217-227): `!l || l.deleted` rejects
      only a missing slot or a value whose `deleted` reads truthy. */
  function RedirectAsWritten(m: map<string, Link>, p: Proto, code: string, now: nat): (r: RawStep)
    ensures r.status == 404 || r.status == 302
    ensures r.status == 404 <==>
      || IsReserved(code)
      || (code in m && m[code].deleted)
      || (code !in m && (code !in InheritedNow(p) || InheritedDeleted(p, code)))
    ensures r.status == 404 ==> r.links == m && r.proto == p
    ensures code in m ==> r.proto == p && r.links == RedirectRoute(m, code, now).links
    ensures code in m && r.status == 302 ==> r.location == Some(m[code].url)
    ensures code !in m && r.status == 302 ==>
      && r.location == None && r.links == m
      && r.proto == (if code == "__proto__" then p.(protoClicked := true) else p)
  {
    if IsReserved(code) then RawStep(404, None, m, p)
    else
      match PropertyRead(m, p, code)
      case Missing => RawStep(404, None, m, p)
      case Own(l) =>
        if l.deleted then RawStep(404, None, m, p)
        else RawStep(302, Some(l.url), AfterClick(m, code, now), p)
      case Inherited(name) =>
        if InheritedDeleted(p, name) then RawStep(404, None, m, p)
        else RawStep(302, None, m, if name == "__proto__" then p.(protoClicked := true) else p)
  }

  /** `DELETE /api/links/:code` as written (index.js:185-190 with 89-91): any
      truthy slot is "found", and the flag is written onto it. */
  function DeleteAsWritten(m: map<string, Link>, p: Proto, code: string): (r: RawStep)
    ensures r.status == 404 <==> code !in m && code !in InheritedNow(p)
    ensures r.status != 404 ==> r.status == 200
    ensures code in m ==> r.proto == p && r.links == DeleteRoute(m, code).links
    ensures code !in m ==> r.links == m
    ensures code !in m && code in InheritedNow(p) ==>
      r.proto == if code == "__proto__" then p.(protoDeleted := true)
                 else if code in InheritedNames then p.(flagged := p.flagged + {code})
                 else p
  {
    match PropertyRead(m, p, code)
    case Missing => RawStep(404, None, m, p)
    case Own(_) => RawStep(200, None, AfterSoftDelete(m, code), p)
    case Inherited(name) =>
      var p' := if name == "__proto__" then p.(protoDeleted := true)
                else if name in InheritedNames then p.(flagged := p.flagged + {name})
                else p;
      RawStep(200, None, m, p')
  }

  /** On an empty store, asking for the code `valueOf` is refused with 409 as
      written, whatever earlier requests did, although no record exists; the
      corrected route creates it. */
  lemma ValueOfConflictsAsWritten(p: Proto, isUrl: string -> bool, base36: string, now: nat)
    requires isUrl("https://example.com")
    ensures var body := Body(Some("https://example.com"), Some("valueOf"), None);
      && CreateRouteAsWritten(map[], p, body, isUrl, base36, now) == Step(Conflict(CodeExists), map[])
      && CreateRoute(map[], body, isUrl, base36, now).out.Created?
  {
  }

  /** On the empty store of a fresh process, `GET /toString` passes both
      guards as written and redirects to an undefined url; the corrected
      route answers 404. */
  lemma ToStringRedirectsAsWritten(now: nat)
    ensures RedirectAsWritten(map[], Fresh, "toString", now) == RawStep(302, None, map[], Fresh)
    ensures RedirectRoute(map[], "toString", now) == Step(NotFound, map[])
  {
  }

  /** Writes through `__proto__` persist: in a fresh process with an empty
      store, the well-formed code `clicks` can be created; `GET /__proto__`
      answers 302 and writes `clicks` onto the prototype, and
      `DELETE /api/links/__proto__` answers 200 and writes `deleted` there.
      After both, the codes `clicks` and `deleted` conflict and `GET /toString`
      has turned into a 404. The corrected routes treat `__proto__` as an
      unknown code. */
  lemma ProtoWritesPersistAsWritten(isUrl: string -> bool, base36: string, now: nat, now': nat)
    requires isUrl("https://example.com")
    ensures CreateRouteAsWritten(map[], Fresh, Body(Some("https://example.com"), Some("clicks"), None), isUrl, base36, now').out.Created?
    ensures RedirectAsWritten(map[], Fresh, "__proto__", now) == RawStep(302, None, map[], Proto(true, false, {}))
    ensures DeleteAsWritten(map[], Proto(true, false, {}), "__proto__") == RawStep(200, None, map[], Proto(true, true, {}))
    ensures CreateRouteAsWritten(map[], Proto(true, true, {}), Body(Some("https://example.com"), Some("clicks"), None), isUrl, base36, now').out == Conflict(CodeExists)
    ensures CreateRouteAsWritten(map[], Proto(true, true, {}), Body(Some("https://example.com"), Some("deleted"), None), isUrl, base36, now').out == Conflict(CodeExists)
    ensures RedirectAsWritten(map[], Proto(true, true, {}), "toString", now').status == 404
    ensures RedirectRoute(map[], "__proto__", now) == Step(NotFound, map[])
    ensures DeleteRoute(map[], "__proto__") == Step(NotFound, map[])
  {
    ProtoWriteSteps(now);
    FreshCreatesClicks(isUrl, base36, now');
    ProtoFieldsAreCodes();
    ProtoFieldsInherited();
    InheritedCodeConflicts(Proto(true, true, {}), "clicks", isUrl, base36, now');
    InheritedCodeConflicts(Proto(true, true, {}), "deleted", isUrl, base36, now');
  }

  /** The field names the helpers write are well-formed codes. */
  lemma ProtoFieldsAreCodes()
    ensures MatchesCodeRe("clicks") && MatchesCodeRe("deleted")
  {
    CodeWellFormed("clicks");
    CodeWellFormed("deleted");
  }

  /** After a click and a delete through `__proto__`, both field names are
      inherited. */
  lemma ProtoFieldsInherited()
    ensures "clicks" in InheritedNow(Proto(true, true, {}))
    ensures "deleted" in InheritedNow(Proto(true, true, {}))
  {
  }

  /** In a fresh process the code `clicks` is not inherited yet. */
  lemma FreshCreatesClicks(isUrl: string -> bool, base36: string, now: nat)
    requires isUrl("https://example.com")
    ensures CreateRouteAsWritten(map[], Fresh, Body(Some("https://example.com"), Some("clicks"), None), isUrl, base36, now).out.Created?
  {
    CodeWellFormed("clicks");
    assert "clicks" !in InheritedNow(Fresh);
  }

  /** A well-formed code that is currently inherited conflicts on an empty
      store. */
  lemma InheritedCodeConflicts(p: Proto, code: string, isUrl: string -> bool, base36: string, now: nat)
    requires isUrl("https://example.com") && MatchesCodeRe(code) && code in InheritedNow(p)
    ensures CreateRouteAsWritten(map[], p, Body(Some("https://example.com"), Some(code), None), isUrl, base36, now).out == Conflict(CodeExists)
  {
  }

  /** A code passes `CODE_RE` when its length and characters are right. */
  lemma CodeWellFormed(code: string)
    requires 6 <= |code| <= 8 && forall i :: 0 <= i < |code| ==> 'a' <= code[i] <= 'z'
    ensures MatchesCodeRe(code)
  {
  }

  /** The prototype state after `GET /__proto__` and then
      `DELETE /api/links/__proto__` in a fresh process with an empty store. */
  lemma ProtoWriteSteps(now: nat)
    ensures RedirectAsWritten(map[], Fresh, "__proto__", now) == RawStep(302, None, map[], Proto(true, false, {}))
    ensures DeleteAsWritten(map[], Proto(true, false, {}), "__proto__") == RawStep(200, None, map[], Proto(true, true, {}))
  {
  }
}
