# TinyLink registry and link service, in Dafny

TinyLink is a URL shortener. It maps short codes of 6 to 8 letters and digits to
long URLs, redirects visitors, counts clicks, and soft-deletes links. This
project models its one piece of real logic, which is the link registry and the
route handlers above it in `index.js`, over the in-memory backend:

- `links.dfy` (module `Links`) holds the link record. It also defines the
  lifecycle every stored record follows: code, url, title and creation time
  never change, `clicks` only goes up, `deleted` only goes from false to true,
  and a click time, once recorded, is never erased (`Evolves`, `StoreEvolves`).
  The same file has the pure store updates behind a click and a soft delete.
- `codes.dfy` (module `Codes`) holds the format check
  `CODE_RE = /^[A-Za-z0-9]{6,8}$/`. It is modelled as an anchored, bounded
  repetition matcher whose contract says it accepts exactly the strings of 6 to
  8 letters and digits. The file also has the code generator
  `Math.random().toString(36).replace(/[^a-z0-9]+/g, "").slice(0, 6)`, which
  takes the base-36 string as its input.
- `store.dfy` (module `Store`) holds the class `Registry`. Its field
  `links: map<string, Link>` stands for `mem.links`. Its methods are
  `GetLink`, `CreateLink`, `IncrementClick` and `SoftDelete`, plus `Records`,
  which stands for `Object.values`. Each method states the whole new store in
  terms of the old one.
- `listing.dfy` (module `Listing`) holds the sort used by the list route. It
  puts the newest first and is proved to be a permutation of its input. It is
  stable by construction; no lemma states stability.
- `service.dfy` (module `Service`) specifies each route as a function from the
  store before the request to a `Step`, which is the response plus the store
  afterwards. Each handler method runs the source's guarded sequence against a
  `Registry` and is proved to produce exactly that step. Lemmas state the
  route-level properties:
  - which checks happen before any store access;
  - create's success and conflict conditions, each as an if-and-only-if;
  - a created record is stored under the supplied or generated code, and two
    creates with distinct codes are both retrievable;
  - soft delete is idempotent;
  - a deleted code stops redirecting, stays visible to lookup, and can never be
    created again;
  - N redirects add exactly N clicks;
  - over any sequence of requests every record follows the lifecycle.

  `GetSegment` adds the route order for a `GET /<segment>` request. Express
  tries routes in registration order and ignores case by default, so the health
  route at index.js:98 answers every spelling of `healthz` before the redirect
  route at index.js:217 is reached.
- `as_written_lookup.dfy` (module `AsWrittenLookup`) models the registry lookup
  as the source writes it, as a property read on a plain object. It tracks what
  earlier requests wrote onto `Object.prototype` and onto inherited functions,
  and shows where that lookup goes wrong (see "## Findings").

Some behaviour of the source cannot be computed here, so the routes take it as
parameters:

- URL parsing (`new URL(url)`) is the argument `isUrl: string -> bool`.
- The output of `Math.random().toString(36)` is the argument `base36`.
- The clock (`new Date()`) is the argument `now: nat`. A timestamp is a
  natural number, and the list route's comparison of `new Date(created_at)`
  values is a comparison of those numbers.

Three behaviours of `index.js` are easy to miss:

- A generated code goes through `CODE_RE` like a supplied one (index.js:121).
  The filtered base-36 string can be shorter than six characters, and then the
  request gets a 400 (`GeneratedCodeFormat`).
- A deleted record still holds its code. Creating that code again conflicts
  (index.js:127-131 with index.js:44; `CreateConflictIff`,
  `DeletedLinkStaysVisible`).
- The in-memory list has no cap. It returns every record, deleted ones included
  (index.js:161-164; `ListHandler`). Only the PostgreSQL query is limited to 100.

## Model

| member | source | states |
|---|---|---|
| `Links.NewLink` | index.js:134-142 | A new record carries the given code, url, title and creation time, with zero clicks, no click time and `deleted` false. |
| `Links.EvolvesIsPreorder` | index.js:69-94 | The record lifecycle relation is reflexive and transitive, so any chain of updates keeps code, url, title and creation time, never lowers the counter and never undeletes. |
| `Links.StoreEvolvesTransitive` | index.js:69-94 | Store evolution composes: keys are never lost and each record keeps evolving over two successive steps. |
| `Links.Find` | index.js:44 | The lookup yields a record exactly when the code is a stored key, and then it yields the record stored under it. |
| `Links.Clicked` | index.js:77-78 | A click adds exactly one to the counter and records the click instant. It keeps the deleted flag and obeys the lifecycle. |
| `Links.Flagged` | index.js:91 | A soft delete sets the flag, keeps counter and last click time, and obeys the lifecycle. |
| `Links.AfterClick` | index.js:75-79 | Incrementing keeps the key set and replaces only the clicked record. An absent code changes nothing. Records stay keyed by their own code and the store evolves. |
| `Links.AfterSoftDelete` | index.js:89-92 | Soft delete keeps the key set and flags only the named record. An absent code changes nothing. Records stay keyed by code and the store evolves. |
| `Links.SoftDeleteIdempotent` | index.js:89-92 | Soft-deleting the same code twice gives the same store as doing it once. |
| `Links.SoftDeleteNeverUndeletes` | index.js:91 | After a soft delete, a record's flag is its old flag or-ed with "this is the deleted code"; no flag is ever cleared. |
| `Codes.MatchesRepeat` | index.js:34 | The anchored repetition `[A-Za-z0-9]{lo,hi}$` matches a string iff its length is between lo and hi and every character is in the class. |
| `Codes.MatchesCodeRe` | index.js:34 | `CODE_RE.test(s)` holds iff `s` has 6 to 8 characters, all ASCII letters or digits. |
| `Codes.StripToLowerAlnum` | index.js:117 | The replace leaves only `[a-z0-9]` characters, is no longer than its input, and keeps every such character as often as it occurred. |
| `Codes.StripOne` | index.js:117 | A single character survives the replace iff it is in `[a-z0-9]`. |
| `Codes.StripConcat` | index.js:117 | The replace keeps order: filtering a concatenation gives the concatenation of the filtered parts. Together with `StripOne` this fixes the output for every input. |
| `Codes.StripKeepsLowerAlnum` | index.js:117 | A string already made of `[a-z0-9]` passes through the replace unchanged. |
| `Codes.GenerateCode` | index.js:115-118 | A generated code is a prefix of the filtered base-36 string: at most six lowercase letters or digits, and exactly six unless the filtered string was shorter. |
| `Codes.GeneratedCodeStartsWithZero` | index.js:115-118 | When the base-36 string starts with `0`, as `Math.random().toString(36)` always does, the generated code is non-empty and starts with `0`. |
| `Codes.GeneratedCodeFormat` | index.js:114-125 | A generated code passes the format check iff the filtered base-36 string has at least six characters, and then it has exactly six. |
| `Store.ListingPermutation` | index.js:161-163 | Any rearrangement (same multiset) of a listing of the store is again a listing that holds every stored record exactly once. |
| `Store.Registry.constructor` | index.js:30-32 | The registry starts empty. |
| `Store.Registry.GetLink` | index.js:44 | Returns a record iff the code is stored. That record is the one stored under the code, carries the code, and is returned even when deleted. |
| `Store.Registry.CreateLink` | index.js:64-65 | Stores the record under its own code and returns it. With a fresh code, every earlier record is untouched and the store evolves. |
| `Store.Registry.IncrementClick` | index.js:75-79 | The new store is the old one after one click on the code. Returns the updated record iff the code was present, and null otherwise with nothing changed. |
| `Store.Registry.SoftDelete` | index.js:89-92 | The new store is the old one with only that record flagged. Returns the flagged record iff the code was present, and null otherwise with nothing changed. |
| `Store.Registry.Records` | index.js:161 | Returns every stored record once and nothing else. |
| `Listing.Insert` | index.js:161-163 | Inserting into a newest-first list gives a newest-first list with exactly one more element, the inserted one. |
| `Listing.SortNewestFirst` | index.js:161-163 | The sort output is ordered by creation time, newest first, and is a permutation of its input. |
| `Service.Falsy` | index.js:106 | `!field` on a string field: only an absent or empty field is falsy. |
| `Service.ResolvedCode` | index.js:114-119 | A supplied non-empty code is used as it is. Otherwise the code is the generated one, at most six lowercase letters or digits. |
| `Service.TitleOrEmpty` | index.js:137 | The title or its default: the supplied title, and the empty string exactly when no non-empty title was supplied. |
| `Service.IsReserved` | index.js:220 | The reserved words are `healthz`, `api` and `code`; of these only `healthz` passes the format check. |
| `Service.CreateRoute` | index.js:103-145 | Create answers 201, 400 or 409. A non-201 answer leaves the store unchanged. A 201 adds exactly one new key, which is the supplied or generated code. That code is well-formed and was not stored. The record has the given url (non-empty and parsing), the title or "", zero clicks, no click time, not deleted and created now. The store evolves. |
| `Service.CreateRejectsBadUrl` | index.js:106-112 | A missing or empty url gets 400 "url is required". A url that does not parse gets 400 "invalid url". Both hold whatever the store holds, and nothing is stored. |
| `Service.CreateRejectsBadCode` | index.js:114-125 | Once the url is accepted, a supplied or generated code that is not 6 to 8 letters or digits gets 400 with the pattern message, whatever the store holds, and nothing is stored. |
| `Service.CreateConflictIff` | index.js:127-131 | With the url and format checks passed, create conflicts iff the code is already a stored key, even a deleted record's, and succeeds iff it is not. |
| `Service.CreateSucceedsIff` | index.js:106-145 | Create succeeds iff the url is present and parses and the resolved code has 6 to 8 letters or digits and is not a stored key. |
| `Service.CreateWithGeneratedCode` | index.js:114-125 | When no code is supplied, a successful create stores the generated code, which is exactly six lowercase letters or digits. |
| `Service.CreateWithSuppliedCode` | index.js:133-144 | When a code is supplied, a successful create stores the record under exactly that code. |
| `Service.DistinctCodesBothRetrievable` | index.js:103-177 | Two creates with distinct, well-formed, unused codes both succeed, and lookup then finds each record under its own code. |
| `Service.LookupRoute` | index.js:173-177 | Lookup returns the stored record iff the code is stored, deleted or not, and 404 otherwise. |
| `Service.DeleteRoute` | index.js:185-190 | Deleting an unknown code gets 404 with the store unchanged. Deleting a known one returns its record with `deleted` set, and the record stays stored with only that field changed. |
| `Service.DeleteIdempotent` | index.js:185-190 | Deleting twice leaves the same store as deleting once. |
| `Service.RedirectRoute` | index.js:217-227 | Redirect answers 404 iff the code is reserved, unknown or deleted, with the store unchanged. Otherwise it redirects to the stored url after exactly one click on that code. |
| `Service.RedirectsCountClicks` | index.js:217-227 | N redirects to a live code add exactly N clicks, record the last instant, keep url and flag, and leave every other record alone. |
| `Service.DeletedLinkStaysVisible` | index.js:173-228 | After a delete the code redirects to 404 and lookup still shows the record with `deleted` set. Creating that code again conflicts. |
| `Service.CreateThenRedirect` | index.js:103-228 | A freshly created, non-reserved code redirects to its url, and a lookup afterwards shows one click at that instant. |
| `Service.LowerAscii` | index.js:98 | ASCII lower-casing, as used to match route paths: same length, upper-case ASCII letters mapped to lower case, everything else kept. |
| `Service.GetSegment` | index.js:98-228 | A single-segment GET reaches the health route iff its segment lower-cases to `healthz`. Otherwise it is the redirect route, and a redirect implies a live stored code. |
| `Service.HealthzSpellingIsCode` | index.js:34 | Every spelling of `healthz` passes `CODE_RE`. |
| `Service.HealthzSpellingsNeverRedirect` | index.js:98-221 | Each of the 128 spellings of `healthz` can be created as a code, but visiting it always reaches the health route, never a redirect. |
| `Service.Apply` | index.js:103-228 | Every request keeps records keyed by their code and lets the store only evolve. |
| `Service.RunEvolves` | index.js:69-228 | Over any sequence of requests no record disappears or changes code, url, title or creation time, no counter goes down and no deleted record comes back. |
| `Service.CreateHandler` | index.js:103-145 | The handler's response and new store are exactly those of the create route. |
| `Service.LookupHandler` | index.js:173-177 | The handler's response is exactly the lookup route's. |
| `Service.DeleteHandler` | index.js:185-190 | The handler's response and new store are exactly those of the delete route. |
| `Service.RedirectHandler` | index.js:217-227 | The handler's response and new store are exactly those of the redirect route. |
| `Service.ListHandler` | index.js:161-164 | The list holds every stored record exactly once, deleted ones included, is ordered newest first, and is as long as the store: no cap. |
| `AsWrittenLookup.InheritedNow` | index.js:44 | The names a plain object answers by inheritance: the twelve of a fresh process, plus `clicks` and `last_clicked_at` after a click through `__proto__`, plus `deleted` after a delete through it. |
| `AsWrittenLookup.PropertyRead` | index.js:44 | A property read on the store object finds a stored record iff the code is a key. Otherwise it finds an inherited value iff the code is currently inherited, and nothing otherwise. |
| `AsWrittenLookup.CreateRouteAsWritten` | index.js:127-131 | As written, create conflicts iff the checks pass and the code is a stored key or a currently inherited name. On codes that are not inherited it agrees with the corrected route. |
| `AsWrittenLookup.RedirectAsWritten` | index.js:217-227 | As written, a 404 comes iff the code is reserved, a deleted record, or not stored and either not inherited or inheriting a truthy `deleted`. On stored codes it agrees with the corrected route. An inherited value gets a 302 to an undefined url, and `__proto__` records the click onto the prototype. |
| `AsWrittenLookup.DeleteAsWritten` | index.js:185-190 | As written, a delete answers 404 iff the code is neither stored nor inherited, and 200 otherwise. On stored codes it agrees with the corrected route. Through `__proto__` it flags the prototype, through an inherited function it flags that function, and primitives drop the write. |
| `AsWrittenLookup.InheritedCodeConflicts` | index.js:127-131 | As written, on an empty store any well-formed code that is currently inherited gets 409, with a valid url. |
| `AsWrittenLookup.FreshCreatesClicks` | index.js:127-144 | In a fresh process the code `clicks` is not inherited, so creating it succeeds as written. |
| `AsWrittenLookup.ProtoWriteSteps` | index.js:75-92 | As written, in a fresh process `GET /__proto__` answers 302 and records a click onto the prototype. A following `DELETE /api/links/__proto__` answers 200 and records the delete there. The store stays empty. |
| `AsWrittenLookup.ValueOfConflictsAsWritten` | index.js:127-131 | On an empty store, a create with code `valueOf` gets 409 as written whatever earlier requests did, while the corrected route creates it. |
| `AsWrittenLookup.ToStringRedirectsAsWritten` | index.js:223-224 | On the empty store of a fresh process, `GET /toString` is a 302 to an undefined url as written, while the corrected route answers 404. |
| `AsWrittenLookup.ProtoWritesPersistAsWritten` | index.js:75-92 | As written, `clicks` can be created in a fresh process. After a click and a delete through `__proto__`, both `clicks` and `deleted` conflict and `GET /toString` becomes a 404. The corrected routes treat `__proto__` as unknown. |

## Left out

- The PostgreSQL branch of every helper and of the list route is not modelled. It is SQL run through a foreign library; the model covers the in-memory backend only, which includes the list's lack of a 100-record cap.
- Express wiring, middleware, static files, `app.listen` and the dashboard page are left out. They are I/O plumbing. The health route appears only as the `Healthy` response of `GetSegment`.
- Route matching is modelled only as far as `GetSegment` goes: the health route before the redirect route, ignoring ASCII case. Percent-decoding of path segments, trailing slashes and multi-segment paths are not modelled.
- The HTML of the stats page `/code/:code` is left out. It is presentation only.
- `public/app.js` is left out. It is the browser UI, including its search filter and its skipping of deleted rows.
- The 500 "server error" path is left out. Nothing in the in-memory branch that the model covers can throw.
- Request fields are strings or absent. JSON numbers, booleans and objects, which JavaScript would coerce, are not modelled.
- `new URL(...)`, `Math.random()` and `new Date()` are parameters of the routes. They are foreign or nondeterministic. `Math.random().toString(36)` always starts with `0`, and with `0.` unless the number is 0. That leading `0` survives the filter, so every code the source generates starts with `0` (`GeneratedCodeStartsWithZero`). The routes do not assume this: they accept any `base36` string, so a generated code may start with any character of `[a-z0-9]`.
- Timestamps are naturals, not ISO strings. Millisecond rounding is not modelled.
- Atomicity of concurrent increments is left out. The model is sequential.
- Records are values. JavaScript shares one object between the store and a response, which cannot be observed here because each response is serialised at once.
- Store.Registry.Records: it does not fix the order of `Object.values`. That order is integer-like keys ascending first, then the other keys in insertion order. As a result, the order that the stable sort gives to records with equal creation times is not determined in the model.
- Links.Clicked: `clicks` is a JavaScript number. From 2^53 on, `(l.clicks || 0) + 1` no longer changes it. The model's counter is an unbounded `nat`, so the "+1" of `Clicked` and the "exactly N" of `Service.RedirectsCountClicks` hold for the source only below 2^53 clicks. That bound cannot be reached in practice.
- Store.Registry.IncrementClick: the model does not handle a record whose `clicks` is missing (`(l.clicks || 0) + 1`). Every in-memory record is created with `clicks: 0`, so that case cannot arise.
- AsWrittenLookup.PropertyRead: the lookup route as written is not modelled on inherited names. For example, `GET /api/links/valueOf` answers 200 with a function in place of a record. The create, redirect and delete routes are modelled as written, and the rest of the model uses the corrected lookup.
- AsWrittenLookup.InheritedNow: it follows only the writes the routes can make through `mem.links`. Writes onto an inherited function's own `clicks` are left out, because no lookup of the store reads them.

## Findings

| source | as written | input that shows it | evidently intended | confidence | as-written member | corrected member |
|---|---|---|---|---|---|---|
| index.js:44 | the property read `mem.links[code]` also finds members inherited from `Object.prototype`, so the conflict check at index.js:129 treats `valueOf` and `toString` (both well-formed codes) as taken | `POST /api/links {"url":"https://example.com","code":"valueOf"}` on an empty store answers 409 "code already exists" | only stored records conflict, as in the PostgreSQL branch, so the answer is 201 | high; not executed | `AsWrittenLookup.ValueOfConflictsAsWritten` | `Service.CreateConflictIff` |
| index.js:223-224 | the same lookup returns a truthy built-in function for `toString`, `constructor` and the other inherited names, and its `deleted` is undefined, so the 404 guard lets them through | `GET /toString` on the empty store of a fresh process writes `clicks` onto the built-in function and redirects to the undefined `url` | unknown codes answer 404 | high; not executed | `AsWrittenLookup.ToStringRedirectsAsWritten` | `Service.RedirectRoute` |
| index.js:75-92 | through `__proto__` the click and delete helpers write `clicks`, `last_clicked_at` and `deleted` onto `Object.prototype` itself, so those names become inherited by every object | `GET /__proto__` then `DELETE /api/links/__proto__` on an empty store; afterwards `POST /api/links` with code `clicks` or `deleted` answers 409, and `GET /toString` answers 404 | `__proto__` is an unknown code: 404, nothing written, and later creates unaffected | high; not executed | `AsWrittenLookup.ProtoWritesPersistAsWritten` | `Service.CreateConflictIff` |
