# FAQ translations and the cached list view, in Dafny

This project models the two pieces of logic of a small Django FAQ service:

- the per-record translation rules of the `FAQ` model (faq/models.py): the
  lookup `get_translated_text`, which falls back to the original text when the
  `<field>_<lang>` slot is not truthy, and `save`, which fills each of the four
  slots `question_hi`, `question_bn`, `answer_hi`, `answer_bn` that is empty by
  calling the translator on the matching original, keeps the slots that are set,
  and then persists the row;
- the read path `FAQListView.get` (faq/views.py): the `lang` query parameter
  (default `en`), the cache key `faqs_<lang>`, the hit that returns any cached
  list (the empty list included), and the miss that projects every stored row
  into `{question, answer}` with `dict.get(f'question_{lang}', original)`, caches
  the list for `60 * 2` time units and returns it.

Files:

- `wrappers.dfy` — `Option`, used for nullable columns and cache misses.
- `models.dfy` — module `Models`: the stored `Row`, attribute lookup by name,
  Python truthiness, the fill policy as the functions `Fill` / `FillCalls` with
  their properties, and the class `FAQ` whose method `Save` updates its slots in
  place and is proved to produce `Fill` of its old state.
- `caching.dfy` — module `Caching`: the cache as a map from key to
  `Item(value, expiry)`, with `Get`, `Set` and `Clear` on a `Cache` class. The
  clock is abstract: each operation receives `now`, and an entry is live while
  `now < expiry`.
- `views.dfy` — module `Views`: serialization, the per-record projection, the
  loop that builds the list (`Project`), the request as a function of the cache
  state (`Serve`), the method `FaqListGet` that calls the cache class and is
  proved to behave as `Serve`, and lemmas about sequences of requests.

External pieces are parameters: the translator is a total function value
`translate(text, dest)`; the store is the sequence of stored rows; the
serializer (faq/serializers.py is not part of this model) is described by the
set `fields` of model field names it emits. The view requires `question` and
`answer` among them; the natural configuration is all six model fields
(`FieldNames`).

Two behaviours of the code are stated as they are:

- Nothing invalidates a cached list when records change. In the model only
  the timeout or an explicit `cache.clear()` (as the tests do in their setup)
  removes one; the backend's own eviction is not modelled (see "## Left out").
  `RepeatWithinTimeout` and `StaleAfterCreate` state that a request within the
  timeout returns the earlier list whatever the store holds by then.
- The view chooses by key presence, `get_translated_text` by truthiness: a slot
  that the serializer emits as null or empty is served as null or empty by the
  view, while `get_translated_text` returns the original (`UnsetSlotServedAsStored`).

The code has no cache invalidation on mutation, no handling of translator
failures and no single-flight population, and the view serves a stored empty
slot as it is rather than falling back; the model states these behaviours as
they are.

## Model

| member | source | states |
|---|---|---|
| `Models.Attr` | faq/models.py:7-13 | exactly the six model fields are attributes of a row |
| `Models.SlotLookup` | faq/models.py:20 | `<field>_<lang>` for `question`/`answer` names one of the four slots exactly when `lang` is `hi` or `bn`; for every other language there is no such attribute |
| `Models.FAQ.GetTranslatedText` | faq/models.py:18-21 | returns the `<field>_<lang>` slot when it is non-empty; returns the original when the language has no slot or the slot is null or empty; never returns an empty value when the original is non-empty; never raises for a model field |
| `Models.Fill` | faq/models.py:26-35 | leaves `question` and `answer` unchanged; keeps every set slot; sets every empty slot to the translation of the matching original into the slot's language; afterwards all four slots hold a value |
| `Models.FillCalls` | faq/models.py:25-35 | at most four translator calls: a call for a slot exactly when that slot is empty, sending the matching original text with the slot's language |
| `Models.FillCallsOnlyUnset` | faq/models.py:26-35 | every call is for an unset slot and sends that slot's original text with the slot's language; no slot is translated twice |
| `Models.FillIdempotent` | faq/models.py:26-35 | a second fill makes no translator call if and only if every translation the first fill obtained is non-empty, and then it changes nothing |
| `Models.FAQ.Save` | faq/models.py:23-36 | the instance's new state is `Fill` of its old state, the calls made are `FillCalls` of the old state, and the persisted row is the new state |
| `Models.FAQ.constructor` | faq/models.py:6-13 | a new instance holds the given original texts and slots |
| `Caching.Lookup` | faq/views.py:12 | `cache.get` returns a value exactly when the key has a live entry |
| `Caching.Put` | faq/views.py:28 | `cache.set` writes `Item(value, now + timeout)` under the given key and leaves every other key as it was |
| `Caching.PutThenLookup` | faq/views.py:17 | a stored value is read back exactly until its timeout runs out; other keys read as before |
| `Caching.Cache.Get` | faq/views.py:12 | the method returns `Lookup` of the current entries |
| `Caching.Cache.Set` | faq/views.py:28 | the new entries are `Put` of the old ones with expiry `now + timeout` |
| `Caching.Cache.Clear` | faq/tests.py:11 | afterwards the cache is empty |
| `Views.CacheKeyInjective` | faq/views.py:11 | two languages share the key `faqs_<lang>` only if they are the same language |
| `Views.ProjectAll` | faq/views.py:21-27 | the projected list has one entry per serialized record, each the projection of the record at the same position |
| `Views.Project` | faq/views.py:21-27 | the append loop yields exactly the projected list |
| `Views.ProjectedRow` | faq/views.py:23-26 | a served field is the `<field>_<lang>` slot when the serializer emits that key, and the original otherwise |
| `Views.OriginalsForOtherLanguages` | faq/views.py:24-25 | for `en` and any language other than `hi`/`bn`, both served fields are the originals |
| `Views.UnsetSlotServedAsStored` | faq/views.py:24-25 | a null or empty slot that is emitted is served as stored, while `get_translated_text` returns the original |
| `Views.Serve` | faq/views.py:9-31 | a live entry (the empty list included) is returned unchanged and nothing is written; on a miss the result has one projected entry per row in store order and exactly that result is cached under `faqs_<lang>` with expiry `now + 120`; no other key is written |
| `Views.DefaultLanguage` | faq/views.py:10-11 | an omitted `lang` is the request `lang=en`, with key `faqs_en` |
| `Views.EmptyStoreMiss` | faq/views.py:16-18 | a miss on an empty store returns `[]` and caches `[]` with expiry `now + 120` |
| `Views.RepeatWithinTimeout` | faq/views.py:12-14 | after a miss, a request for the same language before the timeout returns the same list and the same cache, whatever the store holds |
| `Views.ExpiredEntryRescans` | faq/views.py:14-27 | after the timeout, a request returns the projection of the store as it is then |
| `Views.OtherLanguagesUntouched` | faq/views.py:11-28 | a request for one language changes nothing that a request for another language reads |
| `Views.FaqListGet` | faq/views.py:9-31 | the returned list and the new cache state are those of `Serve` on the old cache state |
| `Views.HindiRequestAfterCreate` | faq/tests.py:77-92 | a record created with both Hindi slots set is served with those slots for `lang=hi` from an empty cache |
| `Views.StaleAfterCreate` | faq/tests.py:111-126 | two default-language requests within the timeout return equal lists, even when a record was created in between |
| `Models.AttrOrNone` | faq/models.py:20 | no contract of its own: `getattr(self, name, None)`; specified through `GetTranslatedText` and `SlotLookup` |
| `Models.FAQ.Pick` | faq/models.py:21 | no contract of its own: `translation if translation else getattr(self, field)`; specified by the ensures of `GetTranslatedText` |
| `Models.FillSlot` | faq/models.py:26-35 | no contract of its own: one guarded step of `save`; specified by the ensures of `Fill` |
| `Models.SlotCall` | faq/models.py:26-35 | no contract of its own: the call one guarded step makes; specified by `FillCalls` and `FillCallsOnlyUnset` |
| `Caching.Live` | faq/views.py:12 | no contract of its own: the expiry test of `cache.get`; specified through `Lookup` and `PutThenLookup` |
| `Views.LangOf` | faq/views.py:10 | no contract of its own: `query_params.get('lang', 'en')`; specified by `DefaultLanguage` |
| `Views.CacheKey` | faq/views.py:11 | no contract of its own: `f'faqs_{lang}'`; specified by `CacheKeyInjective` and `DefaultLanguage` |
| `Views.Serialize` | faq/views.py:20 | no contract of its own: one serialized record with the configured fields; specified through `ProjectedRow` |
| `Views.SerializeAll` | faq/views.py:20-22 | no contract of its own: the serializer's list in store order; specified through the ensures of `Serve` |
| `Views.DictGet` | faq/views.py:24-25 | no contract of its own: `dict.get(key, default)` by key presence; specified through `ProjectedRow` |
| `Views.ProjectEntry` | faq/views.py:23-26 | no contract of its own: the `{question, answer}` projection of one record; specified by `ProjectedRow`, `OriginalsForOtherLanguages` and `UnsetSlotServedAsStored` |

## Left out

- The googletrans network call: the translator is an opaque total function; its
  errors, rate limits and latency are not modelled (the code does not handle them).
- ORM persistence: `super().save()` is modelled by returning the row to be
  stored; insert-versus-update by primary key, ids and `FAQ.objects.all()`
  ordering are not modelled (the store is a sequence of rows in serving order).
- faq/serializers.py is not part of this model: its output keys are the
  parameter `fields`. With `question` or `answer` missing from them the code
  raises KeyError on a non-empty store; the view's precondition excludes that
  configuration.
- Attributes other than the six model fields (`id`, `pk`, methods) are not
  modelled as results of `getattr` in `get_translated_text`.
- Django cache backend internals: deletion of expired entries on read (a miss
  either way), pickling of values, and the special meanings of timeout `0` and
  `None` (the view only uses `120`).
- Views.Serve: the backend's culling when it reaches its maximum number of
  entries is not modelled. Because `lang` comes from the query string, a request
  can add a new key and evict another language's entry, so "no other key is
  written" holds only for the view's own writes.
- Views.OtherLanguagesUntouched: holds only when the backend does not cull, for
  the same reason as for `Views.Serve`.
- Views.FaqListGet: the clock is read once per request, so `cache.get` and
  `cache.set` get the same `now`. In the code `cache.set` runs after the store
  scan, so the real expiry is the set time plus 120.
- Views.ExpiredEntryRescans: relies on that single clock reading per request.
- `FAQ.__str__`, the admin form and widget (faq/admin.py), HTTP responses and
  status codes, rich-text field types (plain strings here).
- Concurrency: the code has no single-flight population and no locking.
