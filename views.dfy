/** The read path of faq/views.py: `FAQListView.get` picks the language (default
    "en"), serves the cached list under `faqs_<lang>` when there is one, and
    otherwise projects every stored row into a `{question, answer}` entry, caches
    the list for 120 time units and returns it. */
module Views {
  import opened Wrappers
  import opened Models
  import opened Caching

  /** One served `{question, answer}` object. A field is None when the serialized
      slot it was taken from is present but null. */
  datatype Entry = Entry(question: Option<string>, answer: Option<string>)

  /** One serialized record: field name to (nullable) text. */
  type Dict = map<string, Option<string>>

  /** The cache state the view reads and writes. */
  type Entries = map<string, Item<seq<Entry>>>

  /** A served response: the list returned and the cache afterwards. */
  datatype Served = Served(data: seq<Entry>, cache: Entries)

  const DefaultLang: string := "en"
  const KeyPrefix: string := "faqs_"
  const Timeout: nat := 60 * 2

  /** `request.query_params.get('lang', 'en')`. */
  function LangOf(param: Option<string>): string
  {
    match param
    case None => DefaultLang
    case Some(lang) => lang
  }

  /** `f'faqs_{lang}'`. */
  function CacheKey(lang: string): string
  {
    KeyPrefix + lang
  }

  /** Different languages never share a cache entry. */
  lemma CacheKeyInjective(lang1: string, lang2: string)
    ensures CacheKey(lang1) == CacheKey(lang2) <==> lang1 == lang2
  {
    if CacheKey(lang1) == CacheKey(lang2) {
      PrefixCancel(KeyPrefix, lang1, lang2);
    }
  }

  /** The serializer is configured with `fields`, a set of model field names; the
      projection needs at least the two originals. */
  predicate CoversOriginals(fields: set<string>)
  {
    "question" in fields && "answer" in fields
  }

  predicate HasOriginals(d: Dict)
  {
    "question" in d && "answer" in d
  }

  /** The serialized form of a row: every configured model field, by name. */
  function Serialize(r: Row, fields: set<string>): Dict
  {
    map k | k in fields && k in FieldNames :: AttrOrNone(r, k)
  }

  /** `FAQSerializer(faqs, many=True).data`, in store order. */
  function SerializeAll(rows: seq<Row>, fields: set<string>): seq<Dict>
  {
    seq(|rows|, i requires 0 <= i < |rows| => Serialize(rows[i], fields))
  }

  /** `d.get(key, default)`: decided by key presence, not by the value. */
  function DictGet(d: Dict, key: string, default: Option<string>): Option<string>
  {
    if key in d then d[key] else default
  }

  /** The projection of one serialized record for `lang`. */
  function ProjectEntry(d: Dict, lang: string): Entry
    requires HasOriginals(d)
  {
    Entry(DictGet(d, SlotName("question", lang), d["question"]),
          DictGet(d, SlotName("answer", lang), d["answer"]))
  }

  function EntryField(e: Entry, field: string): Option<string>
    requires field in Originals
  {
    if field == "question" then e.question else e.answer
  }

  /** The projected list: one entry per serialized record, in the same order. */
  function ProjectAll(ds: seq<Dict>, lang: string): (data: seq<Entry>)
    requires forall i | 0 <= i < |ds| :: HasOriginals(ds[i])
    ensures |data| == |ds|
    ensures forall i | 0 <= i < |ds| :: data[i] == ProjectEntry(ds[i], lang)
  {
    if ds == [] then [] else [ProjectEntry(ds[0], lang)] + ProjectAll(ds[1..], lang)
  }

  /** The loop that builds `data` by appending one projected entry per record. */
  method Project(ds: seq<Dict>, lang: string) returns (data: seq<Entry>)
    requires forall i | 0 <= i < |ds| :: HasOriginals(ds[i])
    ensures data == ProjectAll(ds, lang)
  {
    data := [];
    for i := 0 to |ds|
      invariant |data| == i
      invariant forall k | 0 <= k < i :: data[k] == ProjectEntry(ds[k], lang)
    {
      data := data + [ProjectEntry(ds[i], lang)];
    }
  }

  /** What a served field is: the `<field>_<lang>` slot when the serializer emits
      that key (so a null or empty slot is served as it is), and the original text
      when the language has no slot or the key is not emitted. */
  lemma ProjectedRow(r: Row, fields: set<string>, lang: string, field: string)
    requires CoversOriginals(fields) && field in Originals
    ensures HasOriginals(Serialize(r, fields))
    ensures EntryField(ProjectEntry(Serialize(r, fields), lang), field) ==
            if lang in Targets && SlotName(field, lang) in fields then Slot(r, field, lang)
            else Some(Original(r, field))
  {
    SlotLookup(r, field, lang);
  }

  /** For "en" and for any language without slots ("fr", "invalid") both served
      fields are the originals. */
  lemma OriginalsForOtherLanguages(r: Row, fields: set<string>, lang: string)
    requires CoversOriginals(fields) && lang !in Targets
    ensures HasOriginals(Serialize(r, fields))
    ensures ProjectEntry(Serialize(r, fields), lang) == Entry(Some(r.question), Some(r.answer))
  {
    ProjectedRow(r, fields, lang, "question");
    ProjectedRow(r, fields, lang, "answer");
  }

  /** The view and `get_translated_text` disagree on an unset slot that the
      serializer emits: the view serves its null or empty value, the model method
      falls back to the original. */
  lemma UnsetSlotServedAsStored(f: FAQ, fields: set<string>, lang: string, field: string)
    requires CoversOriginals(fields) && field in Originals && lang in Targets
    requires SlotName(field, lang) in fields && !Truthy(Slot(f.Snapshot(), field, lang))
    ensures HasOriginals(Serialize(f.Snapshot(), fields))
    ensures EntryField(ProjectEntry(Serialize(f.Snapshot(), fields), lang), field) ==
            Slot(f.Snapshot(), field, lang)
    ensures f.GetTranslatedText(field, lang) == Text(Some(Original(f.Snapshot(), field)))
  {
    ProjectedRow(f.Snapshot(), fields, lang, field);
  }

  /** One GET request against the cache state `entries` and the stored rows. */
  function Serve(entries: Entries, rows: seq<Row>, fields: set<string>,
                 param: Option<string>, now: int): (s: Served)
    requires CoversOriginals(fields)
    // a live entry, the empty list included, is returned as it is and nothing is written
    ensures Lookup(entries, CacheKey(LangOf(param)), now).Some? ==>
      s == Served(Lookup(entries, CacheKey(LangOf(param)), now).value, entries)
    // on a miss the result has one entry per row, in store order ...
    ensures Lookup(entries, CacheKey(LangOf(param)), now).None? ==>
      |s.data| == |rows| &&
      forall i | 0 <= i < |rows| ::
        HasOriginals(Serialize(rows[i], fields)) &&
        s.data[i] == ProjectEntry(Serialize(rows[i], fields), LangOf(param))
    // ... and exactly that result is cached under the language's key for the timeout
    ensures Lookup(entries, CacheKey(LangOf(param)), now).None? ==>
      s.cache == Put(entries, CacheKey(LangOf(param)), s.data, Timeout, now)
    // no other key is written
    ensures forall k | k != CacheKey(LangOf(param)) ::
      (k in s.cache <==> k in entries) && (k in entries ==> s.cache[k] == entries[k])
  {
    var lang := LangOf(param);
    var key := CacheKey(lang);
    match Lookup(entries, key, now)
    case Some(faqs) => Served(faqs, entries)
    case None =>
      if rows == [] then Served([], Put(entries, key, [], Timeout, now))
      else
        var data := ProjectAll(SerializeAll(rows, fields), lang);
        Served(data, Put(entries, key, data, Timeout, now))
  }

  /** An omitted `lang` is the same request as `lang=en`. */
  lemma DefaultLanguage(entries: Entries, rows: seq<Row>, fields: set<string>, now: int)
    requires CoversOriginals(fields)
    ensures CacheKey(LangOf(None)) == "faqs_en"
    ensures Serve(entries, rows, fields, None, now) == Serve(entries, rows, fields, Some("en"), now)
  {
  }

  /** A miss on an empty store returns the empty list and caches it. */
  lemma EmptyStoreMiss(entries: Entries, fields: set<string>, param: Option<string>, now: int)
    requires CoversOriginals(fields)
    requires Lookup(entries, CacheKey(LangOf(param)), now).None?
    ensures Serve(entries, [], fields, param, now) ==
            Served([], entries[CacheKey(LangOf(param)) := Item([], now + 120)])
  {
  }

  /** After a miss, any request for the same language within the timeout returns
      the same list without reading the store, whatever the store holds by then:
      nothing but the timeout (or `cache.clear()`) invalidates an entry. */
  lemma RepeatWithinTimeout(entries: Entries, rows: seq<Row>, laterRows: seq<Row>,
                            fields: set<string>, param: Option<string>, now: int, later: int)
    requires CoversOriginals(fields)
    requires Lookup(entries, CacheKey(LangOf(param)), now).None?
    requires later < now + Timeout
    ensures var first := Serve(entries, rows, fields, param, now);
            Serve(first.cache, laterRows, fields, param, later) == first
  {
  }

  /** Once the timeout has run out, the next request reads the store again. */
  lemma ExpiredEntryRescans(entries: Entries, rows: seq<Row>, laterRows: seq<Row>,
                            fields: set<string>, param: Option<string>, now: int, later: int)
    requires CoversOriginals(fields)
    requires Lookup(entries, CacheKey(LangOf(param)), now).None?
    requires later >= now + Timeout
    ensures var first := Serve(entries, rows, fields, param, now);
            Serve(first.cache, laterRows, fields, param, later).data ==
            Serve(map[], laterRows, fields, param, later).data
  {
  }

  /** A request for one language leaves what every other language reads unchanged. */
  lemma OtherLanguagesUntouched(entries: Entries, rows: seq<Row>, fields: set<string>,
                                param: Option<string>, now: int, other: string, when: int)
    requires CoversOriginals(fields)
    requires other != LangOf(param)
    ensures Lookup(Serve(entries, rows, fields, param, now).cache, CacheKey(other), when) ==
            Lookup(entries, CacheKey(other), when)
  {
    CacheKeyInjective(other, LangOf(param));
  }

  /** `FAQListView.get`: the serializer's key set `fields` and the clock `now` are
      parameters; the store is the sequence of stored rows. */
  method FaqListGet(cache: Cache<seq<Entry>>, rows: seq<Row>, fields: set<string>,
                    param: Option<string>, now: int) returns (faqs: seq<Entry>)
    requires CoversOriginals(fields)
    modifies cache
    ensures Served(faqs, cache.entries) == Serve(old(cache.entries), rows, fields, param, now)
  {
    var lang := LangOf(param);
    var key := CacheKey(lang);
    var cached := cache.Get(key, now);
    if cached.None? {
      if rows == [] {
        cache.Set(key, [], Timeout, now);
        return [];
      }
      var ds := SerializeAll(rows, fields);
      var data := Project(ds, lang);
      cache.Set(key, data, Timeout, now);
      faqs := data;
    } else {
      faqs := cached.value;
    }
  }

  /** The Hindi request of the API tests: a record created with both Hindi slots
      set is served in Hindi from a cleared cache. */
  method HindiRequestAfterCreate(question: string, answer: string, questionHi: string,
                                 answerHi: string, translate: (string, string) -> string,
                                 now: int) returns (faqs: seq<Entry>)
    requires questionHi != "" && answerHi != ""
    ensures faqs == [Entry(Some(questionHi), Some(answerHi))]
  {
    var faq := new FAQ(question, answer, Some(questionHi), None, Some(answerHi), None);
    var row, _ := faq.Save(translate);
    var cache := new Cache<seq<Entry>>();
    faqs := FaqListGet(cache, [row], FieldNames, Some(Hindi), now);
    assert Slot(row, "question", Hindi) == Some(questionHi);
    assert Slot(row, "answer", Hindi) == Some(answerHi);
    ProjectedRow(row, FieldNames, Hindi, "question");
    ProjectedRow(row, FieldNames, Hindi, "answer");
    assert SlotName("question", Hindi) == "question_hi" && SlotName("answer", Hindi) == "answer_hi";
    assert |faqs| == 1 && faqs[0] == ProjectEntry(Serialize(row, FieldNames), Hindi);
  }

  /** A record created between two requests within the timeout is not seen by the
      second one: it returns the first list again. */
  method StaleAfterCreate(rows: seq<Row>, created: Row, now: int, later: int)
    returns (first: seq<Entry>, second: seq<Entry>)
    requires now <= later < now + Timeout
    ensures |first| == |rows| && second == first
  {
    var cache := new Cache<seq<Entry>>();
    first := FaqListGet(cache, rows, FieldNames, None, now);
    second := FaqListGet(cache, rows + [created], FieldNames, None, later);
    RepeatWithinTimeout(map[], rows, rows + [created], FieldNames, None, now, later);
  }
}
