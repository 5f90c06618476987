/** The FAQ record of faq/models.py: two original texts, four nullable translation
    slots (Hindi and Bengali for the question and for the answer), the lookup with
    fallback `get_translated_text` and the fill policy of `save`. */
module Models {
  import opened Wrappers

  /** The fields whose text is authored by hand. */
  const Originals: set<string> := {"question", "answer"}

  /** The languages `save` translates into, by the suffix of their slots. */
  const Hindi: string := "hi"
  const Bengali: string := "bn"
  const Targets: set<string> := {Hindi, Bengali}

  /** The six model fields, by attribute name. */
  const FieldNames: set<string> :=
    {"question", "answer", "question_hi", "question_bn", "answer_hi", "answer_bn"}

  /** A stored FAQ row. `question` and `answer` are non-null text columns; the four
      translation slots are nullable. Rich-text fields are plain strings here. */
  datatype Row = Row(
    question: string,
    answer: string,
    questionHi: Option<string>,
    questionBn: Option<string>,
    answerHi: Option<string>,
    answerBn: Option<string>)

  /** Attribute lookup by name: the attribute is missing, or present with a
      possibly null value. */
  datatype Attribute = Missing | Present(value: Option<string>)

  function Attr(r: Row, name: string): (l: Attribute)
    ensures l.Present? <==> name in FieldNames
  {
    if name == "question" then Present(Some(r.question))
    else if name == "answer" then Present(Some(r.answer))
    else if name == "question_hi" then Present(r.questionHi)
    else if name == "question_bn" then Present(r.questionBn)
    else if name == "answer_hi" then Present(r.answerHi)
    else if name == "answer_bn" then Present(r.answerBn)
    else Missing
  }

  /** `getattr(obj, name, None)`: a missing attribute reads as None. */
  function AttrOrNone(r: Row, name: string): Option<string>
  {
    match Attr(r, name)
    case Missing => None
    case Present(v) => v
  }

  /** Python truthiness of a text value: not None and not the empty string. */
  predicate Truthy(v: Option<string>)
  {
    v.Some? && v.value != ""
  }

  /** The attribute name of the translation slot of `field` in `lang`. */
  function SlotName(field: string, lang: string): string
  {
    field + "_" + lang
  }

  /** The original text of `field`. */
  function Original(r: Row, field: string): string
    requires field in Originals
  {
    if field == "question" then r.question else r.answer
  }

  /** The translation slot of `field` in one of the target languages. */
  function Slot(r: Row, field: string, lang: string): Option<string>
    requires field in Originals && lang in Targets
  {
    if field == "question" then (if lang == Hindi then r.questionHi else r.questionBn)
    else (if lang == Hindi then r.answerHi else r.answerBn)
  }

  lemma PrefixCancel(p: string, s: string, t: string)
    requires p + s == p + t
    ensures s == t
  {
    assert s == (p + s)[|p|..];
    assert t == (p + t)[|p|..];
  }

  /** Looking up `<field>_<lang>` for an original field finds one of the four slots
      exactly when `lang` is a target language; every other language names no
      attribute at all. */
  lemma {:induction false} SlotLookup(r: Row, field: string, lang: string)
    requires field in Originals
    ensures Attr(r, SlotName(field, lang)) ==
            if lang in Targets then Present(Slot(r, field, lang)) else Missing
  {
    var n := SlotName(field, lang);
    if lang !in Targets {
      var p := field + "_";
      assert n == p + lang;
      if field == "question" {
        assert "question_hi" == p + Hindi;
        assert "question_bn" == p + Bengali;
        if n == "question_hi" { PrefixCancel(p, lang, Hindi); }
        if n == "question_bn" { PrefixCancel(p, lang, Bengali); }
        assert n[0] == 'q';
      } else {
        assert "answer_hi" == p + Hindi;
        assert "answer_bn" == p + Bengali;
        if n == "answer_hi" { PrefixCancel(p, lang, Hindi); }
        if n == "answer_bn" { PrefixCancel(p, lang, Bengali); }
        assert n[0] == 'a';
      }
      assert n !in FieldNames;
    } else {
      assert SlotName("question", Hindi) == "question_hi";
      assert SlotName("question", Bengali) == "question_bn";
      assert SlotName("answer", Hindi) == "answer_hi";
      assert SlotName("answer", Bengali) == "answer_bn";
    }
  }

  /** One call of the translator made by `save`: the slot it fills (`field` and
      destination language) and the text it sends. */
  datatype Call = Call(field: string, dest: string, text: string)

  /** The result of `get_translated_text`: a value, or the AttributeError raised by
      `getattr(self, field)` when `field` is not an attribute. */
  datatype Got = Text(value: Option<string>) | AttributeError(name: string)

  /** The guard of one step of `save`: an unset slot is translated, a set one kept. */
  function FillSlot(slot: Option<string>, text: string, lang: string,
                    translate: (string, string) -> string): Option<string>
  {
    if Truthy(slot) then slot else Some(translate(text, lang))
  }

  function SlotCall(slot: Option<string>, field: string, lang: string, text: string): seq<Call>
  {
    if Truthy(slot) then [] else [Call(field, lang, text)]
  }

  /** The row after the four guarded steps of `save`. */
  function Fill(r: Row, translate: (string, string) -> string): (f: Row)
    ensures f.question == r.question && f.answer == r.answer
    ensures forall field, lang | field in Originals && lang in Targets ::
      Truthy(Slot(r, field, lang)) ==> Slot(f, field, lang) == Slot(r, field, lang)
    ensures forall field, lang | field in Originals && lang in Targets ::
      !Truthy(Slot(r, field, lang)) ==>
        Slot(f, field, lang) == Some(translate(Original(r, field), lang))
    ensures forall field, lang | field in Originals && lang in Targets ::
      Slot(f, field, lang).Some?
  {
    Row(r.question, r.answer,
        FillSlot(r.questionHi, r.question, Hindi, translate),
        FillSlot(r.questionBn, r.question, Bengali, translate),
        FillSlot(r.answerHi, r.answer, Hindi, translate),
        FillSlot(r.answerBn, r.answer, Bengali, translate))
  }

  /** The translator calls `save` makes, in its order. */
  function FillCalls(r: Row): (calls: seq<Call>)
    ensures |calls| <= 4
    ensures forall field, lang | field in Originals && lang in Targets ::
      Call(field, lang, Original(r, field)) in calls <==> !Truthy(Slot(r, field, lang))
  {
    SlotCall(r.questionHi, "question", Hindi, r.question)
    + SlotCall(r.questionBn, "question", Bengali, r.question)
    + SlotCall(r.answerHi, "answer", Hindi, r.answer)
    + SlotCall(r.answerBn, "answer", Bengali, r.answer)
  }

  /** Every call `save` makes is for an unset slot and sends that slot's original
      text; no slot is translated twice. */
  lemma FillCallsOnlyUnset(r: Row)
    ensures forall c | c in FillCalls(r) ::
      c.field in Originals && c.dest in Targets && c.text == Original(r, c.field)
      && !Truthy(Slot(r, c.field, c.dest))
    ensures forall i, j | 0 <= i < j < |FillCalls(r)| :: FillCalls(r)[i] != FillCalls(r)[j]
  {
  }

  /** A second fill makes no translator call exactly when every translation the
      first fill asked for came back non-empty; in that case it changes nothing. */
  lemma FillIdempotent(r: Row, translate: (string, string) -> string)
    ensures FillCalls(Fill(r, translate)) == [] <==>
            forall c | c in FillCalls(r) :: translate(c.text, c.dest) != ""
    ensures FillCalls(Fill(r, translate)) == [] ==> Fill(Fill(r, translate), translate) == Fill(r, translate)
  {
  }

  /** A model instance in memory. `save` updates its translation slots in place. */
  class FAQ {
    var question: string
    var answer: string
    var questionHi: Option<string>
    var questionBn: Option<string>
    var answerHi: Option<string>
    var answerBn: Option<string>

    /** `FAQ(question=..., answer=..., ...)`: slots not given are None. */
    constructor (question: string, answer: string,
                 questionHi: Option<string>, questionBn: Option<string>,
                 answerHi: Option<string>, answerBn: Option<string>)
      ensures Snapshot() == Row(question, answer, questionHi, questionBn, answerHi, answerBn)
    {
      this.question := question;
      this.answer := answer;
      this.questionHi := questionHi;
      this.questionBn := questionBn;
      this.answerHi := answerHi;
      this.answerBn := answerBn;
    }

    /** The row the instance would be stored as. */
    function Snapshot(): Row
      reads this
    {
      Row(question, answer, questionHi, questionBn, answerHi, answerBn)
    }

    /** `get_translated_text(field, lang)`: the `<field>_<lang>` attribute when it is
        truthy, otherwise the attribute `field` itself. */
    function GetTranslatedText(field: string, lang: string): (t: Got)
      reads this
      ensures field in FieldNames ==> t.Text?
      ensures field in Originals && lang in Targets && Truthy(Slot(Snapshot(), field, lang)) ==>
        t == Text(Slot(Snapshot(), field, lang))
      ensures field in Originals && !(lang in Targets && Truthy(Slot(Snapshot(), field, lang))) ==>
        t == Text(Some(Original(Snapshot(), field)))
      ensures field in Originals && Original(Snapshot(), field) != "" ==>
        t.Text? && Truthy(t.value)
    {
      var r := Snapshot();
      var translation := AttrOrNone(r, SlotName(field, lang));
      if field in Originals then SlotLookup(r, field, lang); Pick(r, translation, field)
      else Pick(r, translation, field)
    }

    /** `translation if translation else getattr(self, field)`. */
    static function Pick(r: Row, translation: Option<string>, field: string): Got
    {
      if Truthy(translation) then Text(translation)
      else match Attr(r, field)
        case Missing => AttributeError(field)
        case Present(v) => Text(v)
    }

    /** `save`: fill every unset slot from the matching original through the
        translator, leave set slots alone, then hand the row to persistence.
        Returns the persisted row and the translator calls made. */
    method Save(translate: (string, string) -> string) returns (persisted: Row, calls: seq<Call>)
      modifies this
      ensures Snapshot() == Fill(old(Snapshot()), translate)
      ensures calls == FillCalls(old(Snapshot()))
      ensures persisted == Snapshot()
    {
      ghost var r := Snapshot();
      calls := [];
      if !Truthy(questionHi) {
        questionHi := Some(translate(question, Hindi));
        calls := calls + [Call("question", Hindi, question)];
      }
      assert calls == SlotCall(r.questionHi, "question", Hindi, r.question);
      if !Truthy(questionBn) {
        questionBn := Some(translate(question, Bengali));
        calls := calls + [Call("question", Bengali, question)];
      }
      assert calls == SlotCall(r.questionHi, "question", Hindi, r.question)
                      + SlotCall(r.questionBn, "question", Bengali, r.question);
      if !Truthy(answerHi) {
        answerHi := Some(translate(answer, Hindi));
        calls := calls + [Call("answer", Hindi, answer)];
      }
      assert calls == SlotCall(r.questionHi, "question", Hindi, r.question)
                      + SlotCall(r.questionBn, "question", Bengali, r.question)
                      + SlotCall(r.answerHi, "answer", Hindi, r.answer);
      if !Truthy(answerBn) {
        answerBn := Some(translate(answer, Bengali));
        calls := calls + [Call("answer", Bengali, answer)];
      }
      assert Snapshot() == Row(r.question, r.answer,
        FillSlot(r.questionHi, r.question, Hindi, translate),
        FillSlot(r.questionBn, r.question, Bengali, translate),
        FillSlot(r.answerHi, r.answer, Hindi, translate),
        FillSlot(r.answerBn, r.answer, Bengali, translate));
      persisted := Snapshot();
    }
  }
}
