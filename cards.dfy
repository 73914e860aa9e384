/** The flashcard record and its dictionary codec (`to_dict` / `from_dict`). */
module Cards {
  import opened Wrappers

  /** A value of a decoded JSON dictionary: `null`, a string, or anything else. */
  datatype Value = Null | Str(s: string) | Other

  /** A decoded JSON object. */
  type Record = map<string, Value>

  /** A flashcard. `reviewDate == None` is Python's `review_date = None`. */
  datatype Flashcard = Flashcard(question: string, answer: string, category: string, reviewDate: Option<string>)

  /** Why `from_dict` raises: a missing key, or a value the model's card cannot hold. */
  datatype DictError = KeyError(key: string) | NotAString(key: string)

  /** `Flashcard(question, answer, category="General")`: a new card is never scheduled. */
  function NewCard(question: string, answer: string, category: string := "General"): (card: Flashcard)
    ensures card.reviewDate == None
  {
    Flashcard(question, answer, category, None)
  }

  const DictKeys: set<string> := {"question", "answer", "category", "review_date"}

  /** `to_dict`: the four fields under their own keys, an unscheduled card's date as `null`. */
  function ToDict(c: Flashcard): (d: Record)
    ensures d.Keys == DictKeys
    ensures d["question"] == Str(c.question) && d["answer"] == Str(c.answer) && d["category"] == Str(c.category)
    ensures d["review_date"] == if c.reviewDate.Some? then Str(c.reviewDate.value) else Null
  {
    map["question" := Str(c.question),
        "answer" := Str(c.answer),
        "category" := Str(c.category),
        "review_date" := match c.reviewDate case Some(day) => Str(day) case None => Null]
  }

  /** `data[key]` for a key whose value must be a string. */
  function StringField(d: Record, key: string): (r: Result<string, DictError>)
    ensures r.Ok? <==> key in d && d[key].Str?
    ensures r.Ok? ==> d[key] == Str(r.value)
  {
    if key !in d then Err(KeyError(key))
    else match d[key]
      case Str(s) => Ok(s)
      case _ => Err(NotAString(key))
  }

  /** `data.get('review_date')`: a missing key and `null` both mean "not scheduled". */
  function ReviewField(d: Record): Result<Option<string>, DictError>
  {
    if "review_date" !in d then Ok(None)
    else match d["review_date"]
      case Null => Ok(None)
      case Str(day) => Ok(Some(day))
      case Other => Err(NotAString("review_date"))
  }

  /** `from_dict`: the constructor reads question, answer and category in that order,
      then the review date is copied over. */
  function FromDict(d: Record): (r: Result<Flashcard, DictError>)
    ensures r.Ok? ==> "question" in d && d["question"] == Str(r.value.question)
    ensures r.Ok? ==> "answer" in d && d["answer"] == Str(r.value.answer)
    ensures r.Ok? ==> "category" in d && d["category"] == Str(r.value.category)
    ensures r.Ok? ==>
      r.value.reviewDate == (if "review_date" in d && d["review_date"].Str? then Some(d["review_date"].s) else None)
    ensures r.Ok? <==>
      && "question" in d && d["question"].Str?
      && "answer" in d && d["answer"].Str?
      && "category" in d && d["category"].Str?
      && ("review_date" in d ==> !d["review_date"].Other?)
    ensures "question" !in d ==> r == Err(KeyError("question"))
    ensures "question" in d && "answer" !in d && d["question"].Str? ==> r == Err(KeyError("answer"))
    ensures "question" in d && d["question"].Str? && "answer" in d && d["answer"].Str? && "category" !in d ==>
      r == Err(KeyError("category"))
  {
    var question :- StringField(d, "question");
    var answer :- StringField(d, "answer");
    var category :- StringField(d, "category");
    var reviewDate :- ReviewField(d);
    Ok(Flashcard(question, answer, category, reviewDate))
  }

  /** `from_dict(to_dict(c))` gives back `c`, field for field. */
  lemma DictRoundTrip(c: Flashcard)
    ensures FromDict(ToDict(c)) == Ok(c)
  {
  }

  /** A card built from question and answer alone is in category "General" and unscheduled,
      and its dictionary stores `null` as its review date. */
  lemma NewCardDefaults(question: string, answer: string)
    ensures NewCard(question, answer).category == "General"
    ensures NewCard(question, answer).reviewDate == None
    ensures ToDict(NewCard(question, answer))["review_date"] == Null
  {
  }

  /** `[card.to_dict() for card in cards]`, the JSON document that save and export write. */
  function EncodeAll(cards: seq<Flashcard>): (doc: seq<Record>)
    ensures |doc| == |cards|
    ensures forall i :: 0 <= i < |doc| ==> doc[i].Keys == DictKeys
  {
    seq(|cards|, i requires 0 <= i < |cards| => ToDict(cards[i]))
  }

  /** `[Flashcard.from_dict(item) for item in data]`: the whole list, or the first error raised. */
  function DecodeAll(doc: seq<Record>): (r: Result<seq<Flashcard>, DictError>)
    ensures r.Ok? <==> forall i :: 0 <= i < |doc| ==> FromDict(doc[i]).Ok?
    ensures r.Ok? ==> |r.value| == |doc| && forall i :: 0 <= i < |doc| ==> FromDict(doc[i]) == Ok(r.value[i])
    ensures r.Err? ==>
      exists i :: 0 <= i < |doc| && FromDict(doc[i]) == Err(r.error) && (forall j :: 0 <= j < i ==> FromDict(doc[j]).Ok?)
  {
    if doc == [] then Ok([])
    else
      var first :- FromDict(doc[0]);
      var rest :- DecodeAll(doc[1..]);
      assert forall i :: 1 <= i < |doc| ==> doc[i] == doc[1..][i - 1];
      Ok([first] + rest)
  }

  /** Loading what save wrote gives back the same cards, in the same order. */
  lemma DecodeEncode(cards: seq<Flashcard>)
    ensures DecodeAll(EncodeAll(cards)) == Ok(cards)
  {
    var doc := EncodeAll(cards);
    forall i | 0 <= i < |doc|
      ensures FromDict(doc[i]) == Ok(cards[i])
    {
      DictRoundTrip(cards[i]);
    }
    var r := DecodeAll(doc);
    assert r.Ok?;
    assert r.value == cards by {
      assert forall i :: 0 <= i < |cards| ==> FromDict(doc[i]) == Ok(r.value[i]);
    }
  }
}
