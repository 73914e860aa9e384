/** The changes the add, edit and delete handlers make to the card list, as functions of
    the list before and the dialog answers. */
module Store {
  import opened Wrappers
  import opened Text
  import opened Cards

  /** `if question and answer`: both dialogs answered with a non-empty string. */
  predicate Accepted(question: Option<string>, answer: Option<string>)
  {
    Given(question) && Given(answer)
  }

  /** `if schedule_days: flashcard.schedule_review(schedule_days)`. The clock is a parameter:
      `dateAfter(d)` is the formatted date `d` days from today. A zero or cancelled answer
      leaves the card unscheduled. */
  function Scheduled(card: Flashcard, days: Option<int>, dateAfter: int -> string): (r: Flashcard)
    ensures r.question == card.question && r.answer == card.answer && r.category == card.category
    ensures days.Some? && days.value != 0 ==> r.reviewDate == Some(dateAfter(days.value))
    ensures days.None? || days.value == 0 ==> r == card
  {
    if days.Some? && days.value != 0 then card.(reviewDate := Some(dateAfter(days.value))) else card
  }

  /** `add_flashcard` as written: the card is appended, then `self.categories.add(category)`
      raises AttributeError because `self.categories` is never set, so the review
      dialog and `schedule_review` are never reached. */
  function AddedAsWritten(cards: seq<Flashcard>, question: Option<string>, answer: Option<string>,
                          category: Option<string>, days: Option<int>, dateAfter: int -> string): (r: seq<Flashcard>)
    ensures Accepted(question, answer) ==> |r| == |cards| + 1 && r[..|cards|] == cards
    ensures Accepted(question, answer) ==> r[|cards|] == NewCard(question.value, answer.value, OrGeneral(category))
    ensures Accepted(question, answer) ==> r[|cards|].reviewDate == None
    ensures !Accepted(question, answer) ==> r == cards
  {
    if Accepted(question, answer) then cards + [NewCard(question.value, answer.value, OrGeneral(category))]
    else cards
  }

  /** `add_flashcard` as intended: exactly one card is appended at the end when question and
      answer are both given, in category "General" when none is given, and scheduled for
      review when a non-zero number of days is given; otherwise the list is unchanged. */
  function Added(cards: seq<Flashcard>, question: Option<string>, answer: Option<string>,
                 category: Option<string>, days: Option<int>, dateAfter: int -> string): (r: seq<Flashcard>)
    ensures Accepted(question, answer) ==> |r| == |cards| + 1 && r[..|cards|] == cards
    ensures Accepted(question, answer) ==>
      r[|cards|].question == question.value && r[|cards|].answer == answer.value
    ensures Accepted(question, answer) && Given(category) ==> r[|cards|].category == category.value
    ensures Accepted(question, answer) && !Given(category) ==> r[|cards|].category == "General"
    ensures Accepted(question, answer) && days.Some? && days.value != 0 ==>
      r[|cards|].reviewDate == Some(dateAfter(days.value))
    ensures Accepted(question, answer) && (days.None? || days.value == 0) ==> r[|cards|].reviewDate == None
    ensures !Accepted(question, answer) ==> r == cards
  {
    if Accepted(question, answer) then
      cards + [Scheduled(NewCard(question.value, answer.value, OrGeneral(category)), days, dateAfter)]
    else cards
  }

  /** The as-written handler loses the schedule the user asked for: the card it appends is
      unscheduled where the intended one is due `days` days from today. */
  lemma AddLosesSchedule(cards: seq<Flashcard>, question: Option<string>, answer: Option<string>,
                         category: Option<string>, days: Option<int>, dateAfter: int -> string)
    requires Accepted(question, answer) && days.Some? && days.value != 0
    ensures AddedAsWritten(cards, question, answer, category, days, dateAfter)[|cards|].reviewDate == None
    ensures Added(cards, question, answer, category, days, dateAfter)[|cards|].reviewDate == Some(dateAfter(days.value))
    ensures AddedAsWritten(cards, question, answer, category, days, dateAfter)
         != Added(cards, question, answer, category, days, dateAfter)
  {
  }

  /** Both versions agree whenever no review is asked for. */
  lemma AddAgreesWithoutSchedule(cards: seq<Flashcard>, question: Option<string>, answer: Option<string>,
                                 category: Option<string>, days: Option<int>, dateAfter: int -> string)
    requires days.None? || days.value == 0
    ensures AddedAsWritten(cards, question, answer, category, days, dateAfter)
         == Added(cards, question, answer, category, days, dateAfter)
  {
  }

  /** `edit_flashcard` on list index `i`: with question and answer given, the card's question,
      answer and category are replaced ("General" when no category is given) and its review
      date, its position and every other card stay; otherwise nothing changes. */
  function Edited(cards: seq<Flashcard>, i: nat, question: Option<string>, answer: Option<string>,
                  category: Option<string>): (r: seq<Flashcard>)
    requires i < |cards|
    ensures |r| == |cards|
    ensures forall j :: 0 <= j < |cards| && j != i ==> r[j] == cards[j]
    ensures r[i].reviewDate == cards[i].reviewDate
    ensures Accepted(question, answer) ==>
      r[i].question == question.value && r[i].answer == answer.value && r[i].category == OrGeneral(category)
    ensures !Accepted(question, answer) ==> r == cards
  {
    if Accepted(question, answer) then
      cards[i := cards[i].(question := question.value, answer := answer.value, category := OrGeneral(category))]
    else cards
  }

  /** `self.flashcards.pop(i)`: exactly the `i`-th card is removed, the cards before it keep
      their index, the cards after it move down by one, and nothing else is lost. */
  function Deleted(cards: seq<Flashcard>, i: nat): (r: seq<Flashcard>)
    requires i < |cards|
    ensures |r| == |cards| - 1
    ensures forall j :: 0 <= j < i ==> r[j] == cards[j]
    ensures forall j :: i <= j < |r| ==> r[j] == cards[j + 1]
    ensures multiset(r) + multiset{cards[i]} == multiset(cards)
  {
    assert cards == cards[..i] + [cards[i]] + cards[i + 1..];
    cards[..i] + cards[i + 1..]
  }

  /** Deleting the card that was just added gives back the list before the add. */
  lemma DeleteUndoesAdd(cards: seq<Flashcard>, question: Option<string>, answer: Option<string>,
                        category: Option<string>, days: Option<int>, dateAfter: int -> string)
    requires Accepted(question, answer)
    ensures Deleted(Added(cards, question, answer, category, days, dateAfter), |cards|) == cards
  {
  }

  /** Editing a card with the values it already holds changes nothing. */
  lemma EditWithOwnValues(cards: seq<Flashcard>, i: nat)
    requires i < |cards| && cards[i].question != "" && cards[i].answer != "" && cards[i].category != ""
    ensures Edited(cards, i, Some(cards[i].question), Some(cards[i].answer), Some(cards[i].category)) == cards
  {
  }

  /** Repeating an edit with the same answers has no further effect. */
  lemma EditIdempotent(cards: seq<Flashcard>, i: nat, question: Option<string>, answer: Option<string>,
                       category: Option<string>)
    requires i < |cards|
    ensures Edited(Edited(cards, i, question, answer, category), i, question, answer, category)
         == Edited(cards, i, question, answer, category)
  {
  }
}
