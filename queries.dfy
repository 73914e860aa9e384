/** The read-only queries on the card list: search and filter by category. */
module Queries {
  import opened Wrappers
  import opened Text
  import opened Cards

  /** The elements of `s` that satisfy `p`, in their order in `s`. */
  function Keep<T(!new)>(s: seq<T>, p: T -> bool): (r: seq<T>)
    ensures |r| <= |s|
  {
    if s == [] then []
    else Keep(s[..|s| - 1], p) + (if p(s[|s| - 1]) then [s[|s| - 1]] else [])
  }

  /** An element is kept exactly when it occurs in the list and passes the test. */
  lemma {:induction false} KeepMembers<T(!new)>(s: seq<T>, p: T -> bool, x: T)
    ensures x in Keep(s, p) <==> x in s && p(x)
  {
    if s != [] {
      var init, last := s[..|s| - 1], s[|s| - 1];
      assert s == init + [last];
      KeepMembers(init, p, x);
    }
  }

  /** Selection distributes over concatenation: what is kept from a list is what is kept
      from its front followed by what is kept from its back, so the order is preserved. */
  lemma {:induction false} KeepAppend<T(!new)>(a: seq<T>, b: seq<T>, p: T -> bool)
    ensures Keep(a + b, p) == Keep(a, p) + Keep(b, p)
  {
    if b == [] {
      assert a + b == a;
    } else {
      var init, last := b[..|b| - 1], b[|b| - 1];
      assert (a + b)[..|a + b| - 1] == a + init;
      KeepAppend(a, init, p);
    }
  }

  /** When every element satisfies `p`, nothing is dropped. */
  lemma {:induction false} KeepAll<T(!new)>(s: seq<T>, p: T -> bool)
    requires forall i :: 0 <= i < |s| ==> p(s[i])
    ensures Keep(s, p) == s
  {
    if s != [] {
      var init, last := s[..|s| - 1], s[|s| - 1];
      assert forall i :: 0 <= i < |init| ==> p(init[i]) by {
        forall i | 0 <= i < |init| ensures p(init[i]) {
          assert init[i] == s[i];
        }
      }
      KeepAll(init, p);
      assert p(last);
      assert Keep(s, p) == Keep(init, p) + [last];
    }
  }

  /** Whether a card matches an already lower-cased search term. */
  predicate Matches(card: Flashcard, term: string)
  {
    || Contains(Lower(card.question), term)
    || Contains(Lower(card.answer), term)
    || Contains(Lower(card.category), term)
  }

  function SearchTest(term: string): Flashcard -> bool
  {
    (card: Flashcard) => Matches(card, term)
  }

  /** `search_flashcards`: the cards whose question, answer or category contains
      the lower-cased entry, compared lower-cased. */
  function Search(cards: seq<Flashcard>, entry: string): (found: seq<Flashcard>)
    ensures |found| <= |cards|
  {
    Keep(cards, SearchTest(Lower(entry)))
  }

  /** A card is found exactly when it is in the list and one of its three fields,
      lower-cased, contains the lower-cased entry. */
  lemma SearchFinds(cards: seq<Flashcard>, entry: string, card: Flashcard)
    ensures card in Search(cards, entry) <==>
      card in cards &&
      (Contains(Lower(card.question), Lower(entry)) ||
       Contains(Lower(card.answer), Lower(entry)) ||
       Contains(Lower(card.category), Lower(entry)))
  {
    KeepMembers(cards, SearchTest(Lower(entry)), card);
  }

  /** Searching for the empty entry lists every card. */
  lemma SearchEmptyEntry(cards: seq<Flashcard>)
    ensures Search(cards, "") == cards
  {
    forall i | 0 <= i < |cards|
      ensures SearchTest(Lower(""))(cards[i])
    {
      ContainsEmpty(Lower(cards[i].question));
    }
    KeepAll(cards, SearchTest(Lower("")));
  }

  /** The search ignores the case of the entry. */
  lemma SearchIgnoresCase(cards: seq<Flashcard>, entry: string)
    ensures Search(cards, Lower(entry)) == Search(cards, entry)
  {
    LowerIdempotent(entry);
  }

  /** Searching the lists of two stores one after the other gives the two results one after the other. */
  lemma SearchAppend(a: seq<Flashcard>, b: seq<Flashcard>, entry: string)
    ensures Search(a + b, entry) == Search(a, entry) + Search(b, entry)
  {
    KeepAppend(a, b, SearchTest(Lower(entry)));
  }

  /** The categories offered by the filter dialog: those of the current cards. */
  function Categories(cards: seq<Flashcard>): (offered: set<string>)
    ensures offered == {} <==> cards == []
  {
    var offered := set card | card in cards :: card.category;
    assert cards != [] ==> cards[0].category in offered;
    offered
  }

  function CategoryTest(category: string): Flashcard -> bool
  {
    (card: Flashcard) => card.category == category
  }

  /** `filter_flashcards`: the cards whose category equals the chosen one exactly. */
  function Filter(cards: seq<Flashcard>, category: string): (kept: seq<Flashcard>)
    ensures |kept| <= |cards|
  {
    Keep(cards, CategoryTest(category))
  }

  /** A card passes the filter exactly when it is in the list and its category is the chosen one. */
  lemma FilterFinds(cards: seq<Flashcard>, category: string, card: Flashcard)
    ensures card in Filter(cards, category) <==> card in cards && card.category == category
  {
    KeepMembers(cards, CategoryTest(category), card);
  }

  /** A category is offered exactly when filtering by it shows at least one card. */
  lemma CategoryOffered(cards: seq<Flashcard>, category: string)
    ensures category in Categories(cards) <==> Filter(cards, category) != []
  {
    var kept := Filter(cards, category);
    if kept != [] {
      FilterFinds(cards, category, kept[0]);
    }
    if category in Categories(cards) {
      var card :| card in cards && card.category == category;
      FilterFinds(cards, category, card);
    }
  }

  /** When all cards share one category, filtering by it keeps the whole list. */
  lemma FilterSingleCategory(cards: seq<Flashcard>, category: string)
    requires forall i :: 0 <= i < |cards| ==> cards[i].category == category
    ensures Filter(cards, category) == cards
  {
    KeepAll(cards, CategoryTest(category));
  }

  /** "cat" occurs in the lower-cased question "What is a cat?". */
  lemma CatQuestionMatches()
    ensures Matches(Flashcard("What is a cat?", "A small feline", "Animals", None), "cat")
  {
    var lowered := Lower("What is a cat?");
    assert lowered[10..13] == "cat";
    ContainsAt(lowered, "cat", 10);
  }

  /** "cat" occurs in none of "2+2", "4" and "Math". */
  lemma SumCardMisses()
    ensures !Matches(Flashcard("2+2", "4", "Math", None), "cat")
  {
    var question, answer, category := Lower("2+2"), Lower("4"), Lower("Math");
    assert !Contains(question, "cat") by {
      assert question[0] == '2';
    }
    assert !Contains(answer, "cat");
    assert !Contains(category, "cat") by {
      forall k | 0 <= k <= 1 ensures !("cat" <= category[k..]) {
        assert category[k] != 'c';
      }
    }
  }

  /** Searching for "cat" finds the card "What is a cat?" and not the card "2+2" in "Math". */
  lemma SearchCatExample()
    ensures Search([Flashcard("What is a cat?", "A small feline", "Animals", None),
                    Flashcard("2+2", "4", "Math", None)], "cat")
         == [Flashcard("What is a cat?", "A small feline", "Animals", None)]
  {
    var cat := Flashcard("What is a cat?", "A small feline", "Animals", None);
    var sum := Flashcard("2+2", "4", "Math", None);
    var test := SearchTest(Lower("cat"));
    assert Lower("cat") == "cat";
    CatQuestionMatches();
    SumCardMisses();
    assert test(cat) && !test(sum);
    KeepAppend([cat], [sum], test);
    KeepAll([cat], test);
    assert Keep([sum], test) == [] by {
      assert [sum][..0] == [];
    }
    assert [cat, sum] == [cat] + [sum];
  }

  /** The category filter is exact: "animals" and "Anim" do not select category "Animals". */
  lemma FilterIsExact()
    ensures Filter([Flashcard("What is a cat?", "A small feline", "Animals", None)], "animals") == []
    ensures Filter([Flashcard("What is a cat?", "A small feline", "Animals", None)], "Anim") == []
  {
  }
}
