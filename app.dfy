/** The state the `FlashcardApp` handlers change: the logged-in user, the card list, the
    rows of the list box, the theme colours, and the per-user JSON files on disk. */
module App {
  import opened Wrappers
  import opened Text
  import opened Cards
  import opened Queries
  import opened Csv
  import opened Stats
  import opened Store

  const ThemeKeys: set<string> := {"bg_color", "fg_color", "card_color", "button_color"}

  const DefaultTheme: map<string, string> :=
    map["bg_color" := "#ffffff", "fg_color" := "#000000", "card_color" := "#f0f0f0", "button_color" := "#007bff"]

  /** `f'{self.user}'`: a missing user is formatted as "None". */
  function UserLabel(user: Option<string>): string
  {
    match user
    case Some(name) => name
    case None => "None"
  }

  /** `f'{self.user}_flashcards.json'` */
  function CardFileName(user: Option<string>): (name: string)
    ensures |name| >= 16 && name[|name| - 16..] == "_flashcards.json"
  {
    UserLabel(user) + "_flashcards.json"
  }

  /** `f'{self.user}_stats.json'` */
  function StatsFileName(user: Option<string>): (name: string)
    ensures |name| >= 11 && name[|name| - 11..] == "_stats.json"
  {
    UserLabel(user) + "_stats.json"
  }

  /** Two different users never share a card file. */
  lemma CardFilesPerUser(a: string, b: string)
    requires a != b
    ensures CardFileName(Some(a)) != CardFileName(Some(b))
  {
    var fileA, fileB := CardFileName(Some(a)), CardFileName(Some(b));
    if |a| == |b| {
      assert fileA[..|a|] == a && fileB[..|b|] == b;
    } else {
      assert |fileA| != |fileB|;
    }
  }

  /** Two different users never share a statistics file. */
  lemma StatsFilesPerUser(a: string, b: string)
    requires a != b
    ensures StatsFileName(Some(a)) != StatsFileName(Some(b))
  {
    var fileA, fileB := StatsFileName(Some(a)), StatsFileName(Some(b));
    if |a| == |b| {
      assert fileA[..|a|] == a && fileB[..|b|] == b;
    } else {
      assert |fileA| != |fileB|;
    }
  }

  /** After a filter the list-box rows no longer line up with the list, yet delete takes the
      row number as the list index: with a cat card and a dog card, filtering by the dog's
      category shows the dog card in row 0, and deleting row 0 removes the cat card. */
  lemma DeleteAfterFilterHitsListIndex()
    ensures Filter([CatCard, DogCard], "Pets") == [DogCard] && Deleted([CatCard, DogCard], 0) == [DogCard]
  {
    KeepAppend([CatCard], [DogCard], CategoryTest("Pets"));
    assert [CatCard, DogCard] == [CatCard] + [DogCard];
    assert [CatCard][..0] == [] && [DogCard][..0] == [];
  }

  const CatCard := Flashcard("What is a cat?", "A feline", "Animals", None)
  const DogCard := Flashcard("What is a dog?", "A canine", "Pets", None)

  /** The file chosen in the import dialog, already parsed: cancelled, a `.json` file,
      a `.csv` file given as its rows, or a file with another extension. */
  datatype ImportChoice = ImportCancelled | JsonImport(doc: seq<Record>) | CsvImport(rows: seq<seq<string>>) | OtherImport

  /** The path chosen in the export dialog, by its extension. */
  datatype ExportChoice = ExportCancelled | JsonExport | CsvExport | OtherExport

  /** What an export writes to the chosen file. */
  datatype Written = NothingWritten | JsonWritten(doc: seq<Record>) | CsvWritten(rows: seq<seq<string>>)

  class FlashcardApp {
    var user: Option<string>
    /** `self.flashcards` */
    var flashcards: seq<Flashcard>
    /** The rows of `self.flashcard_listbox`, each identified with the card it was made from. */
    var shown: seq<Flashcard>
    /** `self.theme` */
    var theme: map<string, string>
    /** The `<user>_flashcards.json` files, parsed. */
    var cardFiles: map<string, seq<Record>>
    /** The `<user>_stats.json` files, parsed. */
    var statsFiles: map<string, seq<ScoreRecord>>

    /** The list box never has more rows than there are cards, so the card index taken from a
        selected row is always in range; the theme always has its four keys. */
    ghost predicate Valid()
      reads this
    {
      |shown| <= |flashcards| && theme.Keys == ThemeKeys
    }

    /** `FlashcardApp.__init__`, with the files found on disk. */
    constructor (cardFiles: map<string, seq<Record>>, statsFiles: map<string, seq<ScoreRecord>>)
      ensures Valid()
      ensures user == None && flashcards == [] && shown == [] && theme == DefaultTheme
      ensures this.cardFiles == cardFiles && this.statsFiles == statsFiles
    {
      user := None;
      flashcards := [];
      shown := [];
      theme := DefaultTheme;
      this.cardFiles := cardFiles;
      this.statsFiles := statsFiles;
    }

    /** `login`: a non-empty user name becomes the current user; the cards are kept. */
    method Login(username: Option<string>)
      modifies this`user
      ensures user == if Given(username) then Some(username.value) else old(user)
    {
      if Given(username) {
        user := Some(username.value);
      }
    }

    /** `logout`: no user, no cards, an empty list box. */
    method Logout()
      requires Valid()
      modifies this`user, this`flashcards, this`shown
      ensures Valid()
      ensures user == None && flashcards == [] && shown == []
    {
      user := None;
      flashcards := [];
      shown := [];
    }

    /** `add_flashcard` (as intended, see `Store.Added`): the card is appended to the list and
        its row to the list box. `dateAfter` stands for the clock. */
    method AddFlashcard(question: Option<string>, answer: Option<string>, category: Option<string>,
                        days: Option<int>, dateAfter: int -> string)
      requires Valid()
      modifies this`flashcards, this`shown
      ensures Valid()
      ensures flashcards == Added(old(flashcards), question, answer, category, days, dateAfter)
      ensures shown == if Accepted(question, answer) then old(shown) + [flashcards[|flashcards| - 1]] else old(shown)
    {
      var chosen := OrGeneral(category);
      if Given(question) && Given(answer) {
        var card := NewCard(question.value, answer.value, chosen);
        flashcards := flashcards + [card];
        if days.Some? && days.value != 0 {
          card := card.(reviewDate := Some(dateAfter(days.value)));
          flashcards := flashcards[|flashcards| - 1 := card];
        }
        shown := shown + [card];
      }
    }

    /** `edit_flashcard`: the selected row's index is used as the card's index in the list. */
    method EditFlashcard(selection: Option<nat>, question: Option<string>, answer: Option<string>,
                         category: Option<string>)
      requires Valid()
      requires selection.Some? ==> selection.value < |shown|
      modifies this`flashcards, this`shown
      ensures Valid()
      ensures selection.None? ==> flashcards == old(flashcards) && shown == old(shown)
      ensures selection.Some? ==>
        flashcards == Edited(old(flashcards), selection.value, question, answer, category)
      ensures selection.Some? && Accepted(question, answer) ==>
        shown == old(shown)[selection.value := flashcards[selection.value]]
      ensures selection.Some? && !Accepted(question, answer) ==> shown == old(shown)
    {
      if selection.None? {
        return;
      }
      var index := selection.value;
      var card := flashcards[index];
      if Given(question) && Given(answer) {
        card := card.(question := question.value, answer := answer.value, category := OrGeneral(category));
        flashcards := flashcards[index := card];
        shown := shown[index := card];
      }
    }

    /** `delete_flashcard`: the card at the selected row's index and that row are removed. */
    method DeleteFlashcard(selection: Option<nat>)
      requires Valid()
      requires selection.Some? ==> selection.value < |shown|
      modifies this`flashcards, this`shown
      ensures Valid()
      ensures selection.None? ==> flashcards == old(flashcards) && shown == old(shown)
      ensures selection.Some? ==>
        flashcards == Deleted(old(flashcards), selection.value) &&
        shown == old(shown)[..selection.value] + old(shown)[selection.value + 1..]
    {
      if selection.None? {
        return;
      }
      var index := selection.value;
      flashcards := flashcards[..index] + flashcards[index + 1..];
      shown := shown[..index] + shown[index + 1..];
    }

    /** `view_flashcards`: one row per card, in list order. */
    method ViewFlashcards()
      requires Valid()
      modifies this`shown
      ensures Valid()
      ensures shown == flashcards
    {
      shown := flashcards;
    }

    /** The list box is cleared and then gets a row for each card that passes `test`, in list
        order: the loop shared by search and filter. */
    method ShowKept(test: Flashcard -> bool)
      requires Valid()
      modifies this`shown
      ensures Valid()
      ensures shown == Keep(flashcards, test)
    {
      shown := [];
      var i := 0;
      while i < |flashcards|
        invariant 0 <= i <= |flashcards|
        invariant shown == Keep(flashcards[..i], test)
      {
        if test(flashcards[i]) {
          shown := shown + [flashcards[i]];
        }
        KeepAppend(flashcards[..i], [flashcards[i]], test);
        assert flashcards[..i + 1] == flashcards[..i] + [flashcards[i]];
        i := i + 1;
      }
      assert flashcards[..i] == flashcards;
    }

    /** `search_flashcards`: the list box is refilled with the matching cards, in list order. */
    method SearchFlashcards(entry: string)
      requires Valid()
      modifies this`shown
      ensures Valid()
      ensures shown == Search(flashcards, entry)
    {
      ShowKept(SearchTest(Lower(entry)));
    }

    /** `filter_flashcards`: when the chosen category is one of the current cards' categories,
        the list box is refilled with the cards of exactly that category; otherwise it stays. */
    method FilterFlashcards(choice: Option<string>)
      requires Valid()
      modifies this`shown
      ensures Valid()
      ensures choice.Some? && choice.value in Categories(flashcards) ==> shown == Filter(flashcards, choice.value)
      ensures !(choice.Some? && choice.value in Categories(flashcards)) ==> shown == old(shown)
    {
      var categories := Categories(flashcards);
      if choice.Some? && choice.value in categories {
        ShowKept(CategoryTest(choice.value));
      }
    }

    /** `save_flashcards`: the user's card file is overwritten with the whole list. */
    method SaveFlashcards()
      modifies this`cardFiles
      ensures cardFiles == old(cardFiles)[CardFileName(user) := EncodeAll(flashcards)]
    {
      cardFiles := cardFiles[CardFileName(user) := EncodeAll(flashcards)];
    }

    /** `load_flashcards`: when the user's card file exists and every record in it decodes, the
        list is replaced by its cards and shown; a missing file or a record that raises leaves
        everything as it was. */
    method LoadFlashcards()
      requires Valid()
      modifies this`flashcards, this`shown
      ensures Valid()
      ensures var name := CardFileName(user);
        if name in cardFiles && DecodeAll(cardFiles[name]).Ok?
        then flashcards == DecodeAll(cardFiles[name]).value && shown == flashcards
        else flashcards == old(flashcards) && shown == old(shown)
    {
      var name := CardFileName(user);
      if name in cardFiles {
        var loaded := DecodeAll(cardFiles[name]);
        if loaded.Ok? {
          flashcards := loaded.value;
          shown := flashcards;
        }
      }
    }

    /** `import_flashcards`. A JSON file is decoded whole before the list is extended, so a record
        that raises adds nothing. A CSV file is read row by row; a row that raises ends the
        import, and the cards read before it stay appended but the list box is not refreshed. */
    method ImportFlashcards(choice: ImportChoice)
      requires Valid()
      modifies this`flashcards, this`shown
      ensures Valid()
      ensures choice.ImportCancelled? ==> flashcards == old(flashcards) && shown == old(shown)
      ensures choice.JsonImport? && DecodeAll(choice.doc).Ok? ==>
        flashcards == old(flashcards) + DecodeAll(choice.doc).value && shown == flashcards
      ensures choice.JsonImport? && DecodeAll(choice.doc).Err? ==>
        flashcards == old(flashcards) && shown == old(shown)
      ensures choice.CsvImport? ==>
        var read := ReadCards(ReadDicts(choice.rows));
        flashcards == old(flashcards) + read.cards &&
        shown == if read.complete then flashcards else old(shown)
      ensures choice.OtherImport? ==> flashcards == old(flashcards) && shown == flashcards
    {
      match choice
      case ImportCancelled =>
        return;
      case JsonImport(doc) =>
        var decoded := DecodeAll(doc);
        if decoded.Err? {
          return;
        }
        flashcards := flashcards + decoded.value;
        shown := flashcards;
      case CsvImport(rows) =>
        var dicts := ReadDicts(rows);
        ghost var before := flashcards;
        ghost var read := ReadCards(dicts);
        var failed := false;
        var i := 0;
        while i < |dicts|
          invariant 0 <= i <= |read.cards|
          invariant flashcards == before + read.cards[..i]
          invariant shown == old(shown)
        {
          var card := RowCard(dicts[i]);
          if card.Err? {
            failed := true;
            break;
          }
          flashcards := flashcards + [card.value];
          assert read.cards[..i + 1] == read.cards[..i] + [read.cards[i]];
          i := i + 1;
        }
        assert failed ==> i == |read.cards| && !read.complete;
        assert !failed ==> i == |read.cards| && read.complete;
        assert read.cards[..i] == read.cards;
        if !failed {
          shown := flashcards;
        }
      case OtherImport =>
        shown := flashcards;
    }

    /** `export_flashcards`: a JSON file gets every card's dictionary; a CSV file gets the header
        row and then one row per card, in list order; any other choice writes nothing. */
    method ExportFlashcards(choice: ExportChoice) returns (written: Written)
      ensures choice.JsonExport? ==> written == JsonWritten(EncodeAll(flashcards))
      ensures choice.CsvExport? ==> written == CsvWritten(ExportRows(flashcards))
      ensures choice.ExportCancelled? || choice.OtherExport? ==> written == NothingWritten
    {
      match choice
      case ExportCancelled =>
        written := NothingWritten;
      case JsonExport =>
        written := JsonWritten(EncodeAll(flashcards));
      case CsvExport =>
        var rows := [Header];
        var i := 0;
        while i < |flashcards|
          invariant 0 <= i <= |flashcards|
          invariant |rows| == i + 1 && rows[0] == Header
          invariant forall k :: 0 <= k < i ==> rows[k + 1] == Row(flashcards[k])
        {
          rows := rows + [Row(flashcards[i])];
          i := i + 1;
        }
        assert rows == ExportRows(flashcards);
        written := CsvWritten(rows);
      case OtherExport =>
        written := NothingWritten;
    }

    /** `customize_theme`: each colour is overwritten only when one was chosen. */
    method CustomizeTheme(bgColor: Option<string>, fgColor: Option<string>, cardColor: Option<string>,
                          buttonColor: Option<string>)
      requires Valid()
      modifies this`theme
      ensures Valid()
      ensures theme["bg_color"] == if Given(bgColor) then bgColor.value else old(theme["bg_color"])
      ensures theme["fg_color"] == if Given(fgColor) then fgColor.value else old(theme["fg_color"])
      ensures theme["card_color"] == if Given(cardColor) then cardColor.value else old(theme["card_color"])
      ensures theme["button_color"] == if Given(buttonColor) then buttonColor.value else old(theme["button_color"])
    {
      if Given(bgColor) {
        theme := theme["bg_color" := bgColor.value];
      }
      if Given(fgColor) {
        theme := theme["fg_color" := fgColor.value];
      }
      if Given(cardColor) {
        theme := theme["card_color" := cardColor.value];
      }
      if Given(buttonColor) {
        theme := theme["button_color" := buttonColor.value];
      }
    }

    /** `save_stats`: the user's history gets the new record at its end, or is created with it.
        `today` stands for the clock. */
    method SaveStats(score: int, total: int, today: string)
      modifies this`statsFiles
      ensures var name := StatsFileName(user);
        statsFiles == old(statsFiles)[name := Appended(
          if name in old(statsFiles) then Some(old(statsFiles)[name]) else None,
          ScoreRecord(score, total, today))]
    {
      var name := StatsFileName(user);
      var record := ScoreRecord(score, total, today);
      if name in statsFiles {
        var existing := statsFiles[name];
        existing := existing + [record];
        statsFiles := statsFiles[name := existing];
      } else {
        statsFiles := statsFiles[name := [record]];
      }
    }

    /** `show_stats`: the count and average of the user's history, or nothing when the
        user has no statistics file. */
    method ShowStats() returns (summary: Option<Summary>)
      ensures var name := StatsFileName(user);
        summary == if name in statsFiles then Some(Summarize(statsFiles[name])) else None
    {
      var name := StatsFileName(user);
      if name in statsFiles {
        summary := Some(Summarize(statsFiles[name]));
      } else {
        summary := None;
      }
    }
  }

  /** The same mismatch through the handlers: an app holding the cat card and the dog card is
      filtered by "Pets", and deleting the one row shown removes the cat card. */
  method DeleteAfterFilter(app: FlashcardApp)
    requires app.Valid() && app.flashcards == [CatCard, DogCard]
    modifies app
    ensures app.Valid() && app.flashcards == [DogCard] && app.shown == []
  {
    DeleteAfterFilterHitsListIndex();
    assert "Pets" in Categories(app.flashcards) by {
      assert app.flashcards[1] == DogCard;
    }
    app.FilterFlashcards(Some("Pets"));
    app.DeleteFlashcard(Some(0));
  }
}
