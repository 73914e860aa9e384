# Flashcard app: a verified model of the card store

This project models the logic of the desktop flashcard application in `main.py`, with
the Tk widgets and dialogs stripped off. What each dialog returns becomes a method
parameter. The model covers:

- the flashcard record and its dictionary codec (`Flashcard`, `to_dict`, `from_dict`);
- the card list `self.flashcards`, which the handlers change or replace;
- the list box, as the sequence of cards its rows were made from;
- search and filter;
- the JSON and CSV layouts of save, load, import and export;
- the per-user score history behind `save_stats` and `show_stats`;
- the theme colours.

Modules, leaf to root:

- `Wrappers` (`wrappers.dfy`): `Option` and `Result`.
- `Text` (`text.dfy`): Python truthiness of a dialog answer, the `or "General"` default, `str.lower`, and `in` on strings.
- `Cards` (`cards.dfy`): the `Flashcard` datatype, `to_dict`/`from_dict`, and the list comprehensions that save and load use.
- `Queries` (`queries.dfy`): order-preserving selection (`Keep`), search, categories and filter.
- `Csv` (`csv.dfy`): the rows export writes, `csv.DictReader` over those rows, and the CSV import loop as a function.
- `Stats` (`stats.dfy`): score records, appending to a history, and the count and average.
- `Store` (`store.dfy`): what add, edit and delete do to the list, as functions.
- `App` (`app.dfy`): class `FlashcardApp`. Its fields are the user, the card list, the list-box rows, the theme, and the card and statistics files on disk (maps from file name to parsed content). Its methods are the event handlers. Each method's `ensures` gives the new state in terms of the old state and the functions above.

The object invariant `Valid()` says that the list box never has more rows than there are
cards. So the index taken from a selected row, which edit and delete use as a list index,
is always in range. After a search or a filter the rows no longer line up with the list.
Edit and delete still treat the row number as the list index, as `main.py` does, and the
model keeps that behaviour. `App.DeleteAfterFilterHitsListIndex` shows the result: with a cat
card and a dog card, filtering by the dog's category shows the dog card in row 0, and deleting
row 0 removes the cat card. `App.DeleteAfterFilter` shows the same through the filter and delete handlers.

Behaviour that `main.py` fixes and a reader might expect otherwise:

- the category filter is exact and case-sensitive, not case-insensitive;
- search looks at question, answer and category;
- edit and delete have no out-of-range error, because the index always comes from a list-box row;
- the order in which `from_dict` reads the keys decides which KeyError is raised.

## Model

| member | source | states |
|---|---|---|
| `Cards.ToDict` | main.py:19-25 | The dictionary has exactly the keys question, answer, category and review_date, each field under its own key, and an unscheduled card's date stored as null. |
| `Cards.FromDict` | main.py:27-31 | Decoding succeeds exactly when question, answer and category are strings and the review date, if present, is a string or null. A decoded card holds the string values stored under those keys, and its review date is the stored string, or none when the key is missing or null. Keys are looked up in the order question, answer, category, so the first missing one is the KeyError raised. |
| `Cards.DictRoundTrip` | main.py:19-31 | `from_dict(to_dict(c))` gives back `c` with the same question, answer, category and review date. |
| `Cards.NewCard` | main.py:13-17 | A new card is unscheduled. It holds the given question and answer and the category, "General" by default; `NewCardDefaults` states the defaults. |
| `Cards.NewCardDefaults` | main.py:13-17 | A card made without a category is in "General", is unscheduled, and stores null as its review date. |
| `Cards.DecodeAll` | main.py:266 | Decoding a document succeeds exactly when every record decodes; the result then has one card per record, in order; a failure is the error of the first record that fails. |
| `Cards.EncodeAll` | main.py:258 | The saved document has one record per card, each with exactly the four keys of `to_dict`; `DecodeEncode` states that loading it gives back the list. |
| `Cards.DecodeEncode` | main.py:255-266 | For every list, loading what save wrote gives back the same cards in the same order. |
| `Text.Lower` | main.py:235-240 | Lowering keeps the length and leaves no upper-case letter. |
| `Queries.Keep` | main.py:237-253 | The selection is never longer than the list. |
| `Queries.KeepMembers` | main.py:237-253 | An element is selected exactly when it occurs in the list and passes the test. |
| `Queries.KeepAppend` | main.py:237-253 | Selection distributes over concatenation, so the selected cards keep their relative order from the list. |
| `Queries.Search` | main.py:234-242 | Search defines the rows as `Keep` of the cards under the lowered entry, so there are never more rows than cards; `SearchFinds` states which cards are found and `SearchAppend` that they keep the list order. |
| `Queries.SearchFinds` | main.py:234-242 | A card is found exactly when it is in the list and its lower-cased question, answer or category contains the lower-cased entry. |
| `Queries.SearchEmptyEntry` | main.py:235-240 | An empty search entry lists every card. |
| `Queries.SearchIgnoresCase` | main.py:235 | Searching for an entry and for its lower-cased form give the same result. |
| `Queries.SearchAppend` | main.py:237-242 | Searching a concatenated list gives the results for the two parts one after the other. |
| `Queries.SearchCatExample` | main.py:234-242 | "cat" finds the card "What is a cat?" in "Animals" and not the card "2+2" in "Math". |
| `Queries.Categories` | main.py:245 | The categories offered are the categories of the cards; there is none exactly when there is no card. `CategoryOffered` relates them to the filter. |
| `Queries.Filter` | main.py:250-253 | The filter defines the rows as `Keep` of the cards under an exact category match, so there are never more rows than cards; `FilterFinds` states which cards are kept. |
| `Queries.FilterFinds` | main.py:250-251 | A card passes the filter exactly when it is in the list and its category equals the chosen one. |
| `Queries.CategoryOffered` | main.py:245-248 | A category is among the current cards' categories exactly when filtering by it selects at least one card. |
| `Queries.FilterSingleCategory` | main.py:250-251 | When every card has the chosen category, filtering keeps the whole list. |
| `Queries.FilterIsExact` | main.py:251 | Neither "animals" nor "Anim" selects a card whose category is "Animals". |
| `Csv.ExportRows` | main.py:305-310 | An exported file has the header question, answer, category and then one row of three cells per card, in list order. |
| `Csv.ZipIntoKeys` | main.py:286 | A row dictionary's keys are the header names that have a cell in the row. |
| `Csv.ZipExportedRow` | main.py:286-289 | An exported card row read under the exported header maps question, answer and category to the card's fields. |
| `Csv.DataDicts` | main.py:286-287 | `csv.DictReader` over the data rows: one dictionary per non-blank row, so never more dictionaries than rows. `ZipIntoKeys` states each dictionary's keys. |
| `Csv.ReadDicts` | main.py:286-287 | The first row is the header and is not read as data, so a file has fewer dictionaries than rows, and an empty file has none. `DataDictsOfBody` states what an exported file reads back as. |
| `Csv.HeaderColumns` | main.py:286-289 | A row becomes a card exactly when the row has a cell under each of the columns question, answer and category; otherwise the lookup raises KeyError. |
| `Csv.RowCard` | main.py:288-289 | A card is made from a row exactly when the row has all three columns. The card holds the row's three values and has no review date. Otherwise the first missing column, in the order question, answer, category, is the KeyError raised. |
| `Csv.ReadCards` | main.py:285-289 | The import stops at the first row that raises. The cards before it are appended in order, and the import is complete exactly when every row became a card. |
| `Csv.CsvRoundTrip` | main.py:284-310 | Importing an exported CSV file reads every row and gives back each card's question, answer and category, with the review date dropped. |
| `Csv.CsvRoundTripLossless` | main.py:284-310 | The CSV round trip gives back the exact cards exactly when none of them is scheduled for review. |
| `Stats.Appended` | main.py:354-364 | Saving puts the new record at the end of the stored history and keeps everything before it; with no stored history the result is the one-record history. |
| `Stats.Sum` | main.py:371 | The total score of a history whose scores are all non-negative is non-negative; `SumAppend` states how saving a record changes it. |
| `Stats.SumAppend` | main.py:371 | Appending a record adds its score to the total score. |
| `Stats.Summarize` | main.py:371-373 | The count is the history's length. The average times the count equals the total score. An empty history has average 0. |
| `Stats.SummaryAfterSave` | main.py:352-373 | After saving, the count is one more than before (1 for a new file) and the total score grows by the new score. |
| `Stats.EmptySummary` | main.py:373 | An empty history reports 0 quizzes and an average of 0. |
| `Stats.SummaryExample` | main.py:371-373 | Scores 3 and 5 give two quizzes and an average of 8/2. |
| `Store.Scheduled` | main.py:33-35 | Scheduling keeps question, answer and category. A non-zero number of days sets the review date to the clock's date that many days ahead; no number, or 0, leaves the card as it was. |
| `Store.AddedAsWritten` | main.py:175-190 | As written, an accepted add appends exactly one card and leaves the rest of the list as it was. The appended card is `NewCard` of the question, the answer and the category or "General", so it is never scheduled, whatever the review answer. A rejected add changes nothing. |
| `Store.Added` | main.py:175-190 | With question and answer non-empty, exactly one card is appended at the end with those values, category "General" when none is given, and the review date asked for. Otherwise the list is unchanged. |
| `Store.AddLosesSchedule` | main.py:185-190 | When a review is asked for, the card appended as written is unscheduled, the intended card is due on the asked date, and the two lists differ. |
| `Store.AddAgreesWithoutSchedule` | main.py:185-190 | Without a review request the as-written and the intended add give the same list. |
| `Store.Edited` | main.py:204-217 | Editing with question and answer given replaces only that card's question, answer and category ("General" when none is given). Its review date, the length and every other card stay. Otherwise nothing changes. |
| `Store.EditWithOwnValues` | main.py:214-217 | Editing a card with the values it already holds leaves the list unchanged. |
| `Store.EditIdempotent` | main.py:214-217 | Repeating an edit with the same answers changes nothing further. |
| `Store.Deleted` | main.py:229-230 | `pop(i)` removes exactly the i-th card. The length drops by one, the cards before it keep their index, later cards move down by one, and the multiset loses only that card. |
| `Store.DeleteUndoesAdd` | main.py:180-230 | Deleting the card that was just added gives back the list as it was before the add. |
| `App.CardFileName` | main.py:256 | A user's card file name ends in "_flashcards.json"; `CardFilesPerUser` states that users do not share one. |
| `App.StatsFileName` | main.py:353 | A user's statistics file name ends in "_stats.json"; `StatsFilesPerUser` states that users do not share one. |
| `App.CardFilesPerUser` | main.py:256 | Different user names give different card file names. |
| `App.StatsFilesPerUser` | main.py:353 | Different user names give different statistics file names. |
| `App.DeleteAfterFilterHitsListIndex` | main.py:223-232 | With a cat card and a dog card, filtering by "Pets" shows only the dog card, yet deleting row 0 removes the cat card and leaves the dog card. |
| `App.DeleteAfterFilter` | main.py:223-253 | Through the handlers: in an app holding the cat card and the dog card, filtering by "Pets" and then deleting row 0 leaves only the dog card and an empty list box. |
| `App.FlashcardApp.constructor` | main.py:39-50 | A new app has no user, no cards, an empty list box and the default theme of four colours. |
| `App.FlashcardApp.Login` | main.py:147-152 | A non-empty user name becomes the current user. A cancelled or empty answer keeps the previous user. |
| `App.FlashcardApp.Logout` | main.py:161-166 | After logout there is no user, no card and no list-box row. |
| `App.FlashcardApp.AddFlashcard` | main.py:175-190 | The list becomes `Store.Added` of the old list, and an accepted card's row is appended to the list box. |
| `App.FlashcardApp.EditFlashcard` | main.py:198-221 | With no selection nothing changes. Otherwise the list becomes `Store.Edited` at the selected row's index. An accepted edit replaces that row with the edited card. |
| `App.FlashcardApp.DeleteFlashcard` | main.py:223-232 | With no selection nothing changes; otherwise the list becomes `Store.Deleted` at the selected row's index and that row is removed. |
| `App.FlashcardApp.ViewFlashcards` | main.py:192-196 | The list box shows one row per card, in list order. |
| `App.FlashcardApp.ShowKept` | main.py:236-253 | The refill loop leaves in the list box exactly the cards that pass the test, in list order. |
| `App.FlashcardApp.SearchFlashcards` | main.py:234-242 | The list box shows exactly `Queries.Search` of the cards for the entry. |
| `App.FlashcardApp.FilterFlashcards` | main.py:244-253 | When the choice is one of the current categories, the list box shows exactly `Queries.Filter` of the cards for it. Otherwise the list box is unchanged. |
| `App.FlashcardApp.SaveFlashcards` | main.py:255-259 | The user's card file is overwritten with every card's dictionary, and no other file changes. |
| `App.FlashcardApp.LoadFlashcards` | main.py:261-270 | When the user's file exists and decodes, the list and the list box become its cards. A missing file or a record that raises changes nothing. |
| `App.FlashcardApp.ImportFlashcards` | main.py:272-291 | A JSON file that decodes extends the list and refreshes the list box; one that raises changes nothing. A CSV file appends the cards of `Csv.ReadCards`, and the list box is refreshed only when every row was read. Any other file only refreshes the list box. Cancel changes nothing. |
| `App.FlashcardApp.ExportFlashcards` | main.py:293-311 | A JSON export writes every card's dictionary; a CSV export writes exactly `Csv.ExportRows` of the cards; cancel or any other extension writes nothing. |
| `App.FlashcardApp.CustomizeTheme` | main.py:313-329 | Each of the four colours becomes the chosen one when a non-empty colour was chosen, and keeps its value otherwise. The theme keeps exactly its four keys. |
| `App.FlashcardApp.SaveStats` | main.py:352-364 | The user's history becomes `Stats.Appended` of the stored one (none when the file is missing) with the new record, and no other file changes. |
| `App.FlashcardApp.ShowStats` | main.py:366-377 | The result is the count and average of the user's history, or nothing when the user has no statistics file. |

## Findings

| source | as written | input that shows it | evidently intended | confidence | as-written member | corrected member |
|---|---|---|---|---|---|---|
| main.py:185 | `self.categories.add(category)` names an attribute that `FlashcardApp` never assigns. The add handler raises AttributeError right after appending the card, so the review dialog and `schedule_review` (lines 187-190) never run. | Add with question "q", answer "a" and 1 day until review: the appended card keeps review_date None. | The new card is scheduled for review the chosen number of days ahead. No category set is kept. | high, not executed | `Store.AddedAsWritten`, exhibited by `Store.AddLosesSchedule` | `Store.Added` (used by `App.FlashcardApp.AddFlashcard`) |

## Left out

- Widgets, dialogs, message boxes, button states, `apply_theme` and the text of list-box rows: these are presentation only. A row is identified with the card it was made from.
- `App.FlashcardApp.constructor`: as written, `__init__` never returns. It calls `initialize_ui` (main.py:50), which raises AttributeError at main.py:69 because the Quiz button names `self.quiz_user` and the class defines no such method. So no handler can run. The model assumes widget construction succeeds and keeps only the state set at main.py:40-49.
- `quiz_user`: the Quiz button names it, but `main.py` does not define it, so there is no quiz to model.
- `view_progress` (plotting) and `manage_profile`, `view_profile`, `edit_profile`: these are profile-file plumbing.
- File access: each file is a map entry keyed by its name, or arrives already parsed in an `ImportChoice`. `os.path.exists` becomes map membership.
- Path extensions: the import and export dialogs' extension test becomes the choice datatypes.
- JSON and CSV encodings: the JSON and CSV byte layouts (quoting, escaping, malformed files) are below the model.
- The clock: `schedule_review` and `save_stats` read it. In the model it is the parameters `dateAfter` and `today`.
- `Text.Lower`: `str.lower` is modelled on ASCII letters only; other Unicode case mappings are not.
- `Cards.FromDict`: a record whose question, answer or category is not a string (or whose review date is neither a string nor null) is rejected with `NotAString`. `from_dict` would instead build a card holding that value, which later breaks search.
- `Csv.HeaderColumns`: a data row shorter than the header is read as lacking the missing columns, so the import raises there. `csv.DictReader` fills them with None and the source builds a card holding None. Cells beyond the header (the `restkey` list) are not kept.
- `App.FlashcardApp.ShowStats`: the statistics file is assumed to hold well-formed score records. The average is an exact fraction; the float division and the two-decimal display are not modelled.
- Card objects are values. `main.py` mutates a card object in place, but no object other than the list refers to it, so replacing the list element has the same effect.
- `logout` is modelled although no widget calls it.
