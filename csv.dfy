/** The CSV layout of export and import, as rows of cells: the `csv` module's quoting
    is below this level. */
module Csv {
  import opened Wrappers
  import opened Cards

  /** The header row the exporter writes. */
  const Header: seq<string> := ["question", "answer", "category"]

  /** The row written for one card: the review date has no column. */
  function Row(card: Flashcard): seq<string>
  {
    [card.question, card.answer, card.category]
  }

  /** The rows of an exported file: the header, then one row per card, in list order. */
  function ExportRows(cards: seq<Flashcard>): (rows: seq<seq<string>>)
    ensures |rows| == |cards| + 1 && rows[0] == Header
    ensures forall i :: 0 <= i < |cards| ==> rows[i + 1] == Row(cards[i])
  {
    [Header] + seq(|cards|, i requires 0 <= i < |cards| => Row(cards[i]))
  }

  /** `dict(zip(fields, cells))` added to `acc`: pairs are stored left to right, so of two equal
      field names the later one wins, and cells past the last field name are not stored. */
  function ZipInto(acc: map<string, string>, fields: seq<string>, cells: seq<string>): map<string, string>
    decreases |fields|
  {
    if fields == [] || cells == [] then acc
    else ZipInto(acc[fields[0] := cells[0]], fields[1..], cells[1..])
  }

  function Zip(fields: seq<string>, cells: seq<string>): map<string, string>
  {
    ZipInto(map[], fields, cells)
  }

  /** The keys of a zipped row are the field names that have a cell. */
  lemma {:induction false} ZipIntoKeys(acc: map<string, string>, fields: seq<string>, cells: seq<string>)
    ensures ZipInto(acc, fields, cells).Keys ==
      acc.Keys + set j | 0 <= j < |fields| && j < |cells| :: fields[j]
    decreases |fields|
  {
    if fields != [] && cells != [] {
      ZipIntoKeys(acc[fields[0] := cells[0]], fields[1..], cells[1..]);
      var later := set j | 0 <= j < |fields| - 1 && j < |cells| - 1 :: fields[1..][j];
      var all := set j | 0 <= j < |fields| && j < |cells| :: fields[j];
      assert all == {fields[0]} + later by {
        forall k | k in all ensures k in {fields[0]} + later {
          var j :| 0 <= j < |fields| && j < |cells| && fields[j] == k;
          if j > 0 { assert fields[1..][j - 1] == k; }
        }
        forall k | k in later ensures k in all {
          var j :| 0 <= j < |fields| - 1 && j < |cells| - 1 && fields[1..][j] == k;
          assert fields[j + 1] == k;
        }
      }
    }
  }

  /** The header row names the fields; an exported row has a cell for each. */
  lemma ZipExportedRow(card: Flashcard)
    ensures Zip(Header, Row(card)) == map["question" := card.question, "answer" := card.answer, "category" := card.category]
  {
  }

  /** `csv.DictReader` over the data rows: each row that is not blank becomes a dictionary. */
  function DataDicts(header: seq<string>, rows: seq<seq<string>>): (ds: seq<map<string, string>>)
    ensures |ds| <= |rows|
  {
    if rows == [] then []
    else (if rows[0] == [] then [] else [Zip(header, rows[0])]) + DataDicts(header, rows[1..])
  }

  /** `csv.DictReader` over a whole file: the first row names the fields. */
  function ReadDicts(rows: seq<seq<string>>): (ds: seq<map<string, string>>)
    ensures rows == [] ==> ds == []
    ensures rows != [] ==> |ds| < |rows|
  {
    if rows == [] then [] else DataDicts(rows[0], rows[1..])
  }

  /** `Flashcard(row['question'], row['answer'], row['category'])`: the keys are looked up in
      that order, and a card read from a file is never scheduled. */
  function RowCard(d: map<string, string>): (r: Result<Flashcard, DictError>)
    ensures r.Ok? <==> "question" in d && "answer" in d && "category" in d
    ensures r.Ok? ==> r.value == Flashcard(d["question"], d["answer"], d["category"], None)
    ensures "question" !in d ==> r == Err(KeyError("question"))
    ensures "question" in d && "answer" !in d ==> r == Err(KeyError("answer"))
    ensures "question" in d && "answer" in d && "category" !in d ==> r == Err(KeyError("category"))
  {
    if "question" !in d then Err(KeyError("question"))
    else if "answer" !in d then Err(KeyError("answer"))
    else if "category" !in d then Err(KeyError("category"))
    else Ok(NewCard(d["question"], d["answer"], d["category"]))
  }

  /** Whether a row of `cells` read under `header` has a cell for the column `name`. */
  predicate HasColumn(header: seq<string>, cells: seq<string>, name: string)
  {
    exists j :: 0 <= j < |header| && j < |cells| && header[j] == name
  }

  /** A row raises KeyError exactly when it has no cell for one of the three column names
      (the header lacks it, or the row ends before it); otherwise it gives a card. */
  lemma HeaderColumns(header: seq<string>, cells: seq<string>)
    ensures RowCard(Zip(header, cells)).Ok? <==>
      HasColumn(header, cells, "question") && HasColumn(header, cells, "answer") && HasColumn(header, cells, "category")
  {
    var d := Zip(header, cells);
    ZipIntoKeys(map[], header, cells);
    assert forall name :: name in d <==> HasColumn(header, cells, name);
  }

  /** The cards an import appends, and whether it reached the end of the file. */
  datatype Partial = Partial(cards: seq<Flashcard>, complete: bool)

  /** The CSV import loop: rows are turned into cards one at a time; the first row that
      raises ends the import, and the cards of the rows before it stay appended. */
  function ReadCards(ds: seq<map<string, string>>): (r: Partial)
    ensures |r.cards| <= |ds|
    ensures forall i :: 0 <= i < |r.cards| ==> RowCard(ds[i]) == Ok(r.cards[i])
    ensures r.complete <==> |r.cards| == |ds|
    ensures !r.complete ==> RowCard(ds[|r.cards|]).Err?
  {
    if ds == [] then Partial([], true)
    else match RowCard(ds[0])
      case Err(_) => Partial([], false)
      case Ok(card) =>
        var rest := ReadCards(ds[1..]);
        Partial([card] + rest.cards, rest.complete)
  }

  /** The cards with their review dates dropped. */
  function ClearReviews(cards: seq<Flashcard>): (r: seq<Flashcard>)
    ensures |r| == |cards|
  {
    seq(|cards|, i requires 0 <= i < |cards| => cards[i].(reviewDate := None))
  }

  /** Reading back exported data rows gives one dictionary per card. */
  lemma {:induction false} DataDictsOfBody(cards: seq<Flashcard>)
    ensures |DataDicts(Header, ExportRows(cards)[1..])| == |cards|
    ensures forall i :: 0 <= i < |cards| ==> DataDicts(Header, ExportRows(cards)[1..])[i] == Zip(Header, Row(cards[i]))
  {
    if cards != [] {
      var body := ExportRows(cards)[1..];
      assert body[0] == Row(cards[0]) != [];
      assert body[1..] == ExportRows(cards[1..])[1..];
      DataDictsOfBody(cards[1..]);
      var dicts := DataDicts(Header, body);
      assert dicts == [Zip(Header, body[0])] + DataDicts(Header, body[1..]);
      forall i | 1 <= i < |cards| ensures dicts[i] == Zip(Header, Row(cards[i])) {
        assert dicts[i] == DataDicts(Header, body[1..])[i - 1];
        assert cards[1..][i - 1] == cards[i];
      }
    }
  }

  /** Importing an exported CSV file reads every row and gives back the cards with their
      question, answer and category, but with no review date: the CSV round trip drops it. */
  lemma CsvRoundTrip(cards: seq<Flashcard>)
    ensures ReadCards(ReadDicts(ExportRows(cards))) == Partial(ClearReviews(cards), true)
  {
    var ds := ReadDicts(ExportRows(cards));
    DataDictsOfBody(cards);
    forall i | 0 <= i < |cards| ensures RowCard(ds[i]) == Ok(cards[i].(reviewDate := None)) {
      ZipExportedRow(cards[i]);
    }
    var r := ReadCards(ds);
    assert r.cards == ClearReviews(cards);
  }

  /** The CSV round trip is lossless exactly when no card is scheduled for review. */
  lemma CsvRoundTripLossless(cards: seq<Flashcard>)
    ensures ReadCards(ReadDicts(ExportRows(cards))).cards == cards <==>
      forall i :: 0 <= i < |cards| ==> cards[i].reviewDate == None
  {
    CsvRoundTrip(cards);
    if ClearReviews(cards) == cards {
      forall i | 0 <= i < |cards| ensures cards[i].reviewDate == None {
        assert ClearReviews(cards)[i].reviewDate == None;
      }
    }
  }
}
