/**
 * The records of the kanji corpus: cells and example entries, freshly built records,
 * and records as they come back from the persisted corpus, whose reading and example
 * fields may have a legacy shape.
 */
module Kanji {

  datatype Option<+T> = None | Some(value: T)

  /** A decoded spreadsheet cell, `{text, phonetic}`. An example entry of a record has
      exactly this shape and is built from the cell of column 4 or 5. */
  datatype Cell = Cell(text: string, phonetic: Option<string>)

  /** The classification of a record against the prior import. */
  datatype Status = New | Updated | Existing

  /** A record as the importer builds it. `status` is `None` while the record is still
      waiting for its status (the source's `needsStatusCheck` marker), and stays `None`
      for records persisted before the field existed. */
  datatype KanjiRecord = KanjiRecord(
    kanji: string,
    hanviet: seq<string>,
    kun: seq<string>,
    on: seq<string>,
    example: seq<Cell>,
    status: Option<Status>)

  /** A reading field of a persisted record: normally an array of strings, but data saved
      by older versions may hold a bare string or lack the field. */
  datatype Field = Items(items: seq<string>) | Text(text: string) | Missing

  /** An example field of a persisted record: an array of entries or anything else. */
  datatype ExampleField = ExampleList(entries: seq<Cell>) | NotAList

  /** A record of the prior corpus, read back from the store. */
  datatype StoredKanji = StoredKanji(
    kanji: string,
    hanviet: Field,
    kun: Field,
    on: Field,
    example: ExampleField)

  /** What the store gives back for a record that was saved by this importer. */
  function Store(r: KanjiRecord): (s: StoredKanji)
    ensures s.kanji == r.kanji
    ensures s.hanviet.Items? && s.kun.Items? && s.on.Items? && s.example.ExampleList?
  {
    StoredKanji(r.kanji, Items(r.hanviet), Items(r.kun), Items(r.on), ExampleList(r.example))
  }

  function StoreAll(rs: seq<KanjiRecord>): (ss: seq<StoredKanji>)
    ensures |ss| == |rs|
    ensures forall i :: 0 <= i < |rs| ==> ss[i] == Store(rs[i])
  {
    seq(|rs|, i requires 0 <= i < |rs| => Store(rs[i]))
  }
}
