/**
 * The per-folder record file `data.json`: title, description, comments and category.
 * The document is held as parsed; a key the file does not have stays missing,
 * exactly as a Python dict loaded by `json.load` would.
 */
module Records {
  import opened Wrappers

  /** A data.json document. Each key may be absent from the file. */
  datatype Record = Record(
    title: Option<string>,
    description: Option<string>,
    comments: Option<seq<string>>,
    category: Option<string>)

  /** What a folder holds under the name data.json. */
  datatype RecordFile = Absent | Malformed | Stored(record: Record)

  /** The record assumed for a folder that has no readable data.json. */
  const DefaultRecord: Record := Record(Some(""), Some(""), Some([]), Some(""))

  /** The session's record before any folder is loaded (an empty dict). */
  const EmptyDocument: Record := Record(None, None, None, None)

  /** The five categories the radio buttons offer, in display order. The selected
      category is not restricted to them: loading a folder puts whatever category its
      data.json holds into the selection, and saving writes that back unchanged. */
  const LabelOptions: seq<string> := [
    "0, Unrelated to the product.",
    "0, Related to the product, but Just life sharing.",
    "1, Obvious advertisement in the main text.",
    "1, Advertisement in the comment / Image.",
    "1, Product with a clear sales-oriented text."
  ]

  /** The record a folder is shown with: the stored document, or the defaults when
      the file is missing or cannot be parsed. */
  function LoadRecord(f: RecordFile): (r: Record)
    ensures f.Stored? ==> r == f.record
    ensures !f.Stored? ==> r.title == Some("") && r.description == Some("")
    ensures !f.Stored? ==> r.comments == Some([]) && r.category == Some("")
  {
    match f
    case Stored(rec) => rec
    case _ => DefaultRecord
  }

  /** The category selection the record puts on screen: its category, or none. */
  function ShownLabel(r: Record): (l: string)
    ensures r.category.None? ==> l == ""
    ensures r.category.Some? ==> l == r.category.value
  {
    r.category.GetOr("")
  }

  /** The record with its category set to `category`, every other field kept. */
  function WithLabel(r: Record, category: string): (r': Record)
    ensures r'.category == Some(category) && ShownLabel(r') == category
    ensures r'.title == r.title && r'.description == r.description && r'.comments == r.comments
  {
    r.(category := Some(category))
  }

  /** An illustration of `LoadRecord`'s contract: saving a labelled record and loading
      it again gives back the same record and puts the same category on screen. */
  lemma SaveThenLoad(r: Record, category: string)
    ensures LoadRecord(Stored(WithLabel(r, category))) == WithLabel(r, category)
    ensures ShownLabel(LoadRecord(Stored(WithLabel(r, category)))) == category
  {
  }

  /** An illustration of `WithLabel`: labelling again with the same category changes nothing,
      and a second category replaces the first. */
  lemma RelabelLastWins(r: Record, first: string, second: string)
    ensures WithLabel(WithLabel(r, first), second) == WithLabel(r, second)
    ensures WithLabel(WithLabel(r, first), first) == WithLabel(r, first)
  {
  }
}
