/**
 * The persisted document and the state read back from it. Only the key
 * defaults are modelled; reading and writing the file is not.
 */
module Store {
  import opened Wrappers
  import opened Ledger
  import opened Metrics

  /** The three collections the finance data file holds. */
  datatype LedgerState = LedgerState(
    transactions: seq<Transaction>,
    budgets: map<string, real>,
    goals: seq<Goal>)

  /** The top-level JSON object; any of its three keys may be missing. */
  datatype Document = Document(
    transactions: Option<seq<Transaction>>,
    budgets: Option<map<string, real>>,
    goals: Option<seq<Goal>>)

  /** What `load_data` returns when the file is missing or cannot be parsed. */
  const DefaultDocument := Document(Some([]), Some(map[]), Some([]))

  /** `load_data`: the parsed file, or the default document when there is none. */
  function LoadData(file: Option<Document>): (d: Document)
    ensures file.Some? ==> d == file.value
    ensures file.None? ==> d.transactions == Some([]) && d.budgets == Some(map[]) && d.goals == Some([])
  {
    file.GetOr(DefaultDocument)
  }

  /** `data.get(key, default)` for each key: a missing key becomes an empty collection. */
  function StateOf(d: Document): (s: LedgerState)
    ensures d.transactions.Some? && d.budgets.Some? && d.goals.Some? ==> ToDocument(s) == d
    ensures d.transactions.None? ==> s.transactions == []
    ensures d.budgets.None? ==> s.budgets == map[]
    ensures d.goals.None? ==> s.goals == []
  {
    LedgerState(d.transactions.GetOr([]), d.budgets.GetOr(map[]), d.goals.GetOr([]))
  }

  /** `save_data` (and the backup download): every key is written. */
  function ToDocument(s: LedgerState): (d: Document)
    ensures d.transactions.Some? && d.budgets.Some? && d.goals.Some?
  {
    Document(Some(s.transactions), Some(s.budgets), Some(s.goals))
  }

  /** Saving and loading again gives back the same state. */
  lemma SaveThenLoad(s: LedgerState)
    ensures StateOf(LoadData(Some(ToDocument(s)))) == s
  {
  }

  /** With no readable file, the session starts with three empty collections. */
  lemma NoFileStartsEmpty()
    ensures StateOf(LoadData(None)) == LedgerState([], map[], [])
  {
  }

  /** A document missing a key restores that collection as empty and keeps the others. */
  lemma MissingKeysDefaultToEmpty(d: Document)
    ensures d.transactions.None? ==> StateOf(d).transactions == []
    ensures d.budgets.None? ==> StateOf(d).budgets == map[]
    ensures d.goals.None? ==> StateOf(d).goals == []
    ensures d.transactions.Some? ==> StateOf(d).transactions == d.transactions.value
    ensures d.budgets.Some? ==> StateOf(d).budgets == d.budgets.value
    ensures d.goals.Some? ==> StateOf(d).goals == d.goals.value
  {
  }
}
