/**
 * Snapshots of the score set and the browser's key-value storage that
 * keeps their history under one key. Stored text is represented by what
 * JSON parsing makes of it: a list of snapshots, or text that does not
 * parse.
 */
module Persistence {
  import opened Dimensions

  /** One saved capture of the scores, with the date it was taken on. */
  datatype Snapshot = Snapshot(date: string, scores: ScoreSet)

  /** The storage key the history is kept under. */
  const HistoryKey: string := "realmHistory"

  /** The text stored under a key, as JSON parsing reads it. */
  datatype Stored = History(snapshots: seq<Snapshot>) | Malformed

  /** Reading the history back: the list, or the exception JSON parsing throws. */
  datatype Loaded = Loaded(history: seq<Snapshot>) | SyntaxError

  /** The host's key-value storage. */
  class LocalStorage {
    var items: map<string, Stored>

    constructor (items: map<string, Stored>)
      ensures this.items == items
    {
      this.items := items;
    }

    /** Replaces whatever was stored under `key`. */
    method SetItem(key: string, value: Stored)
      modifies this
      ensures items == old(items)[key := value]
    {
      items := items[key := value];
    }
  }

  /**
   * The history read at start-up. An absent key reads as the empty list; text
   * that does not parse throws, with no fallback; a stored list is returned as it is.
   */
  function LoadHistory(items: map<string, Stored>): (r: Loaded)
    ensures r.SyntaxError? <==> HistoryKey in items && items[HistoryKey].Malformed?
    ensures HistoryKey !in items ==> r == Loaded([])
    ensures r.Loaded? && HistoryKey in items ==> items[HistoryKey] == History(r.history)
  {
    if HistoryKey !in items then Loaded([])
    else match items[HistoryKey]
      case History(h) => Loaded(h)
      case Malformed => SyntaxError
  }

  /** What storage holds after the whole history `h` has been written over the old value. */
  function Persist(items: map<string, Stored>, h: seq<Snapshot>): (r: map<string, Stored>)
    ensures HistoryKey in r && r[HistoryKey] == History(h)
    ensures r.Keys == items.Keys + {HistoryKey}
    ensures forall k :: k in items && k != HistoryKey ==> r[k] == items[k]
  {
    items[HistoryKey := History(h)]
  }

  /** Round trip: whatever history was persisted last is exactly what loading returns. */
  lemma LoadPersisted(items: map<string, Stored>, h: seq<Snapshot>)
    ensures LoadHistory(Persist(items, h)) == Loaded(h)
  {
  }
}
