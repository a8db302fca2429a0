/**
 * The realm tool component: its state (scores, history, opportunities and
 * the opportunity form) and the transitions user events trigger. Each event
 * is applied as one atomic step, including the storage write that follows
 * any change of the history.
 */
module Widget {
  import opened Dimensions
  import opened Opportunities
  import opened Persistence

  /** The outcome of mounting: a running widget, or the exception thrown while loading. */
  datatype Mounted = Running(tool: RealmTool) | Crashed

  class RealmTool {
    var scores: ScoreSet
    var history: seq<Snapshot>
    var opportunities: seq<Opportunity>
    var draft: Draft
    const storage: LocalStorage

    /**
     * The score object always has its five keys, the stored history is the
     * whole current history, and every opportunity's score is the one its
     * ratings give.
     */
    ghost predicate Valid()
      reads this, storage
    {
      && Complete(scores)
      && HistoryKey in storage.items && storage.items[HistoryKey] == History(history)
      && forall k :: 0 <= k < |opportunities| ==> Scored(opportunities[k])
    }

    /** The state right after mounting, with `saved` as the loaded history. */
    constructor (storage: LocalStorage, saved: seq<Snapshot>)
      modifies storage
      ensures Valid() && this.storage == storage
      ensures scores == InitialScores() && history == saved && opportunities == [] && draft == BlankDraft
      ensures storage.items == Persist(old(storage.items), saved)
    {
      scores := InitialScores();
      history := saved;
      opportunities := [];
      draft := BlankDraft;
      this.storage := storage;
      new;
      storage.SetItem(HistoryKey, History(saved));
    }

    /**
     * Mounting: the history is read from storage and then written back under
     * its key, every other key left as it was. Text that does not parse
     * throws, and no widget comes up.
     */
    static method Mount(storage: LocalStorage) returns (r: Mounted)
      modifies storage
      ensures r.Crashed? <==> LoadHistory(old(storage.items)).SyntaxError?
      ensures r.Crashed? ==> storage.items == old(storage.items)
      ensures r.Running? ==>
        && fresh(r.tool) && r.tool.Valid() && r.tool.storage == storage
        && r.tool.history == LoadHistory(old(storage.items)).history
        && r.tool.scores == InitialScores() && r.tool.opportunities == [] && r.tool.draft == BlankDraft
        && storage.items == Persist(old(storage.items), r.tool.history)
    {
      var loaded := LoadHistory(storage.items);
      if loaded.SyntaxError? {
        return Crashed;
      }
      var tool := new RealmTool(storage, loaded.history);
      r := Running(tool);
    }

    /** A slider moved: one dimension takes the new value, nothing else changes. */
    method UpdateScore(dim: Dim, v: Score)
      requires Valid()
      modifies this
      ensures Valid()
      ensures scores.Keys == old(scores).Keys && scores[dim] == v
      ensures forall d: Dim :: d != dim ==> scores[d] == old(scores)[d]
      ensures history == old(history) && opportunities == old(opportunities) && draft == old(draft)
      ensures unchanged(storage)
    {
      scores := scores[dim := v];
    }

    /** Appends a snapshot of the current scores taken on `date`, and stores the whole history. */
    method SaveSnapshot(date: string)
      requires Valid()
      modifies this, storage
      ensures Valid()
      ensures |history| == |old(history)| + 1
      ensures history[..|old(history)|] == old(history)
      ensures history[|old(history)|] == Snapshot(date, scores)
      ensures storage.items == Persist(old(storage.items), history)
      ensures scores == old(scores) && opportunities == old(opportunities) && draft == old(draft)
    {
      history := history + [Snapshot(date, scores)];
      storage.SetItem(HistoryKey, History(history));
    }

    /** The idea text field was edited. */
    method EditIdea(idea: string)
      requires Valid()
      modifies this
      ensures Valid()
      ensures draft == old(draft).(idea := idea)
      ensures scores == old(scores) && history == old(history) && opportunities == old(opportunities)
      ensures unchanged(storage)
    {
      draft := draft.(idea := idea);
    }

    /** Records the form as a scored opportunity and resets the form. */
    method AddOpportunity()
      requires Valid()
      modifies this
      ensures Valid()
      ensures |opportunities| == |old(opportunities)| + 1
      ensures opportunities[..|old(opportunities)|] == old(opportunities)
      ensures var o := opportunities[|old(opportunities)|];
              && o.idea == old(draft).idea && o.impact == old(draft).impact
              && o.novelty == old(draft).novelty && o.alignment == old(draft).alignment
              && o.score as real / 10.0 == o.impact as real * 0.5 + o.novelty as real * 0.3 + o.alignment as real * 0.2
      ensures draft == BlankDraft
      ensures scores == old(scores) && history == old(history)
      ensures unchanged(storage)
    {
      opportunities := opportunities + [WithScore(draft)];
      draft := BlankDraft;
    }

    /** Rendering the list sorts the opportunities themselves by descending score. */
    method SortForDisplay()
      requires Valid()
      modifies this
      ensures Valid()
      ensures NonIncreasing(opportunities)
      ensures multiset(opportunities) == multiset(old(opportunities))
      ensures scores == old(scores) && history == old(history) && draft == old(draft)
      ensures unchanged(storage)
    {
      var list := opportunities;
      var a := new Opportunity[|list|](k requires 0 <= k < |list| => list[k]);
      assert a[..] == list;
      SortByScore(a);
      opportunities := a[..];
      forall k | 0 <= k < |opportunities| ensures Scored(opportunities[k]) {
        assert opportunities[k] in multiset(list);
      }
    }

    /** What storage holds is always what loading would give back: the current history. */
    lemma StoredIsHistory()
      requires Valid()
      ensures LoadHistory(storage.items) == Loaded(history)
    {
    }
  }

  /** A snapshot, once saved, is the last entry of the history a fresh mount reads back. */
  method SnapshotSurvivesRestart(tool: RealmTool, date: string) returns (r: Mounted)
    requires tool.Valid()
    modifies tool, tool.storage
    ensures r.Running?
    ensures r.tool.history == old(tool.history) + [Snapshot(date, old(tool.scores))]
  {
    tool.SaveSnapshot(date);
    r := RealmTool.Mount(tool.storage);
    assert r.Running?;
  }
}
