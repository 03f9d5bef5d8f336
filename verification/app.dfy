/**
 The application's history list: newest first, saved after every generation,
 deletable by id and clearable after confirmation. Ids and timestamps (taken
 from the clock in the application) and the confirmation answer are
 parameters.
 */
module App {
  import opened Basics
  import opened Types
  import opened Ai

  datatype HistoryItem = HistoryItem(id: string, content: string, wtype: WritingType, tone: Tone, timestamp: int)

  /** `saveToHistory`: the new item goes in front of the existing list. */
  function SaveToHistory(history: seq<HistoryItem>, item: HistoryItem): (r: seq<HistoryItem>)
    ensures |r| == |history| + 1
    ensures r[0] == item && r[1..] == history
  {
    [item] + history
  }

  predicate KeepsOtherId(id: string, item: HistoryItem) {
    item.id != id
  }

  /** `handleDeleteHistory`: every item with the given id goes, the rest stay in order. */
  function DeleteHistory(history: seq<HistoryItem>, id: string): (r: seq<HistoryItem>)
    ensures forall k :: 0 <= k < |r| ==> r[k].id != id
    ensures forall item :: multiset(r)[item] == if item.id != id then multiset(history)[item] else 0
  {
    Filter(history, item => KeepsOtherId(id, item))
  }

  /** `handleClearAllHistory`: the list empties only when the user confirms. */
  function ClearAllHistory(history: seq<HistoryItem>, confirmed: bool): (r: seq<HistoryItem>)
    ensures confirmed ==> r == []
    ensures !confirmed ==> r == history
  {
    if confirmed then [] else history
  }

  /** Clearing leaves the list as it was exactly when the user declines or there was nothing to clear. */
  lemma ClearKeepsOnlyWhenDeclined(history: seq<HistoryItem>, confirmed: bool)
    ensures ClearAllHistory(history, confirmed) == history <==> !confirmed || history == []
  {
  }

  /** After a confirmed clear, no id is left to delete: clearing absorbs every delete. */
  lemma ClearAbsorbsDelete(history: seq<HistoryItem>, id: string)
    ensures ClearAllHistory(DeleteHistory(history, id), true) == ClearAllHistory(history, true)
    ensures DeleteHistory(ClearAllHistory(history, true), id) == []
  {
  }

  /** The screen content and history after one `handleGenerate`. */
  datatype Generated = Generated(content: string, history: seq<HistoryItem>)

  /**
   `handleGenerate`: one generation call, whose value becomes the displayed
   content and the newest history entry. The call never fails, so every
   generation adds exactly one entry, a fixed message included.
   */
  function HandleGenerate(history: seq<HistoryItem>, req: Request, model: string -> Outcome, id: string, timestamp: int): (r: Generated)
    ensures r.content == GenerateContent(req, model).result && r.content != ""
    ensures |r.history| == |history| + 1 && r.history[1..] == history
    ensures r.history[0] == HistoryItem(id, r.content, req.wtype, req.tone, timestamp)
    ensures model(FullPrompt(req.content, req.wtype, req.tone)).Fail? ==> r.history[0].content == FailureMessage
  {
    var value := GenerateContent(req, model).result;
    Generated(value, SaveToHistory(history, HistoryItem(id, value, req.wtype, req.tone, timestamp)))
  }

  /** Deleting an id nobody has changes nothing. */
  lemma DeleteAbsentId(history: seq<HistoryItem>, id: string)
    requires forall k :: 0 <= k < |history| ==> history[k].id != id
    ensures DeleteHistory(history, id) == history
  {
    FilterIdentity(history, item => KeepsOtherId(id, item));
  }

  /** Deleting works on each part of the list separately, so survivors keep their relative order. */
  lemma DeleteKeepsOrder(a: seq<HistoryItem>, b: seq<HistoryItem>, id: string)
    ensures DeleteHistory(a + b, id) == DeleteHistory(a, id) + DeleteHistory(b, id)
  {
    FilterAppend(a, b, item => KeepsOtherId(id, item));
  }

  /** Deleting the same id twice is the same as deleting it once. */
  lemma DeleteIdempotent(history: seq<HistoryItem>, id: string)
    ensures DeleteHistory(DeleteHistory(history, id), id) == DeleteHistory(history, id)
  {
    DeleteAbsentId(DeleteHistory(history, id), id);
  }

  /** Saving an item under a fresh id and then deleting that id restores the list. */
  lemma DeleteUndoesSave(history: seq<HistoryItem>, item: HistoryItem)
    requires forall k :: 0 <= k < |history| ==> history[k].id != item.id
    ensures DeleteHistory(SaveToHistory(history, item), item.id) == history
  {
    DeleteKeepsOrder([item], history, item.id);
    DeleteAbsentId(history, item.id);
    assert DeleteHistory([item], item.id) == [] by {
      assert [item][1..] == [];
    }
  }

  /** Items saved in the same millisecond share an id, and one delete removes them all. */
  lemma DeleteRemovesDuplicates(history: seq<HistoryItem>, first: HistoryItem, second: HistoryItem)
    requires first.id == second.id
    ensures DeleteHistory(SaveToHistory(SaveToHistory(history, first), second), first.id) == DeleteHistory(history, first.id)
  {
    DeleteKeepsOrder([second, first], history, first.id);
    assert [second, first] + history == SaveToHistory(SaveToHistory(history, first), second);
    assert DeleteHistory([second, first], first.id) == [] by {
      assert [second, first][1..] == [first];
      assert [first][1..] == [];
    }
  }
}
