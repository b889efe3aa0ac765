/** The browser-local history of frontend/src/utils/history.js: a most-recent-first
    list of at most 50 analyses, serialised under one localStorage key; a record
    whose id is set is never stored twice. */
module BrowserHistory {
  import opened Wrappers
  import Models

  /** The localStorage key the list is stored under. */
  const HistoryKey := "dual_mode_ai_history"
  /** The cap on the number of stored records. */
  const MaxEntries := 50

  /** One stored analysis: the `id` the backend may have assigned and the rest of the object. */
  datatype Record = Record(id: Option<string>, analysis: Models.ApiResponse)

  /** What reading the key and `JSON.parse` give: nothing stored (null or the empty
      string), malformed JSON, or the stored list. */
  datatype Slot = Empty | Corrupt | Holds(records: seq<Record>)

  /** JavaScript truthiness of an id: present and not the empty string. */
  predicate Truthy(id: Option<string>) {
    id.Some? && id.value != ""
  }

  /** `history.findIndex(h => h.id === id)`. */
  function FindIndex(history: seq<Record>, id: Option<string>): (k: int)
    ensures -1 <= k < |history|
    ensures k >= 0 ==> history[k].id == id
    ensures k >= 0 ==> forall j :: 0 <= j < k ==> history[j].id != id
    ensures k == -1 <==> forall j :: 0 <= j < |history| ==> history[j].id != id
  {
    if history == [] then -1
    else if history[0].id == id then 0
    else
      var k := FindIndex(history[1..], id);
      if k == -1 then -1 else k + 1
  }

  /** `history.find(h => h.id === id) || null`: the first record carrying `id`. */
  function Find(history: seq<Record>, id: Option<string>): (r: Option<Record>)
    ensures r.Some? ==> exists k :: 0 <= k < |history| && history[k] == r.value && history[k].id == id &&
                                  forall j :: 0 <= j < k ==> history[j].id != id
    ensures r.None? <==> forall j :: 0 <= j < |history| ==> history[j].id != id
  {
    var k := FindIndex(history, id);
    if k >= 0 then Some(history[k]) else None
  }

  /** The save is skipped: the record's id is set and already stored. */
  predicate IsDuplicate(history: seq<Record>, analysis: Record)
    ensures IsDuplicate(history, analysis) <==>
            Truthy(analysis.id) && exists k :: 0 <= k < |history| && history[k].id == analysis.id
  {
    Truthy(analysis.id) && FindIndex(history, analysis.id) >= 0
  }

  /** The list written back by a save that is not skipped: the record on top,
      the previous records after it in their order, cut to 50 entries. */
  function Prepend(history: seq<Record>, analysis: Record): (r: seq<Record>)
    ensures |r| == if |history| + 1 > MaxEntries then MaxEntries else |history| + 1
    ensures |r| <= MaxEntries
    ensures r[0] == analysis
    ensures r[1..] == history[..|r| - 1]
  {
    var h := [analysis] + history;
    if |h| > MaxEntries then h[..MaxEntries] else h
  }

  /** The list after one save from `history` (skipped saves leave it as it is). */
  function Save(history: seq<Record>, analysis: Record): (r: seq<Record>)
    ensures |history| <= MaxEntries ==> |r| <= MaxEntries
    ensures r == history || (|r| > 0 && r[0] == analysis)
    ensures forall x :: x in r ==> x == analysis || x in history
    ensures Truthy(analysis.id) ==> Find(r, analysis.id).Some?
  {
    if IsDuplicate(history, analysis) then history else Prepend(history, analysis)
  }

  /** The list after saving `rs[0]`, then `rs[1]`, and so on. */
  function SaveAll(history: seq<Record>, rs: seq<Record>): (r: seq<Record>)
    ensures |history| <= MaxEntries ==> |r| <= MaxEntries
    ensures forall x :: x in r ==> x in history || x in rs
    decreases |rs|
  {
    if rs == [] then history
    else
      assert forall x :: x in rs[..|rs| - 1] ==> x in rs;
      Save(SaveAll(history, rs[..|rs| - 1]), rs[|rs| - 1])
  }

  function Reverse(s: seq<Record>): (r: seq<Record>)
    ensures |r| == |s|
    ensures forall i :: 0 <= i < |s| ==> r[i] == s[|s| - 1 - i]
  {
    if s == [] then [] else Reverse(s[1..]) + [s[0]]
  }

  /** Each record's id is set, and no two records (nor any record and `history`) share one. */
  predicate FreshIds(history: seq<Record>, rs: seq<Record>) {
    && (forall i :: 0 <= i < |rs| ==> Truthy(rs[i].id))
    && (forall i, j :: 0 <= i < j < |rs| ==> rs[i].id != rs[j].id)
    && (forall i, j :: 0 <= i < |rs| && 0 <= j < |history| ==> rs[i].id != history[j].id)
  }

  /** No two records share a set id (records without an id may repeat). */
  predicate TruthyIdsUnique(h: seq<Record>) {
    forall i, j :: 0 <= i < j < |h| && Truthy(h[i].id) ==> h[i].id != h[j].id
  }

  /** A save never stores a set id twice: the store's ids stay unique. */
  lemma SaveKeepsIdsUnique(history: seq<Record>, analysis: Record)
    requires TruthyIdsUnique(history)
    ensures TruthyIdsUnique(Save(history, analysis))
  {
    if !IsDuplicate(history, analysis) {
      var r := Prepend(history, analysis);
      forall i, j | 0 <= i < j < |r| && Truthy(r[i].id) ensures r[i].id != r[j].id {
        assert r[j] == history[j - 1];
        if i > 0 {
          assert r[i] == history[i - 1];
        }
      }
    }
  }

  function Min(a: int, b: int): int { if a <= b then a else b }

  /** Saving records with fresh ids one after another keeps the 50 most recent,
      newest first: after 51 saves into an empty store, exactly the last 50 remain. */
  lemma {:induction false} SaveAllKeepsNewest(history: seq<Record>, rs: seq<Record>)
    requires |history| <= MaxEntries
    requires FreshIds(history, rs)
    ensures SaveAll(history, rs) == (Reverse(rs) + history)[..Min(|rs| + |history|, MaxEntries)]
    decreases |rs|
  {
    if rs != [] {
      var init, last := rs[..|rs| - 1], rs[|rs| - 1];
      assert rs == init + [last];
      FreshIdsPrefix(history, init, last);
      SaveAllKeepsNewest(history, init);
      var all := Reverse(init) + history;
      var m := Min(|init| + |history|, MaxEntries);
      calc {
        SaveAll(history, rs);
        Save(SaveAll(history, init), last);
        Save(all[..m], last);
        { NewestExcludesLast(history, init, last); SaveFresh(all, m, last); }
        ([last] + all)[..Min(m + 1, MaxEntries)];
        { ReverseSnoc(init, last, history); }
        (Reverse(rs) + history)[..Min(|rs| + |history|, MaxEntries)];
      }
    }
  }

  lemma FreshIdsPrefix(history: seq<Record>, init: seq<Record>, last: Record)
    requires FreshIds(history, init + [last])
    ensures FreshIds(history, init)
  {
    var rs := init + [last];
    assert forall i :: 0 <= i < |init| ==> init[i] == rs[i];
  }

  /** The last of a batch of fresh records is not among the records saved before it. */
  lemma NewestExcludesLast(history: seq<Record>, init: seq<Record>, last: Record)
    requires FreshIds(history, init + [last])
    ensures forall j :: 0 <= j < |Reverse(init) + history| ==> (Reverse(init) + history)[j].id != last.id
  {
    var rs := init + [last];
    var all := Reverse(init) + history;
    assert rs[|init|] == last;
    forall j | 0 <= j < |all| ensures all[j].id != last.id {
      if j < |init| {
        assert all[j] == init[|init| - 1 - j] == rs[|init| - 1 - j];
        assert rs[|init| - 1 - j].id != rs[|init|].id;
      } else {
        assert all[j] == history[j - |init|];
        assert rs[|init|].id != history[j - |init|].id;
      }
    }
  }

  /** Saving a record whose id is set and absent from `all` on top of the first `m`
      entries of `all` is taking the first `m + 1` (at most 50) of `[last] + all`. */
  lemma SaveFresh(all: seq<Record>, m: nat, last: Record)
    requires m <= |all| && m <= MaxEntries && Truthy(last.id)
    requires forall j :: 0 <= j < |all| ==> all[j].id != last.id
    ensures Save(all[..m], last) == ([last] + all)[..Min(m + 1, MaxEntries)]
  {
    var x := all[..m];
    assert forall j :: 0 <= j < |x| ==> x[j] == all[j];
    assert FindIndex(x, last.id) == -1;
    PrependPrefix(all, m, last);
  }

  lemma ReverseSnoc(init: seq<Record>, last: Record, rest: seq<Record>)
    ensures [last] + (Reverse(init) + rest) == Reverse(init + [last]) + rest
  {
    var rs := init + [last];
    assert Reverse(rs) == [last] + Reverse(init) by {
      forall i | 0 <= i < |rs| ensures Reverse(rs)[i] == ([last] + Reverse(init))[i] {
        if i > 0 { assert Reverse(init)[i - 1] == init[|init| - i]; }
      }
    }
  }

  /** Prepending to the first `m` of `all` is taking the first `m + 1` (at most 50) of `[last] + all`. */
  lemma PrependPrefix(all: seq<Record>, m: nat, last: Record)
    requires m <= |all| && m <= MaxEntries
    ensures Prepend(all[..m], last) == ([last] + all)[..Min(m + 1, MaxEntries)]
  {
    var p := Prepend(all[..m], last);
    assert p == ([last] + all[..m])[..|p|];
  }

  /** An id-less record is added again even when an identical record is stored. */
  lemma FalsyIdAlwaysPrepended(history: seq<Record>, analysis: Record)
    requires !Truthy(analysis.id)
    ensures Save(history, analysis) == Prepend(history, analysis)
    ensures |Save(history, analysis)| == Min(|history| + 1, MaxEntries)
  {
  }

  /** Right after a record with a fresh id is saved, looking its id up yields it. */
  lemma SaveThenFind(history: seq<Record>, analysis: Record)
    requires Truthy(analysis.id)
    requires forall j :: 0 <= j < |history| ==> history[j].id != analysis.id
    ensures Find(Save(history, analysis), analysis.id) == Some(analysis)
  {
  }

  /** The localStorage slot under `HistoryKey`, read and written by the three exported functions. */
  class LocalHistory {
    var slot: Slot

    constructor (initial: Slot)
      ensures slot == initial
    {
      slot := initial;
    }

    /** `getHistory()`: the stored list, or the empty list when nothing usable is stored. */
    function GetHistory(): (r: seq<Record>)
      reads this
      ensures slot.Holds? ==> r == slot.records
      ensures !slot.Holds? ==> r == []
    {
      match slot
      case Holds(rs) => rs
      case _ => []
    }

    /** `getReport(id)`: the first stored record whose id is `id`, or null. */
    function GetReport(id: Option<string>): (r: Option<Record>)
      reads this
      ensures r.Some? ==> r.value.id == id && r.value in GetHistory()
      ensures r.None? <==> forall j :: 0 <= j < |GetHistory()| ==> GetHistory()[j].id != id
      ensures r.Some? ==> r == Some(GetHistory()[FindIndex(GetHistory(), id)])
    {
      Find(GetHistory(), id)
    }

    /** `saveToHistory(analysis)`; `writeOk` is whether `localStorage.setItem` succeeds.
        A corrupt slot, a stored id or a failing write leave the slot as it was. */
    method SaveToHistory(analysis: Record, writeOk: bool)
      modifies this
      ensures old(slot).Corrupt? || !writeOk || IsDuplicate(old(GetHistory()), analysis) ==> slot == old(slot)
      ensures !old(slot).Corrupt? && writeOk && !IsDuplicate(old(GetHistory()), analysis) ==>
                slot == Holds(Prepend(old(GetHistory()), analysis))
      ensures !old(slot).Corrupt? && writeOk ==> GetHistory() == Save(old(GetHistory()), analysis)
      ensures TruthyIdsUnique(old(GetHistory())) ==> TruthyIdsUnique(GetHistory())
    {
      ghost var before := GetHistory();
      if TruthyIdsUnique(before) { SaveKeepsIdsUnique(before, analysis); }
      var history: seq<Record>;
      match slot {
        case Corrupt => return;
        case Empty => history := [];
        case Holds(rs) => history := rs;
      }
      if Truthy(analysis.id) {
        var existingIndex := FindIndex(history, analysis.id);
        if existingIndex >= 0 {
          return;
        }
      }
      history := [analysis] + history;
      if |history| > MaxEntries {
        history := history[..MaxEntries];
      }
      if writeOk {
        slot := Holds(history);
      }
    }
  }
}
