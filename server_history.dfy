/** The server-side history of backend/storage.py: a JSON file holding a list of
    entries, appended to by `save_report`, listed newest first by `get_history_list`
    and searched by `get_report_detail`. The uuid and the clock are parameters. */
module ServerHistory {
  import opened Wrappers
  import Text
  import Seqs

  /** The response dictionary handed to `save_report`. `reportType` is the value at
      `["extraction"]["report_type"]` and `redFlags` the value at `["red_flags"]`,
      each absent when the key is missing; `rest` stands for the other keys. */
  datatype ResponseDict = ResponseDict(reportType: Option<string>, redFlags: Option<seq<string>>, rest: string)

  /** One element of the history file. */
  datatype Entry = Entry(id: string, timestamp: string, reportType: string, redFlags: seq<string>, fullData: ResponseDict)

  /** One element of the list view: an entry without its full data. */
  datatype Summary = Summary(id: string, timestamp: string, reportType: string, redFlags: seq<string>)

  /** The entry `save_report` builds; missing metadata defaults to "Unknown" and []. */
  function NewEntry(d: ResponseDict, reportId: string, timestamp: string): (e: Entry)
    ensures e.id == reportId && e.timestamp == timestamp && e.fullData == d
    ensures d.reportType.Some? ==> e.reportType == d.reportType.value
    ensures d.reportType.None? ==> e.reportType == "Unknown"
    ensures d.redFlags.Some? ==> e.redFlags == d.redFlags.value
    ensures d.redFlags.None? ==> e.redFlags == []
  {
    Entry(reportId, timestamp, d.reportType.GetOr("Unknown"), d.redFlags.GetOr([]), d)
  }

  /** An entry's list-view summary: its four metadata fields, without the full data. */
  function Summarize(e: Entry): (s: Summary)
    ensures s.id == e.id && s.timestamp == e.timestamp && s.reportType == e.reportType && s.redFlags == e.redFlags
  {
    Summary(e.id, e.timestamp, e.reportType, e.redFlags)
  }

  /** The list comprehension keeping only the four metadata fields. */
  function Summaries(h: seq<Entry>): (r: seq<Summary>)
    ensures |r| == |h|
    ensures forall i :: 0 <= i < |h| ==> r[i] == Summary(h[i].id, h[i].timestamp, h[i].reportType, h[i].redFlags)
  {
    if h == [] then [] else [Summarize(h[0])] + Summaries(h[1..])
  }

  lemma SummariesCons(x: Entry, t: seq<Entry>)
    ensures Summaries([x] + t) == [Summarize(x)] + Summaries(t)
  {
    assert ([x] + t)[1..] == t;
  }

  /** No entry is newer than the one before it. */
  predicate NewestFirst(h: seq<Entry>) {
    forall i :: 0 <= i < |h| - 1 ==> !Text.Less(h[i].timestamp, h[i + 1].timestamp)
  }

  /** How many leading entries of `h` are strictly newer than `e`. */
  function InsertPos(e: Entry, h: seq<Entry>): (k: nat)
    ensures k <= |h|
    ensures forall i :: 0 <= i < k ==> Text.Less(e.timestamp, h[i].timestamp)
    ensures k < |h| ==> !Text.Less(e.timestamp, h[k].timestamp)
  {
    if h == [] || !Text.Less(e.timestamp, h[0].timestamp) then 0
    else 1 + InsertPos(e, h[1..])
  }

  /** Puts `e` before the first entry that is not newer than it, so that among
      equal timestamps the earlier element stays first (Python's sort is stable). */
  function Insert(e: Entry, h: seq<Entry>): (r: seq<Entry>)
    ensures multiset(r) == multiset(h) + multiset{e}
    ensures |r| == |h| + 1
  {
    var k := InsertPos(e, h);
    Seqs.SplitAt(h, k);
    h[..k] + [e] + h[k..]
  }

  /** Inserting into a newest-first list keeps it newest first. */
  lemma InsertKeepsOrder(e: Entry, h: seq<Entry>)
    requires NewestFirst(h)
    ensures NewestFirst(Insert(e, h))
  {
    var k := InsertPos(e, h);
    var r := Insert(e, h);
    if k > 0 { Text.LessAsymmetric(e.timestamp, h[k - 1].timestamp); }
    forall i | 0 <= i < |r| - 1 ensures !Text.Less(r[i].timestamp, r[i + 1].timestamp) {
      if i + 1 < k {
        assert r[i] == h[i] && r[i + 1] == h[i + 1];
      } else if i + 1 == k {
        assert r[i] == h[k - 1] && r[i + 1] == e;
      } else if i == k {
        assert r[i] == e && r[i + 1] == h[k];
      } else {
        assert r[i] == h[i - 1] && r[i + 1] == h[i];
      }
    }
  }

  /** `history.sort(key=lambda x: x["timestamp"], reverse=True)`. */
  function SortNewestFirst(h: seq<Entry>): (r: seq<Entry>)
    ensures NewestFirst(r)
    ensures multiset(r) == multiset(h)
    ensures |r| == |h|
  {
    if h == [] then []
    else
      assert h == [h[0]] + h[1..];
      InsertKeepsOrder(h[0], SortNewestFirst(h[1..]));
      Insert(h[0], SortNewestFirst(h[1..]))
  }

  /** In a newest-first list, every entry is at least as new as every later one. */
  lemma {:induction false} NewestFirstPairwise(h: seq<Entry>, i: int, j: int)
    requires NewestFirst(h)
    requires 0 <= i < j < |h|
    ensures !Text.Less(h[i].timestamp, h[j].timestamp)
    decreases j - i
  {
    if j > i + 1 {
      NewestFirstPairwise(h, i + 1, j);
      var a, b, c := h[i].timestamp, h[i + 1].timestamp, h[j].timestamp;
      Text.LessTotal(a, b);
      Text.LessTotal(b, c);
      if Text.Less(a, c) {
        if a == b {
        } else if b == c {
        } else {
          Text.LessTransitive(c, b, a);
          Text.LessAsymmetric(c, a);
        }
      }
    }
  }

  lemma {:induction false} SummariesAppend(a: seq<Entry>, b: seq<Entry>)
    ensures Summaries(a + b) == Summaries(a) + Summaries(b)
    decreases |a|
  {
    if a != [] {
      assert (a + b)[1..] == a[1..] + b;
      SummariesAppend(a[1..], b);
    }
  }

  lemma SummariesOfInsert(e: Entry, h: seq<Entry>)
    ensures multiset(Summaries(Insert(e, h))) == multiset(Summaries(h)) + multiset{Summarize(e)}
  {
    var k := InsertPos(e, h);
    var x, y := h[..k], h[k..];
    SummariesOfSplice(x, e, y);
    Seqs.ConcatAssoc(x, [e], y);
    Seqs.SplitAt(h, k);
    Seqs.MultisetSplice(Summaries(x), Summarize(e), Summaries(y));
  }

  lemma SummariesOfSplice(x: seq<Entry>, e: Entry, y: seq<Entry>)
    ensures Summaries(x + ([e] + y)) == Summaries(x) + ([Summarize(e)] + Summaries(y))
    ensures Summaries(x + y) == Summaries(x) + Summaries(y)
  {
    SummariesAppend(x, [e] + y);
    SummariesAppend([e], y);
    SummariesAppend(x, y);
  }

  /** Sorting only reorders the list view: the same summaries, each as often. */
  lemma {:induction false} SummariesOfSort(h: seq<Entry>)
    ensures multiset(Summaries(SortNewestFirst(h))) == multiset(Summaries(h))
    decreases |h|
  {
    if h != [] {
      var t := SortNewestFirst(h[1..]);
      assert SortNewestFirst(h) == Insert(h[0], t);
      SummariesOfSort(h[1..]);
      SummariesOfInsert(h[0], t);
      var sh := Summarize(h[0]);
      var rest := multiset(Summaries(h[1..]));
      assert multiset([sh] + Summaries(h[1..])) == multiset{sh} + rest;
      assert multiset{sh} + rest == rest + multiset{sh};
    }
  }

  /** The full data of the first entry whose id is `reportId`. */
  function Detail(h: seq<Entry>, reportId: string): (r: Option<ResponseDict>)
    ensures r.Some? ==> exists k :: 0 <= k < |h| && h[k].id == reportId && h[k].fullData == r.value &&
                                  forall j :: 0 <= j < k ==> h[j].id != reportId
    ensures r.None? <==> forall j :: 0 <= j < |h| ==> h[j].id != reportId
  {
    if h == [] then None
    else if h[0].id == reportId then Some(h[0].fullData)
    else
      var r := Detail(h[1..], reportId);
      assert r.Some? ==> exists k :: 0 <= k < |h| && h[k].id == reportId && h[k].fullData == r.value &&
                                  forall j :: 0 <= j < k ==> h[j].id != reportId by {
        if r.Some? {
          var k :| 0 <= k < |h[1..]| && h[1..][k].id == reportId && h[1..][k].fullData == r.value &&
                   forall j :: 0 <= j < k ==> h[1..][j].id != reportId;
          assert h[k + 1].id == reportId && forall j :: 0 <= j < k + 1 ==> h[j].id != reportId;
        }
      }
      r
  }

  /** Appending an entry whose id is not yet stored makes it findable, with the data saved. */
  lemma {:induction false} SaveThenDetail(h: seq<Entry>, d: ResponseDict, reportId: string, timestamp: string)
    requires forall j :: 0 <= j < |h| ==> h[j].id != reportId
    ensures Detail(h + [NewEntry(d, reportId, timestamp)], reportId) == Some(d)
    decreases |h|
  {
    if h != [] {
      assert (h + [NewEntry(d, reportId, timestamp)])[1..] == h[1..] + [NewEntry(d, reportId, timestamp)];
      SaveThenDetail(h[1..], d, reportId, timestamp);
    }
  }

  /** Appending an entry leaves the lookup of every other stored id unchanged. */
  lemma {:induction false} SaveKeepsOtherDetails(h: seq<Entry>, e: Entry, reportId: string)
    requires Detail(h, reportId).Some?
    ensures Detail(h + [e], reportId) == Detail(h, reportId)
    decreases |h|
  {
    if h[0].id != reportId {
      assert (h + [e])[1..] == h[1..] + [e];
      SaveKeepsOtherDetails(h[1..], e, reportId);
    }
  }

  /** The history file: absent or unreadable (`None`), or the list it holds. */
  class HistoryFile {
    var file: Option<seq<Entry>>

    constructor (initial: Option<seq<Entry>>)
      ensures file == initial
    {
      file := initial;
    }

    /** `_load_history()`: a missing or unreadable file loads as the empty list. */
    function LoadHistory(): (r: seq<Entry>)
      reads this
      ensures file.None? ==> r == []
      ensures file.Some? ==> r == file.value
    {
      file.GetOr([])
    }

    /** `_save_history(history)`: the file is replaced by the list. */
    method SaveHistory(history: seq<Entry>)
      modifies this
      ensures file == Some(history)
    {
      file := Some(history);
    }

    /** `save_report(d)` with `uuid4()` as `reportId` and `now().isoformat()` as `timestamp`:
        one entry appended at the end, all earlier entries kept, its id returned. */
    method SaveReport(d: ResponseDict, reportId: string, timestamp: string) returns (id: string)
      modifies this
      ensures id == reportId
      ensures file.Some? && |file.value| == |old(LoadHistory())| + 1
      ensures file.value[..|old(LoadHistory())|] == old(LoadHistory())
      ensures file.value[|old(LoadHistory())|] == NewEntry(d, reportId, timestamp)
    {
      var history := LoadHistory();
      var entry := NewEntry(d, reportId, timestamp);
      history := history + [entry];
      SaveHistory(history);
      id := entry.id;
    }

    /** `get_history_list()`: every stored entry, newest first, reduced to its metadata. */
    method GetHistoryList() returns (r: seq<Summary>)
      ensures |r| == |LoadHistory()|
      ensures forall i, j :: 0 <= i < j < |r| ==> !Text.Less(r[i].timestamp, r[j].timestamp)
      ensures multiset(r) == multiset(Summaries(LoadHistory()))
      ensures r == Summaries(SortNewestFirst(LoadHistory()))
    {
      var history := LoadHistory();
      history := SortNewestFirst(history);
      r := Summaries(history);
      forall i, j | 0 <= i < j < |r| ensures !Text.Less(r[i].timestamp, r[j].timestamp) {
        NewestFirstPairwise(history, i, j);
      }
      SummariesOfSort(LoadHistory());
    }

    /** `get_report_detail(report_id)`: the full data of the first entry with that id, or None. */
    method GetReportDetail(reportId: string) returns (r: Option<ResponseDict>)
      ensures r == Detail(LoadHistory(), reportId)
      ensures r.None? <==> forall j :: 0 <= j < |LoadHistory()| ==> LoadHistory()[j].id != reportId
    {
      var history := LoadHistory();
      var i := 0;
      while i < |history|
        invariant 0 <= i <= |history|
        invariant Detail(history[i..], reportId) == Detail(history, reportId)
      {
        if history[i].id == reportId {
          return Some(history[i].fullData);
        }
        assert history[i..][1..] == history[i + 1..];
        i := i + 1;
      }
      return None;
    }
  }
}
