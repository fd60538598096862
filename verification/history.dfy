/** The back/forward history: a list of visited pages and a cursor into
    it. The client keeps both in two global cells; here they form one
    record, and each operation returns the new record. */
module History {
  import opened Wrappers
  import opened Urls
  import opened Protocols

  datatype HistoryEntry = HistoryEntry(url: Url, protocol: Protocol)

  datatype History = History(entries: seq<HistoryEntry>, index: nat)

  const Empty := History([], 0)

  /** The cursor invariant: a non-empty history has its cursor on an
      entry. */
  predicate Valid(h: History) {
    |h.entries| > 0 ==> h.index < |h.entries|
  }

  predicate CanGoBack(h: History) {
    h.index > 0
  }

  predicate CanGoForward(h: History) {
    h.index + 1 < |h.entries|
  }

  /** The entries that survive a new visit: everything after the cursor is
      discarded. */
  function Kept(h: History): (kept: seq<HistoryEntry>)
    ensures |kept| <= |h.entries| && kept == h.entries[..|kept|]
    ensures h.index + 1 < |h.entries| ==> |kept| == h.index + 1
    ensures h.index + 1 >= |h.entries| ==> kept == h.entries
  {
    if h.index + 1 < |h.entries| then h.entries[..h.index + 1] else h.entries
  }

  /** `add_entry`: drop the forward entries, then append unless the last
      entry already has this URL (the protocol is not compared). */
  function AddEntry(h: History, url: Url, protocol: Protocol): (r: History)
    ensures Kept(h) <= r.entries
    ensures |r.entries| <= |Kept(h)| + 1
    ensures |Kept(h)| > 0 && Kept(h)[|Kept(h)| - 1].url == url ==> r == History(Kept(h), h.index)
    ensures !(|Kept(h)| > 0 && Kept(h)[|Kept(h)| - 1].url == url) ==>
      r.entries == Kept(h) + [HistoryEntry(url, protocol)] && r.index == |r.entries| - 1
  {
    var kept := Kept(h);
    if |kept| > 0 && kept[|kept| - 1].url == url then History(kept, h.index)
    else History(kept + [HistoryEntry(url, protocol)], |kept|)
  }

  /** `remove_latest_entry`: pop the last entry, leaving the cursor where
      it is; popping an empty history is a fault. */
  function RemoveLatest(h: History): (r: Result<(History, HistoryEntry)>)
    ensures r.Err? <==> |h.entries| == 0
    ensures r.Err? ==> r.fault == EmptyHistory
    ensures r.Ok? ==> r.value.0.index == h.index
    ensures r.Ok? ==> r.value.0.entries + [r.value.1] == h.entries
  {
    if |h.entries| == 0 then Err(EmptyHistory)
    else Ok((History(h.entries[..|h.entries| - 1], h.index), h.entries[|h.entries| - 1]))
  }

  /** `back`: move the cursor one entry back and return that entry, when
      the cursor is not at the start. */
  function Back(h: History): (r: (History, Option<HistoryEntry>))
    ensures !CanGoBack(h) ==> r == (h, None)
    ensures CanGoBack(h) ==> r.0 == History(h.entries, h.index - 1)
    ensures CanGoBack(h) ==> (r.1.Some? <==> h.index - 1 < |h.entries|)
    ensures r.1.Some? ==> r.1.value == h.entries[h.index - 1]
  {
    if h.index > 0 then
      var i := h.index - 1;
      (History(h.entries, i), if i < |h.entries| then Some(h.entries[i]) else None)
    else (h, None)
  }

  /** `forward`: move the cursor one entry forward and return that entry,
      when there is one. */
  function Forward(h: History): (r: (History, Option<HistoryEntry>))
    ensures !CanGoForward(h) ==> r == (h, None)
    ensures CanGoForward(h) ==> r == (History(h.entries, h.index + 1), Some(h.entries[h.index + 1]))
  {
    if h.index + 1 < |h.entries| then
      (History(h.entries, h.index + 1), Some(h.entries[h.index + 1]))
    else (h, None)
  }

  /** A visit keeps the invariant, lands on an entry for the visited URL and
      leaves nothing to go forward to. */
  lemma AddEntryValid(h: History, url: Url, protocol: Protocol)
    requires Valid(h)
    ensures var r := AddEntry(h, url, protocol);
      && Valid(r)
      && |r.entries| > 0
      && r.entries[r.index].url == url
      && !CanGoForward(r)
      && h.entries[..if h.index < |h.entries| then h.index + 1 else 0] <= r.entries
  {
    var kept := Kept(h);
    if |h.entries| > 0 {
      assert |kept| == h.index + 1;
    }
  }

  /** Back and forward keep the invariant, and each moves iff its `can_go`
      query holds, returning an entry exactly then. */
  lemma BackForwardValid(h: History)
    requires Valid(h)
    ensures Valid(Back(h).0) && Valid(Forward(h).0)
    ensures |h.entries| > 0 ==> (Back(h).1.Some? <==> CanGoBack(h))
    ensures Forward(h).1.Some? <==> CanGoForward(h)
  {
  }

  /** Going back and then forward returns to the same place, and the other
      way round. */
  lemma BackThenForward(h: History)
    requires Valid(h) && CanGoBack(h) && |h.entries| > 0
    ensures Forward(Back(h).0) == (h, Some(h.entries[h.index]))
  {
  }

  lemma ForwardThenBack(h: History)
    requires Valid(h) && CanGoForward(h)
    ensures Back(Forward(h).0) == (h, Some(h.entries[h.index]))
  {
  }

  /** Popping keeps the invariant exactly when the cursor was not on the
      last entry, or the history becomes empty. */
  lemma RemoveLatestValid(h: History)
    requires Valid(h) && |h.entries| > 0
    ensures Valid(RemoveLatest(h).value.0) <==> h.index + 1 < |h.entries| || |h.entries| == 1
  {
  }

  /** `remove_latest_entry` breaks the invariant: after two visits the
      cursor is on the second entry, and popping it leaves the cursor past
      the end. */
  lemma RemoveLatestBreaksValid(a: Url, b: Url, p: Protocol)
    requires a != b
    ensures var h := AddEntry(AddEntry(Empty, a, p), b, p);
      && Valid(h)
      && !Valid(RemoveLatest(h).value.0)
  {
    var h1 := AddEntry(Empty, a, p);
    assert h1 == History([HistoryEntry(a, p)], 0);
    var h := AddEntry(h1, b, p);
    assert h == History([HistoryEntry(a, p), HistoryEntry(b, p)], 1);
  }
}
