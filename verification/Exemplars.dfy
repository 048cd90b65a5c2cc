/**
  tsdb/exemplar.go: the circular exemplar storage.  One ring of entries, a linked
  list per series threaded through it, and an index with the ends of each list.
 */
module Exemplars {
  import opened Samples

  const EXEMPLAR_MAX_LABEL_SET_LENGTH: int := 128
  const NO_EXEMPLAR: int := -1

  /** The label set of a series; its byte form, the key of the index, is injective. */
  datatype Series = Series(id: int)

  datatype Label = Label(name: string, value: string)

  datatype Exemplar = Exemplar(labels: seq<Label>, value: real, ts: int, hasTs: bool) {
    /** Without own timestamps on both sides the timestamps do not count. */
    predicate Equals(e: Exemplar) {
      labels == e.labels && !((hasTs || e.hasTs) && ts != e.ts) && value == e.value
    }
  }

  datatype Item = Item(series: Series, ex: Exemplar)

  // ---------------------------------------------------------------------------
  // The per-series lists, by position in ingest order

  /** j is the position of the next item of the series of item k; -1 if there is none. */
  ghost predicate IsNext(items: seq<Item>, k: int, j: int)
    requires 0 <= k < |items|
  {
    if j == -1 then forall i :: k < i < |items| ==> items[i].series != items[k].series
    else
      && k < j < |items| && items[j].series == items[k].series
      && forall i :: k < i < j ==> items[i].series != items[k].series
  }

  /** The items in ingest order, the link of each, and the ends of each series' list. */
  datatype View = View(items: seq<Item>, links: seq<int>, first: map<Series, int>, last: map<Series, int>) {
    ghost predicate Good() {
      && |links| == |items|
      && (forall k :: 0 <= k < |items| ==> IsNext(items, k, links[k]))
      && first.Keys == last.Keys
      && (forall k :: 0 <= k < |items| ==> items[k].series in first)
      && (forall s :: s in first ==> Ends(s, first[s], last[s]))
    }

    /** f and l are the positions of the first and the last item of series s. */
    ghost predicate Ends(s: Series, f: int, l: int) {
      && 0 <= f <= l < |items|
      && items[f].series == s && items[l].series == s
      && (forall i :: 0 <= i < f ==> items[i].series != s)
      && (forall i :: l < i < |items| ==> items[i].series != s)
    }

    function Append(it: Item): View {
      var n := |items|;
      View(items + [it],
           (if it.series in last && 0 <= last[it.series] < |links| then links[last[it.series] := n] else links) + [-1],
           if it.series in first then first else first[it.series := n],
           last[it.series := n])
    }

    /** Positions count from the oldest item, so dropping it lowers them all. */
    ghost function DropFirst(): View
      requires |links| == |items| > 0
    {
      var s := items[0].series;
      var gone := links[0] == -1;
      View(items[1..],
           seq(|links| - 1, k requires 0 <= k < |links| - 1 => if links[k + 1] == -1 then -1 else links[k + 1] - 1),
           map x | x in first && !(gone && x == s) :: if x == s then links[0] - 1 else first[x] - 1,
           map x | x in last && !(gone && x == s) :: last[x] - 1)
    }
  }

  lemma {:induction false} AppendNext(v: View, it: Item, k: int)
    requires v.Good() && 0 <= k <= |v.items|
    ensures IsNext(v.items + [it], k, v.Append(it).links[k])
  {
    hide View.Good;
    var s := it.series;
    GoodParts(v, k, s);
  }

  /** Good, for one position and one series. */
  lemma {:induction false} GoodParts(v: View, k: int, s: Series)
    requires v.Good()
    ensures |v.links| == |v.items| && (s in v.first <==> s in v.last)
    ensures 0 <= k < |v.items| ==> IsNext(v.items, k, v.links[k]) && v.items[k].series in v.first
    ensures s in v.first ==> v.Ends(s, v.first[s], v.last[s])
    ensures s !in v.first ==> forall i :: 0 <= i < |v.items| ==> v.items[i].series != s
  {
  }

  lemma {:induction false} AppendEnds(v: View, it: Item, x: Series)
    requires v.Good() && x in v.Append(it).first
    ensures var w := v.Append(it); x in w.last && w.Ends(x, w.first[x], w.last[x])
  {
    hide View.Good;
    GoodParts(v, -1, x);
  }

  lemma {:induction false} AppendGood(v: View, it: Item)
    requires v.Good()
    ensures v.Append(it).Good()
  {
    hide IsNext, View.Ends;
    var w := v.Append(it);
    forall k | 0 <= k < |w.items|
      ensures IsNext(w.items, k, w.links[k])
    {
      AppendNext(v, it, k);
    }
    forall x | x in w.first
      ensures x in w.last && w.Ends(x, w.first[x], w.last[x])
    {
      AppendEnds(v, it, x);
    }
    assert w.first.Keys == w.last.Keys;
  }

  lemma {:induction false} DropFirstNext(v: View, k: int)
    requires v.Good() && 0 <= k < |v.items| - 1
    ensures IsNext(v.items[1..], k, v.DropFirst().links[k])
  {
    hide View.Good;
    GoodParts(v, k + 1, v.items[k + 1].series);
    assert forall i :: 0 <= i < |v.items| - 1 ==> v.items[1..][i] == v.items[i + 1];
  }

  lemma {:induction false} DropFirstEnds(v: View, x: Series)
    requires v.Good() && v.items != [] && x in v.DropFirst().first
    ensures var w := v.DropFirst(); x in w.last && w.Ends(x, w.first[x], w.last[x])
  {
    hide View.Good;
    GoodParts(v, 0, x);
    assert forall i :: 0 <= i < |v.items| - 1 ==> v.items[1..][i] == v.items[i + 1];
  }

  lemma {:induction false} DropFirstCovers(v: View, k: int)
    requires v.Good() && 0 <= k < |v.items| - 1
    ensures v.items[k + 1].series in v.DropFirst().first
  {
    hide View.Good;
    GoodParts(v, 0, v.items[0].series);
    GoodParts(v, k + 1, v.items[0].series);
  }

  lemma {:induction false} DropFirstGood(v: View)
    requires v.Good() && v.items != []
    ensures v.DropFirst().Good()
  {
    hide IsNext, View.Ends;
    var w := v.DropFirst();
    forall k | 0 <= k < |w.items|
      ensures IsNext(w.items, k, w.links[k]) && w.items[k].series in w.first
    {
      DropFirstNext(v, k);
      DropFirstCovers(v, k);
    }
    forall x | x in w.first
      ensures w.Ends(x, w.first[x], w.last[x])
    {
      DropFirstEnds(v, x);
    }
    assert w.first.Keys == w.last.Keys;
  }

  // ---------------------------------------------------------------------------
  // The storage

  class IndexEntry {
    var oldest: int
    var newest: int
    const seriesLabels: Series

    constructor (oldest: int, seriesLabels: Series)
      ensures this.oldest == oldest && this.seriesLabels == seriesLabels
    {
      this.oldest, this.newest, this.seriesLabels := oldest, 0, seriesLabels;
    }
  }

  datatype Entry = Entry(exemplar: Exemplar, next: int, ref: IndexEntry)

  /** The slot of position k in a ring of n slots, the oldest item being at b; b is negative when the ring has wrapped. */
  function Slot(n: int, b: int, k: int): int {
    if b + k < 0 then b + k + n else b + k
  }

  function LinkSlot(n: int, b: int, link: int): int {
    if link == -1 then NO_EXEMPLAR else Slot(n, b, link)
  }

  class CircularExemplarStorage {
    var exemplars: array<Option<Entry>>
    var nextIndex: int
    var index: map<Series, IndexEntry>
    ghost var view: View

    /** The positions lo..hi of v are in their slots, linked, and refer to the index entry of their series. */
    ghost predicate HoldsEntries(v: View, b: int, lo: int, hi: int)
      reads this`exemplars, this`index, exemplars
    {
      && |v.links| == |v.items|
      && forall k :: lo <= k < hi && 0 <= k < |v.items| ==> HoldsEntry(v, b, k)
    }

    ghost predicate HoldsEntry(v: View, b: int, k: int)
      requires 0 <= k < |v.items| == |v.links|
      reads this`exemplars, this`index, exemplars
    {
      var j := Slot(exemplars.Length, b, k);
      && 0 <= j < exemplars.Length && v.items[k].series in index
      && exemplars[j] ==
           Some(Entry(v.items[k].ex, LinkSlot(exemplars.Length, b, v.links[k]), index[v.items[k].series]))
    }

    /** The index has the ends of each series' list; the newest of one series may be yet to be set. */
    ghost predicate HoldsIndex(v: View, b: int, but: Option<Series>)
      reads this`exemplars, this`index, index.Values
    {
      && index.Keys == v.first.Keys == v.last.Keys
      && forall s :: s in index ==>
           && index[s].seriesLabels == s
           && index[s].oldest == Slot(exemplars.Length, b, v.first[s])
           && (but != Some(s) ==> index[s].newest == Slot(exemplars.Length, b, v.last[s]))
    }

    ghost predicate Shape(n: int)
      reads this, exemplars
    {
      && n <= exemplars.Length
      && (if exemplars.Length == 0 then nextIndex == 0 else 0 <= nextIndex < exemplars.Length)
      && (n < exemplars.Length ==> nextIndex == n)
      && (forall j :: n <= j < exemplars.Length ==> exemplars[j].None?)
    }

    ghost predicate Valid()
      reads this, exemplars, index.Values
    {
      && view.Good() && Ascending(view.items)
      && Shape(|view.items|)
      && HoldsEntries(view, nextIndex - |view.items|, 0, |view.items|)
      && HoldsIndex(view, nextIndex - |view.items|, None)
    }

    constructor (length: int)
      ensures Valid() && view.items == [] && exemplars.Length == (if length < 0 then 0 else length)
      ensures fresh(exemplars) && index == map[]
    {
      var n := if length < 0 then 0 else length;
      exemplars := new Option<Entry>[n](_ => None);
      nextIndex := 0;
      index := map[];
      view := View([], [], map[], map[]);
    }

    /** Before the slot of a further item is written, the last item of its series is linked to it. */
    method LinkExisting(s: Series, ghost it: Item)
      requires Valid() && exemplars.Length > 0 && it.series == s && s in index
      modifies exemplars
      ensures Shape(|view.items|)
      ensures HoldsEntries(view.Append(it), nextIndex - |view.items|, 0, |view.items|)
      ensures HoldsIndex(view.Append(it), nextIndex - |view.items|, Some(s))
    {
      hide View.Good, Ascending;
      ghost var b := nextIndex - |view.items|;
      ghost var l := view.last[s];
      GoodParts(view, l, s);
      assert HoldsEntry(view, b, l);
      var j := index[s].newest;
      exemplars[j] := Some(exemplars[j].value.(next := nextIndex));
      forall k | 0 <= k < |view.items|
        ensures HoldsEntry(view.Append(it), b, k)
      {
        assert old(HoldsEntry(view, b, k));
      }
    }

    /** A series not in the index gets the given entry, whose list starts at the slot about to be written. */
    method LinkFirst(s: Series, idx: IndexEntry, ghost it: Item)
      requires Valid() && exemplars.Length > 0 && it.series == s && s !in index
      requires idx.oldest == nextIndex && idx.seriesLabels == s
      modifies this`index
      ensures Shape(|view.items|)
      ensures HoldsEntries(view.Append(it), nextIndex - |view.items|, 0, |view.items|)
      ensures HoldsIndex(view.Append(it), nextIndex - |view.items|, Some(s))
      ensures index == old(index)[s := idx]
    {
      hide View.Good, Ascending, IsNext;
      ghost var b := nextIndex - |view.items|;
      GoodParts(view, -1, s);
      index := index[s := idx];
      forall k | 0 <= k < |view.items|
        ensures HoldsEntry(view.Append(it), b, k)
      {
        assert old(HoldsEntry(view, b, k));
      }
    }

    /** The slot after nextIndex. */
    ghost function Following(): int
      reads this
    {
      if nextIndex + 1 == exemplars.Length then 0 else nextIndex + 1
    }

    /** The entry about to be overwritten leaves its series: the index moves past it, or drops the series. */
    method DropOldest(ghost w: View)
      requires w.Good() && |w.items| == exemplars.Length + 1 && exemplars.Length > 0
      requires Shape(exemplars.Length)
      requires HoldsEntries(w, nextIndex - exemplars.Length, 0, exemplars.Length)
      requires HoldsIndex(w, nextIndex - exemplars.Length, Some(w.items[exemplars.Length].series))
      modifies this`index, index.Values
      ensures HoldsEntries(w.DropFirst(), Following() - exemplars.Length, 0, exemplars.Length - 1)
      ensures HoldsIndex(w.DropFirst(), Following() - exemplars.Length, Some(w.items[exemplars.Length].series))
      ensures forall x :: x in index ==> x in old(index) && index[x] == old(index[x])
    {
      hide View.Good, View.DropFirst, HoldsIndex;
      ghost var n := exemplars.Length;
      ghost var b := nextIndex - n;
      assert HoldsEntry(w, b, 0);
      LabelsOf(w, b, w.items[0].series);
      var prev := exemplars[nextIndex].value;
      AdvanceIndex(prev.ref.seriesLabels, prev.next, w);
      ShiftSlots(n, nextIndex);
      ghost var b' := Following() - n;
      ghost var w' := w.DropFirst();
      DropFirstIndex(w, w.items[0].series);
      forall k | 0 <= k < n - 1
        ensures HoldsEntry(w', b', k)
      {
        assert old(HoldsEntry(w, b, k + 1));
        DropFirstAt(w, k);
      }
    }

    lemma {:induction false} LabelsOf(v: View, b: int, s: Series)
      requires v.Good() && v.items != [] && HoldsIndex(v, b, Some(v.items[|v.items| - 1].series)) && s in index
      ensures index[s].seriesLabels == s && v.first.Keys == index.Keys
    {
    }

    method AdvanceIndex(prevLabels: Series, next: int, ghost w: View)
      requires w.Good() && |w.items| == exemplars.Length + 1 && exemplars.Length > 0 && 0 <= nextIndex < exemplars.Length
      requires HoldsIndex(w, nextIndex - exemplars.Length, Some(w.items[exemplars.Length].series))
      requires prevLabels == w.items[0].series && prevLabels in index
      requires |w.links| == |w.items| && next == LinkSlot(exemplars.Length, nextIndex - exemplars.Length, w.links[0])
      modifies this`index, index.Values
      ensures HoldsIndex(w.DropFirst(), Following() - exemplars.Length, Some(w.items[exemplars.Length].series))
      ensures forall x :: x in index ==> x in old(index) && index[x] == old(index[x])
      ensures forall x :: x in w.DropFirst().first ==> x in index
    {
      hide View.Good, View.DropFirst, Slot, LinkSlot;
      ghost var n := exemplars.Length;
      ghost var b' := Following() - n;
      DropFirstIndex(w, w.items[0].series);
      LinkSlotIs(n, nextIndex, w.links[0]);
      if next == NO_EXEMPLAR {
        index := index - {prevLabels};
      } else {
        index[prevLabels].oldest := next;
      }
      forall x
        ensures x in index <==> x in w.DropFirst().first
        ensures x in index <==> x in w.DropFirst().last
      {
        DropFirstIndex(w, x);
      }
      assert index.Keys == w.DropFirst().first.Keys == w.DropFirst().last.Keys;
      forall x | x in index
        ensures index[x].seriesLabels == x
        ensures index[x].oldest == Slot(n, b', w.DropFirst().first[x])
        ensures x != w.items[n].series ==> index[x].newest == Slot(n, b', w.DropFirst().last[x])
      {
        DropFirstIndex(w, x);
        ShiftSlot(n, nextIndex, w.DropFirst().first[x]);
        ShiftSlot(n, nextIndex, w.DropFirst().last[x]);
      }
      IndexHeld(w.DropFirst(), b', w.items[n].series);
    }

    lemma {:induction false} IndexHeld(v: View, b: int, but: Series)
      requires index.Keys == v.first.Keys == v.last.Keys
      requires forall x :: x in index ==> index[x].seriesLabels == x
      requires forall x :: x in index ==> index[x].oldest == Slot(exemplars.Length, b, v.first[x])
      requires forall x :: x in index ==> x != but ==> index[x].newest == Slot(exemplars.Length, b, v.last[x])
      ensures HoldsIndex(v, b, Some(but))
    {
    }

    /** In a ring that has not wrapped, advancing past the last slot does not move anything. */
    lemma {:induction false} Rebase(v: View, n: int)
      requires 0 <= n < exemplars.Length && |v.items| == n + 1 && nextIndex == n && v.Good()
      requires HoldsEntries(v, 0, 0, n) && HoldsIndex(v, 0, Some(v.items[n].series))
      ensures HoldsEntries(v, Following() - |v.items|, 0, n)
      ensures HoldsIndex(v, Following() - |v.items|, Some(v.items[n].series))
    {
      hide View.Good;
      var b := Following() - |v.items|;
      forall k | 0 <= k < n
        ensures HoldsEntry(v, b, k)
      {
        assert HoldsEntry(v, 0, k);
        GoodParts(v, k, v.items[k].series);
      }
      forall s | s in index
        ensures index[s].oldest == Slot(exemplars.Length, b, v.first[s])
        ensures s != v.items[n].series ==> index[s].newest == Slot(exemplars.Length, b, v.last[s])
      {
        GoodParts(v, -1, s);
      }
    }

    /** The newest item of v is written into the slot kept for it. */
    method Put(e: Exemplar, s: Series, ghost v: View)
      requires exemplars.Length > 0 && 0 <= nextIndex < exemplars.Length
      requires v.Good() && Ascending(v.items) && 0 < |v.items| <= exemplars.Length
      requires v.items[|v.items| - 1] == Item(s, e)
      requires |v.items| < exemplars.Length ==> nextIndex == |v.items| - 1
      requires forall j :: |v.items| <= j < exemplars.Length ==> exemplars[j].None?
      requires HoldsEntries(v, Following() - |v.items|, 0, |v.items| - 1)
      requires HoldsIndex(v, Following() - |v.items|, Some(s))
      modifies this`nextIndex, this`view, exemplars, index.Values
      ensures Valid() && view == v
    {
      hide View.Good, Ascending, HoldsEntries, HoldsIndex, HoldsEntry;
      ghost var b := Following() - |v.items|;
      NewestEnds(v);
      IndexKeys(v, b, s);
      assert Slot(exemplars.Length, b, |v.items| - 1) == nextIndex;
      hide Slot;
      SetEntry(e, s, v, b);
      SetNewest(s, v, b);
      view := v;
      nextIndex := Modulo(nextIndex + 1, exemplars.Length);
      assert nextIndex - |view.items| == b;
    }

    lemma {:induction false} IndexKeys(v: View, b: int, s: Series)
      requires HoldsIndex(v, b, Some(s))
      ensures index.Keys == v.last.Keys
    {
    }

    /** The slot at nextIndex gets the last item, which has no link. */
    method SetEntry(e: Exemplar, s: Series, ghost v: View, ghost b: int)
      requires 0 <= nextIndex < exemplars.Length && 0 < |v.items| <= exemplars.Length && s in index
      requires v.items[|v.items| - 1] == Item(s, e) && |v.links| == |v.items| && v.links[|v.items| - 1] == NO_EXEMPLAR
      requires nextIndex == Slot(exemplars.Length, b, |v.items| - 1)
      requires -exemplars.Length <= b && b + |v.items| <= exemplars.Length
      requires HoldsEntries(v, b, 0, |v.items| - 1)
      modifies exemplars
      ensures HoldsEntries(v, b, 0, |v.items|)
      ensures forall j :: 0 <= j < exemplars.Length && j != nextIndex ==> exemplars[j] == old(exemplars[j])
    {
      exemplars[nextIndex] := Some(Entry(e, NO_EXEMPLAR, index[s]));
      forall k | 0 <= k < |v.items|
        ensures HoldsEntry(v, b, k)
      {
        if k < |v.items| - 1 {
          assert old(HoldsEntry(v, b, k));
        }
      }
    }

    /** The item at nextIndex is the newest of its series. */
    method SetNewest(s: Series, ghost v: View, ghost b: int)
      requires s in index && s in v.last && HoldsIndex(v, b, Some(s)) && nextIndex == Slot(exemplars.Length, b, v.last[s])
      modifies index[s]
      ensures HoldsIndex(v, b, None)
    {
      hide Slot;
      index[s].newest := nextIndex;
    }
  
    /** validateExemplar, against the last stored exemplar of the series. */
    method ValidateExemplar(s: Series, e: Exemplar) returns (r: Option<AddError>)
      requires Valid()
      ensures r == Verdict(view.items, exemplars.Length, s, e)
    {
      hide View.Good, Ascending, LabelLength;
      if exemplars.Length == 0 {
        return Some(ExemplarsDisabled);
      }
      var tooLong := LabelsTooLong(e.labels);
      if tooLong {
        return Some(ExemplarLabelLength);
      }
      GoodParts(view, -1, s);
      if s !in index {
        LastOfNone(view.items, s);
        return None;
      }
      ghost var l := view.last[s];
      assert HoldsEntry(view, nextIndex - |view.items|, l);
      LastOfEnds(view, s);
      var newest := exemplars[index[s].newest].value.exemplar;
      if newest.Equals(e) {
        return Some(DuplicateExemplar);
      }
      if e.ts <= newest.ts {
        return Some(OutOfOrderExemplar);
      }
      return None;
    }

    /** A duplicate is no error and changes nothing. */
    method AddExemplar(s: Series, e: Exemplar) returns (err: Option<AddError>)
      requires Valid()
      modifies this, exemplars, index.Values
      ensures Valid() && exemplars == old(exemplars)
      ensures var v := Verdict(old(view.items), exemplars.Length, s, e);
        && err == (if v == Some(DuplicateExemplar) then None else v)
        && view.items == (if v.None? then Push(old(view.items), exemplars.Length, Item(s, e)) else old(view.items))
      ensures Adds(old(view.items), exemplars.Length, s, e, err, view.items)
      ensures forall x :: x in index ==> fresh(index[x]) || index[x] in old(index.Values)
    {
      hide View.Good, Ascending, IsNext, View.Append, View.DropFirst, Verdict, Adds;
      VerdictAdds(view.items, exemplars.Length, s, e);
      err := ValidateExemplar(s, e);
      if err.Some? {
        if err == Some(DuplicateExemplar) {
          err := None;
        }
        return;
      }
      VerdictAccepts(view, exemplars.Length, s, e);
      AppendShape(view, Item(s, e));
      AppendGood(view, Item(s, e));
      LinkNew(s, Item(s, e));
      Store(e, s, view.Append(Item(s, e)));
    }

    method LinkNew(s: Series, ghost it: Item)
      requires Valid() && exemplars.Length > 0 && it.series == s
      modifies this`index, exemplars
      ensures Shape(|view.items|)
      ensures HoldsEntries(view.Append(it), nextIndex - |view.items|, 0, |view.items|)
      ensures HoldsIndex(view.Append(it), nextIndex - |view.items|, Some(s))
      ensures forall x :: x in index ==> fresh(index[x]) || index[x] in old(index.Values)
    {
      hide *;
      if s !in index {
        var idx := new IndexEntry(nextIndex, s);
        LinkFirst(s, idx, it);
      } else {
        LinkExisting(s, it);
      }
    }

    /** The linked item takes its slot, from the oldest item if there is no free one. */
    method Store(e: Exemplar, s: Series, ghost w: View)
      requires exemplars.Length > 0 && Shape(|view.items|)
      requires w.Good() && Ascending(w.items) && w.items == view.items + [Item(s, e)]
      requires HoldsEntries(w, nextIndex - |view.items|, 0, |view.items|)
      requires HoldsIndex(w, nextIndex - |view.items|, Some(s))
      modifies this, exemplars, index.Values
      ensures Valid() && exemplars == old(exemplars)
      ensures view.items == Push(old(view.items), exemplars.Length, Item(s, e))
      ensures forall x :: x in index ==> x in old(index) && index[x] == old(index[x])
    {
      hide View.Good, Ascending, View.DropFirst, HoldsIndex;
      if |view.items| == exemplars.Length {
        assert HoldsEntry(w, nextIndex - |view.items|, 0);
      }
      if exemplars[nextIndex].None? {
        Rebase(w, |view.items|);
        Put(e, s, w);
      } else {
        DropFirstGood(w);
        DropFirstShape(w);
        DropOldest(w);
        Put(e, s, w.DropFirst());
      }
    }
  
    /** An entry of the old ring takes the next free slot; its index entry is reused. */
    method Migrate(entry: Entry)
      requires Valid() && |view.items| < exemplars.Length
      requires entry.ref.seriesLabels in index ==> index[entry.ref.seriesLabels] == entry.ref
      requires Ascending(view.items + [Item(entry.ref.seriesLabels, entry.exemplar)])
      modifies this, exemplars, index.Values, entry.ref
      ensures Valid() && exemplars == old(exemplars)
      ensures view.items == old(view.items) + [Item(entry.ref.seriesLabels, entry.exemplar)]
      ensures index == old(index)[entry.ref.seriesLabels := entry.ref]
    {
      hide View.Good, Ascending, View.Append, HoldsEntries, HoldsIndex;
      var s := entry.ref.seriesLabels;
      ghost var it := Item(s, entry.exemplar);
      AppendShape(view, it);
      AppendGood(view, it);
      if s !in index {
        StartList(entry.ref);
        LinkFirst(s, entry.ref, it);
      } else {
        LinkExisting(s, it);
      }
      Rebase(view.Append(it), |view.items|);
      Put(entry.exemplar, s, view.Append(it));
    }

    method StartList(idx: IndexEntry)
      requires Valid() && idx.seriesLabels !in index
      modifies idx`oldest
      ensures Valid() && idx.oldest == nextIndex
    {
      hide View.Good, Ascending;
      idx.oldest := nextIndex;
      ghost var b := nextIndex - |view.items|;
      forall k | 0 <= k < |view.items|
        ensures HoldsEntry(view, b, k)
      {
        assert old(HoldsEntry(view, b, k));
      }
    }

    /** Resize keeps the newest items that fit. */
    method Resize(l: int) returns (migrated: int)
      requires Valid()
      modifies this, index.Values
      ensures Valid() && exemplars.Length == (if l < 0 then 0 else l)
      ensures view.items == Newest(old(view.items), exemplars.Length)
      ensures migrated == if exemplars.Length == old(exemplars.Length) then 0 else |view.items|
      ensures exemplars == old(exemplars) || fresh(exemplars)
      ensures forall x :: x in index ==> x in old(index) && index[x] == old(index[x])
    {
      hide View.Good, Ascending, IsNext;
      var size := if l <= 0 then 0 else l;
      if size == exemplars.Length {
        return 0;
      }
      var oldBuffer, oldNextIndex := exemplars, nextIndex;
      ghost var items, oldIndex := view.items, index;
      ghost var ring := oldBuffer[..];
      RingOf();
      exemplars := new Option<Entry>[size](_ => None);
      nextIndex := 0;
      index := map[];
      view := View([], [], map[], map[]);
      NothingIsGood();
      var count := if size < oldBuffer.Length then size else oldBuffer.Length;
      migrated := 0;
      if size > 0 && oldBuffer.Length > 0 {
        migrated := Replay(oldBuffer, oldNextIndex, count, ring, items, oldIndex);
      }
    }

    /** The loop of Resize over the last count slots of the old ring. */
    method Replay(oldBuffer: array<Option<Entry>>, oldNextIndex: int, count: int,
                  ghost ring: seq<Option<Entry>>, ghost items: seq<Item>, ghost oldIndex: map<Series, IndexEntry>)
      returns (migrated: int)
      requires Valid() && view.items == [] && index == map[] && exemplars.Length > 0 && oldBuffer != exemplars
      requires oldBuffer[..] == ring && 0 < count <= |ring| && count <= exemplars.Length
      requires IsRing(ring, oldNextIndex, items, oldIndex) && Ascending(items)
      modifies this, exemplars, oldIndex.Values
      ensures Valid() && exemplars == old(exemplars)
      ensures view.items == Newest(items, count) && migrated == |view.items|
      ensures forall x :: x in index ==> x in oldIndex && index[x] == oldIndex[x]
    {
      hide View.Good, Ascending, HoldsEntries, HoldsIndex;
      var n := oldBuffer.Length;
      var startIndex := Modulo(oldNextIndex - count + n, n);
      migrated := 0;
      for i := 0 to count
        invariant Valid() && exemplars == old(exemplars) && oldBuffer[..] == ring
        invariant forall x :: x in index ==> x in oldIndex && index[x] == oldIndex[x]
        invariant view.items == items[First(|items|, count, 0)..First(|items|, count, i)]
        invariant migrated == |view.items|
      {
        var idx := Modulo(startIndex + i, n);
        RingAt(ring, oldNextIndex, items, oldIndex, count, i);
        assert oldBuffer[idx] == ring[idx];
        ghost var lo, hi := First(|items|, count, 0), First(|items|, count, i);
        assert First(|items|, count, i + 1) == if ring[idx].Some? then hi + 1 else hi;
        assert 0 <= lo <= hi <= |items| && hi - lo < count;
        hide First;
        ReplayOne(oldBuffer[idx], items, lo, hi, oldIndex);
        if oldBuffer[idx].Some? {
          migrated := migrated + 1;
        }
      }
    }

    /** One slot of the old ring: its entry, if it has one, is the next item. */
    method ReplayOne(entry: Option<Entry>, ghost items: seq<Item>, ghost lo: int, ghost hi: int,
                     ghost oldIndex: map<Series, IndexEntry>)
      requires Valid() && Ascending(items) && 0 <= lo <= hi <= |items| && view.items == items[lo..hi]
      requires forall x :: x in index ==> x in oldIndex && index[x] == oldIndex[x]
      requires entry.Some? ==>
        && hi < |items| && hi - lo < exemplars.Length
        && items[hi].series in oldIndex && entry.value.ref == oldIndex[items[hi].series]
        && entry.value.ref.seriesLabels == items[hi].series && entry.value.exemplar == items[hi].ex
      modifies this, exemplars, oldIndex.Values
      ensures Valid() && exemplars == old(exemplars)
      ensures view.items == items[lo..if entry.Some? then hi + 1 else hi]
      ensures forall x :: x in index ==> x in oldIndex && index[x] == oldIndex[x]
    {
      hide View.Good, Ascending, HoldsEntries, HoldsIndex, CircularExemplarStorage.Shape;
      if entry.Some? {
        AscendingSlice(items, lo, hi);
        Migrate(entry.value);
      }
    }

    lemma {:induction false} RingOf()
      requires Valid()
      ensures IsRing(exemplars[..], nextIndex, view.items, index)
    {
      hide View.Good, Ascending, IsNext;
      var b := nextIndex - |view.items|;
      forall k | 0 <= k < |view.items|
        ensures RingHolds(exemplars[..], b, view.items[k], index, k)
      {
        assert HoldsEntry(view, b, k);
      }
    }
  
    /** The walk along the list of one series. */
    method SelectSeries(s: Series, start: int, end: int) returns (found: seq<Exemplar>)
      requires Valid() && s in index
      ensures found == Matching(view.items, s, start, end)
    {
      hide View.Good, Matching, Ascending;
      ghost var b, items := nextIndex - |view.items|, view.items;
      ghost var k := view.first[s];
      GoodParts(view, k, s);
      assert HoldsEntry(view, b, k);
      var e := exemplars[index[s].oldest].value;
      found := [];
      MatchSkip(items, s, 0, k, start, end);
      while e.exemplar.ts <= end
        invariant 0 <= k < |items| && items[k].series == s && HoldsEntry(view, b, k)
        invariant e == exemplars[Slot(exemplars.Length, b, k)].value
        invariant found == Matching(items[..k], s, start, end)
        decreases |items| - k
      {
        MatchStep(items, s, k, start, end);
        GoodParts(view, k, s);
        if e.exemplar.ts >= start {
          found := found + [e.exemplar];
        }
        if e.next == NO_EXEMPLAR {
          MatchSkip(items, s, k + 1, |items|, start, end);
          return;
        }
        MatchSkip(items, s, k + 1, view.links[k], start, end);
        k := view.links[k];
        assert HoldsEntry(view, b, k);
        e := exemplars[e.next].value;
      }
      LaterIsLater(items, s, k, end);
      MatchSkip(items, s, k, |items|, start, end);
    }

    /** For every matching series its exemplars in the range, in order; series without any are not listed. */
    method Select(start: int, end: int, matches: Series -> bool) returns (ret: map<Series, seq<Exemplar>>)
      requires Valid()
      ensures forall s :: s in ret <==> matches(s) && Matching(view.items, s, start, end) != []
      ensures forall s :: s in ret ==> ret[s] == Matching(view.items, s, start, end)
      ensures forall s :: s in ret ==> matches(s) && ret[s] != [] && IsAnswer(ret[s], view.items, s, start, end)
      ensures forall s :: s !in ret && matches(s) ==> IsAnswer([], view.items, s, start, end)
    {
      hide Matching, View.Good, Ascending, IsAnswer;
      ret := map[];
      forall s
        ensures IsAnswer(Matching(view.items, s, start, end), view.items, s, start, end)
      {
        MatchingIs(view.items, s, start, end);
      }
      NoSeriesNoMatch(view, start, end);
      if exemplars.Length == 0 {
        return;
      }
      var keys := index.Keys;
      while keys != {}
        invariant keys <= index.Keys
        invariant forall s :: s in ret <==>
          s in index && s !in keys && matches(s) && Matching(view.items, s, start, end) != []
        invariant forall s :: s in ret ==> ret[s] == Matching(view.items, s, start, end)
      {
        var s := AnyOf(keys);
        keys := keys - {s};
        var skip := OutOfRange(s, start, end);
        if !skip && matches(s) {
          var found := SelectSeries(s, start, end);
          if found != [] {
            ret := ret[s := found];
          }
        }
      }
    }

    /** A list whose ends are both on one side of the range is not walked: it has nothing in it. */
    method OutOfRange(s: Series, start: int, end: int) returns (skip: bool)
      requires Valid() && s in index
      ensures skip ==> Matching(view.items, s, start, end) == []
    {
      hide View.Good, Matching;
      ghost var b, items := nextIndex - |view.items|, view.items;
      ghost var f, l := view.first[s], view.last[s];
      GoodParts(view, f, s);
      assert HoldsEntry(view, b, f) && HoldsEntry(view, b, l);
      skip := exemplars[index[s].oldest].value.exemplar.ts > end || exemplars[index[s].newest].value.exemplar.ts < start;
      if skip {
        MatchSkip(items, s, 0, |items|, start, end);
      }
    }

    /** f is called in ingest order, up to and including the first call that fails. */
    method IterateExemplars(f: (Series, Exemplar) -> bool) returns (ok: bool, visited: seq<Item>)
      requires Valid()
      ensures visited <= view.items
      ensures forall k :: 0 <= k < |visited| - 1 ==> f(visited[k].series, visited[k].ex)
      ensures visited != [] ==> var last := visited[|visited| - 1]; ok == f(last.series, last.ex)
      ensures if ok then visited == view.items else visited != []
    {
      hide View.Good, Ascending, HoldsEntries, HoldsIndex;
      visited := [];
      var idx, n := nextIndex, exemplars.Length;
      ghost var m := |view.items|;
      RingOf();
      var i := 0;
      while i < n
        invariant 0 <= i <= n && (n == 0 || idx == if nextIndex + i < n then nextIndex + i else nextIndex + i - n)
        invariant visited == view.items[..First(m, n, i)]
        invariant forall k :: 0 <= k < |visited| ==> f(visited[k].series, visited[k].ex)
      {
        RingAt(exemplars[..], nextIndex, view.items, index, n, i);
        if exemplars[idx].Some? {
          var e := exemplars[idx].value;
          visited := visited + [Item(e.ref.seriesLabels, e.exemplar)];
          if !f(e.ref.seriesLabels, e.exemplar) {
            return false, visited;
          }
        }
        i := i + 1;
        idx := Modulo(idx + 1, n);
      }
      return true, visited;
    }
  }

  predicate InRange(it: Item, s: Series, start: int, end: int) {
    it.series == s && start <= it.ex.ts <= end
  }

  /** The reference: the stored exemplars of a series in a time range, in ingest order. */
  function Matching(items: seq<Item>, s: Series, start: int, end: int): seq<Exemplar> {
    if items == [] then []
    else
      var n := |items| - 1;
      Matching(items[..n], s, start, end) + if InRange(items[n], s, start, end) then [items[n].ex] else []
  }

  /** found are the stored exemplars of series s with times in the range, in the order of their times. */
  ghost predicate IsAnswer(found: seq<Exemplar>, items: seq<Item>, s: Series, start: int, end: int) {
    && (forall i, j :: 0 <= i < j < |found| ==> found[i].ts < found[j].ts)
    && (forall x :: x in found <==> Item(s, x) in items && start <= x.ts <= end)
  }

  lemma {:induction false} MatchingIs(items: seq<Item>, s: Series, start: int, end: int)
    requires Ascending(items)
    ensures IsAnswer(Matching(items, s, start, end), items, s, start, end)
  {
    if items != [] {
      var n := |items| - 1;
      assert Ascending(items[..n]);
      hide IsAnswer, Ascending;
      var rest := Matching(items[..n], s, start, end);
      MatchingIs(items[..n], s, start, end);
      assert items == items[..n] + [items[n]];
      if InRange(items[n], s, start, end) {
        AnswerGrows(rest, items[..n], items[n].ex, s, start, end);
      } else {
        AnswerStays(rest, items[..n], items[n], s, start, end);
        assert rest + [] == rest;
      }
    }
  }

  lemma {:induction false} AnswerGrows(found: seq<Exemplar>, items: seq<Item>, x: Exemplar, s: Series, start: int, end: int)
    requires IsAnswer(found, items, s, start, end) && Ascending(items + [Item(s, x)]) && start <= x.ts <= end
    ensures IsAnswer(found + [x], items + [Item(s, x)], s, start, end)
  {
    forall i | 0 <= i < |found|
      ensures found[i].ts < x.ts
    {
      assert found[i] in found;
      NewestIsLast(items, s, found[i], x);
    }
    hide Ascending;
    forall y
      ensures Item(s, y) in items + [Item(s, x)] <==> Item(s, y) in items || y == x
    {
    }
  }

  lemma {:induction false} AnswerStays(found: seq<Exemplar>, items: seq<Item>, it: Item, s: Series, start: int, end: int)
    requires IsAnswer(found, items, s, start, end) && !InRange(it, s, start, end)
    ensures IsAnswer(found, items + [it], s, start, end)
  {
  }

  lemma {:induction false} NewestIsLast(items: seq<Item>, s: Series, x: Exemplar, y: Exemplar)
    requires Ascending(items + [Item(s, y)]) && Item(s, x) in items
    ensures x.ts < y.ts
  {
    var all := items + [Item(s, y)];
    var k :| 0 <= k < |items| && items[k] == Item(s, x);
    assert all[k].series == all[|items|].series;
  }

  lemma {:induction false} MatchStep(items: seq<Item>, s: Series, k: int, start: int, end: int)
    requires 0 <= k < |items|
    ensures Matching(items[..k + 1], s, start, end) ==
            Matching(items[..k], s, start, end) + if InRange(items[k], s, start, end) then [items[k].ex] else []
  {
    assert items[..k + 1][..k] == items[..k];
  }

  lemma {:induction false} MatchSkip(items: seq<Item>, s: Series, lo: int, hi: int, start: int, end: int)
    requires 0 <= lo <= hi <= |items|
    requires forall i :: lo <= i < hi ==> !InRange(items[i], s, start, end)
    ensures Matching(items[..hi], s, start, end) == Matching(items[..lo], s, start, end)
    ensures lo == 0 ==> Matching(items[..hi], s, start, end) == []
    ensures items[..|items|] == items
    decreases hi - lo
  {
    if lo < hi {
      MatchStep(items, s, hi - 1, start, end);
      MatchSkip(items, s, lo, hi - 1, start, end);
    }
  }

  lemma {:induction false} LaterIsLater(items: seq<Item>, s: Series, k: int, end: int)
    requires Ascending(items) && 0 <= k < |items| && items[k].series == s && end < items[k].ex.ts
    ensures forall i :: k <= i < |items| && items[i].series == s ==> end < items[i].ex.ts
  {
  }

  lemma {:induction false} NoSeriesNoMatch(v: View, start: int, end: int)
    requires v.Good()
    ensures forall s :: s !in v.first || v.items == [] ==> Matching(v.items, s, start, end) == []
  {
    hide Matching;
    forall s | s !in v.first || v.items == []
      ensures Matching(v.items, s, start, end) == []
    {
      GoodParts(v, -1, s);
      MatchSkip(v.items, s, 0, |v.items|, start, end);
    }
  }

  /** How many of m items the first i of the last count slots of a ring reach. */
  function First(m: int, count: int, i: int): int {
    if m - count + i < 0 then 0 else m - count + i
  }

  /** The newest n of the items. */
  function Newest(items: seq<Item>, n: int): seq<Item>
    requires 0 <= n
  {
    if |items| <= n then items else items[|items| - n..]
  }

  ghost predicate RingHolds(ring: seq<Option<Entry>>, b: int, it: Item, index: map<Series, IndexEntry>, k: int) {
    var j := Slot(|ring|, b, k);
    && 0 <= j < |ring| && ring[j].Some? && it.series in index
    && ring[j].value.exemplar == it.ex && ring[j].value.ref == index[it.series]
  }

  /** ring holds the items in ingest order up to next, and nothing else. */
  ghost predicate IsRing(ring: seq<Option<Entry>>, next: int, items: seq<Item>, index: map<Series, IndexEntry>) {
    && |items| <= |ring|
    && (|ring| > 0 ==> 0 <= next < |ring|)
    && (|items| < |ring| ==> next == |items|)
    && (forall s :: s in index ==> index[s].seriesLabels == s)
    && (forall k :: 0 <= k < |items| ==> RingHolds(ring, next - |items|, items[k], index, k))
    && (forall j :: |items| <= j < |ring| ==> ring[j].None?)
  }

  /** The i-th of the last count slots holds the item that many places from the end, if there is one. */
  lemma {:induction false} RingAt(ring: seq<Option<Entry>>, next: int, items: seq<Item>, index: map<Series, IndexEntry>,
                                  count: int, i: int)
    requires IsRing(ring, next, items, index) && 0 <= i < count <= |ring|
    ensures var n, m := |ring|, |items|;
      var start := if next - count + n < n then next - count + n else next - count;
      var j := if start + i < n then start + i else start + i - n;
      && 0 <= j < n
      && (ring[j].None? <==> m - count + i < 0)
      && (ring[j].Some? ==>
            var it := items[m - count + i];
            && it.series in index && ring[j].value.exemplar == it.ex && ring[j].value.ref == index[it.series]
            && index[it.series].seriesLabels == it.series)
  {
    var k := |items| - count + i;
    if 0 <= k {
      assert RingHolds(ring, next - |items|, items[k], index, k);
    }
  }

  lemma {:induction false} AscendingSlice(items: seq<Item>, lo: int, hi: int)
    requires Ascending(items) && 0 <= lo <= hi < |items|
    ensures items[lo..hi] + [items[hi]] == items[lo..hi + 1]
    ensures Ascending(items[lo..hi + 1])
  {
    var r := items[lo..hi + 1];
    assert forall k :: 0 <= k < |r| ==> r[k] == items[lo + k];
  }

  lemma {:induction false} NothingIsGood()
    ensures View([], [], map[], map[]).Good() && Ascending([])
  {
  }

  datatype AddError = ExemplarsDisabled | ExemplarLabelLength | DuplicateExemplar | OutOfOrderExemplar

  function LabelLength(labels: seq<Label>): nat {
    if labels == [] then 0
    else LabelLength(labels[..|labels| - 1]) + |labels[|labels| - 1].name| + |labels[|labels| - 1].value|
  }

  /** The running total is checked after every label; it only grows, so the whole is what counts. */
  method LabelsTooLong(labels: seq<Label>) returns (r: bool)
    ensures r <==> LabelLength(labels) > EXEMPLAR_MAX_LABEL_SET_LENGTH
  {
    var total := 0;
    for i := 0 to |labels|
      invariant total == LabelLength(labels[..i]) <= EXEMPLAR_MAX_LABEL_SET_LENGTH
    {
      assert labels[..i + 1][..i] == labels[..i];
      total := total + |labels[i].name| + |labels[i].value|;
      if total > EXEMPLAR_MAX_LABEL_SET_LENGTH {
        LabelLengthGrows(labels, i + 1);
        return true;
      }
    }
    assert labels[..|labels|] == labels;
    return false;
  }

  lemma {:induction false} LabelLengthGrows(labels: seq<Label>, i: int)
    requires 0 <= i <= |labels|
    ensures LabelLength(labels[..i]) <= LabelLength(labels)
    decreases |labels| - i
  {
    if i < |labels| {
      LabelLengthGrows(labels, i + 1);
      assert labels[..i + 1][..i] == labels[..i];
    } else {
      assert labels[..i] == labels;
    }
  }

  /** The last stored item of a series. */
  function LastOf(items: seq<Item>, s: Series): Option<Item> {
    if items == [] then None
    else if items[|items| - 1].series == s then Some(items[|items| - 1])
    else LastOf(items[..|items| - 1], s)
  }

  /** What becomes of an exemplar offered to a storage of the given size; None: it is stored. */
  function Verdict(items: seq<Item>, size: int, s: Series, e: Exemplar): Option<AddError> {
    if size == 0 then Some(ExemplarsDisabled)
    else if LabelLength(e.labels) > EXEMPLAR_MAX_LABEL_SET_LENGTH then Some(ExemplarLabelLength)
    else
      var l := LastOf(items, s);
      if l.None? then None
      else if l.value.ex.Equals(e) then Some(DuplicateExemplar)
      else if e.ts <= l.value.ex.ts then Some(OutOfOrderExemplar)
      else None
  }

  // ---------------------------------------------------------------------------
  // What adding means, on the fields

  /** The k-th item is the last one of series s. */
  ghost predicate IsLastOf(items: seq<Item>, s: Series, k: int) {
    0 <= k < |items| && items[k].series == s && forall i :: k < i < |items| ==> items[i].series != s
  }

  /** The exemplar is stored as the newest item; in a full storage the oldest goes. */
  ghost predicate IsStored(items: seq<Item>, size: int, s: Series, e: Exemplar, err: Option<AddError>, after: seq<Item>) {
    err == None && after == (if |items| < size || items == [] then items else items[1..]) + [Item(s, e)]
  }

  /** Beside the last exemplar l of its series, e is stored, silently ignored as a duplicate, or out of order. */
  ghost predicate AddsAfter(items: seq<Item>, size: int, s: Series, l: Exemplar, e: Exemplar,
                            err: Option<AddError>, after: seq<Item>)
  {
    if l.labels == e.labels && l.value == e.value && (l.ts == e.ts || (!l.hasTs && !e.hasTs)) then
      err == None && after == items
    else if e.ts > l.ts then IsStored(items, size, s, e, err, after)
    else err == Some(OutOfOrderExemplar) && after == items
  }

  ghost predicate Adds(items: seq<Item>, size: int, s: Series, e: Exemplar, err: Option<AddError>, after: seq<Item>) {
    if size == 0 then err == Some(ExemplarsDisabled) && after == items
    else if LabelLength(e.labels) > 128 then err == Some(ExemplarLabelLength) && after == items
    else
      && (forall k :: IsLastOf(items, s, k) ==> AddsAfter(items, size, s, items[k].ex, e, err, after))
      && ((forall k :: !IsLastOf(items, s, k)) ==> IsStored(items, size, s, e, err, after))
  }

  /** The length of a label set is that of all its names and values. */
  lemma {:induction false} LabelLengthSnoc(labels: seq<Label>, l: Label)
    ensures LabelLength([]) == 0 && LabelLength(labels + [l]) == LabelLength(labels) + |l.name| + |l.value|
  {
    assert (labels + [l])[..|labels|] == labels;
  }

  lemma {:induction false} LastOfIs(items: seq<Item>, s: Series)
    ensures LastOf(items, s).None? ==> forall k :: !IsLastOf(items, s, k)
    ensures LastOf(items, s).Some? ==> exists k :: IsLastOf(items, s, k)
    ensures forall k :: IsLastOf(items, s, k) ==> LastOf(items, s) == Some(items[k])
  {
    if items != [] {
      var n := |items| - 1;
      LastOfIs(items[..n], s);
      if items[n].series == s {
        assert IsLastOf(items, s, n);
      } else {
        forall k
          ensures IsLastOf(items, s, k) <==> IsLastOf(items[..n], s, k)
        {
        }
      }
    }
  }

  lemma {:induction false} VerdictAdds(items: seq<Item>, size: int, s: Series, e: Exemplar)
    ensures var v := Verdict(items, size, s, e);
      Adds(items, size, s, e, if v == Some(DuplicateExemplar) then None else v,
           if v.None? then Push(items, size, Item(s, e)) else items)
  {
    hide LabelLength, LastOf, IsLastOf;
    LastOfIs(items, s);
  }

  /** A further item, at the cost of the oldest when there is no room. */
  function Push(items: seq<Item>, size: int, it: Item): seq<Item> {
    if |items| < size || items == [] then items + [it] else items[1..] + [it]
  }

  lemma {:induction false} LastOfNone(items: seq<Item>, s: Series)
    requires forall i :: 0 <= i < |items| ==> items[i].series != s
    ensures LastOf(items, s) == None
  {
    if items != [] {
      LastOfNone(items[..|items| - 1], s);
    }
  }

  lemma {:induction false} LastOfAt(items: seq<Item>, s: Series, l: int)
    requires 0 <= l < |items| && items[l].series == s
    requires forall i :: l < i < |items| ==> items[i].series != s
    ensures LastOf(items, s) == Some(items[l])
  {
    if l < |items| - 1 {
      LastOfAt(items[..|items| - 1], s, l);
    }
  }

  lemma {:induction false} LastOfEnds(v: View, s: Series)
    requires v.Good() && s in v.last
    ensures 0 <= v.last[s] < |v.items| && LastOf(v.items, s) == Some(v.items[v.last[s]])
  {
    hide View.Good;
    GoodParts(v, -1, s);
    LastOfAt(v.items, s, v.last[s]);
  }

  /** An accepted exemplar keeps the timestamps of its series increasing. */
  lemma {:induction false} VerdictAccepts(v: View, size: int, s: Series, e: Exemplar)
    requires v.Good() && Ascending(v.items) && Verdict(v.items, size, s, e) == None
    ensures 0 != size && Ascending(v.items + [Item(s, e)])
  {
    hide View.Good;
    GoodParts(v, -1, s);
    if s in v.last {
      LastOfEnds(v, s);
    }
  }

  lemma {:induction false} AppendShape(v: View, it: Item)
    ensures v.Append(it).items == v.items + [it]
  {
  }

  lemma {:induction false} DropFirstShape(v: View)
    requires v.Good() && v.items != [] && Ascending(v.items)
    ensures v.DropFirst().items == v.items[1..] && Ascending(v.DropFirst().items)
  {
  }

  method Modulo(x: int, n: int) returns (r: int)
    requires 0 < n && 0 <= x < 2 * n
    ensures r == if x < n then x else x - n
  {
    r := x % n;
  }

  /** The newest item has no link and is the last of its series. */
  lemma {:induction false} NewestEnds(v: View)
    requires v.Good() && v.items != []
    ensures var n := |v.items| - 1;
      && |v.links| == |v.items| && v.links[n] == -1
      && v.items[n].series in v.last && v.last[v.items[n].series] == n
  {
    hide View.Good;
    GoodParts(v, |v.items| - 1, v.items[|v.items| - 1].series);
  }

  /** What DropFirst does to one position. */
  lemma {:induction false} DropFirstAt(v: View, k: int)
    requires v.Good() && 0 <= k < |v.items| - 1
    ensures var w := v.DropFirst();
      && |w.items| == |w.links| == |v.items| - 1
      && w.items[k] == v.items[k + 1]
      && (v.links[k + 1] == -1 || k + 1 < v.links[k + 1] < |v.items|)
      && w.links[k] == (if v.links[k + 1] == -1 then -1 else v.links[k + 1] - 1)
      && v.items[k + 1].series in w.first
  {
    hide View.Good;
    GoodParts(v, k + 1, v.items[0].series);
    DropFirstCovers(v, k);
  }

  /** What DropFirst does to the ends of one series. */
  lemma {:induction false} DropFirstIndex(v: View, x: Series)
    requires v.Good() && v.items != []
    ensures var w, s := v.DropFirst(), v.items[0].series;
      && s in v.first && v.first[s] == 0 && (v.links[0] == -1 || 0 < v.links[0] < |v.items|)
      && |w.items| == |w.links| == |v.items| - 1
      && (x in w.first <==> x in v.first && !(v.links[0] == -1 && x == s))
      && (x in w.last <==> x in w.first)
      && (x in v.first <==> x in v.last)
      && (x in w.first ==> w.last[x] == v.last[x] - 1 && 0 < v.last[x] < |v.items|)
      && (x in w.first ==> w.first[x] == (if x == s then v.links[0] else v.first[x]) - 1)
      && (x in w.first && x != s ==> 0 < v.first[x] < |v.items|)
  {
    hide View.Good;
    GoodParts(v, 0, x);
    GoodParts(v, 0, v.items[0].series);
  }

  lemma {:induction false} LinkSlotIs(n: int, next: int, link: int)
    requires 0 <= next < n && (link == -1 || 0 < link <= n)
    ensures LinkSlot(n, next - n, link) == NO_EXEMPLAR <==> link == -1
    ensures link != -1 ==> LinkSlot(n, next - n, link) == Slot(n, next - n, link)
  {
  }

  lemma {:induction false} ShiftSlot(n: int, next: int, k: int)
    requires 0 <= next < n && 0 <= k < n
    ensures var b' := (if next + 1 == n then 0 else next + 1) - n; Slot(n, b', k) == Slot(n, next - n, k + 1)
  {
  }

  /** Dropping the oldest item and advancing the ring leaves every other item where it is. */
  lemma {:induction false} ShiftSlots(n: int, next: int)
    requires 0 <= next < n
    ensures var b' := (if next + 1 == n then 0 else next + 1) - n;
            forall k :: 0 <= k < n ==> Slot(n, b', k) == Slot(n, next - n, k + 1)
  {
  }

  /** Within a series the timestamps increase. */
  ghost predicate Ascending(items: seq<Item>) {
    forall j, k :: 0 <= j < k < |items| && items[j].series == items[k].series ==> items[j].ex.ts < items[k].ex.ts
  }

  // ---------------------------------------------------------------------------
  // Whole runs

  datatype Op = Add(s: Series, e: Exemplar) | Resize(l: int)

  /** What the methods do to the stored items; log has every exemplar that was accepted. */
  datatype Abstract = Abstract(items: seq<Item>, size: nat, log: seq<Item>) {
    function Step(op: Op): Abstract {
      match op
      case Add(s, e) =>
        if Verdict(items, size, s, e).None?
        then Abstract(Push(items, size, Item(s, e)), size, log + [Item(s, e)])
        else this
      case Resize(l) =>
        var n := if l < 0 then 0 else l;
        Abstract(Newest(items, n), n, log)
    }
  }

  function Run(size: nat, ops: seq<Op>): Abstract {
    if ops == [] then Abstract([], size, []) else Run(size, ops[..|ops| - 1]).Step(ops[|ops| - 1])
  }

  /**
    After every run the storage holds the most recent accepted exemplars, in the order
    of their arrival and never more than fit; as long as it was not resized, as many as fit.
   */
  lemma {:induction false} RunKeepsNewest(size: nat, ops: seq<Op>)
    ensures var a := Run(size, ops);
      && |a.items| <= a.size && |a.items| <= |a.log|
      && a.items == Newest(a.log, |a.items|)
      && ((forall k :: 0 <= k < |ops| ==> ops[k].Add?) ==>
            a.size == size && |a.items| == if |a.log| < size then |a.log| else size)
  {
    hide Verdict;
    if ops != [] {
      var n := |ops| - 1;
      RunKeepsNewest(size, ops[..n]);
      var a := Run(size, ops[..n]);
      match ops[n]
      case Add(s, e) =>
        if Verdict(a.items, a.size, s, e).None? {
          AcceptedNeedsRoom(a.items, a.size, s, e);
          PushNewest(a.log, a.items, a.size, Item(s, e));
        }
      case Resize(l) =>
        NewestNewest(a.log, |a.items|, if l < 0 then 0 else l);
    }
  }

  /** What the capacity after the first k operations leaves room for: it, and what was accepted since. */
  function Room(size: nat, ops: seq<Op>, k: int): int
    requires 0 <= k <= |ops|
  {
    Run(size, ops[..k]).size + |Run(size, ops).log| - |Run(size, ops[..k]).log|
  }

  /**
    How many exemplars a run leaves, resizes included: all that were accepted, or as many as the
    tightest moment of the run had room for.
   */
  lemma {:induction false} RunHoldsExactly(size: nat, ops: seq<Op>)
    ensures var n := |Run(size, ops).items|;
      && n <= |Run(size, ops).log| && (forall k :: 0 <= k <= |ops| ==> n <= Room(size, ops, k))
      && (n == |Run(size, ops).log| || exists k :: 0 <= k <= |ops| && n == Room(size, ops, k))
  {
    hide Verdict, Run;
    assert ops[..|ops|] == ops;
    if ops == [] {
      RunNothing(size);
    } else {
      var n := |ops| - 1;
      var l := ops[..n];
      RunHoldsExactly(size, l);
      RunKeepsNewest(size, l);
      HeldStep(size, ops);
      var d := |Run(size, ops).log| - |Run(size, l).log|;
      forall k | 0 <= k <= n
        ensures Room(size, ops, k) == Room(size, l, k) + d
      {
        assert l[..k] == ops[..k];
      }
      assert Room(size, ops, |ops|) == Run(size, ops).size;
    }
  }

  lemma {:induction false} RunNothing(size: nat)
    ensures Run(size, []) == Abstract([], size, [])
  {
  }

  /** One operation: what is held grows with what is accepted and is cut to the capacity. */
  lemma {:induction false} HeldStep(size: nat, ops: seq<Op>)
    requires ops != []
    requires var a := Run(size, ops[..|ops| - 1]); |a.items| <= a.size && |a.items| <= |a.log|
    ensures var a, b := Run(size, ops[..|ops| - 1]), Run(size, ops);
      && |a.log| <= |b.log|
      && |b.items| == (var m := |a.items| + |b.log| - |a.log|; if m < b.size then m else b.size)
  {
    hide Verdict;
    var a := Run(size, ops[..|ops| - 1]);
    match ops[|ops| - 1]
    case Add(s, e) =>
      if Verdict(a.items, a.size, s, e).None? {
        AcceptedNeedsRoom(a.items, a.size, s, e);
      }
    case Resize(_) =>
  }

  lemma {:induction false} AcceptedNeedsRoom(items: seq<Item>, size: nat, s: Series, e: Exemplar)
    requires Verdict(items, size, s, e).None?
    ensures 0 < size
  {
  }

  lemma {:induction false} PushNewest(log: seq<Item>, items: seq<Item>, size: nat, it: Item)
    requires |items| <= size && |items| <= |log| && 0 < size && items == Newest(log, |items|)
    ensures var r := Push(items, size, it);
      |r| <= size && |r| <= |log| + 1 && r == Newest(log + [it], |r|) && |r| == if |items| < size then |items| + 1 else size
  {
  }

  lemma {:induction false} NewestNewest(log: seq<Item>, m: nat, n: nat)
    requires m <= |log|
    ensures Newest(Newest(log, m), n) == Newest(log, if n < m then n else m)
  {
  }

  lemma {:induction false} RunStep(size: nat, ops: seq<Op>, i: int)
    requires 0 <= i < |ops|
    ensures Run(size, ops[..i + 1]) == Run(size, ops[..i]).Step(ops[i])
  {
    assert ops[..i + 1][..i] == ops[..i];
  }

  /** The storage itself, over any sequence of adds and resizes, holds what the run says. */
  method Execute(length: int, ops: seq<Op>) returns (ce: CircularExemplarStorage)
    ensures fresh(ce) && ce.Valid()
    ensures ce.view.items == Run(if length < 0 then 0 else length, ops).items
    ensures ce.exemplars.Length == Run(if length < 0 then 0 else length, ops).size
  {
    hide Verdict, Push, Newest, Run, View.Good, Ascending, Adds;
    var size := if length < 0 then 0 else length;
    ce := new CircularExemplarStorage(length);
    assert ops[..0] == [];
    RunNothing(size);
    for i := 0 to |ops|
      invariant fresh(ce) && fresh(ce.exemplars) && ce.Valid() && (forall s :: s in ce.index ==> fresh(ce.index[s]))
      invariant ce.view.items == Run(size, ops[..i]).items && ce.exemplars.Length == Run(size, ops[..i]).size
    {
      RunStep(size, ops, i);
      match ops[i]
      case Add(s, e) =>
        var err := ce.AddExemplar(s, e);
      case Resize(l) =>
        var migrated := ce.Resize(l);
    }
    assert ops[..|ops|] == ops;
  }
}
