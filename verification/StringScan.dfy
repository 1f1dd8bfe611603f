/**
  Two ways the anchor tool finds C strings in a binary: every occurrence of an anchor is
  widened to the printable text around it, or the printable runs are walked and those that
  contain the anchor are kept.  Both see the same strings.
 */
module StringScan {
  import opened Common

  type Bytes = seq<Byte>

  const MIN_RUN: nat := 4

  predicate Printable(b: Byte) {
    0x20 <= b <= 0x7e
  }

  predicate AllPrintable(s: Bytes) {
    forall i :: 0 <= i < |s| ==> 0x20 <= s[i] <= 0x7e
  }

  predicate OccursAt(bytes: Bytes, anchor: Bytes, i: nat) {
    i + |anchor| <= |bytes| && bytes[i..i + |anchor|] == anchor
  }

  /** std::search: the first occurrence at or after from, or the end of the bytes. */
  function Search(bytes: Bytes, anchor: Bytes, from: nat): (i: nat)
    requires from <= |bytes| && anchor != []
    ensures from <= i <= |bytes|
    ensures i < |bytes| ==> OccursAt(bytes, anchor, i)
    ensures forall k :: from <= k < i ==> !OccursAt(bytes, anchor, k)
    decreases |bytes| - from
  {
    if from == |bytes| || OccursAt(bytes, anchor, from) then from else Search(bytes, anchor, from + 1)
  }

  predicate Contains(value: Bytes, needle: Bytes)
    requires needle != []
  {
    Search(value, needle, 0) < |value|
  }

  /** Where the printable text that ends just before i begins. */
  function StartOf(bytes: Bytes, i: nat): (start: nat)
    requires i <= |bytes|
    ensures start <= i
    ensures forall k :: start <= k < i ==> Printable(bytes[k])
    ensures start > 0 ==> !Printable(bytes[start - 1])
  {
    if i == 0 || !Printable(bytes[i - 1]) then i else StartOf(bytes, i - 1)
  }

  /** Where the printable text that begins at i ends. */
  function EndOf(bytes: Bytes, i: nat): (end: nat)
    requires i <= |bytes|
    ensures i <= end <= |bytes|
    ensures forall k :: i <= k < end ==> Printable(bytes[k])
    ensures end < |bytes| ==> !Printable(bytes[end])
    decreases |bytes| - i
  {
    if i == |bytes| || !Printable(bytes[i]) then i else EndOf(bytes, i + 1)
  }

  // ---- the two answers ----

  /** Starts of the strings around all occurrences, overlapping ones included. */
  ghost function AnchorStarts(bytes: Bytes, anchor: Bytes): set<nat> {
    set i | 0 <= i <= |bytes| && OccursAt(bytes, anchor, i) :: StartOf(bytes, i)
  }

  /** A maximal printable run of at least four bytes begins at s and contains the needle. */
  predicate MatchingRun(bytes: Bytes, needle: Bytes, s: nat)
    requires needle != []
  {
    && s < |bytes| && Printable(bytes[s]) && (s > 0 ==> !Printable(bytes[s - 1]))
    && EndOf(bytes, s) - s >= MIN_RUN
    && Contains(bytes[s..EndOf(bytes, s)], needle)
  }

  ghost function RunStarts(bytes: Bytes, needle: Bytes): set<nat>
    requires needle != []
  {
    set s | 0 <= s < |bytes| && MatchingRun(bytes, needle, s)
  }

  // ---- the scans ----

  method FindAsciiOffsets(bytes: Bytes, anchor: Bytes) returns (offsets: seq<nat>)
    ensures anchor == [] ==> offsets == []
    ensures anchor != [] ==> forall i: nat :: i in offsets <==> i < |bytes| && OccursAt(bytes, anchor, i)
    ensures forall a, b :: 0 <= a < b < |offsets| ==> offsets[a] < offsets[b]
  {
    offsets := [];
    if anchor == [] {
      return;
    }
    var begin := 0;
    while true
      invariant begin <= |bytes|
      invariant forall i: nat :: i in offsets <==> i < begin && OccursAt(bytes, anchor, i)
      invariant forall a, b :: 0 <= a < b < |offsets| ==> offsets[a] < offsets[b]
      decreases |bytes| - begin
    {
      var match_ := Search(bytes, anchor, begin);
      if match_ == |bytes| {
        break;
      }
      assert forall a :: 0 <= a < |offsets| ==> offsets[a] in offsets;
      offsets := offsets + [match_];
      begin := match_ + 1;
    }
  }

  method EnclosingCStringStart(bytes: Bytes, fileOffset: nat) returns (start: nat)
    requires fileOffset <= |bytes|
    ensures start == StartOf(bytes, fileOffset)
  {
    start := fileOffset;
    while start > 0 && Printable(bytes[start - 1])
      invariant start <= fileOffset && StartOf(bytes, start) == StartOf(bytes, fileOffset)
    {
      start := start - 1;
    }
  }

  method EnclosingCStringValue(bytes: Bytes, stringStart: nat) returns (value: Bytes)
    requires stringStart <= |bytes|
    ensures value == bytes[stringStart..EndOf(bytes, stringStart)]
  {
    var end := stringStart;
    while end < |bytes| && Printable(bytes[end])
      invariant stringStart <= end <= |bytes| && EndOf(bytes, end) == EndOf(bytes, stringStart)
    {
      end := end + 1;
    }
    return bytes[stringStart..end];
  }

  datatype PrintableString = PrintableString(fileOffset: nat, value: Bytes)

  /** Between two runs, or at either end of the bytes. */
  predicate Between(bytes: Bytes, offset: nat) {
    offset <= |bytes| && (0 < offset < |bytes| ==> !Printable(bytes[offset]))
  }

  /** The matches are the matching runs that start below limit, in order, with their text. */
  ghost predicate MatchesBelow(bytes: Bytes, needle: Bytes, matches: seq<PrintableString>, limit: nat)
    requires needle != []
  {
    && (forall m :: m in matches ==>
          && m.fileOffset < limit && MatchingRun(bytes, needle, m.fileOffset)
          && m.value == bytes[m.fileOffset..EndOf(bytes, m.fileOffset)])
    && (forall s: nat :: s < limit && MatchingRun(bytes, needle, s) ==>
          PrintableString(s, bytes[s..EndOf(bytes, s)]) in matches)
    && (forall a, b :: 0 <= a < b < |matches| ==> matches[a].fileOffset < matches[b].fileOffset)
  }

  method FindMatchingPrintableStrings(bytes: Bytes, needle: Bytes, maxMatches: nat)
    returns (matches: seq<PrintableString>)
    ensures needle == [] ==> matches == []
    ensures |matches| <= maxMatches
    ensures needle != [] ==> exists limit: nat ::
              && MatchesBelow(bytes, needle, matches, limit)
              && (|matches| < maxMatches ==> limit == |bytes|)
  {
    hide MatchesBelow, MatchingRun, Contains;
    matches := [];
    if needle == [] {
      return;
    }
    NoMatchesYet(bytes, needle);
    var offset := 0;
    while offset < |bytes| && |matches| < maxMatches
      invariant |matches| <= maxMatches && offset <= |bytes|
      invariant Between(bytes, offset)
      invariant MatchesBelow(bytes, needle, matches, offset)
      decreases |bytes| - offset
    {
      ghost var from := offset;
      var start, end := NextRun(bytes, offset);
      offset := end;
      RunAdds(bytes, needle, matches, from, start, end);
      if offset <= start {
        continue;
      }
      if end - start < MIN_RUN {
        continue;
      }
      var value := bytes[start..end];
      if !Contains(value, needle) {
        continue;
      }
      matches := matches + [PrintableString(start, value)];
    }
  }

  lemma NoMatchesYet(bytes: Bytes, needle: Bytes)
    requires needle != []
    ensures MatchesBelow(bytes, needle, [], 0)
  {
  }

  /** What walking over the next run, if there is one, adds to the matches. */
  lemma RunAdds(bytes: Bytes, needle: Bytes, matches: seq<PrintableString>, from: nat, start: nat, end: nat)
    requires needle != [] && MatchesBelow(bytes, needle, matches, from)
    requires from <= start <= end <= |bytes|
    requires forall k :: from <= k < start ==> !Printable(bytes[k])
    requires start == end ==> start == |bytes|
    requires start < end ==>
               Printable(bytes[start]) && end == EndOf(bytes, start) && (start > 0 ==> !Printable(bytes[start - 1]))
    ensures var kept := end - start >= MIN_RUN && Contains(bytes[start..end], needle);
            var all := if kept then matches + [PrintableString(start, bytes[start..end])] else matches;
            MatchesBelow(bytes, needle, all, end)
  {
    hide Contains;
    NothingBetween(bytes, needle, from, start);
    if start < end {
      OneRun(bytes, needle, start);
      var m := PrintableString(start, bytes[start..end]);
      assert m in matches + [m];
      forall x | x in matches ensures x in matches + [m] && x.fileOffset < from {
      }
    }
  }

  /** Skips to the next printable byte and then over the printable run that begins there. */
  method NextRun(bytes: Bytes, offset: nat) returns (start: nat, end: nat)
    requires offset < |bytes| && Between(bytes, offset)
    ensures offset <= start <= end <= |bytes| && end > offset
    ensures forall k :: offset <= k < start ==> !Printable(bytes[k])
    ensures start == end ==> start == |bytes|
    ensures start < end ==> Printable(bytes[start]) && end == EndOf(bytes, start)
    ensures start < end && start > 0 ==> !Printable(bytes[start - 1])
    ensures Between(bytes, end)
  {
    start := offset;
    while start < |bytes| && !Printable(bytes[start])
      invariant offset <= start <= |bytes|
      invariant forall k :: offset <= k < start ==> !Printable(bytes[k])
    {
      start := start + 1;
    }
    end := start;
    while end < |bytes| && Printable(bytes[end])
      invariant start <= end <= |bytes| && EndOf(bytes, end) == EndOf(bytes, start)
    {
      end := end + 1;
    }
  }

  lemma NothingBetween(bytes: Bytes, needle: Bytes, from: nat, start: nat)
    requires needle != [] && from <= start <= |bytes|
    requires forall k :: from <= k < start ==> !Printable(bytes[k])
    ensures forall s: nat :: from <= s < start ==> !MatchingRun(bytes, needle, s)
  {
  }

  lemma OneRun(bytes: Bytes, needle: Bytes, start: nat)
    requires needle != [] && start < |bytes| && Printable(bytes[start])
    ensures forall s: nat :: start < s < EndOf(bytes, start) ==> !MatchingRun(bytes, needle, s)
  {
    forall s: nat | start < s < EndOf(bytes, start) ensures !MatchingRun(bytes, needle, s) {
      assert Printable(bytes[s - 1]);
    }
  }

  // ---- agreement ----

  lemma StartIs(bytes: Bytes, i: nat, s: nat)
    requires s <= i <= |bytes| && (s > 0 ==> !Printable(bytes[s - 1]))
    requires forall k :: s <= k < i ==> Printable(bytes[k])
    ensures StartOf(bytes, i) == s
  {
  }

  /** A printable occurrence lies inside the run that begins where its string begins. */
  lemma OccurrenceIsInRun(bytes: Bytes, anchor: Bytes, i: nat)
    requires anchor != [] && AllPrintable(anchor) && OccursAt(bytes, anchor, i)
    ensures var s := StartOf(bytes, i);
            && s < |bytes| && Printable(bytes[s]) && i + |anchor| <= EndOf(bytes, s)
            && Contains(bytes[s..EndOf(bytes, s)], anchor)
  {
    var s, n := StartOf(bytes, i), |anchor|;
    forall k | s <= k < i + n ensures Printable(bytes[k]) {
      if k >= i {
        assert bytes[k] == bytes[i..i + n][k - i];
      }
    }
    var e := EndOf(bytes, s);
    assert e >= i + n;
    var value := bytes[s..e];
    SliceOfSlice(bytes, s, e, i - s, i - s + n);
    assert OccursAt(value, anchor, i - s);
  }

  /** A matching run holds an occurrence, and that occurrence's string begins with the run. */
  lemma RunHoldsOccurrence(bytes: Bytes, needle: Bytes, s: nat)
    requires needle != [] && MatchingRun(bytes, needle, s)
    ensures AllPrintable(needle) && s in AnchorStarts(bytes, needle)
  {
    var e := EndOf(bytes, s);
    var value := bytes[s..e];
    var at, n := Search(value, needle, 0), |needle|;
    var i := s + at;
    SliceOfSlice(bytes, s, e, at, at + n);
    assert OccursAt(bytes, needle, i);
    forall k | 0 <= k < n ensures Printable(needle[k]) {
      assert needle[k] == value[at..at + n][k] == bytes[i + k];
    }
    StartIs(bytes, i, s);
  }

  /**
    For every nonempty anchor: the run scan finds exactly those strings of the anchor scan
    that belong to a printable anchor and are at least four bytes long.
   */
  lemma ScansCompared(bytes: Bytes, anchor: Bytes)
    requires anchor != []
    ensures RunStarts(bytes, anchor)
         == set s | s in AnchorStarts(bytes, anchor) && AllPrintable(anchor) && EndOf(bytes, s) - s >= MIN_RUN
  {
    forall s | s in RunStarts(bytes, anchor)
      ensures s in AnchorStarts(bytes, anchor) && AllPrintable(anchor)
    {
      RunHoldsOccurrence(bytes, anchor, s);
    }
    forall s | s in AnchorStarts(bytes, anchor) && AllPrintable(anchor) && EndOf(bytes, s) - s >= MIN_RUN
      ensures s in RunStarts(bytes, anchor)
    {
      var i: nat :| i <= |bytes| && OccursAt(bytes, anchor, i) && s == StartOf(bytes, i);
      OccurrenceIsInRun(bytes, anchor, i);
    }
  }

  /** For a printable anchor of at least four bytes the two scans find the same strings. */
  lemma ScansAgree(bytes: Bytes, anchor: Bytes)
    requires |anchor| >= MIN_RUN && AllPrintable(anchor)
    ensures AnchorStarts(bytes, anchor) == RunStarts(bytes, anchor)
  {
    ScansCompared(bytes, anchor);
    forall s | s in AnchorStarts(bytes, anchor) ensures EndOf(bytes, s) - s >= MIN_RUN {
      var i: nat :| i <= |bytes| && OccursAt(bytes, anchor, i) && s == StartOf(bytes, i);
      OccurrenceIsInRun(bytes, anchor, i);
    }
  }

  /** Without printability or length the anchor scan can report more. */
  lemma ScansCanDiffer()
    ensures var zeros: Bytes := [0, 0, 0, 0];
            RunStarts(zeros, zeros) == {} && 0 in AnchorStarts(zeros, zeros)
    ensures var bytes: Bytes, a: Bytes := [0x41], [0x41];
            RunStarts(bytes, a) == {} && 0 in AnchorStarts(bytes, a)
  {
    var zeros: Bytes := [0, 0, 0, 0];
    assert OccursAt(zeros, zeros, 0) && StartOf(zeros, 0) == 0;
    var bytes: Bytes := [0x41];
    assert OccursAt(bytes, bytes, 0) && StartOf(bytes, 0) == 0;
  }
}
