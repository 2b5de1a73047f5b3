/** Stripping build paths touches nothing but the path strings, and a second look finds the file
    clean: same entries at the same places, with only relative paths left. */
module ElfStrip {
  import opened Wrappers
  import opened RunPath
  import opened ElfFile

  // ---- which bytes decide where the strings are

  predicate InHeader(k: nat) { k < 0x40 }

  /** Inside one of the program headers. */
  ghost predicate InSegments(h: Header, k: nat) {
    exists i :: 0 <= i < h.phnum && h.phoff + i * h.phentsize <= k < h.phoff + i * h.phentsize + (if h.is64 then 40 else 20)
  }

  /** Inside the dynamic table; its last entry may reach past the end. */
  ghost predicate InTable(d: Image, h: Header, k: nat) {
    var ss := Segments(d, h, 0);
    ss.Some? && DynamicOf(ss.value).Some?
    && var dyn := DynamicOf(ss.value).value;
       dyn.offset <= k < dyn.offset + dyn.filesz + (h.DynSize() - 1)
  }

  ghost predicate InMeta(d: Image, h: Header, k: nat) {
    InHeader(k) || InSegments(h, k) || InTable(d, h, k)
  }

  ghost predicate SameMeta(d: Image, d': Image, h: Header) {
    |d'| == |d| && forall k :: 0 <= k < |d| && InMeta(d, h, k) ==> d'[k] == d[k]
  }

  lemma SameField(d: Image, d': Image, little: bool, at: nat, size: nat)
    requires |d'| == |d| && forall k :: at <= k < at + size && k < |d| ==> d'[k] == d[k]
    ensures U(d', little, at, size) == U(d, little, at, size)
  {
    if at + size <= |d| { assert d'[at..at + size] == d[at..at + size]; }
  }

  lemma SameHeader(d: Image, d': Image, h: Header)
    requires SameMeta(d, d', h)
    ensures ReadHeader(d') == ReadHeader(d)
  {
    assert forall k :: 0 <= k < 0x40 && k < |d| ==> InMeta(d, h, k);
    if |d| >= 6 && d[..4] == MAGIC {
      assert d'[..4] == d[..4];
      var is64, little := d[4] == 2, d[5] == 1;
      SameField(d, d', little, if is64 then 0x20 else 0x1C, if is64 then 8 else 4);
      SameField(d, d', little, if is64 then 0x36 else 0x2A, 2);
      SameField(d, d', little, if is64 then 0x38 else 0x2C, 2);
    } else if |d| >= 4 {
      assert d'[..4] == d[..4];
    }
  }

  lemma SameSegment(d: Image, d': Image, h: Header, i: nat)
    requires SameMeta(d, d', h) && i < h.phnum
    ensures ReadSegment(d', h, h.phoff + i * h.phentsize) == ReadSegment(d, h, h.phoff + i * h.phentsize)
  {
    var base := h.phoff + i * h.phentsize;
    forall k | base <= k < base + (if h.is64 then 40 else 20) && k < |d| ensures d'[k] == d[k] {
      assert InSegments(h, k);
    }
    SameField(d, d', h.little, base, 4);
    SameField(d, d', h.little, base + (if h.is64 then 8 else 4), h.Word());
    SameField(d, d', h.little, base + (if h.is64 then 16 else 8), h.Word());
    SameField(d, d', h.little, base + (if h.is64 then 32 else 16), h.Word());
  }

  lemma {:induction false} SameSegments(d: Image, d': Image, h: Header, i: nat)
    requires SameMeta(d, d', h)
    ensures Segments(d', h, i) == Segments(d, h, i)
    decreases h.phnum - i
  {
    if i < h.phnum {
      SameSegment(d, d', h, i);
      SameSegments(d, d', h, i + 1);
    }
  }

  lemma {:induction false} SameScan(d: Image, d': Image, h: Header, at: nat, end: nat)
    requires |d'| == |d| && forall k :: at <= k < end + h.DynSize() - 1 && k < |d| ==> d'[k] == d[k]
    ensures Scan(d', h, at, end) == Scan(d, h, at, end)
    decreases end - at
  {
    if at < end {
      SameField(d, d', h.little, at, h.Word());
      SameField(d, d', h.little, at + h.Word(), h.Word());
      SameScan(d, d', h, at + h.DynSize(), end);
    }
  }

  lemma SameSpots(d: Image, d': Image, h: Header)
    requires SameMeta(d, d', h)
    ensures Spots(d', h) == Spots(d, h)
  {
    hide SameMeta, InMeta, Segments, Scan, FileOffset, DynamicOf, Located;
    SameSegments(d, d', h, 0);
    var ss := Segments(d, h, 0);
    if ss.Some? && DynamicOf(ss.value).Some? { SameTable(d, d', h, DynamicOf(ss.value).value); }
  }

  lemma SameTable(d: Image, d': Image, h: Header, dyn: Segment)
    requires SameMeta(d, d', h) && Segments(d, h, 0).Some? && DynamicOf(Segments(d, h, 0).value) == Some(dyn)
    ensures Scan(d', h, dyn.offset, dyn.offset + dyn.filesz) == Scan(d, h, dyn.offset, dyn.offset + dyn.filesz)
  {
    hide Segments, DynamicOf, Scan;
    forall k | dyn.offset <= k < dyn.offset + dyn.filesz + h.DynSize() - 1 && k < |d| ensures d'[k] == d[k] {
      assert InTable(d, h, k);
    }
    SameScan(d, d', h, dyn.offset, dyn.offset + dyn.filesz);
  }

  // ---- the strings

  /** The bytes of an entry's string, terminator not counted. */
  predicate Covers(e: Entry, k: nat) {
    e.start <= k < e.start + |e.text|
  }

  predicate Apart(a: Entry, b: Entry) {
    a.start + |a.text| <= b.start || b.start + |b.text| <= a.start
  }

  /** The file's entries are as the format prescribes: strings do not overlap unless they are the
      same string, and none lies in the tables that lead to them. */
  ghost predicate Separate(d: Image, h: Header, es: seq<Entry>) {
    && (forall i, j :: 0 <= i < |es| && 0 <= j < |es| ==> es[i].start == es[j].start || Apart(es[i], es[j]))
    && (forall i, k :: 0 <= i < |es| && Covers(es[i], k) ==> !InMeta(d, h, k))
  }

  ghost predicate Outside(es: seq<Entry>, k: nat) {
    forall i :: 0 <= i < |es| ==> !Covers(es[i], k)
  }

  lemma EntriesAre(d: Image, h: Header, i: nat)
    requires Entries(d, h).Some? && i < |Entries(d, h).value|
    ensures var e := Entries(d, h).value[i];
      e.start + |e.text| < |d| && d[e.start + |e.text|] == 0
      && e.text == d[e.start..e.start + |e.text|] && 0 !in e.text
  {
    hide Spots;
    var spots := Spots(d, h).value;
    assert ReadEntry(d, spots[i]) == Some(Entries(d, h).value[i]);
  }

  lemma EntriesFit(d: Image, h: Header)
    requires Entries(d, h).Some?
    ensures Fits(d, Entries(d, h).value)
  {
    forall i | 0 <= i < |Entries(d, h).value| ensures Entries(d, h).value[i].start + |Entries(d, h).value[i].text| <= |d| {
      EntriesAre(d, h, i);
    }
  }

  /** What the room of a string holds after stripping. */
  function Padded(text: Text): (r: Text)
    ensures |r| == |text|
  {
    CleanedFits(text);
    Cleaned(text) + Zeros(|text| - |Cleaned(text)|)
  }

  ghost predicate Holds(d: Image, e: Entry, s: Text) {
    e.start + |e.text| <= |d| && d[e.start..e.start + |e.text|] == s
  }

  /** Progress after the first `n` entries. */
  ghost predicate Progress(d: Image, now: Image, es: seq<Entry>, n: nat) {
    && |now| == |d|
    && (forall k :: 0 <= k < |d| && Outside(es, k) ==> now[k] == d[k])
    && (forall j :: 0 <= j < |es| ==>
          Holds(now, es[j], es[j].text) || Holds(now, es[j], Padded(es[j].text)))
    && (forall j :: 0 <= j < n && j < |es| ==> Holds(now, es[j], Padded(es[j].text)))
  }

  lemma CleanIsPadded(text: Text)
    requires !NeedsCleaning(text)
    ensures Padded(text) == text
  {
  }

  lemma {:induction false} PatchHolds(now: Image, a: Entry, b: Entry)
    requires a.start + |a.text| <= |now| && b.start + |b.text| <= |now|
    requires (a.start == b.start && a.text == b.text) || Apart(a, b)
    ensures |Cleaned(a.text)| <= |a.text|
    ensures var after := Patch(now, a.start, |a.text|, Cleaned(a.text));
      if a.start == b.start && a.text == b.text then Holds(after, b, Padded(b.text))
      else forall s :: Holds(now, b, s) ==> Holds(after, b, s)
  {
    CleanedFits(a.text);
    var after := Patch(now, a.start, |a.text|, Cleaned(a.text));
    PatchBytes(now, a.start, |a.text|, Cleaned(a.text));
    if a.start == b.start && a.text == b.text {
      assert after[b.start..b.start + |b.text|] == Padded(b.text);
    } else {
      assert after[b.start..b.start + |b.text|] == now[b.start..b.start + |b.text|];
    }
  }

  lemma {:induction false} StripProgress(d: Image, h: Header, es: seq<Entry>, n: nat)
    requires Entries(d, h) == Some(es) && Separate(d, h, es) && n <= |es|
    ensures Fits(d, es) && Fits(d, es[..n]) && Progress(d, Stripped(d, es[..n]), es, n)
  {
    hide *;
    EntriesFit(d, h);
    StrippedStep(d, es, n);
    if n == 0 {
      NoProgressYet(d, h, es);
    } else {
      StripProgress(d, h, es, n - 1);
      StepKeeps(d, h, es, n, Stripped(d, es[..n - 1]));
    }
  }

  lemma NoProgressYet(d: Image, h: Header, es: seq<Entry>)
    requires Entries(d, h) == Some(es)
    ensures Progress(d, d, es, 0)
  {
    hide Entries, Padded;
    forall j | 0 <= j < |es| ensures Holds(d, es[j], es[j].text) { EntriesAre(d, h, j); }
  }

  /** One more entry, one more patch. */
  lemma {:induction false} StrippedStep(d: Image, es: seq<Entry>, n: nat)
    requires Fits(d, es) && n <= |es|
    ensures Fits(d, es[..n])
    ensures n == 0 ==> Stripped(d, es[..n]) == d
    ensures n > 0 ==> Fits(d, es[..n - 1]) && |Cleaned(es[n - 1].text)| <= |es[n - 1].text|
    ensures n > 0 ==>
      var before, e := Stripped(d, es[..n - 1]), es[n - 1];
      && e.start + |e.text| <= |before|
      && Stripped(d, es[..n]) == if NeedsCleaning(e.text) then Patch(before, e.start, |e.text|, Cleaned(e.text)) else before
  {
    hide Patch, Cleaned, NeedsCleaning;
    if n > 0 {
      CleanedFits(es[n - 1].text);
      assert es[..n][..n - 1] == es[..n - 1] && es[..n][n - 1] == es[n - 1];
    }
  }

  lemma SameStartSameText(d: Image, h: Header, es: seq<Entry>, i: nat, j: nat)
    requires Entries(d, h) == Some(es) && i < |es| && j < |es| && es[i].start == es[j].start
    ensures es[i].text == es[j].text
  {
    var spots := Spots(d, h).value;
    assert ReadEntry(d, spots[i]) == Some(es[i]) && ReadEntry(d, spots[j]) == Some(es[j]);
  }

  lemma StepKeeps(d: Image, h: Header, es: seq<Entry>, n: nat, before: Image)
    requires Entries(d, h) == Some(es) && Separate(d, h, es) && 0 < n <= |es| && Fits(d, es)
    requires Progress(d, before, es, n - 1)
    ensures |Cleaned(es[n - 1].text)| <= |es[n - 1].text|
    ensures var e := es[n - 1];
      Progress(d, if NeedsCleaning(e.text) then Patch(before, e.start, |e.text|, Cleaned(e.text)) else before, es, n)
  {
    hide Entries, Patch, Cleaned, NeedsCleaning, Padded;
    var e := es[n - 1];
    CleanedFits(e.text);
    if NeedsCleaning(e.text) {
      var after := Patch(before, e.start, |e.text|, Cleaned(e.text));
      PatchBytes(before, e.start, |e.text|, Cleaned(e.text));
      forall k | 0 <= k < |d| && Outside(es, k) ensures after[k] == d[k] {
        assert !Covers(e, k);
      }
      forall j | 0 <= j < |es|
        ensures if es[j].start == e.start then Holds(after, es[j], Padded(es[j].text))
                else forall s :: Holds(before, es[j], s) ==> Holds(after, es[j], s)
      {
        if es[j].start == e.start { SameStartSameText(d, h, es, j, n - 1); }
        PatchHolds(before, e, es[j]);
      }
    } else {
      CleanIsPadded(e.text);
    }
  }

  /** The string read back from its old place. */
  lemma ReadBack(now: Image, e: Entry)
    requires Holds(now, e, Padded(e.text)) && 0 !in e.text
    requires e.start + |e.text| < |now| && now[e.start + |e.text|] == 0
    ensures ReadEntry(now, Spot(e.tag, e.start)) == Some(Entry(e.tag, e.start, Cleaned(e.text)))
  {
    hide Cleaned, Padded;
    CleanedFits(e.text);
    CleanedHasNoNul(e.text);
    PaddedIs(e.text);
    var c, n := Cleaned(e.text), |e.text|;
    var room := now[e.start..e.start + n];
    assert forall k :: 0 <= k < n ==> now[e.start + k] == room[k];
    NulAfter(now, e.start, c);
    assert now[e.start..e.start + |c|] == c;
  }

  lemma PaddedIs(text: Text)
    ensures |Cleaned(text)| <= |text| && |Padded(text)| == |text|
    ensures forall k :: 0 <= k < |text| ==> Padded(text)[k] == if k < |Cleaned(text)| then Cleaned(text)[k] else 0
  {
    hide Cleaned;
    CleanedFits(text);
  }

  lemma NulAfter(now: Image, start: nat, c: Text)
    requires start + |c| < |now| && now[start + |c|] == 0 && 0 !in c
    requires forall k :: 0 <= k < |c| ==> now[start + k] == c[k]
    ensures FindNul(now, start) == Some(start + |c|)
  {
    var r := FindNul(now, start);
    forall k | start <= k < start + |c| ensures now[k] != 0 {
      assert now[start + (k - start)] == c[k - start];
    }
  }

  /** The terminator of a string is never inside another string. */
  lemma TerminatorKept(d: Image, h: Header, es: seq<Entry>, now: Image, i: nat)
    requires Entries(d, h) == Some(es) && Separate(d, h, es) && Progress(d, now, es, |es|) && i < |es|
    ensures now[es[i].start + |es[i].text|] == 0
  {
    hide Entries, Separate;
    EntriesAre(d, h, i);
    var k := es[i].start + |es[i].text|;
    forall j | 0 <= j < |es| ensures !Covers(es[j], k) {
      if Covers(es[j], k) { CoveredIsText(d, h, j, k); }
    }
  }

  lemma CoveredIsText(d: Image, h: Header, j: nat, k: nat)
    requires Entries(d, h).Some? && j < |Entries(d, h).value| && Covers(Entries(d, h).value[j], k)
    ensures k < |d| && d[k] != 0
  {
    hide Entries;
    EntriesAre(d, h, j);
    var e := Entries(d, h).value[j];
    assert d[k] == e.text[k - e.start];
  }

  /** Re-reading a stripped file. */
  lemma StrippedReadsBack(d: Image, h: Header, es: seq<Entry>)
    requires Entries(d, h) == Some(es) && Separate(d, h, es)
    ensures Fits(d, es) && |Stripped(d, es)| == |d|
    ensures forall k :: 0 <= k < |d| && Outside(es, k) ==> Stripped(d, es)[k] == d[k]
    ensures ReadHeader(Stripped(d, es)) == ReadHeader(d)
    ensures Entries(Stripped(d, es), h).Some?
    ensures var es' := Entries(Stripped(d, es), h).value;
      |es'| == |es| && forall i :: 0 <= i < |es| ==> es'[i] == Entry(es[i].tag, es[i].start, Cleaned(es[i].text))
  {
    hide Entries, Spots, Stripped, Separate, Progress, Cleaned, ReadHeader, ReadEntry, ReadEntries, SameMeta;
    StripProgress(d, h, es, |es|);
    assert es[..|es|] == es;
    var now := Stripped(d, es);
    ProgressMeans(d, now, es);
    MetaKept(d, h, es, now);
    SameHeader(d, now, h);
    SameSpots(d, now, h);
    EntriesFromSpots(d, h);
    EntriesFromSpots(now, h);
    var spots := Spots(d, h).value;
    ReadEntriesAre(d, spots);
    forall i | 0 <= i < |es|
      ensures ReadEntry(now, spots[i]) == Some(Entry(es[i].tag, es[i].start, Cleaned(es[i].text)))
    {
      OneReadsBack(d, h, es, now, i);
    }
    AllRead(now, spots);
    ReadEntriesAre(now, spots);
  }

  lemma ProgressMeans(d: Image, now: Image, es: seq<Entry>)
    requires Progress(d, now, es, |es|)
    ensures |now| == |d| && forall k :: 0 <= k < |d| && Outside(es, k) ==> now[k] == d[k]
  {
  }

  lemma EntriesFromSpots(d: Image, h: Header)
    ensures Spots(d, h).Some? ==> Entries(d, h) == ReadEntries(d, Spots(d, h).value)
    ensures Spots(d, h).None? ==> Entries(d, h).None?
  {
  }

  lemma ReadEntriesAre(d: Image, spots: seq<Spot>)
    ensures var r := ReadEntries(d, spots);
      r.Some? ==> |r.value| == |spots| && forall i :: 0 <= i < |spots| ==> ReadEntry(d, spots[i]) == Some(r.value[i])
  {
  }

  lemma OneReadsBack(d: Image, h: Header, es: seq<Entry>, now: Image, i: nat)
    requires Entries(d, h) == Some(es) && Separate(d, h, es) && Progress(d, now, es, |es|) && i < |es|
    requires Spots(d, h).Some? && i < |Spots(d, h).value|
    ensures ReadEntry(now, Spots(d, h).value[i]) == Some(Entry(es[i].tag, es[i].start, Cleaned(es[i].text)))
  {
    hide Spots, Separate, Cleaned, Padded;
    EntriesAre(d, h, i);
    TerminatorKept(d, h, es, now, i);
    assert ReadEntry(d, Spots(d, h).value[i]) == Some(es[i]);
    assert Holds(now, es[i], Padded(es[i].text));
    ReadBack(now, es[i]);
  }

  lemma MetaKept(d: Image, h: Header, es: seq<Entry>, now: Image)
    requires Separate(d, h, es) && Progress(d, now, es, |es|)
    ensures SameMeta(d, now, h)
  {
    forall k | 0 <= k < |d| && InMeta(d, h, k) ensures now[k] == d[k] {
      assert Outside(es, k);
    }
  }

  lemma {:induction false} AllRead(d: Image, spots: seq<Spot>)
    requires forall i :: 0 <= i < |spots| ==> ReadEntry(d, spots[i]).Some?
    ensures ReadEntries(d, spots).Some?
  {
    if spots != [] { AllRead(d, spots[..|spots| - 1]); }
  }

  /** After stripping, nothing is left to drop, and the relative entries are the old ones in order. */
  lemma SecondPassFindsNothing(d: Image, h: Header, es: seq<Entry>)
    requires Entries(d, h) == Some(es) && Separate(d, h, es)
    ensures Fits(d, es) && Entries(Stripped(d, es), h).Some?
    ensures var es' := Entries(Stripped(d, es), h).value;
      |es'| == |es| && forall i :: 0 <= i < |es| ==>
        && Kept(es'[i].text) == Parts(es'[i].text)
        && (Kept(es[i].text) != [] ==> Parts(es'[i].text) == Kept(es[i].text))
  {
    StrippedReadsBack(d, h, es);
    forall i | 0 <= i < |es| ensures Kept(Cleaned(es[i].text)) == Parts(Cleaned(es[i].text)) {
      CleanedParts(es[i].text);
    }
    forall i | 0 <= i < |es| && Kept(es[i].text) != []
      ensures Parts(Cleaned(es[i].text)) == Kept(es[i].text)
    {
      CleanedParts(es[i].text);
    }
  }

  lemma {:induction false} NothingAbsolute(es: seq<Entry>)
    requires forall i :: 0 <= i < |es| ==> Kept(es[i].text) == Parts(es[i].text)
    ensures Absolute(es) == 0
  {
    if es != [] { NothingAbsolute(es[..|es| - 1]); }
  }

  /** What happens to one file: how many paths were dropped (or would be), or why it was not looked at. */
  datatype Report = Dropped(count: nat) | Skipped | Crashed

  /** Opens the file image, finds its RUNPATHs and strips them; with `check`, only reports. */
  method Process(data: array<byte>, check: bool) returns (r: Report)
    modifies data
    ensures r.Skipped? <==> ReadHeader(old(data[..])).NotElf?
    ensures r.Dropped? <==> ReadHeader(old(data[..])).Elf? && Entries(old(data[..]), ReadHeader(old(data[..])).header).Some?
    ensures check || !r.Dropped? ==> data[..] == old(data[..])
    ensures r.Dropped? ==>
      var d, h := old(data[..]), ReadHeader(old(data[..])).header;
      var es := Entries(d, h).value;
      r.count == Absolute(es) && (!check ==> Fits(d, es) && data[..] == Stripped(d, es))
  {
    var image := ReadHeader(data[..]);
    if image.NotElf? { return Skipped; }
    if image.Malformed? { return Crashed; }
    var file := new File(data, image.header);
    var es := file.RpathEntries();
    if es.None? { return Crashed; }
    EntriesFit(data[..], image.header);
    var count := file.Strip(es.value, check);
    r := Dropped(count);
  }

  /** Stripping a well-formed file and then checking it: the check reports nothing to drop. */
  method StripThenCheck(data: array<byte>) returns (first: Report, second: Report)
    modifies data
    ensures first.Dropped? <==> ReadHeader(old(data[..])).Elf? && Entries(old(data[..]), ReadHeader(old(data[..])).header).Some?
    ensures first.Dropped? && Separate(old(data[..]), ReadHeader(old(data[..])).header, Entries(old(data[..]), ReadHeader(old(data[..])).header).value) ==>
      second == Dropped(0)
  {
    ghost var d := data[..];
    first := Process(data, false);
    second := Process(data, true);
    if first.Dropped? {
      ghost var h := ReadHeader(d).header;
      ghost var es := Entries(d, h).value;
      if Separate(d, h, es) {
        StrippedReadsBack(d, h, es);
        SecondPassFindsNothing(d, h, es);
        NothingAbsolute(Entries(Stripped(d, es), h).value);
      }
    }
  }
}
