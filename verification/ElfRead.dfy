/** What is read from an ELF file, from its bytes: the number a field spells, and which search-path
    strings the file has. */
module ElfRead {
  import opened Wrappers
  import opened RunPath
  import opened ElfFile

  // ---- numbers

  function Pow256(n: nat): nat {
    if n == 0 then 1 else 256 * Pow256(n - 1)
  }

  /** The first `n` bytes, each times the value of its place. */
  function Weighted(bs: seq<byte>, little: bool, n: nat): nat
    requires n <= |bs|
  {
    if n == 0 then 0
    else Weighted(bs, little, n - 1) + bs[n - 1] * Pow256(if little then n - 1 else |bs| - n)
  }

  lemma {:induction false} WeightedPrefix(bs: seq<byte>, more: seq<byte>, n: nat)
    requires n <= |bs| <= |more| && more[..|bs|] == bs
    ensures Weighted(bs, true, n) == Weighted(more, true, n)
  {
    if n > 0 {
      WeightedPrefix(bs, more, n - 1);
      assert more[..|bs|][n - 1] == more[n - 1];
    }
  }

  lemma {:induction false} LittleLast(bs: seq<byte>)
    requires bs != []
    ensures Number(bs, true) == Number(bs[..|bs| - 1], true) + bs[|bs| - 1] * Pow256(|bs| - 1)
  {
    if |bs| > 1 {
      var k := |bs| - 1;
      LittleLast(bs[1..]);
      assert bs[1..][..k - 1] == bs[..k][1..];
      assert 256 * (bs[k] * Pow256(k - 1)) == bs[k] * Pow256(k);
    }
  }

  lemma {:induction false} LittleSum(bs: seq<byte>)
    ensures Number(bs, true) == Weighted(bs, true, |bs|)
  {
    if bs != [] {
      var front := bs[..|bs| - 1];
      LittleLast(bs);
      LittleSum(front);
      WeightedPrefix(front, bs, |front|);
    }
  }

  lemma {:induction false} BigShift(bs: seq<byte>, n: nat)
    requires n < |bs|
    ensures Weighted(bs, false, n) == 256 * Weighted(bs[..|bs| - 1], false, n)
  {
    if n > 0 {
      var front := bs[..|bs| - 1];
      BigShift(bs, n - 1);
      assert front[n - 1] == bs[n - 1];
      var x := Pow256(|front| - n);
      assert Pow256(|bs| - n) == 256 * x;
      assert bs[n - 1] * (256 * x) == 256 * (bs[n - 1] * x);
    }
  }

  lemma {:induction false} BigSum(bs: seq<byte>)
    ensures Number(bs, false) == Weighted(bs, false, |bs|)
  {
    if bs != [] {
      BigSum(bs[..|bs| - 1]);
      BigShift(bs, |bs| - 1);
    }
  }

  /** A field spells the number whose bytes are, in the order of the file, worth the powers of 256: the
      first byte least in a little-endian file, most in a big-endian one. */
  lemma FieldIs(d: Image, little: bool, at: nat, size: nat, v: nat)
    ensures U(d, little, at, size) == Some(v) <==> at + size <= |d| && v == Weighted(d[at..at + size], little, size)
  {
    if at + size <= |d| {
      if little { LittleSum(d[at..at + size]); } else { BigSum(d[at..at + size]); }
    }
  }

  // ---- the file

  predicate Field(d: Image, h: Header, at: nat, size: nat, v: nat) {
    at + size <= |d| && v == Weighted(d[at..at + size], h.little, size)
  }

  /** Program header `i` describes segment `s`. */
  predicate HeaderAt(d: Image, h: Header, i: nat, s: Segment) {
    && i < h.phnum
    && var base, word := h.phoff + i * h.phentsize, if h.is64 then 8 else 4;
       && Field(d, h, base, 4, s.kind)
       && Field(d, h, base + (if h.is64 then 8 else 4), word, s.offset)
       && Field(d, h, base + (if h.is64 then 16 else 8), word, s.vaddr)
       && Field(d, h, base + (if h.is64 then 32 else 16), word, s.filesz)
  }

  /** The last dynamic segment. */
  ghost predicate DynamicAt(d: Image, h: Header, s: Segment) {
    exists i: nat :: HeaderAt(d, h, i, s) && s.kind == 2 && forall j: nat, s' :: i < j && HeaderAt(d, h, j, s') ==> s'.kind != 2
  }

  /** A dynamic table, from where to where in the file. */
  datatype Area = Area(at: nat, end: nat)

  function AreaOf(s: Segment): Area { Area(s.offset, s.offset + s.filesz) }

  function Next(h: Header, a: Area): Area { Area(a.at + h.DynSize(), a.end) }

  /** Slot `t` of a dynamic table. */
  predicate SlotAt(d: Image, h: Header, a: Area, t: nat, tag: nat, value: nat) {
    var word := if h.is64 then 8 else 4;
    var pos := a.at + t * (2 * word);
    pos < a.end && Field(d, h, pos, word, tag) && Field(d, h, pos + word, word, value)
  }

  /** Slot `t` comes before the end mark. */
  ghost predicate Active(d: Image, h: Header, a: Area, t: nat, tag: nat, value: nat) {
    SlotAt(d, h, a, t, tag, value) && forall u: nat, x: nat, y: nat :: u <= t && SlotAt(d, h, a, u, x, y) ==> x != 0
  }

  /** The last string-table address the table gives. */
  ghost predicate StringsAt(d: Image, h: Header, a: Area, address: nat) {
    exists t: nat :: Active(d, h, a, t, 5, address) && forall u: nat, v: nat :: t < u ==> !Active(d, h, a, u, 5, v)
  }

  predicate Loads(s: Segment, address: nat) {
    s.kind == 1 && s.vaddr <= address < s.vaddr + s.filesz
  }

  ghost predicate FirstLoading(d: Image, h: Header, address: nat, i: nat, s: Segment) {
    HeaderAt(d, h, i, s) && Loads(s, address) && forall j: nat, s' :: j < i && HeaderAt(d, h, j, s') ==> !Loads(s', address)
  }

  /** Where the first segment that loads `address` takes it from. */
  ghost predicate LoadedFrom(d: Image, h: Header, address: nat, place: nat) {
    exists i: nat, s :: FirstLoading(d, h, address, i, s) && place == s.offset + (address - s.vaddr)
  }

  /** The bytes from `start` to the first NUL. */
  predicate TextAt(d: Image, start: nat, text: Text) {
    start + |text| < |d| && d[start..start + |text|] == text && d[start + |text|] == 0 && 0 !in text
  }

  /** The strings of the dynamic table in segment `s` are in the file from `place` on. */
  ghost predicate StringsFrom(d: Image, h: Header, s: Segment, place: nat) {
    exists address: nat :: StringsAt(d, h, AreaOf(s), address) && LoadedFrom(d, h, address, place)
  }

  /** The dynamic table in segment `s` has `tag` with `value`. */
  ghost predicate Tagged(d: Image, h: Header, s: Segment, tag: nat, value: nat) {
    exists t: nat :: Active(d, h, AreaOf(s), t, tag, value)
  }

  /** The file has this search path: a DT_RPATH or DT_RUNPATH of the last dynamic segment, before its
      end mark, says how far into the strings it starts. */
  ghost predicate PathAt(d: Image, h: Header, e: Entry) {
    && (e.tag == 15 || e.tag == 29) && TextAt(d, e.start, e.text)
    && exists s, place: nat :: DynamicAt(d, h, s) && StringsFrom(d, h, s, place) && place <= e.start && Tagged(d, h, s, e.tag, e.start - place)
  }

  // ---- the functions the reader uses

  lemma FieldU(d: Image, h: Header, at: nat, size: nat, v: nat)
    ensures U(d, h.little, at, size) == Some(v) <==> Field(d, h, at, size, v)
  {
    FieldIs(d, h.little, at, size, v);
  }

  lemma ReadSegmentIs(d: Image, h: Header, i: nat, s: Segment)
    requires i < h.phnum
    ensures ReadSegment(d, h, h.phoff + i * h.phentsize) == Some(s) <==> HeaderAt(d, h, i, s)
  {
    hide U, Field;
    var base := h.phoff + i * h.phentsize;
    FieldU(d, h, base, 4, s.kind);
    FieldU(d, h, base + (if h.is64 then 8 else 4), h.Word(), s.offset);
    FieldU(d, h, base + (if h.is64 then 16 else 8), h.Word(), s.vaddr);
    FieldU(d, h, base + (if h.is64 then 32 else 16), h.Word(), s.filesz);
  }

  lemma {:induction false} SegmentsAre(d: Image, h: Header, i: nat, k: nat)
    requires i <= h.phnum && Segments(d, h, i).Some?
    ensures |Segments(d, h, i).value| == h.phnum - i
    ensures k < h.phnum - i ==> ReadSegment(d, h, h.phoff + (i + k) * h.phentsize) == Some(Segments(d, h, i).value[k])
    decreases h.phnum - i
  {
    hide ReadSegment;
    if i < h.phnum { SegmentsAre(d, h, i + 1, if k > 0 then k - 1 else 0); }
  }

  lemma HeadersAre(d: Image, h: Header, ss: seq<Segment>, i: nat, s: Segment)
    requires Segments(d, h, 0) == Some(ss)
    ensures |ss| == h.phnum && (HeaderAt(d, h, i, s) <==> i < |ss| && s == ss[i])
  {
    hide ReadSegment, HeaderAt, Segments;
    SegmentsAre(d, h, 0, i);
    if i < h.phnum { ReadSegmentIs(d, h, i, s); } else { NoHeader(d, h, i, s); }
  }

  lemma NoHeader(d: Image, h: Header, i: nat, s: Segment)
    requires i >= h.phnum
    ensures !HeaderAt(d, h, i, s)
  {
  }

  lemma {:induction false} LastDynamic(ss: seq<Segment>)
    ensures DynamicOf(ss).None? ==> forall i :: 0 <= i < |ss| ==> ss[i].kind != 2
    ensures DynamicOf(ss).Some? ==> exists i :: 0 <= i < |ss| && ss[i] == DynamicOf(ss).value && ss[i].kind == 2
                                                && forall j :: i < j < |ss| ==> ss[j].kind != 2
  {
    if ss != [] && ss[|ss| - 1].kind != 2 {
      var front := ss[..|ss| - 1];
      LastDynamic(front);
      if DynamicOf(front).Some? {
        var i :| 0 <= i < |front| && front[i] == DynamicOf(front).value && front[i].kind == 2
                 && forall j :: i < j < |front| ==> front[j].kind != 2;
        forall j | i < j < |ss| ensures ss[j].kind != 2 { if j < |front| { assert front[j] == ss[j]; } }
        assert ss[i] == front[i];
      } else {
        forall i | 0 <= i < |ss| ensures ss[i].kind != 2 { if i < |front| { assert front[i] == ss[i]; } }
      }
    }
  }

  lemma DynamicIs(d: Image, h: Header, ss: seq<Segment>, s: Segment)
    requires Segments(d, h, 0) == Some(ss)
    ensures DynamicOf(ss) == Some(s) <==> DynamicAt(d, h, s)
  {
    hide HeaderAt, Segments, DynamicOf;
    forall i: nat, x ensures HeaderAt(d, h, i, x) <==> i < |ss| && x == ss[i] { HeadersAre(d, h, ss, i, x); }
    LastDynamic(ss);
    if DynamicAt(d, h, s) {
      var i: nat :| HeaderAt(d, h, i, s) && s.kind == 2 && forall j: nat, s' :: i < j && HeaderAt(d, h, j, s') ==> s'.kind != 2;
      assert ss[i].kind == 2;
      var k :| 0 <= k < |ss| && ss[k] == DynamicOf(ss).value && ss[k].kind == 2 && forall j :: k < j < |ss| ==> ss[j].kind != 2;
      assert HeaderAt(d, h, k, ss[k]);
    }
    if DynamicOf(ss) == Some(s) {
      var k :| 0 <= k < |ss| && ss[k] == s && ss[k].kind == 2 && forall j :: k < j < |ss| ==> ss[j].kind != 2;
      assert HeaderAt(d, h, k, s);
    }
  }

  ghost predicate FirstAt(ss: seq<Segment>, v: nat, i: int) {
    0 <= i < |ss| && Loads(ss[i], v) && forall j :: 0 <= j < i ==> !Loads(ss[j], v)
  }

  lemma {:induction false} FirstLoad(ss: seq<Segment>, v: nat)
    ensures FileOffset(ss, v).None? ==> forall i :: 0 <= i < |ss| ==> !Loads(ss[i], v)
    ensures FileOffset(ss, v).Some? ==> exists i :: FirstAt(ss, v, i) && FileOffset(ss, v).value == ss[i].offset + (v - ss[i].vaddr)
  {
    if ss != [] {
      if Loads(ss[0], v) {
        assert FirstAt(ss, v, 0);
      } else {
        var rest := ss[1..];
        FirstLoad(rest, v);
        if FileOffset(rest, v).Some? {
          var i :| FirstAt(rest, v, i) && FileOffset(rest, v).value == rest[i].offset + (v - rest[i].vaddr);
          forall j | 0 <= j < i + 1 ensures !Loads(ss[j], v) { if j > 0 { assert rest[j - 1] == ss[j]; } }
          assert ss[i + 1] == rest[i] && FirstAt(ss, v, i + 1);
        } else {
          forall i | 0 <= i < |ss| ensures !Loads(ss[i], v) { if i > 0 { assert rest[i - 1] == ss[i]; } }
        }
      }
    }
  }

  lemma PlaceIs(d: Image, h: Header, ss: seq<Segment>, v: nat, place: nat)
    requires Segments(d, h, 0) == Some(ss)
    ensures FileOffset(ss, v) == Some(place) <==> LoadedFrom(d, h, v, place)
  {
    hide HeaderAt, Segments, FileOffset, Loads;
    forall i: nat, x ensures HeaderAt(d, h, i, x) <==> i < |ss| && x == ss[i] { HeadersAre(d, h, ss, i, x); }
    FirstLoad(ss, v);
    if FileOffset(ss, v).Some? {
      var k :| FirstAt(ss, v, k) && FileOffset(ss, v).value == ss[k].offset + (v - ss[k].vaddr);
      assert FirstLoading(d, h, v, k, ss[k]);
      if LoadedFrom(d, h, v, place) {
        var i: nat, s :| FirstLoading(d, h, v, i, s) && place == s.offset + (v - s.vaddr);
        assert i == k;
      }
    }
  }

  // ---- the dynamic table

  lemma SlotShift(d: Image, h: Header, a: Area, t: nat, tag: nat, value: nat)
    ensures SlotAt(d, h, a, t + 1, tag, value) <==> SlotAt(d, h, Next(h, a), t, tag, value)
  {
    hide Field;
    var size := h.DynSize();
    assert a.at + (t + 1) * size == (a.at + size) + t * size;
  }

  lemma SlotZero(d: Image, h: Header, a: Area, tag: nat, value: nat)
    ensures SlotAt(d, h, a, 0, tag, value) <==>
      a.at < a.end && U(d, h.little, a.at, h.Word()) == Some(tag) && U(d, h.little, a.at + h.Word(), h.Word()) == Some(value)
  {
    hide Field, U;
    FieldU(d, h, a.at, h.Word(), tag);
    FieldU(d, h, a.at + h.Word(), h.Word(), value);
  }

  /** Past a slot that is no end mark, the rest of the table is the table from the next slot on. */
  lemma ActiveShift(d: Image, h: Header, a: Area, tag0: nat, value0: nat, t: nat, tag: nat, value: nat)
    requires SlotAt(d, h, a, 0, tag0, value0) && tag0 != 0
    ensures Active(d, h, a, t + 1, tag, value) <==> Active(d, h, Next(h, a), t, tag, value)
    ensures Active(d, h, a, 0, tag, value) <==> tag == tag0 && value == value0
  {
    hide SlotAt;
    var next := Next(h, a);
    forall u: nat, x: nat, y: nat | u > 0 ensures SlotAt(d, h, a, u, x, y) <==> SlotAt(d, h, next, u - 1, x, y) {
      SlotShift(d, h, a, u - 1, x, y);
    }
    forall x: nat, y: nat ensures SlotAt(d, h, a, 0, x, y) <==> x == tag0 && y == value0 {
      SlotZero(d, h, a, x, y);
      SlotZero(d, h, a, tag0, value0);
    }
    forall u: nat, x: nat, y: nat | Active(d, h, Next(h, a), t, tag, value) && u <= t + 1 && SlotAt(d, h, a, u, x, y)
      ensures x != 0
    {
      if u > 0 { assert SlotAt(d, h, Next(h, a), u - 1, x, y); }
    }
    if Active(d, h, a, t + 1, tag, value) {
      forall u: nat, x: nat, y: nat | u <= t && SlotAt(d, h, next, u, x, y) ensures x != 0 {
        SlotShift(d, h, a, u, x, y);
        assert SlotAt(d, h, a, u + 1, x, y);
      }
    }
  }

  lemma NothingActive(d: Image, h: Header, a: Area, t: nat, tag: nat, value: nat)
    requires a.at >= a.end || exists v: nat :: SlotAt(d, h, a, 0, 0, v)
    ensures !Active(d, h, a, t, tag, value)
  {
    if a.at < a.end {
      var v: nat :| SlotAt(d, h, a, 0, 0, v);
    }
  }

  ghost predicate Has(d: Image, h: Header, a: Area, tag: nat, value: nat) {
    exists t: nat :: Active(d, h, a, t, tag, value)
  }

  ghost predicate HasStrings(d: Image, h: Header, a: Area) {
    exists v: nat :: Has(d, h, a, 5, v)
  }

  lemma HasShift(d: Image, h: Header, a: Area, tag0: nat, value0: nat, tag: nat, value: nat)
    requires SlotAt(d, h, a, 0, tag0, value0) && tag0 != 0
    ensures Has(d, h, a, tag, value) <==> (tag == tag0 && value == value0) || Has(d, h, Next(h, a), tag, value)
  {
    hide SlotAt, Active;
    if t: nat :| Active(d, h, a, t, tag, value) {
      ActiveShift(d, h, a, tag0, value0, if t > 0 then t - 1 else 0, tag, value);
    }
    var next := Next(h, a);
    if t: nat :| Active(d, h, next, t, tag, value) { ActiveShift(d, h, a, tag0, value0, t, tag, value); }
    ActiveShift(d, h, a, tag0, value0, 0, tag, value);
  }

  lemma StringsShift(d: Image, h: Header, a: Area, tag0: nat, value0: nat, address: nat)
    requires SlotAt(d, h, a, 0, tag0, value0) && tag0 != 0
    ensures StringsAt(d, h, a, address) <==>
      StringsAt(d, h, Next(h, a), address)
      || (tag0 == 5 && value0 == address && !HasStrings(d, h, Next(h, a)))
  {
    hide SlotAt, Active;
    var next := Next(h, a);
    forall t: nat, v: nat
      ensures Active(d, h, a, t + 1, 5, v) <==> Active(d, h, next, t, 5, v)
      ensures Active(d, h, a, 0, 5, v) <==> tag0 == 5 && value0 == v
    {
      ActiveShift(d, h, a, tag0, value0, t, 5, v);
    }
    if t: nat :| Active(d, h, a, t, 5, address) && forall u: nat, v: nat :: t < u ==> !Active(d, h, a, u, 5, v) {
      if t > 0 {
        assert Active(d, h, next, t - 1, 5, address);
        forall u: nat, v: nat | t - 1 < u ensures !Active(d, h, next, u, 5, v) { assert !Active(d, h, a, u + 1, 5, v); }
      } else {
        forall u: nat, v: nat ensures !Active(d, h, next, u, 5, v) { assert !Active(d, h, a, u + 1, 5, v); }
      }
    }
    if t: nat :| Active(d, h, next, t, 5, address) && forall u: nat, v: nat :: t < u ==> !Active(d, h, next, u, 5, v) {
      assert Active(d, h, a, t + 1, 5, address);
      forall u: nat, v: nat | t + 1 < u ensures !Active(d, h, a, u, 5, v) { assert Active(d, h, a, u - 1 + 1, 5, v) <==> Active(d, h, next, u - 1, 5, v); }
    }
    if tag0 == 5 && value0 == address && !HasStrings(d, h, next) {
      assert Active(d, h, a, 0, 5, address);
      forall u: nat, v: nat | 0 < u ensures !Active(d, h, a, u, 5, v) {
        assert !Has(d, h, next, 5, v);
        assert Active(d, h, a, u - 1 + 1, 5, v) <==> Active(d, h, next, u - 1, 5, v);
      }
    }
  }

  /** What the scan of a dynamic table finds. */
  lemma {:induction false} ScanIs(d: Image, h: Header, a: Area, tag: nat, value: nat)
    requires Scan(d, h, a.at, a.end).Some?
    ensures (tag, value) in Scan(d, h, a.at, a.end).value.found <==> (tag == 15 || tag == 29) && Has(d, h, a, tag, value)
    ensures Scan(d, h, a.at, a.end).value.strtab == Some(value) <==> StringsAt(d, h, a, value)
    ensures Scan(d, h, a.at, a.end).value.strtab.None? ==> !Has(d, h, a, 5, value)
    decreases a.end - a.at
  {
    hide SlotAt, Active, Has, StringsAt, U;
    if a.at >= a.end {
      Ended(d, h, a, tag, value);
    } else {
      var tag0 := U(d, h.little, a.at, h.Word()).value;
      var value0 := U(d, h.little, a.at + h.Word(), h.Word()).value;
      SlotZero(d, h, a, tag0, value0);
      if tag0 == 0 {
        Ended(d, h, a, tag, value);
      } else {
        var next := Next(h, a);
        ScanIs(d, h, next, tag, value);
        HasShift(d, h, a, tag0, value0, tag, value);
        HasShift(d, h, a, tag0, value0, 5, value);
        StringsShift(d, h, a, tag0, value0, value);
        NoStrings(d, h, next);
      }
    }
  }

  lemma Ended(d: Image, h: Header, a: Area, tag: nat, value: nat)
    requires a.at >= a.end || exists v: nat :: SlotAt(d, h, a, 0, 0, v)
    ensures !Has(d, h, a, tag, value) && !Has(d, h, a, 5, value) && !StringsAt(d, h, a, value)
  {
    hide Active;
    forall t: nat, x: nat, y: nat ensures !Active(d, h, a, t, x, y) { NothingActive(d, h, a, t, x, y); }
  }

  /** The scan knows a string table exactly when there is one. */
  lemma {:induction false} NoStrings(d: Image, h: Header, a: Area)
    requires Scan(d, h, a.at, a.end).Some?
    ensures Scan(d, h, a.at, a.end).value.strtab.None? <==> !HasStrings(d, h, a)
    decreases a.end - a.at
  {
    hide SlotAt, Active, Has, StringsAt, U;
    if a.at >= a.end {
      forall v: nat ensures !Has(d, h, a, 5, v) { Ended(d, h, a, 5, v); }
    } else {
      var tag0 := U(d, h.little, a.at, h.Word()).value;
      var value0 := U(d, h.little, a.at + h.Word(), h.Word()).value;
      SlotZero(d, h, a, tag0, value0);
      if tag0 == 0 {
        forall v: nat ensures !Has(d, h, a, 5, v) { Ended(d, h, a, 5, v); }
      } else {
        NoStrings(d, h, Next(h, a));
        var next := Next(h, a);
        forall v: nat ensures Has(d, h, a, 5, v) <==> (tag0 == 5 && v == value0) || Has(d, h, next, 5, v) {
          HasShift(d, h, a, tag0, value0, 5, v);
        }
        if tag0 == 5 { assert Has(d, h, a, 5, value0); }
        if v: nat :| Has(d, h, next, 5, v) { assert Has(d, h, a, 5, v); }
      }
    }
  }

  // ---- the entries

  lemma {:induction false} LocatedAre(found: seq<(nat, nat)>, base: nat, s: Spot)
    ensures s in Located(found, base) <==> base <= s.start && (s.tag, s.start - base) in found
  {
    if found != [] { LocatedAre(found[1..], base, s); }
  }

  lemma TextIs(d: Image, s: Spot, e: Entry)
    ensures ReadEntry(d, s) == Some(e) <==> e.tag == s.tag && e.start == s.start && TextAt(d, e.start, e.text)
  {
    var r := FindNul(d, s.start);
    if TextAt(d, s.start, e.text) {
      var end := s.start + |e.text|;
      assert d[end] == 0;
      forall i | s.start <= i < end ensures d[i] != 0 { assert d[s.start..end][i - s.start] == d[i]; }
    }
    if r.Some? {
      forall b | b in d[s.start..r.value] ensures b != 0 {
        var i :| 0 <= i < r.value - s.start && d[s.start..r.value][i] == b;
        assert d[s.start + i] == b;
      }
    }
  }

  lemma SpotsAre(d: Image, h: Header, s: Spot)
    requires Spots(d, h).Some?
    ensures s in Spots(d, h).value <==>
      (s.tag == 15 || s.tag == 29)
      && exists seg, place: nat :: DynamicAt(d, h, seg) && StringsFrom(d, h, seg, place) && place <= s.start && Tagged(d, h, seg, s.tag, s.start - place)
  {
    hide Segments, Scan, FileOffset, DynamicOf, Located, DynamicAt, LoadedFrom, StringsAt, Has, Active;
    var ss := Segments(d, h, 0).value;
    forall x ensures DynamicOf(ss) == Some(x) <==> DynamicAt(d, h, x) { DynamicIs(d, h, ss, x); }
    if DynamicOf(ss).Some? {
      var dyn := DynamicOf(ss).value;
      var table := Scan(d, h, AreaOf(dyn).at, AreaOf(dyn).end).value;
      forall place: nat ensures StringsFrom(d, h, dyn, place) <==>
        table.strtab.Some? && FileOffset(ss, table.strtab.value) == Some(place)
      {
        StringsFound(d, h, ss, dyn, place);
      }
      if table.strtab.Some? && FileOffset(ss, table.strtab.value).Some? {
        var base := FileOffset(ss, table.strtab.value).value;
        LocatedAre(table.found, base, s);
        if base <= s.start { ScanIs(d, h, AreaOf(dyn), s.tag, s.start - base); TaggedIs(d, h, dyn, s.tag, s.start - base); }
      }
    }
  }

  lemma TaggedIs(d: Image, h: Header, s: Segment, tag: nat, value: nat)
    ensures Tagged(d, h, s, tag, value) <==> Has(d, h, AreaOf(s), tag, value)
  {
  }

  lemma StringsFound(d: Image, h: Header, ss: seq<Segment>, dyn: Segment, place: nat)
    requires Segments(d, h, 0) == Some(ss) && Scan(d, h, AreaOf(dyn).at, AreaOf(dyn).end).Some?
    ensures var table := Scan(d, h, AreaOf(dyn).at, AreaOf(dyn).end).value;
      StringsFrom(d, h, dyn, place) <==> table.strtab.Some? && FileOffset(ss, table.strtab.value) == Some(place)
  {
    hide Segments, Scan, FileOffset, LoadedFrom, StringsAt, Has;
    var table := Scan(d, h, AreaOf(dyn).at, AreaOf(dyn).end).value;
    forall address: nat
      ensures table.strtab == Some(address) <==> StringsAt(d, h, AreaOf(dyn), address)
      ensures FileOffset(ss, address) == Some(place) <==> LoadedFrom(d, h, address, place)
    {
      ScanIs(d, h, AreaOf(dyn), 0, address);
      PlaceIs(d, h, ss, address, place);
    }
  }

  /** The reader finds exactly the search paths the file has. */
  lemma EntriesExact(d: Image, h: Header, e: Entry)
    requires Entries(d, h).Some?
    ensures e in Entries(d, h).value <==> PathAt(d, h, e)
  {
    hide Spots, ReadEntry, TextAt, DynamicAt, StringsFrom, Tagged;
    var spots, es := Spots(d, h).value, Entries(d, h).value;
    SpotsAre(d, h, Spot(e.tag, e.start));
    forall s ensures ReadEntry(d, s) == Some(e) <==> e.tag == s.tag && e.start == s.start && TextAt(d, e.start, e.text) { TextIs(d, s, e); }
    if e in es {
      var i :| 0 <= i < |es| && es[i] == e;
      assert ReadEntry(d, spots[i]) == Some(e);
      assert spots[i] == Spot(e.tag, e.start);
    }
    if PathAt(d, h, e) {
      var i :| 0 <= i < |spots| && spots[i] == Spot(e.tag, e.start);
      assert ReadEntry(d, spots[i]) == Some(es[i]);
    }
  }

  /** The file is an ELF file with this header: the magic number, the class and byte-order bytes, and
      where the program headers are. */
  lemma HeaderIs(d: Image, h: Header)
    ensures ReadHeader(d) == Elf(h) <==>
      && |d| >= 6 && d[0] == 0x7f && d[1] == 0x45 && d[2] == 0x4c && d[3] == 0x46
      && (h.is64 <==> d[4] == 2) && (h.little <==> d[5] == 1)
      && Field(d, h, if h.is64 then 0x20 else 0x1C, if h.is64 then 8 else 4, h.phoff)
      && Field(d, h, if h.is64 then 0x36 else 0x2A, 2, h.phentsize)
      && Field(d, h, if h.is64 then 0x38 else 0x2C, 2, h.phnum)
  {
    hide U, Field;
    if |d| >= 4 { assert d[..4] == [d[0], d[1], d[2], d[3]]; }
    FieldU(d, h, if h.is64 then 0x20 else 0x1C, if h.is64 then 8 else 4, h.phoff);
    FieldU(d, h, if h.is64 then 0x36 else 0x2A, 2, h.phentsize);
    FieldU(d, h, if h.is64 then 0x38 else 0x2C, 2, h.phnum);
  }

  lemma {:induction false} AbsoluteNone(es: seq<Entry>)
    ensures Absolute(es) == 0 <==> forall e :: e in es ==> OnlyRelative(e.text)
  {
    if es != [] {
      var front, e := es[..|es| - 1], es[|es| - 1];
      AbsoluteNone(front);
      RelativeIs(e.text);
      SelectWeight(Parts(e.text), Wanted);
      assert es == front + [e];
      assert e in es;
    }
  }

  /** A check reports nothing exactly when every entry of every search path of the file says where the
      object is: each piece between colons is empty or starts with one of the five prefixes. */
  lemma NothingToDrop(d: Image, h: Header)
    requires Entries(d, h).Some?
    ensures Absolute(Entries(d, h).value) == 0 <==> forall e :: PathAt(d, h, e) ==> OnlyRelative(e.text)
  {
    hide PathAt, OnlyRelative, Absolute;
    AbsoluteNone(Entries(d, h).value);
    forall e ensures e in Entries(d, h).value <==> PathAt(d, h, e) { EntriesExact(d, h, e); }
  }
}
