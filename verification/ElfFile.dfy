/** Just enough of an ELF file to find and rewrite its RUNPATH strings in place. */
module ElfFile {
  import opened Wrappers
  import opened RunPath

  type Image = seq<byte>

  const PT_LOAD := 1
  const PT_DYNAMIC := 2
  const DT_NULL := 0
  const DT_STRTAB := 5
  const DT_RPATH := 15
  const DT_RUNPATH := 29

  // ---- reading

  function Number(bs: seq<byte>, little: bool): nat {
    if bs == [] then 0
    else if little then bs[0] + 256 * Number(bs[1..], little)
    else 256 * Number(bs[..|bs| - 1], little) + bs[|bs| - 1]
  }

  /** An unsigned field, or None past the end of the file. */
  function U(d: Image, little: bool, at: nat, size: nat): Option<nat> {
    if at + size <= |d| then Some(Number(d[at..at + size], little)) else None
  }

  datatype Header = Header(is64: bool, little: bool, phoff: nat, phentsize: nat, phnum: nat) {
    function Word(): nat { if is64 then 8 else 4 }
    function DynSize(): nat { 2 * Word() }
  }

  /** A file without the magic number is not an ELF file; one cut short is malformed. */
  datatype Opened = Elf(header: Header) | NotElf | Malformed

  const MAGIC: seq<byte> := [0x7f, 0x45, 0x4c, 0x46]

  function ReadHeader(d: Image): Opened {
    if |d| < 4 || d[..4] != MAGIC then NotElf
    else if |d| < 6 then Malformed
    else
      var is64, little := d[4] == 2, d[5] == 1;
      var phoff := U(d, little, if is64 then 0x20 else 0x1C, if is64 then 8 else 4);
      var phentsize := U(d, little, if is64 then 0x36 else 0x2A, 2);
      var phnum := U(d, little, if is64 then 0x38 else 0x2C, 2);
      if phoff.Some? && phentsize.Some? && phnum.Some?
      then Elf(Header(is64, little, phoff.value, phentsize.value, phnum.value)) else Malformed
  }

  datatype Segment = Segment(kind: nat, offset: nat, vaddr: nat, filesz: nat)

  function ReadSegment(d: Image, h: Header, base: nat): Option<Segment> {
    var kind :- U(d, h.little, base, 4);
    var offset :- U(d, h.little, base + (if h.is64 then 8 else 4), h.Word());
    var vaddr :- U(d, h.little, base + (if h.is64 then 16 else 8), h.Word());
    var filesz :- U(d, h.little, base + (if h.is64 then 32 else 16), h.Word());
    Some(Segment(kind, offset, vaddr, filesz))
  }

  /** The program headers from index `i` on. */
  function Segments(d: Image, h: Header, i: nat): Option<seq<Segment>>
    decreases h.phnum - i
  {
    if i >= h.phnum then Some([])
    else
      var s :- ReadSegment(d, h, h.phoff + i * h.phentsize);
      var rest :- Segments(d, h, i + 1);
      Some([s] + rest)
  }

  /** The last dynamic segment. */
  function DynamicOf(ss: seq<Segment>): Option<Segment> {
    if ss == [] then None
    else if ss[|ss| - 1].kind == PT_DYNAMIC then Some(ss[|ss| - 1])
    else DynamicOf(ss[..|ss| - 1])
  }

  /** Where in the file address `v` is loaded from. */
  function FileOffset(ss: seq<Segment>, v: nat): Option<nat> {
    if ss == [] then None
    else if ss[0].kind == PT_LOAD && ss[0].vaddr <= v < ss[0].vaddr + ss[0].filesz
    then Some(ss[0].offset + (v - ss[0].vaddr))
    else FileOffset(ss[1..], v)
  }

  /** What the dynamic table says: where the strings are, and which of them are search paths. */
  datatype Dynamic = Dynamic(strtab: Option<nat>, found: seq<(nat, nat)>)

  function Combine(a: Dynamic, b: Dynamic): Dynamic {
    Dynamic(if b.strtab.Some? then b.strtab else a.strtab, a.found + b.found)
  }

  function DynEntry(tag: nat, value: nat): Dynamic {
    if tag == DT_STRTAB then Dynamic(Some(value), [])
    else if tag == DT_RPATH || tag == DT_RUNPATH then Dynamic(None, [(tag, value)])
    else Dynamic(None, [])
  }

  function Scan(d: Image, h: Header, at: nat, end: nat): Option<Dynamic>
    decreases end - at
  {
    if at >= end then Some(Dynamic(None, []))
    else
      var tag :- U(d, h.little, at, h.Word());
      var value :- U(d, h.little, at + h.Word(), h.Word());
      if tag == DT_NULL then Some(Dynamic(None, []))
      else
        var rest :- Scan(d, h, at + h.DynSize(), end);
        Some(Combine(DynEntry(tag, value), rest))
  }

  datatype Spot = Spot(tag: nat, start: nat)

  /** Tag and file position of every search-path string. */
  function Spots(d: Image, h: Header): Option<seq<Spot>> {
    var ss :- Segments(d, h, 0);
    var dyn := DynamicOf(ss);
    if dyn.None? then Some([])
    else
      var table :- Scan(d, h, dyn.value.offset, dyn.value.offset + dyn.value.filesz);
      if table.strtab.None? then Some([])
      else
        var base := FileOffset(ss, table.strtab.value);
        if base.None? then Some([])
        else Some(Located(table.found, base.value))
  }

  function Located(found: seq<(nat, nat)>, base: nat): seq<Spot> {
    if found == [] then [] else [Spot(found[0].0, base + found[0].1)] + Located(found[1..], base)
  }

  /** The first NUL at or after `at`. */
  function FindNul(d: Image, at: nat): (r: Option<nat>)
    ensures r.Some? ==> at <= r.value < |d| && d[r.value] == 0 && forall i :: at <= i < r.value ==> d[i] != 0
    ensures r.None? ==> forall i :: at <= i < |d| ==> d[i] != 0
    decreases |d| - at
  {
    if at >= |d| then None
    else if d[at] == 0 then Some(at)
    else FindNul(d, at + 1)
  }

  datatype Entry = Entry(tag: nat, start: nat, text: Text)

  function ReadEntry(d: Image, s: Spot): Option<Entry> {
    var stop :- FindNul(d, s.start);
    Some(Entry(s.tag, s.start, d[s.start..stop]))
  }

  function ReadEntries(d: Image, spots: seq<Spot>): (r: Option<seq<Entry>>)
    ensures r.Some? ==> |r.value| == |spots| && forall i :: 0 <= i < |spots| ==> ReadEntry(d, spots[i]) == Some(r.value[i])
  {
    if spots == [] then Some([])
    else
      var front :- ReadEntries(d, spots[..|spots| - 1]);
      var e :- ReadEntry(d, spots[|spots| - 1]);
      Some(front + [e])
  }

  /** Every DT_RUNPATH and DT_RPATH of the file, or None when it reads past the end. */
  function Entries(d: Image, h: Header): Option<seq<Entry>> {
    var spots :- Spots(d, h);
    ReadEntries(d, spots)
  }

  // ---- rewriting

  function Zeros(n: nat): (z: seq<byte>)
    ensures |z| == n && forall i :: 0 <= i < n ==> z[i] == 0
  {
    seq(n, i => 0)
  }

  /** `d` with `text` put over the `room` bytes at `start`, the rest of them zero. */
  function Patch(d: Image, start: nat, room: nat, text: Text): (r: Image)
    requires |text| <= room && start + room <= |d|
    ensures |r| == |d|
  {
    d[..start] + text + Zeros(room - |text|) + d[start + room..]
  }

  lemma PatchBytes(d: Image, start: nat, room: nat, text: Text)
    requires |text| <= room && start + room <= |d|
    ensures forall k :: 0 <= k < start || start + room <= k < |d| ==> Patch(d, start, room, text)[k] == d[k]
    ensures forall k :: start <= k < start + room ==>
      Patch(d, start, room, text)[k] == if k - start < |text| then text[k - start] else 0
  {
  }

  predicate NeedsCleaning(text: Text) {
    |Kept(text)| != |Parts(text)|
  }

  ghost predicate Fits(d: Image, es: seq<Entry>) {
    forall i :: 0 <= i < |es| ==> es[i].start + |es[i].text| <= |d|
  }

  /** `d` after the strings of all entries that need it were replaced, first to last. */
  function Stripped(d: Image, es: seq<Entry>): (r: Image)
    requires Fits(d, es)
    ensures |r| == |d|
  {
    if es == [] then d
    else
      var front, e := Stripped(d, es[..|es| - 1]), es[|es| - 1];
      CleanedFits(e.text);
      if NeedsCleaning(e.text) then Patch(front, e.start, |e.text|, Cleaned(e.text)) else front
  }

  /** How many absolute paths the entries name. */
  function Absolute(es: seq<Entry>): nat {
    if es == [] then 0
    else
      var text := es[|es| - 1].text;
      SelectWeight(Parts(text), Wanted);
      Absolute(es[..|es| - 1]) + (|Parts(text)| - |Kept(text)|)
  }

  class File {
    const data: array<byte>
    const header: Header

    constructor (data: array<byte>, header: Header)
      ensures this.data == data && this.header == header
    {
      this.data, this.header := data, header;
    }

    method Dynamics(at: nat, end: nat) returns (r: Option<Dynamic>)
      ensures r == Scan(data[..], header, at, end)
    {
      var offset, table := at, Dynamic(None, []);
      ghost var d := data[..];
      CombineUnit(Scan(d, header, at, end));
      while offset < end
        invariant Scan(d, header, at, end) ==
          (var rest := Scan(d, header, offset, end); if rest.Some? then Some(Combine(table, rest.value)) else None)
        decreases end - offset
      {
        var tag := U(data[..], header.little, offset, header.Word());
        var value := U(data[..], header.little, offset + header.Word(), header.Word());
        if tag.None? || value.None? { return None; }
        if tag.value == DT_NULL { break; }
        CombineAssociative(table, DynEntry(tag.value, value.value), Scan(d, header, offset + header.DynSize(), end));
        table := Combine(table, DynEntry(tag.value, value.value));
        offset := offset + header.DynSize();
      }
      assert table.found + [] == table.found;
      r := Some(table);
    }

    method RpathEntries() returns (r: Option<seq<Entry>>)
      ensures r == Entries(data[..], header)
    {
      hide Segments, Scan, FileOffset, DynamicOf, Located;
      var ss := Segments(data[..], header, 0);
      if ss.None? { return None; }
      var dyn := DynamicOf(ss.value);
      if dyn.None? { return Some([]); }
      var table := Dynamics(dyn.value.offset, dyn.value.offset + dyn.value.filesz);
      if table.None? { return None; }
      if table.value.strtab.None? { return Some([]); }
      var base := FileOffset(ss.value, table.value.strtab.value);
      if base.None? { return Some([]); }
      r := Texts(Located(table.value.found, base.value));
    }

    method Texts(spots: seq<Spot>) returns (r: Option<seq<Entry>>)
      ensures r == ReadEntries(data[..], spots)
    {
      var out: seq<Entry> := [];
      for i := 0 to |spots|
        invariant ReadEntries(data[..], spots[..i]) == Some(out)
      {
        var e := ReadEntry(data[..], spots[i]);
        if e.None? {
          ReadFails(data[..], spots, i);
          return None;
        }
        assert spots[..i + 1][..i] == spots[..i];
        out := out + [e.value];
      }
      assert spots[..|spots|] == spots;
      r := Some(out);
    }

    /** Puts `text` over `old`, in place. Refuses a longer string. */
    method Rewrite(start: nat, room: nat, text: Text) returns (ok: bool)
      requires start + room <= data.Length
      modifies data
      ensures ok <==> |text| <= room
      ensures data[..] == if ok then Patch(old(data[..]), start, room, text) else old(data[..])
    {
      ok := |text| <= room;
      if ok {
        for i := 0 to room
          invariant forall k :: 0 <= k < start || start + room <= k < data.Length ==> data[k] == old(data[k])
          invariant forall k :: 0 <= k < i ==> data[start + k] == if k < |text| then text[k] else 0
        {
          data[start + i] := if i < |text| then text[i] else 0;
        }
        PatchBytes(old(data[..]), start, room, text);
        assert data[..] == Patch(old(data[..]), start, room, text);
      }
    }

    /** Rewrites every entry that names a build path; with `check`, only counts what it would drop. */
    method Strip(es: seq<Entry>, check: bool) returns (dropped: nat)
      requires Fits(data[..], es)
      modifies data
      ensures data[..] == if check then old(data[..]) else Stripped(old(data[..]), es)
      ensures dropped == Absolute(es)
    {
      dropped := 0;
      for i := 0 to |es|
        invariant data[..] == if check then old(data[..]) else Stripped(old(data[..]), es[..i])
        invariant dropped == Absolute(es[..i])
      {
        var e := es[i];
        assert es[..i + 1][..i] == es[..i];
        SelectWeight(Parts(e.text), Wanted);
        if NeedsCleaning(e.text) {
          dropped := dropped + (|Parts(e.text)| - |Kept(e.text)|);
          if !check {
            CleanedFits(e.text);
            var ok := Rewrite(e.start, |e.text|, Cleaned(e.text));
          }
        }
      }
      assert es[..|es|] == es;
    }
  }

  lemma CombineUnit(c: Option<Dynamic>)
    ensures c.Some? ==> Combine(Dynamic(None, []), c.value) == c.value
  {
    if c.Some? { assert [] + c.value.found == c.value.found; }
  }

  lemma CombineAssociative(a: Dynamic, b: Dynamic, c: Option<Dynamic>)
    ensures c.Some? ==> Combine(Combine(a, b), c.value) == Combine(a, Combine(b, c.value))
  {
  }

  lemma {:induction false} ReadFails(d: Image, spots: seq<Spot>, i: nat)
    requires i < |spots| && ReadEntry(d, spots[i]).None?
    ensures ReadEntries(d, spots).None?
  {
    if i < |spots| - 1 { ReadFails(d, spots[..|spots| - 1], i); }
  }
}
