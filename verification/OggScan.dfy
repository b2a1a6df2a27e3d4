/**
 The duration of an Opus file: a scan over Ogg pages (section 6 of RFC 3533) that keeps the largest
 granule position, in samples of 48 kHz (section 4 of RFC 7845). Where no page starts, the scan
 moves on by one byte until it finds one.
 */
module OggScan {
  import opened BodyStorage

  const HEADER := 27
  const MAGIC: seq<byte> := [79, 103, 103, 83]   // "OggS"
  const TWO63 := 0x8000_0000_0000_0000
  const TWO64 := 0x1_0000_0000_0000_0000

  // ---------------------------------------------------------------- integers on the wire

  function LittleEndian(b: seq<byte>): nat {
    if |b| == 0 then 0 else b[0] + 256 * LittleEndian(b[1..])
  }

  function ToLittleEndian(n: nat, size: nat): (b: seq<byte>)
    ensures |b| == size
    decreases size
  {
    if size == 0 then [] else [n % 256] + ToLittleEndian(n / 256, size - 1)
  }

  function Power256(size: nat): nat {
    if size == 0 then 1 else 256 * Power256(size - 1)
  }

  lemma {:induction false} LittleEndianRoundTrip(n: nat, size: nat)
    requires n < Power256(size)
    ensures LittleEndian(ToLittleEndian(n, size)) == n
    decreases size
  {
    if size > 0 {
      LittleEndianRoundTrip(n / 256, size - 1);
    }
  }

  /** Two's complement in 64 bits. */
  function Signed(u: nat): int {
    if u >= TWO63 then u - TWO64 else u
  }

  function Unsigned(x: int): nat
    requires -TWO63 <= x < TWO63
  {
    if x < 0 then x + TWO64 else x
  }

  lemma GranuleRoundTrip(x: int)
    requires -TWO63 <= x < TWO63
    ensures Signed(LittleEndian(ToLittleEndian(Unsigned(x), 8))) == x
  {
    assert Power256(4) == 0x1_0000_0000;
    assert Power256(8) == 256 * (256 * (256 * (256 * Power256(4)))) == TWO64;
    LittleEndianRoundTrip(Unsigned(x), 8);
  }

  function SumBytes(b: seq<byte>): nat {
    if |b| == 0 then 0 else b[0] + SumBytes(b[1..])
  }

  function Max(a: int, b: int): int {
    if b > a then b else a
  }

  // ---------------------------------------------------------------- pages

  datatype Page = Page(version: byte, flags: byte, granule: int, serial: seq<byte>, sequence: seq<byte>,
                       checksum: seq<byte>, segments: seq<byte>, payload: seq<byte>)

  predicate WellFormed(p: Page) {
    -TWO63 <= p.granule < TWO63 && |p.serial| == |p.sequence| == |p.checksum| == 4
    && |p.segments| < 256 && |p.payload| == SumBytes(p.segments)
  }

  function Fixed(p: Page): (b: seq<byte>)
    requires WellFormed(p)
    ensures |b| == HEADER
  {
    MAGIC + [p.version, p.flags] + ToLittleEndian(Unsigned(p.granule), 8) + p.serial + p.sequence + p.checksum
    + [|p.segments|]
  }

  function PageSize(p: Page): nat {
    HEADER + |p.segments| + |p.payload|
  }

  function EncodePage(p: Page): (b: seq<byte>)
    requires WellFormed(p)
    ensures |b| == PageSize(p)
  {
    Fixed(p) + p.segments + p.payload
  }

  predicate AllWellFormed(pages: seq<Page>) {
    forall i :: 0 <= i < |pages| ==> WellFormed(pages[i])
  }

  function Concat(chunks: seq<seq<byte>>): seq<byte> {
    if |chunks| == 0 then [] else chunks[0] + Concat(chunks[1..])
  }

  function Encode(pages: seq<Page>): seq<byte>
    requires AllWellFormed(pages)
  {
    Concat(seq(|pages|, i requires 0 <= i < |pages| => EncodePage(pages[i])))
  }

  /** Where the pages start, if the first starts at `pos`. */
  function Starts(pages: seq<Page>, pos: nat): seq<nat> {
    if |pages| == 0 then [] else [pos] + Starts(pages[1..], pos + PageSize(pages[0]))
  }

  function LargestGranule(pages: seq<Page>, atLeast: int): int {
    if |pages| == 0 then atLeast else LargestGranule(pages[1..], Max(atLeast, pages[0].granule))
  }

  // ---------------------------------------------------------------- the scan

  predicate MagicAt(data: seq<byte>, pos: nat) {
    pos + 4 <= |data| && data[pos..pos + 4] == MAGIC
  }

  function GranuleAt(data: seq<byte>, pos: nat): int
    requires pos + HEADER <= |data|
  {
    Signed(LittleEndian(data[pos + 6..pos + 14]))
  }

  /** The position after the segment table of the page at `pos`. */
  function TableEnd(data: seq<byte>, pos: nat): nat
    requires pos + HEADER <= |data|
  {
    pos + HEADER + data[pos + 26]
  }

  function PageEnd(data: seq<byte>, pos: nat): nat
    requires pos + HEADER <= |data| && TableEnd(data, pos) <= |data|
  {
    TableEnd(data, pos) + SumBytes(data[pos + HEADER..TableEnd(data, pos)])
  }

  /** The page positions the scan visits from `pos` on, and the largest granule position. */
  function Scan(data: seq<byte>, pos: nat, total: int): (seq<nat>, int)
    decreases if pos <= |data| then |data| - pos else 0
  {
    if pos + HEADER > |data| then ([], total)
    else if !MagicAt(data, pos) then Scan(data, pos + 1, total)
    else
      var total' := Max(total, GranuleAt(data, pos));
      if TableEnd(data, pos) > |data| then ([pos], total')
      else
        var (visited, result) := Scan(data, PageEnd(data, pos), total');
        ([pos] + visited, result)
  }

  method ReadFull(r: File, p: array<byte>) returns (ok: bool)
    requires r.open
    modifies r`offset, p
    ensures ok <==> p.Length == 0 || old(r.offset) + p.Length <= |r.content|
    ensures ok ==> r.offset == old(r.offset) + p.Length
    ensures ok && p.Length > 0 ==> p[..] == r.content[old(r.offset)..old(r.offset) + p.Length]
  {
    var got := 0;
    while got < p.Length
      invariant 0 <= got <= p.Length && r.offset == old(r.offset) + got
      invariant got > 0 ==> r.offset <= |r.content| && p[..got] == r.content[old(r.offset)..r.offset]
    {
      ghost var before := p[..got];
      var n, eof := r.Read(p, got);
      if eof {
        return false;
      }
      assert p[..got] == before;
      assert p[..got + n] == p[..got] + p[got..got + n];
      assert r.content[old(r.offset)..r.offset]
          == r.content[old(r.offset)..old(r.offset) + got] + r.content[old(r.offset) + got..r.offset];
      got := got + n;
    }
    ok := true;
    assert p[..got] == p[..];
  }

  method SumSegments(table: array<byte>) returns (size: nat)
    ensures size == SumBytes(table[..])
  {
    size := 0;
    var i := 0;
    while i < table.Length
      invariant 0 <= i <= table.Length && size == SumBytes(table[..i])
    {
      SumBytesAppend(table[..i], table[i]);
      assert table[..i + 1] == table[..i] + [table[i]];
      size := size + table[i];
      i := i + 1;
    }
    assert table[..i] == table[..];
  }

  lemma SliceOfSlice(data: seq<byte>, lo: nat, hi: nat, from: nat, to: nat)
    requires lo <= hi <= |data| && from <= to <= hi - lo
    ensures data[lo..hi][from..to] == data[lo + from..lo + to]
  {
    var a, b := data[lo..hi][from..to], data[lo + from..lo + to];
    forall i | 0 <= i < to - from ensures a[i] == b[i] {
      assert a[i] == data[lo..hi][from + i] == data[lo + from + i];
    }
    assert |a| == |b|;
  }

  /** The parts of a header, from a buffer that holds it. */
  lemma HeaderFields(data: seq<byte>, pos: nat, b: seq<byte>)
    requires pos + HEADER <= |data| && b == data[pos..pos + HEADER]
    ensures b[0..4] == MAGIC <==> MagicAt(data, pos)
    ensures Signed(LittleEndian(b[6..14])) == GranuleAt(data, pos) && b[26] == data[pos + 26]
  {
    SliceOfSlice(data, pos, pos + HEADER, 0, 4);
    SliceOfSlice(data, pos, pos + HEADER, 6, 14);
  }

  /** Read the segment table of the page whose header was just read, and skip its payload. */
  method SkipPage(r: File, pos: nat, segments: byte) returns (ok: bool)
    requires pos + HEADER <= |r.content| && r.offset == pos + HEADER && segments == r.content[pos + 26]
    requires r.open
    modifies r`offset
    ensures ok <==> TableEnd(r.content, pos) <= |r.content|
    ensures ok ==> r.offset == PageEnd(r.content, pos)
  {
    var table := new byte[segments];
    ok := ReadFull(r, table);
    if ok {
      var size := SumSegments(table);
      assert table[..] == r.content[pos + HEADER..TableEnd(r.content, pos)];
      var past := r.Seek(size, FromCurrent);
    }
  }

  /** The loop terminates on every byte sequence and computes what Scan says. */
  method GetOpusDuration(r: File) returns (duration: real)
    requires r.open
    modifies r`offset
    ensures duration == Scan(r.content, 0, 0).1 as real / 48000.0
  {
    var sought := r.Seek(0, FromStart);
    ghost var data := r.content;
    var total := 0;
    var buf := new byte[HEADER];
    while true
      invariant Scan(data, r.offset, total).1 == Scan(data, 0, 0).1
      decreases if r.offset <= |data| then |data| - r.offset else 0
    {
      ghost var pos := r.offset;
      var n, eof := r.Read(buf, 0);
      if eof || n < HEADER {
        break;
      }
      assert buf[..] == data[pos..pos + HEADER];
      HeaderFields(data, pos, buf[..]);
      var header := buf[..];
      if header[0..4] != MAGIC {
        var back := r.Seek(-26, FromCurrent);
        continue;
      }
      var granule := Signed(LittleEndian(header[6..14]));
      if granule > total {
        total := granule;
      }
      var ok := SkipPage(r, r.offset - HEADER, header[26]);
      if !ok {
        break;
      }
    }
    duration := total as real / 48000.0;
  }

  lemma {:induction false} SumBytesAppend(b: seq<byte>, x: byte)
    ensures SumBytes(b + [x]) == SumBytes(b) + x
  {
    if |b| == 0 {
      assert b + [x] == [x] && [x][1..] == [];
    } else {
      assert (b + [x])[1..] == b[1..] + [x];
      SumBytesAppend(b[1..], x);
    }
  }

  // ---------------------------------------------------------------- what the scan finds

  predicate PlacesFrom(data: seq<byte>, pos: nat, visited: seq<nat>) {
    (forall i :: 0 <= i < |visited| ==> pos <= visited[i] && visited[i] + HEADER <= |data| && MagicAt(data, visited[i]))
    && (forall i, j :: 0 <= i < j < |visited| ==> visited[i] + HEADER <= visited[j])
  }

  lemma FirstPlace(data: seq<byte>, pos: nat, next: nat, rest: seq<nat>)
    requires pos + HEADER <= |data| && pos + HEADER <= next && MagicAt(data, pos) && PlacesFrom(data, next, rest)
    ensures PlacesFrom(data, pos, [pos] + rest)
  {
    var visited := [pos] + rest;
    assert visited[0] == pos && forall i :: 1 <= i < |visited| ==> visited[i] == rest[i - 1];
  }

  lemma {:induction false} VisitedMeaning(data: seq<byte>, pos: nat, total: int)
    ensures PlacesFrom(data, pos, Scan(data, pos, total).0)
    decreases if pos <= |data| then |data| - pos else 0
  {
    if pos + HEADER <= |data| {
      if !MagicAt(data, pos) {
        VisitedMeaning(data, pos + 1, total);
      } else if TableEnd(data, pos) <= |data| {
        var total' := Max(total, GranuleAt(data, pos));
        VisitedMeaning(data, PageEnd(data, pos), total');
        FirstPlace(data, pos, PageEnd(data, pos), Scan(data, PageEnd(data, pos), total').0);
      }
    }
  }

  lemma {:induction false} ResultMeaning(data: seq<byte>, pos: nat, total: int)
    ensures var (visited, result) := Scan(data, pos, total);
      && (forall i :: 0 <= i < |visited| ==> visited[i] + HEADER <= |data| && GranuleAt(data, visited[i]) <= result)
      && total <= result
      && (result == total || exists i :: 0 <= i < |visited| && result == GranuleAt(data, visited[i]))
    decreases if pos <= |data| then |data| - pos else 0
  {
    if pos + HEADER <= |data| {
      if !MagicAt(data, pos) {
        ResultMeaning(data, pos + 1, total);
      } else if TableEnd(data, pos) <= |data| {
        var total' := Max(total, GranuleAt(data, pos));
        ResultMeaning(data, PageEnd(data, pos), total');
        var (rest, result) := Scan(data, PageEnd(data, pos), total');
        var visited := [pos] + rest;
        if result != total' {
          var i :| 0 <= i < |rest| && result == GranuleAt(data, rest[i]);
          assert visited[i + 1] == rest[i];
        } else {
          assert visited[0] == pos;
        }
      } else {
        assert Scan(data, pos, total).0[0] == pos;
      }
    }
  }

  /** On any bytes at all: only places that read "OggS" are visited, in ascending order and at
      least one header apart; the result is the start value or a granule of a visited page, and is
      at least every visited granule. */
  lemma ScanMeaning(data: seq<byte>, pos: nat, total: int)
    ensures var (visited, result) := Scan(data, pos, total);
      && PlacesFrom(data, pos, visited)
      && total <= result && (forall i :: 0 <= i < |visited| ==> GranuleAt(data, visited[i]) <= result)
      && (result == total || exists i :: 0 <= i < |visited| && result == GranuleAt(data, visited[i]))
  {
    VisitedMeaning(data, pos, total);
    ResultMeaning(data, pos, total);
  }

  lemma FixedFields(p: Page)
    requires WellFormed(p)
    ensures Fixed(p)[0..4] == MAGIC && Fixed(p)[26] == |p.segments|
    ensures Signed(LittleEndian(Fixed(p)[6..14])) == p.granule
  {
    var g := ToLittleEndian(Unsigned(p.granule), 8);
    var front := MAGIC + [p.version, p.flags];
    var back := p.serial + p.sequence + p.checksum + [|p.segments|];
    assert Fixed(p) == front + g + back;
    assert (front + g + back)[6..14] == g;
    GranuleRoundTrip(p.granule);
  }

  /** The page p stands at `pos`. */
  predicate PageAt(data: seq<byte>, pos: nat, p: Page) {
    MagicAt(data, pos) && pos + HEADER <= |data| && GranuleAt(data, pos) == p.granule
    && TableEnd(data, pos) <= |data| && PageEnd(data, pos) == pos + PageSize(p)
  }

  /** A well-formed page reads back. */
  lemma PageReadsBack(p: Page)
    requires WellFormed(p)
    ensures PageAt(EncodePage(p), 0, p)
  {
    var page := EncodePage(p);
    FixedFields(p);
    assert page[0..HEADER] == Fixed(p);
    assert page[HEADER..HEADER + |p.segments|] == p.segments;
    HeaderFields(page, 0, Fixed(p));
  }

  /** A page is read the same wherever it stands. */
  lemma PageMoves(data: seq<byte>, pos: nat, page: seq<byte>, p: Page)
    requires PageAt(page, 0, p) && pos + |page| <= |data| && data[pos..pos + |page|] == page && |page| == PageSize(p)
    ensures PageAt(data, pos, p)
  {
    SliceOfSlice(data, pos, pos + |page|, 0, 4);
    SliceOfSlice(data, pos, pos + |page|, 6, 14);
    assert data[pos + 26] == page[26];
    SliceOfSlice(data, pos, pos + |page|, HEADER, TableEnd(page, 0));
  }

  /** From `pos` on the data holds these pages and then less than a header. */
  predicate PagesAt(data: seq<byte>, pos: nat, pages: seq<Page>)
    decreases |pages|
  {
    if |pages| == 0 then pos + HEADER > |data|
    else PageAt(data, pos, pages[0]) && PagesAt(data, pos + PageSize(pages[0]), pages[1..])
  }

  lemma FirstOf(data: seq<byte>, pos: nat, b: seq<byte>, c: seq<byte>, tail: seq<byte>)
    requires pos <= |data| && data[pos..] == b + c + tail
    ensures pos + |b| <= |data| && data[pos..pos + |b|] == b && data[pos + |b|..] == c + tail
  {
    assert |data| - pos == |b| + |c| + |tail|;
    assert data[pos..pos + |b|] == data[pos..][..|b|];
    assert data[pos + |b|..] == data[pos..][|b|..];
  }

  /** Chunks that read as pages, one after the other, then less than a header. */
  lemma {:induction false} ChunksAt(data: seq<byte>, pos: nat, chunks: seq<seq<byte>>, pages: seq<Page>,
                                    tail: seq<byte>)
    requires |tail| < HEADER && pos <= |data| && data[pos..] == Concat(chunks) + tail && |chunks| == |pages|
    requires forall i :: 0 <= i < |pages| ==> |chunks[i]| == PageSize(pages[i]) && PageAt(chunks[i], 0, pages[i])
    ensures PagesAt(data, pos, pages)
    decreases |pages|
  {
    if |pages| > 0 {
      FirstOf(data, pos, chunks[0], Concat(chunks[1..]), tail);
      PageMoves(data, pos, chunks[0], pages[0]);
      ChunksAt(data, pos + |chunks[0]|, chunks[1..], pages[1..], tail);
    }
  }

  lemma EncodedPagesAt(data: seq<byte>, pos: nat, pages: seq<Page>, tail: seq<byte>)
    requires AllWellFormed(pages) && |tail| < HEADER && pos <= |data| && data[pos..] == Encode(pages) + tail
    ensures PagesAt(data, pos, pages)
  {
    var chunks := seq(|pages|, i requires 0 <= i < |pages| => EncodePage(pages[i]));
    forall i | 0 <= i < |pages| ensures |chunks[i]| == PageSize(pages[i]) && PageAt(chunks[i], 0, pages[i]) {
      PageReadsBack(pages[i]);
    }
    ChunksAt(data, pos, chunks, pages, tail);
  }

  lemma ScanOfPage(data: seq<byte>, pos: nat, p: Page, total: int)
    requires PageAt(data, pos, p)
    ensures var rest := Scan(data, pos + PageSize(p), Max(total, p.granule));
      Scan(data, pos, total) == ([pos] + rest.0, rest.1)
  {
  }

  /** The scan visits exactly the page starts, whatever the payloads contain. */
  lemma {:induction false} ScanOfPages(data: seq<byte>, pos: nat, pages: seq<Page>, total: int)
    requires PagesAt(data, pos, pages)
    ensures Scan(data, pos, total) == (Starts(pages, pos), LargestGranule(pages, total))
    decreases |pages|
  {
    if |pages| > 0 {
      ScanOfPage(data, pos, pages[0], total);
      ScanOfPages(data, pos + PageSize(pages[0]), pages[1..], Max(total, pages[0].granule));
    }
  }

  /** Where "OggS" does not occur, the scan passes over. */
  lemma {:induction false} ScanSkips(data: seq<byte>, pos: nat, next: nat, total: int)
    requires pos <= next && next + HEADER <= |data|
    requires forall i :: pos <= i < next ==> !MagicAt(data, i)
    ensures Scan(data, pos, total) == Scan(data, next, total)
    decreases next - pos
  {
    if pos < next {
      ScanSkips(data, pos + 1, next, total);
    }
  }

  lemma {:induction false} LargestGranuleMeaning(pages: seq<Page>, atLeast: int)
    ensures var g := LargestGranule(pages, atLeast);
      && g >= atLeast && (forall i :: 0 <= i < |pages| ==> g >= pages[i].granule)
      && (g == atLeast || exists i :: 0 <= i < |pages| && g == pages[i].granule)
    decreases |pages|
  {
    if |pages| > 0 {
      LargestGranuleMeaning(pages[1..], Max(atLeast, pages[0].granule));
      assert forall i :: 1 <= i < |pages| ==> pages[i] == pages[1..][i - 1];
    }
  }

  lemma DropFirst(a: seq<byte>, b: seq<byte>, c: seq<byte>)
    ensures (a + b + c)[|a|..] == b + c
  {
  }

  /** On leading bytes that hold no page start, then any list of well-formed pages, then fewer
      bytes than a header: the scan visits exactly the page starts, and its result is the larger
      of 0 and the greatest granule position. */
  lemma ScanFindsAllPages(junk: seq<byte>, pages: seq<Page>, tail: seq<byte>)
    requires AllWellFormed(pages) && |tail| < HEADER
    requires |junk| > 0 ==> |pages| > 0
    requires forall i :: 0 <= i < |junk| ==> !MagicAt(junk + Encode(pages) + tail, i)
    ensures Scan(junk + Encode(pages) + tail, 0, 0) == (Starts(pages, |junk|), LargestGranule(pages, 0))
  {
    var data := junk + Encode(pages) + tail;
    DropFirst(junk, Encode(pages), tail);
    if |junk| > 0 {
      assert |Encode(pages)| >= HEADER;
      ScanSkips(data, 0, |junk|, 0);
    }
    EncodedPagesAt(data, |junk|, pages, tail);
    ScanOfPages(data, |junk|, pages, 0);
  }
}
