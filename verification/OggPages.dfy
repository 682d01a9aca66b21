/**
  getOpusDuration of common/audio.go: walk the pages of an Ogg stream (section 6 of RFC 3533) and keep the largest
  granule position (section 4 of RFC 7845).
 */
module OggPages {
  import opened Base
  import opened ByteFile

  const OGGS: seq<Byte> := [0x4F, 0x67, 0x67, 0x53]
  const HEADER := 27

  function SumOf(table: seq<Byte>): (n: nat) {
    if table == [] then 0 else SumOf(table[..|table| - 1]) + table[|table| - 1]
  }

  /** binary.LittleEndian. */
  function FromLittle(s: seq<Byte>): (n: nat) {
    if s == [] then 0 else s[0] + 256 * FromLittle(s[1..])
  }

  const TWO_63 := 0x8000_0000_0000_0000
  const TWO_64 := 0x1_0000_0000_0000_0000

  /** int64(uint64): the upper half of the range is negative. */
  function Signed(n: int): (g: int) {
    if n < TWO_63 then n else n - TWO_64
  }

  function GranuleAt(data: seq<Byte>, pos: nat): (g: int)
    requires pos + HEADER <= |data|
  {
    Signed(FromLittle(data[pos + 6..pos + 14]))
  }

  predicate MagicAt(data: seq<Byte>, pos: nat) {
    pos + 4 <= |data| && data[pos..pos + 4] == OGGS
  }

  function Max(a: int, b: int): (m: int) {
    if b > a then b else a
  }

  /** What one round of the loop finds at the cursor. */
  datatype Round =
    | End                                      // fewer bytes than a header are left
    | Search(next: nat)                        // no page here: go on one byte later
    | Found(granule: int, after: Option<nat>)  // a page; None when the file ends inside its segment table

  /** Where the page body ends behind a segment table of n entries; None when the file ends inside the table. */
  function AfterTable(data: seq<Byte>, pos: nat, n: nat): (r: Option<nat>) {
    if pos + n > |data| then None else Some(pos + n + SumOf(data[pos..pos + n]))
  }

  function RoundAt(data: seq<Byte>, pos: nat): (r: Round)
    ensures r.Search? ==> pos < r.next
    ensures r.Found? && r.after.Some? ==> pos < r.after.value
    ensures !r.End? ==> pos < |data|
  {
    if pos + HEADER > |data| then End
    else if !MagicAt(data, pos) then Search(pos + 1)
    else Found(GranuleAt(data, pos), AfterTable(data, pos + HEADER, data[pos + 26]))
  }

  /** The positions at which the walk recognises a page, and the largest granule position. */
  datatype Scan = Scan(stops: seq<nat>, granule: int)

  function Walk(data: seq<Byte>, pos: nat, best: int): (r: Scan)
    decreases |data| - pos
  {
    match RoundAt(data, pos)
    case End => Scan([], best)
    case Search(next) => Walk(data, next, best)
    case Found(g, next) =>
      if next == None then Scan([pos], Max(best, g))
      else
        var rest := Walk(data, next.value, Max(best, g));
        Scan([pos] + rest.stops, rest.granule)
  }

  /** The size of a page body is the sum over its segments, however the table is cut. */
  lemma {:induction false} SumOfParts(a: seq<Byte>, b: seq<Byte>)
    ensures SumOf(a + b) == SumOf(a) + SumOf(b)
  {
    if b == [] {
      assert a + b == a;
    } else {
      assert (a + b)[..|a + b| - 1] == a + b[..|b| - 1];
      SumOfParts(a, b[..|b| - 1]);
    }
  }

  lemma SubSlice(data: seq<Byte>, at: nat, n: nat, i: nat, j: nat)
    requires at + n <= |data| && i <= j <= n
    ensures data[at..at + n][i..j] == data[at + i..at + j]
  {
    var a, b := data[at..at + n][i..j], data[at + i..at + j];
    assert |a| == |b| && forall k :: 0 <= k < |a| ==> a[k] == data[at + i + k] == b[k];
  }

  lemma RoundOfPage(data: seq<Byte>, at: nat, table: seq<Byte>)
    requires at + HEADER + |table| <= |data| && MagicAt(data, at) && data[at + 26] == |table|
    requires data[at + HEADER..at + HEADER + |table|] == table
    ensures RoundAt(data, at) == Found(GranuleAt(data, at), Some(at + HEADER + |table| + SumOf(table)))
  {
  }

  /** One round of the loop: read a header, recognise it, skip the page. */
  method NextRound(f: File) returns (r: Round)
    modifies f
    ensures r == RoundAt(f.data, old(f.pos))
    ensures r.Search? ==> f.pos == r.next
    ensures r.Found? && r.after.Some? ==> f.pos == r.after.value
  {
    ghost var at := f.pos;
    var buf, eof := f.Read(HEADER);
    if eof || |buf| < HEADER { return End; }
    assert buf == f.data[at..at + HEADER];
    SubSlice(f.data, at, HEADER, 0, 4);
    if buf[..4] != OGGS {
      var back := f.Seek(-26, 1);
      return Search(f.pos);
    }
    SubSlice(f.data, at, HEADER, 6, 14);
    var granule := Signed(FromLittle(buf[6..14]));
    var after := SkipPage(f, buf[26]);
    return Found(granule, after);
  }

  /** Read the segment table and skip the body it announces. */
  method SkipPage(f: File, n: nat) returns (after: Option<nat>)
    requires f.pos <= |f.data|
    modifies f
    ensures after == AfterTable(f.data, old(f.pos), n)
    ensures after.Some? ==> f.pos == after.value
  {
    ghost var at := f.pos;
    var table := f.ReadFull(n);
    if table == None { return None; }
    assert table.value == f.data[at..at + n];
    var pageSize := SumTable(table.value);
    var skipped := f.Seek(pageSize, 1);
    return Some(f.pos);
  }

  /** getOpusDuration; the loop ends on every input because the cursor strictly advances. */
  method GetOpusDuration(f: File) returns (granule: int, seconds: real, ghost stops: seq<nat>)
    modifies f
    ensures Scan(stops, granule) == Walk(f.data, 0, 0)
    ensures seconds == granule as real / 48000.0
  {
    var start := f.Seek(0, 0);
    granule, stops := WalkFile(f);
    seconds := granule as real / 48000.0;
  }

  /** The pages found so far, and what a walk from here still finds, make up the whole walk. */
  ghost predicate Reached(data: seq<Byte>, stops: seq<nat>, pos: nat, best: int) {
    var r := Walk(data, pos, best);
    Walk(data, 0, 0) == Scan(stops + r.stops, r.granule)
  }

  lemma ReachedSearch(data: seq<Byte>, stops: seq<nat>, pos: nat, best: int)
    requires Reached(data, stops, pos, best) && RoundAt(data, pos).Search?
    ensures Reached(data, stops, RoundAt(data, pos).next, best)
  {
  }

  lemma ReachedPage(data: seq<Byte>, stops: seq<nat>, pos: nat, best: int, g: int, next: nat)
    requires Reached(data, stops, pos, best) && RoundAt(data, pos) == Found(g, Some(next))
    ensures Reached(data, stops + [pos], next, Max(best, g))
  {
    var r := Walk(data, next, Max(best, g));
    WalkOne(data, pos, best, g, next);
    assert stops + ([pos] + r.stops) == stops + [pos] + r.stops;
  }

  lemma ReachedEnd(data: seq<Byte>, stops: seq<nat>, pos: nat, best: int)
    requires Reached(data, stops, pos, best) && RoundAt(data, pos).End?
    ensures Walk(data, 0, 0) == Scan(stops, best)
  {
    assert stops + [] == stops;
  }

  lemma ReachedLast(data: seq<Byte>, stops: seq<nat>, pos: nat, best: int, g: int)
    requires Reached(data, stops, pos, best) && RoundAt(data, pos) == Found(g, None)
    ensures Walk(data, 0, 0) == Scan(stops + [pos], Max(best, g))
  {
  }

  /** The loop over the pages. */
  method WalkFile(f: File) returns (granule: int, ghost stops: seq<nat>)
    requires f.pos == 0
    modifies f
    ensures Scan(stops, granule) == Walk(f.data, 0, 0)
  {
    granule, stops := 0, [];
    var more := true;
    while more
      invariant if more then Reached(f.data, stops, f.pos, granule) else Scan(stops, granule) == Walk(f.data, 0, 0)
      decreases more, |f.data| - f.pos
    {
      ghost var at, best := f.pos, granule;
      var r := NextRound(f);
      match r {
        case End =>
          ReachedEnd(f.data, stops, at, best);
          more := false;
        case Search(_) => ReachedSearch(f.data, stops, at, best);
        case Found(g, next) =>
          if g > granule { granule := g; }
          if next == None {
            ReachedLast(f.data, stops, at, best, g);
            more := false;
          } else {
            ReachedPage(f.data, stops, at, best, g, next.value);
          }
          stops := stops + [at];
      }
    }
  }

  method SumTable(table: seq<Byte>) returns (pageSize: nat)
    ensures pageSize == SumOf(table)
  {
    pageSize := 0;
    for k := 0 to |table|
      invariant pageSize == SumOf(table[..k])
    {
      assert table[..k + 1][..k] == table[..k];
      pageSize := pageSize + table[k];
    }
    assert table[..|table|] == table;
  }

  // ---------------------------------------------------------------- the page format

  /** A page: header, segment table, and a body as long as the table says. */
  predicate IsPage(page: seq<Byte>) {
    && HEADER <= |page| && page[..4] == OGGS && HEADER + page[26] <= |page|
    && |page| == HEADER + page[26] + SumOf(page[HEADER..HEADER + page[26]])
  }

  predicate Pages(pages: seq<seq<Byte>>) {
    forall k :: 0 <= k < |pages| ==> IsPage(pages[k])
  }

  function Concat(pages: seq<seq<Byte>>): (s: seq<Byte>) {
    if pages == [] then [] else pages[0] + Concat(pages[1..])
  }

  /** Where the pages start when the first one starts at `at`. */
  function Starts(pages: seq<seq<Byte>>, at: nat): (s: seq<nat>) {
    if pages == [] then [] else [at] + Starts(pages[1..], at + |pages[0]|)
  }

  function LargestGranule(pages: seq<seq<Byte>>, best: int): (g: int)
    requires Pages(pages)
  {
    if pages == [] then best else LargestGranule(pages[1..], Max(best, GranuleAt(pages[0], 0)))
  }

  /** At the start of a page, wherever it lies, a round reads its granule and lands right behind its body. */
  lemma RoundAtPage(data: seq<Byte>, at: nat, page: seq<Byte>)
    requires IsPage(page) && at + |page| <= |data| && data[at..at + |page|] == page
    ensures RoundAt(data, at) == Found(GranuleAt(page, 0), Some(at + |page|))
  {
    var n := page[26];
    SubSlice(data, at, |page|, 0, 4);
    SubSlice(data, at, |page|, 6, 14);
    SubSlice(data, at, |page|, HEADER, HEADER + n);
    assert data[at + 26] == data[at..at + |page|][26];
    RoundOfPage(data, at, page[HEADER..HEADER + n]);
  }

  lemma WalkOne(data: seq<Byte>, at: nat, best: int, g: int, next: nat)
    requires RoundAt(data, at) == Found(g, Some(next))
    ensures var rest := Walk(data, next, Max(best, g));
            Walk(data, at, best) == Scan([at] + rest.stops, rest.granule)
  {
  }

  lemma FirstPage(data: seq<Byte>, at: nat, page: seq<Byte>, rest: seq<Byte>)
    requires at <= |data| && data[at..] == page + rest
    ensures at + |page| <= |data| && data[at..at + |page|] == page && data[at + |page|..] == rest
  {
    assert |data[at..]| == |page| + |rest|;
    assert data[at..at + |page|] == data[at..][..|page|];
    assert data[at + |page|..] == data[at..][|page|..];
  }

  /** A run of pages is walked page by page, whatever comes before it and whatever the bodies contain. */
  lemma {:induction false} WalkPages(data: seq<Byte>, at: nat, pages: seq<seq<Byte>>, best: int)
    requires Pages(pages) && at <= |data| && data[at..] == Concat(pages)
    ensures Walk(data, at, best) == Scan(Starts(pages, at), LargestGranule(pages, best))
    decreases |pages|
  {
    if pages == [] {
      assert at == |data|;
    } else {
      var page, g := pages[0], GranuleAt(pages[0], 0);
      FirstPage(data, at, page, Concat(pages[1..]));
      RoundAtPage(data, at, page);
      WalkOne(data, at, best, g, at + |page|);
      WalkPages(data, at + |page|, pages[1..], Max(best, g));
    }
  }

  ghost predicate NoMagic(s: seq<Byte>) {
    forall i: nat :: i + 4 <= |s| ==> !MagicAt(s, i)
  }

  /** "OggS" cannot start in a prefix without it and run over into a page. */
  lemma NoMagicAcross(prefix: seq<Byte>, rest: seq<Byte>, i: nat)
    requires NoMagic(prefix) && i < |prefix| && (rest == [] || (|rest| >= 4 && rest[..4] == OGGS))
    ensures !MagicAt(prefix + rest, i)
  {
    var data := prefix + rest;
    if i + 4 <= |prefix| {
      assert !MagicAt(prefix, i);
      assert data[i..i + 4] == prefix[i..i + 4];
    } else if i + 4 <= |data| {
      assert data[i..i + 4][|prefix| - i] == rest[..4][0];
    }
  }

  lemma {:induction false} SkipPrefix(prefix: seq<Byte>, rest: seq<Byte>, i: nat, best: int)
    requires NoMagic(prefix) && i <= |prefix|
    requires rest == [] || (|rest| >= HEADER && rest[..4] == OGGS)
    ensures Walk(prefix + rest, i, best) == Walk(prefix + rest, |prefix|, best)
    decreases |prefix| - i
  {
    if i < |prefix| {
      NoMagicAcross(prefix, rest, i);
      SkipPrefix(prefix, rest, i + 1, best);
      if i + HEADER > |prefix + rest| { assert |prefix| + HEADER > |prefix + rest|; }
    }
  }

  /**
    Any prefix in which "OggS" does not occur, followed by any pages: the walk stops at exactly the starts of the
    pages, even when bodies contain "OggS", and its result is the largest granule position, or 0.
   */
  lemma WalkStream(prefix: seq<Byte>, pages: seq<seq<Byte>>)
    requires NoMagic(prefix) && Pages(pages)
    ensures Walk(prefix + Concat(pages), 0, 0) == Scan(Starts(pages, |prefix|), LargestGranule(pages, 0))
  {
    if pages != [] { assert Concat(pages)[..4] == pages[0][..4]; }
    SkipPrefix(prefix, Concat(pages), 0, 0);
    assert (prefix + Concat(pages))[|prefix|..] == Concat(pages);
    WalkPages(prefix + Concat(pages), |prefix|, pages, 0);
  }

  lemma {:induction false} LargestGranuleIs(pages: seq<seq<Byte>>, best: int)
    requires Pages(pages)
    ensures var g := LargestGranule(pages, best);
            && g >= best && (forall k :: 0 <= k < |pages| ==> GranuleAt(pages[k], 0) <= g)
            && (g == best || exists k :: 0 <= k < |pages| && GranuleAt(pages[k], 0) == g)
  {
    if pages != [] {
      LargestGranuleIs(pages[1..], Max(best, GranuleAt(pages[0], 0)));
      var g := LargestGranule(pages, best);
      if g != best && GranuleAt(pages[0], 0) != g {
        var k :| 0 <= k < |pages[1..]| && GranuleAt(pages[1..][k], 0) == g;
        assert GranuleAt(pages[k + 1], 0) == g;
      }
      forall k | 0 <= k < |pages| ensures GranuleAt(pages[k], 0) <= g {
        if k > 0 { assert pages[k] == pages[1..][k - 1]; }
      }
    }
  }

  // ---------------------------------------------------------------- writing a page

  function ToLittle(n: nat, width: nat): (s: seq<Byte>)
    ensures |s| == width
  {
    if width == 0 then [] else [n % 256] + ToLittle(n / 256, width - 1)
  }

  function Power(width: nat): (n: nat) {
    if width == 0 then 1 else 256 * Power(width - 1)
  }

  lemma {:induction false} LittleRoundTrip(n: nat, width: nat)
    requires n < Power(width)
    ensures FromLittle(ToLittle(n, width)) == n
  {
    if width > 0 {
      LittleRoundTrip(n / 256, width - 1);
      assert ToLittle(n, width)[1..] == ToLittle(n / 256, width - 1);
    }
  }

  lemma EightBytes()
    ensures Power(8) == TWO_64
  {
    assert Power(2) == 0x1_0000;
    assert Power(4) == 256 * (256 * Power(2));
    assert Power(6) == 256 * (256 * Power(4));
    assert Power(8) == 256 * (256 * Power(6));
  }

  /** Every granule position in the int64 range survives encoding as eight bytes and the signed reading. */
  lemma GranuleRoundTrip(g: int)
    requires -TWO_63 <= g < TWO_63
    ensures Signed(FromLittle(ToLittle(g % TWO_64, 8))) == g
  {
    EightBytes();
    LittleRoundTrip(g % TWO_64, 8);
  }

  /** A page as RFC 3533 lays it out; `ids` holds serial number, page sequence number and checksum. */
  function Encode(version: Byte, flags: Byte, granule: int, ids: seq<Byte>, table: seq<Byte>, body: seq<Byte>): (s: seq<Byte>)
    requires |table| <= 255
  {
    OGGS + [version, flags] + ToLittle(granule % TWO_64, 8) + ids + [|table|] + table + body
  }

  lemma Field(a: seq<Byte>, b: seq<Byte>, c: seq<Byte>)
    ensures (a + b + c)[|a|..|a| + |b|] == b
  {
  }

  /** The fixed header: capture pattern, version and flags, eight bytes of granule position, ids, table length. */
  function Header(head: seq<Byte>, number: seq<Byte>, ids: seq<Byte>, count: Byte): (s: seq<Byte>) {
    head + number + ids + [count]
  }

  lemma HeaderFields(head: seq<Byte>, number: seq<Byte>, ids: seq<Byte>, count: Byte)
    requires |head| == 6 && head[..4] == OGGS && |number| == 8 && |ids| == 12
    ensures var h := Header(head, number, ids, count);
            |h| == HEADER && h[..4] == OGGS && h[6..14] == number && h[26] == count
  {
    var h := Header(head, number, ids, count);
    assert h == head + number + (ids + [count]);
    Field(head, number, ids + [count]);
    assert h[..4] == head[..4];
  }

  lemma Layout(h: seq<Byte>, table: seq<Byte>, body: seq<Byte>)
    requires |h| == HEADER && h[..4] == OGGS && h[26] == |table| && |body| == SumOf(table)
    ensures var page := h + table + body; IsPage(page) && page[6..14] == h[6..14]
  {
    var page := h + table + body;
    Field(h, table, body);
    assert page[..4] == h[..4];
  }

  /** What is written is a page, and the walk reads back the granule position that was written. */
  lemma EncodeRoundTrip(version: Byte, flags: Byte, granule: int, ids: seq<Byte>, table: seq<Byte>, body: seq<Byte>)
    requires -TWO_63 <= granule < TWO_63 && |ids| == 12 && |table| <= 255 && |body| == SumOf(table)
    ensures var page := Encode(version, flags, granule, ids, table, body);
            IsPage(page) && GranuleAt(page, 0) == granule
  {
    var head, number := OGGS + [version, flags], ToLittle(granule % TWO_64, 8);
    assert head[..4] == OGGS;
    HeaderFields(head, number, ids, |table|);
    Layout(Header(head, number, ids, |table|), table, body);
    GranuleRoundTrip(granule);
  }

  /** On every input: the stops ascend, each is a complete header starting with "OggS", and the result is their maximum. */
  lemma {:induction false} WalkOnAnyInput(data: seq<Byte>, pos: nat, best: int)
    ensures var r := Walk(data, pos, best);
            && (forall k :: 0 <= k < |r.stops| ==>
                  pos <= r.stops[k] && r.stops[k] + HEADER <= |data| && MagicAt(data, r.stops[k])
                  && GranuleAt(data, r.stops[k]) <= r.granule)
            && (forall k :: 0 < k < |r.stops| ==> r.stops[k - 1] + HEADER <= r.stops[k])
            && r.granule >= best
            && (r.granule == best || exists k :: 0 <= k < |r.stops| && GranuleAt(data, r.stops[k]) == r.granule)
    decreases |data| - pos
  {
    var r := Walk(data, pos, best);
    match RoundAt(data, pos)
    case End =>
    case Search(next) => WalkOnAnyInput(data, next, best);
    case Found(g, next) =>
      assert r.stops[0] == pos;
      if next.Some? {
        var rest := Walk(data, next.value, Max(best, g));
        WalkOnAnyInput(data, next.value, Max(best, g));
        assert forall k :: 0 < k < |r.stops| ==> r.stops[k] == rest.stops[k - 1];
        if r.granule != best && r.granule != g {
          var k :| 0 <= k < |rest.stops| && GranuleAt(data, rest.stops[k]) == r.granule;
          assert r.stops[k + 1] == rest.stops[k];
        }
      }
  }
}
