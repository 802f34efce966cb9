// How the MMU of cpu splits a logical address, and why the pieces never leave the page tables.
module Mmu {
  import opened Paging

  datatype Address = Address(segment: nat, segmentOffset: nat, page: nat, offset: nat)

  // segment_max_size
  function Span(entries: nat, pageSize: nat): (span: nat)
    requires entries > 0 && pageSize > 0
    ensures span > 0
  {
    FrameFits(entries, pageSize, 0);
    entries * pageSize
  }

  // mmu
  function Split(dl: nat, entries: nat, pageSize: nat): Address
    requires entries > 0 && pageSize > 0
  {
    var segmentMaxSize := Span(entries, pageSize);
    var segmentOffset := dl % segmentMaxSize;
    Address(dl / segmentMaxSize, segmentOffset, segmentOffset / pageSize, segmentOffset % pageSize)
  }

  function Join(a: Address, entries: nat, pageSize: nat): int {
    a.segment * (entries * pageSize) + a.page * pageSize + a.offset
  }

  ghost predicate InRange(a: Address, entries: nat, pageSize: nat) {
    && a.page < entries && a.offset < pageSize && a.segmentOffset == a.page * pageSize + a.offset
  }

  lemma DivModUnique(q: nat, r: nat, d: nat)
    requires r < d
    ensures (q * d + r) / d == q && (q * d + r) % d == r
  {
    var x := q * d + r;
    var q', r' := x / d, x % d;
    assert q' * d + r' == q * d + r;
    if q' < q { FrameFits(q, d, q'); }
    if q < q' { FrameFits(q', d, q); }
  }

  // Splitting loses nothing and every piece is in range.
  lemma SplitJoin(dl: nat, entries: nat, pageSize: nat)
    requires entries > 0 && pageSize > 0
    ensures var a := Split(dl, entries, pageSize);
            InRange(a, entries, pageSize) && Join(a, entries, pageSize) == dl
  {
    var a := Split(dl, entries, pageSize);
    assert a.segmentOffset == a.page * pageSize + a.offset;
    if a.page >= entries {
      if a.page > entries { FrameFits(a.page, pageSize, entries); }
      assert false;
    }
  }

  // It is the only way to split: pieces in range come back as they were put together.
  lemma JoinSplit(a: Address, entries: nat, pageSize: nat)
    requires entries > 0 && pageSize > 0 && InRange(a, entries, pageSize)
    ensures Join(a, entries, pageSize) >= 0
    ensures Split(Join(a, entries, pageSize), entries, pageSize) == a
  {
    FrameFits(entries, pageSize, a.page);
    DivModUnique(a.segment, a.segmentOffset, entries * pageSize);
    DivModUnique(a.page, a.offset, pageSize);
  }

  // A page is in the table built for a segment exactly when it starts inside the segment.
  lemma PageInTableIff(page: nat, size: nat, pageSize: nat)
    requires pageSize > 0
    ensures page < PagesFor(size, pageSize) <==> page * pageSize < size
  {
    var n := PagesFor(size, pageSize);
    var r := (size + pageSize - 1) % pageSize;
    assert size + pageSize - 1 == n * pageSize + r;
    if page < n { FrameFits(n, pageSize, page); }
    if n < page { FrameFits(page, pageSize, n); }
  }

  // So an address that passes the segment-size check never indexes past its page table.
  lemma CheckedPageInTable(dl: nat, entries: nat, pageSize: nat, size: nat)
    requires entries > 0 && pageSize > 0
    requires Split(dl, entries, pageSize).segmentOffset < size
    ensures Split(dl, entries, pageSize).page < PagesFor(size, pageSize)
  {
    SplitJoin(dl, entries, pageSize);
    PageInTableIff(Split(dl, entries, pageSize).page, size, pageSize);
  }

  // The bytes of a word that does not run off its page are the next offsets of that page.
  lemma SplitWord(dl: nat, entries: nat, pageSize: nat, i: nat)
    requires entries > 0 && pageSize > 0 && Split(dl, entries, pageSize).offset + i < pageSize
    ensures var a := Split(dl, entries, pageSize);
            Split(dl + i, entries, pageSize) == Address(a.segment, a.segmentOffset + i, a.page, a.offset + i)
  {
    SplitJoin(dl, entries, pageSize);
    var a := Split(dl, entries, pageSize);
    JoinSplit(Address(a.segment, a.segmentOffset + i, a.page, a.offset + i), entries, pageSize);
  }

  // Two logical addresses with the same pieces are the same address.
  lemma SplitInjective(x: nat, y: nat, entries: nat, pageSize: nat)
    requires entries > 0 && pageSize > 0
    requires var a, b := Split(x, entries, pageSize), Split(y, entries, pageSize);
             a.segment == b.segment && a.page == b.page && a.offset == b.offset
    ensures x == y
  {
    SplitJoin(x, entries, pageSize);
    SplitJoin(y, entries, pageSize);
  }
}
