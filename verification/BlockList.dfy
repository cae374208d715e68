/** The shared-memory allocator's list of blocks as a value: what one walk of the
    allocator does to it, and why that is first fit over a set of free pages. */
module BlockList {

  /** Pages that hold the layout of the communication area; never allocated. */
  const RESERVED_PAGES := 3

  datatype Block = Block(free: bool, offset: nat, pages: nat)

  /** The list after a walk; on success also the position of the new block. */
  datatype Outcome = Found(at: nat, blocks: seq<Block>) | NoMemory(blocks: seq<Block>)

  /** `out`, for a walk that passed the blocks `before` first. */
  function After(before: seq<Block>, out: Outcome): Outcome {
    match out
    case Found(at, bs) => Found(|before| + at, before + bs)
    case NoMemory(bs) => NoMemory(before + bs)
  }

  /** Walking `bs` for `n` pages. Adjacent free blocks are merged only as the
      walk needs them; what is left of a block goes to the next block if that is
      free, and otherwise to a new one, for which memory is needed (`kmalloc`). */
  function Walk(bs: seq<Block>, n: nat, kmalloc: bool): Outcome
    decreases |bs|
  {
    if bs == [] then NoMemory(bs)
    else
      var b := bs[0];
      if !b.free then After([b], Walk(bs[1..], n, kmalloc))
      else if b.pages == n then Found(0, [b.(free := false)] + bs[1..])
      else if b.pages < n then
        if |bs| == 1 then NoMemory(bs)
        else if bs[1].free then Walk([b.(pages := b.pages + bs[1].pages)] + bs[2..], n, kmalloc)
        else After(bs[..2], Walk(bs[2..], n, kmalloc))
      else if |bs| > 1 && bs[1].free then
        var grown := Block(true, b.offset + n, bs[1].pages + (b.pages - n));
        Found(0, [Block(false, b.offset, n), grown] + bs[2..])
      else if kmalloc then
        Found(0, [Block(false, b.offset, n), Block(true, b.offset + n, b.pages - n)] + bs[1..])
      else NoMemory(bs)
  }

  // ----- A list partitions a range of pages -----

  /** The blocks of `bs` follow one another from page `lo` up to page `hi`. */
  ghost predicate Partition(bs: seq<Block>, lo: nat, hi: nat)
    decreases |bs|
  {
    if bs == [] then lo == hi else bs[0].offset == lo && Partition(bs[1..], lo + bs[0].pages, hi)
  }

  ghost predicate NoEmptyLive(bs: seq<Block>) {
    forall i :: 0 <= i < |bs| && !bs[i].free ==> bs[i].pages > 0
  }

  predicate Within(p: int, offset: nat, n: nat) { offset <= p < offset + n }

  /** The pages of a block. */
  function Span(offset: nat, n: nat): set<int> {
    set p | offset <= p < offset + n && Within(p, offset, n)
  }

  function FreePages(bs: seq<Block>): set<int>
    decreases |bs|
  {
    if bs == [] then {}
    else (if bs[0].free then Span(bs[0].offset, bs[0].pages) else {}) + FreePages(bs[1..])
  }

  lemma {:induction false} PartitionBounds(bs: seq<Block>, lo: nat, hi: nat)
    requires Partition(bs, lo, hi)
    ensures lo <= hi
    ensures forall p :: p in FreePages(bs) ==> lo <= p < hi
    ensures forall i :: 0 <= i < |bs| ==> lo <= bs[i].offset && bs[i].offset + bs[i].pages <= hi
    decreases |bs|
  {
    if bs != [] {
      PartitionBounds(bs[1..], lo + bs[0].pages, hi);
    }
  }

  /** Blocks at different places never overlap. */
  lemma {:induction false} PartitionDisjoint(bs: seq<Block>, lo: nat, hi: nat, i: nat, j: nat)
    requires Partition(bs, lo, hi) && i < j < |bs|
    ensures bs[i].offset + bs[i].pages <= bs[j].offset
    decreases |bs|
  {
    PartitionBounds(bs[1..], lo + bs[0].pages, hi);
    if i > 0 {
      PartitionDisjoint(bs[1..], lo + bs[0].pages, hi, i - 1, j - 1);
    } else {
      assert bs[1..][j - 1] == bs[j];
    }
  }

  /** Changing the blocks behind `before` keeps the partition if it does there. */
  lemma {:induction false} PartitionSplit(before: seq<Block>, bs: seq<Block>, lo: nat, mid: nat, hi: nat)
    requires Partition(before, lo, mid)
    ensures Partition(before + bs, lo, hi) <==> Partition(bs, mid, hi)
    decreases |before|
  {
    if before == [] {
      assert before + bs == bs;
    } else {
      assert (before + bs)[1..] == before[1..] + bs;
      PartitionSplit(before[1..], bs, lo + before[0].pages, mid, hi);
    }
  }

  lemma {:induction false} FreePagesSplit(before: seq<Block>, bs: seq<Block>)
    ensures FreePages(before + bs) == FreePages(before) + FreePages(bs)
    decreases |before|
  {
    if before == [] {
      assert before + bs == bs;
    } else {
      assert (before + bs)[1..] == before[1..] + bs;
      FreePagesSplit(before[1..], bs);
    }
  }

  // ----- First fit -----

  predicate Fits(free: set<int>, a: int, n: nat) {
    forall p :: a <= p < a + n ==> p in free
  }

  /** `a` is the lowest page from which `n` pages in a row are free; for
      positive `n`, a maximal run of free pages therefore starts at `a`. */
  ghost predicate FirstFit(free: set<int>, a: int, n: nat) {
    Fits(free, a, n) && forall a' :: a' < a ==> !Fits(free, a', n)
  }

  /** What the outcome of an allocation of `n` pages from the free pages `free`
      promises about pages. */
  ghost predicate FirstFitOutcome(free: set<int>, n: nat, kmalloc: bool, out: Outcome) {
    match out
    case Found(at, bs) =>
      && at < |bs| && !bs[at].free && bs[at].pages == n
      && FirstFit(free, bs[at].offset, n)
      && FreePages(bs) == free - Span(bs[at].offset, n)
    case NoMemory(bs) =>
      && FreePages(bs) == free
      // Nothing fits; or the first fit is a longer run and cannot be split.
      && ((forall a :: !Fits(free, a, n))
          || (!kmalloc && exists a :: FirstFit(free, a, n) && a + n in free))
  }

  /** A maximal run of free pages starts at a first fit. */
  lemma FirstFitStartsRun(free: set<int>, a: int, n: nat)
    requires n > 0 && FirstFit(free, a, n)
    ensures a in free && a - 1 !in free
  {
    assert Fits(free, a, n);
    if a - 1 in free {
      assert Fits(free, a - 1, n);
    }
  }

  /** The free pages of the part of a list that a walk has passed cannot start a
      fit, so it finds in the rest what there is to find. */
  lemma FirstFitBeyond(passed: set<int>, rest: set<int>, n: nat, edge: int, kmalloc: bool,
                       before: seq<Block>, out: Outcome)
    requires n > 0 && FirstFitOutcome(rest, n, kmalloc, out)
    requires forall p :: p in passed ==> p < edge
    requires forall p :: p in rest ==> edge <= p
    requires forall a :: a in passed ==> !Fits(passed + rest, a, n)
    requires FreePages(before) == passed
    ensures FirstFitOutcome(passed + rest, n, kmalloc, After(before, out))
  {
    var free := passed + rest;
    forall a
      ensures Fits(free, a, n) <==> Fits(rest, a, n)
    {
      if Fits(free, a, n) {
        assert a in free && a in rest;
        assert forall p :: a <= p < a + n ==> p in free && edge <= p;
      }
    }
    FreePagesSplit(before, out.blocks);
    match out
    case Found(at, bs) =>
      var b := bs[at];
      assert (before + bs)[|before| + at] == b;
      assert forall p :: b.offset <= p < b.offset + n ==> p in rest;
      assert FreePages(before + bs) == free - Span(b.offset, n);
    case NoMemory(bs) =>
      if !(forall a :: !Fits(rest, a, n)) {
        var a :| FirstFit(rest, a, n) && a + n in rest;
        assert FirstFit(free, a, n) && a + n in free;
      }
  }

  /** Merging two adjacent free blocks changes neither pages nor partition. */
  lemma Merge(bs: seq<Block>, lo: nat, hi: nat)
    requires |bs| >= 2 && bs[0].free && bs[1].free && Partition(bs, lo, hi)
    ensures var merged := [bs[0].(pages := bs[0].pages + bs[1].pages)] + bs[2..];
            && Partition(merged, lo, hi) && FreePages(merged) == FreePages(bs)
  {
    var merged := [bs[0].(pages := bs[0].pages + bs[1].pages)] + bs[2..];
    assert bs[1..][1..] == bs[2..] == merged[1..];
    assert Partition(bs[1..], lo + bs[0].pages, hi);
    assert Span(bs[0].offset, bs[0].pages) + Span(bs[1].offset, bs[1].pages)
        == Span(bs[0].offset, bs[0].pages + bs[1].pages);
  }

  /** The walk keeps a partition a partition. */
  lemma {:induction false} WalkPartitions(bs: seq<Block>, n: nat, kmalloc: bool, lo: nat, hi: nat)
    requires Partition(bs, lo, hi)
    ensures Partition(Walk(bs, n, kmalloc).blocks, lo, hi)
    decreases |bs|
  {
    if bs != [] {
      var b := bs[0];
      if !b.free {
        WalkPartitions(bs[1..], n, kmalloc, lo + b.pages, hi);
        var rest := Walk(bs[1..], n, kmalloc).blocks;
        assert ([b] + rest)[1..] == rest;
      } else if b.pages < n && |bs| > 1 && bs[1].free {
        Merge(bs, lo, hi);
        WalkPartitions([b.(pages := b.pages + bs[1].pages)] + bs[2..], n, kmalloc, lo, hi);
      } else if b.pages < n && |bs| > 1 {
        var mid := lo + b.pages + bs[1].pages;
        TwoPartition(bs, lo, hi);
        WalkPartitions(bs[2..], n, kmalloc, mid, hi);
        PartitionSplit(bs[..2], Walk(bs[2..], n, kmalloc).blocks, lo, mid, hi);
      } else if b.pages >= n {
        SettledPartition(bs, n, kmalloc, lo, hi);
      }
    }
  }

  lemma TwoPartition(bs: seq<Block>, lo: nat, hi: nat)
    requires |bs| >= 2 && Partition(bs, lo, hi)
    ensures Partition(bs[..2], lo, lo + bs[0].pages + bs[1].pages)
    ensures Partition(bs[2..], lo + bs[0].pages + bs[1].pages, hi)
  {
    assert bs[1..][1..] == bs[2..];
    assert bs[..2][1..] == [bs[1]];
    assert Partition([bs[1]][1..], lo + bs[0].pages + bs[1].pages, lo + bs[0].pages + bs[1].pages);
  }

  lemma SettledPartition(bs: seq<Block>, n: nat, kmalloc: bool, lo: nat, hi: nat)
    requires bs != [] && bs[0].free && bs[0].pages >= n && Partition(bs, lo, hi)
    ensures Partition(Walk(bs, n, kmalloc).blocks, lo, hi)
  {
    var out := Walk(bs, n, kmalloc).blocks;
    if bs[0].pages == n {
      assert out[1..] == bs[1..];
    } else if |bs| > 1 && bs[1].free {
      assert out[1..][1..] == bs[2..] == bs[1..][1..];
    } else if kmalloc {
      assert out[1..][1..] == bs[1..];
    }
  }

  /** The walk ends at the first block: it is large enough. */
  lemma SettledFirstFit(bs: seq<Block>, n: nat, kmalloc: bool, lo: nat, hi: nat)
    requires n > 0 && bs != [] && bs[0].free && bs[0].pages >= n && Partition(bs, lo, hi)
    ensures FirstFitOutcome(FreePages(bs), n, kmalloc, Walk(bs, n, kmalloc))
  {
    PartitionBounds(bs, lo, hi);
    var rest := lo + bs[0].pages;
    PartitionBounds(bs[1..], rest, hi);
    var out := Walk(bs, n, kmalloc).blocks;
    var free := FreePages(bs);
    assert Fits(free, lo, n) by {
      assert forall p :: Within(p, lo, bs[0].pages) ==> p in free;
    }
    forall a | a < lo
      ensures !Fits(free, a, n)
    {
      assert a !in free;
    }
    assert FirstFit(free, lo, n);
    if bs[0].pages == n {
      assert out[1..] == bs[1..];
      assert FreePages(out) == free - Span(lo, n);
    } else if |bs| > 1 && bs[1].free {
      DonatedPages(bs, n, lo, hi, out);
    } else if kmalloc {
      SplitPages(bs, n, lo, hi, out);
    } else {
      assert lo + n in free by {
        assert Within(lo + n, lo, bs[0].pages);
      }
    }
  }

  lemma DonatedPages(bs: seq<Block>, n: nat, lo: nat, hi: nat, out: seq<Block>)
    requires |bs| >= 2 && bs[0].free && bs[1].free && bs[0].pages > n && Partition(bs, lo, hi)
    requires out == [Block(false, lo, n), Block(true, lo + n, bs[1].pages + (bs[0].pages - n))] + bs[2..]
    ensures FreePages(out) == FreePages(bs) - Span(lo, n)
  {
    TwoPartition(bs, lo, hi);
    PartitionBounds(bs[2..], lo + bs[0].pages + bs[1].pages, hi);
    Merge(bs, lo, hi);
    var merged := [bs[0].(pages := bs[0].pages + bs[1].pages)] + bs[2..];
    assert merged[1..] == bs[2..];
    assert out[1..][1..] == bs[2..];
    assert FreePages(out) == FreePages(out[1..]);
    CutPages(lo, n, bs[0].pages + bs[1].pages, FreePages(bs[2..]));
  }

  lemma SplitPages(bs: seq<Block>, n: nat, lo: nat, hi: nat, out: seq<Block>)
    requires bs != [] && bs[0].free && bs[0].pages > n && Partition(bs, lo, hi)
    requires out == [Block(false, lo, n), Block(true, lo + n, bs[0].pages - n)] + bs[1..]
    ensures FreePages(out) == FreePages(bs) - Span(lo, n)
  {
    PartitionBounds(bs[1..], lo + bs[0].pages, hi);
    assert out[1..][1..] == bs[1..];
    assert FreePages(out) == FreePages(out[1..]);
    CutPages(lo, n, bs[0].pages, FreePages(bs[1..]));
  }

  lemma CutPages(lo: nat, n: nat, m: nat, beyond: set<int>)
    requires n <= m && forall p :: p in beyond ==> lo + m <= p
    ensures Span(lo + n, m - n) + beyond == Span(lo, m) + beyond - Span(lo, n)
  {
  }

  /** The empty block in use `b` lies inside the `n` pages from `a` on. */
  predicate Divides(b: Block, a: int, n: nat) { !b.free && b.pages == 0 && a < b.offset < a + n }

  /** No empty block in use lies inside the lowest `n` free pages in a row. */
  ghost predicate Undivided(bs: seq<Block>, n: nat) {
    forall a, i :: 0 <= i < |bs| && FirstFit(FreePages(bs), a, n) ==> !Divides(bs[i], a, n)
  }

  lemma {:induction false} UndividedIsFirstFit(bs: seq<Block>, n: nat, kmalloc: bool, lo: nat, hi: nat)
    requires n > 0 && Partition(bs, lo, hi) && Undivided(bs, n)
    ensures FirstFitOutcome(FreePages(bs), n, kmalloc, Walk(bs, n, kmalloc))
    decreases |bs|
  {
    if bs == [] {
      assert forall a :: !Fits({}, a, n) by {
        TooShort({}, 0, 0, n);
      }
    } else {
      var b := bs[0];
      PartitionBounds(bs[1..], lo + b.pages, hi);
      if !b.free {
        assert {} + FreePages(bs[1..]) == FreePages(bs);
        UndividedBehind(bs, 1, n, lo + b.pages, {});
        UndividedIsFirstFit(bs[1..], n, kmalloc, lo + b.pages, hi);
        assert FreePages([b]) == {};
        FirstFitBeyond({}, FreePages(bs[1..]), n, lo + b.pages, kmalloc, [b], Walk(bs[1..], n, kmalloc));
      } else if b.pages >= n {
        SettledFirstFit(bs, n, kmalloc, lo, hi);
      } else if |bs| == 1 {
        assert FreePages(bs) == Span(lo, b.pages);
        TooShort(Span(lo, b.pages), lo, lo + b.pages, n);
      } else if bs[1].free {
        Merge(bs, lo, hi);
        UndividedMerged(bs, n);
        UndividedIsFirstFit([b.(pages := b.pages + bs[1].pages)] + bs[2..], n, kmalloc, lo, hi);
      } else {
        SkippedFirstFit(bs, n, lo, hi);
        var mid := lo + b.pages + bs[1].pages;
        TwoPartition(bs, lo, hi);
        UndividedBehind(bs, 2, n, mid, Span(lo, b.pages));
        UndividedIsFirstFit(bs[2..], n, kmalloc, mid, hi);
        FirstFitBeyond(Span(lo, b.pages), FreePages(bs[2..]), n, mid, kmalloc, bs[..2], Walk(bs[2..], n, kmalloc));
      }
    }
  }

  /** What is undivided stays so without the first `k` blocks, in whose free pages
      nothing fits. */
  lemma UndividedBehind(bs: seq<Block>, k: nat, n: nat, edge: int, passed: set<int>)
    requires n > 0 && k <= |bs| && Undivided(bs, n)
    requires FreePages(bs) == passed + FreePages(bs[k..])
    requires forall p :: p in FreePages(bs[k..]) ==> edge <= p
    requires forall p :: p in passed ==> p < edge
    requires forall a :: a in passed ==> !Fits(FreePages(bs), a, n)
    ensures Undivided(bs[k..], n)
  {
    var free, rest := FreePages(bs), FreePages(bs[k..]);
    forall a, i | 0 <= i < |bs[k..]| && FirstFit(rest, a, n)
      ensures !Divides(bs[k..][i], a, n)
    {
      forall a' | a' < a
        ensures !Fits(free, a', n)
      {
        if Fits(free, a', n) {
          assert a' in free && a' in rest;
          assert Fits(rest, a', n);
        }
      }
      assert FirstFit(free, a, n) && bs[k..][i] == bs[k + i];
    }
  }

  lemma UndividedMerged(bs: seq<Block>, n: nat)
    requires |bs| >= 2 && bs[0].free && bs[1].free && Undivided(bs, n)
    requires var merged := [bs[0].(pages := bs[0].pages + bs[1].pages)] + bs[2..]; FreePages(merged) == FreePages(bs)
    ensures Undivided([bs[0].(pages := bs[0].pages + bs[1].pages)] + bs[2..], n)
  {
    var merged := [bs[0].(pages := bs[0].pages + bs[1].pages)] + bs[2..];
    forall a, i | 0 <= i < |merged| && FirstFit(FreePages(merged), a, n)
      ensures !Divides(merged[i], a, n)
    {
      if i > 0 {
        assert merged[i] == bs[i + 1];
      }
    }
  }

  /** What `out` found starts at or behind `lo`, and `b` does not start inside it. */
  ghost predicate ClearOf(out: Outcome, n: nat, lo: nat, b: Block) {
    out.Found? ==>
      && out.at < |out.blocks| && lo <= out.blocks[out.at].offset
      && !(out.blocks[out.at].offset < b.offset < out.blocks[out.at].offset + n)
  }

  /** No block in use, even an empty one, starts inside what a walk finds. */
  lemma {:induction false} FoundIsUndivided(bs: seq<Block>, n: nat, kmalloc: bool, lo: nat, hi: nat, b: Block)
    requires Partition(bs, lo, hi) && b in bs && !b.free
    ensures ClearOf(Walk(bs, n, kmalloc), n, lo, b)
    decreases |bs|
  {
    if bs[0].free && bs[0].pages >= n {
      SettledIsUndivided(bs, n, kmalloc, lo, hi, b);
    } else if !bs[0].free {
      OnePartition(bs, lo, hi);
      if b in bs[1..] {
        FoundIsUndivided(bs[1..], n, kmalloc, lo + bs[0].pages, hi, b);
      }
      FoundBehind(bs, 1, n, kmalloc, lo, lo + bs[0].pages, hi, b);
      assert bs[..1] == [bs[0]];
    } else if |bs| > 1 {
      TwoPartition(bs, lo, hi);
      if bs[1].free {
        Merge(bs, lo, hi);
        assert bs == [bs[0], bs[1]] + bs[2..];
        FoundIsUndivided([bs[0].(pages := bs[0].pages + bs[1].pages)] + bs[2..], n, kmalloc, lo, hi, b);
      } else {
        if b in bs[2..] {
          FoundIsUndivided(bs[2..], n, kmalloc, lo + bs[0].pages + bs[1].pages, hi, b);
        }
        FoundBehind(bs, 2, n, kmalloc, lo, lo + bs[0].pages + bs[1].pages, hi, b);
      }
    }
  }

  lemma OnePartition(bs: seq<Block>, lo: nat, hi: nat)
    requires bs != [] && Partition(bs, lo, hi)
    ensures Partition(bs[..1], lo, lo + bs[0].pages) && Partition(bs[1..], lo + bs[0].pages, hi)
  {
    assert bs[..1][1..] == [];
  }

  lemma SettledIsUndivided(bs: seq<Block>, n: nat, kmalloc: bool, lo: nat, hi: nat, b: Block)
    requires Partition(bs, lo, hi) && b in bs && !b.free && bs[0].free && bs[0].pages >= n
    ensures ClearOf(Walk(bs, n, kmalloc), n, lo, b)
  {
    PartitionBounds(bs[1..], lo + bs[0].pages, hi);
    assert bs == [bs[0]] + bs[1..] && b in bs[1..];
  }

  /** The walk has passed the first `k` blocks. */
  lemma FoundBehind(bs: seq<Block>, k: nat, n: nat, kmalloc: bool, lo: nat, mid: nat, hi: nat, b: Block)
    requires k <= |bs| && Partition(bs[..k], lo, mid) && Partition(bs[k..], mid, hi) && b in bs
    requires b in bs[k..] ==> ClearOf(Walk(bs[k..], n, kmalloc), n, mid, b)
    ensures ClearOf(After(bs[..k], Walk(bs[k..], n, kmalloc)), n, lo, b)
  {
    PartitionBounds(bs[..k], lo, mid);
    WalkFinds(bs[k..], n, kmalloc);
    WalkPartitions(bs[k..], n, kmalloc, mid, hi);
    PartitionBounds(Walk(bs[k..], n, kmalloc).blocks, mid, hi);
    assert bs == bs[..k] + bs[k..];
    assert b in bs[k..] || b in bs[..k];
    hide Partition, Walk;
  }

  lemma FirstFitIsUndivided(bs: seq<Block>, n: nat, lo: nat, hi: nat)
    requires n > 0 && Partition(bs, lo, hi) && FirstFitOutcome(FreePages(bs), n, true, Walk(bs, n, true))
    ensures Undivided(bs, n)
  {
    var free, out := FreePages(bs), Walk(bs, n, true);
    forall a, i | 0 <= i < |bs| && FirstFit(free, a, n)
      ensures !Divides(bs[i], a, n)
    {
      assert Fits(free, a, n);
      assert out.Found?;
      var x := out.blocks[out.at].offset;
      assert Fits(free, x, n);
      assert x == a;
      if !bs[i].free {
        FoundIsUndivided(bs, n, true, lo, hi, bs[i]);
      }
    }
  }

  /** For a positive number of pages the walk is first fit over the free pages (it
      takes the lowest run that is long enough, removes exactly the pages it
      returns, and leaves the free pages alone when it fails) if no empty block in
      use lies inside the lowest free pages in a row that would do; and, unless
      memory for splitting a block is missing, only if. */
  lemma WalkIsFirstFit(bs: seq<Block>, n: nat, kmalloc: bool, lo: nat, hi: nat)
    requires n > 0 && Partition(bs, lo, hi)
    ensures Undivided(bs, n) ==> FirstFitOutcome(FreePages(bs), n, kmalloc, Walk(bs, n, kmalloc))
    ensures kmalloc ==> (FirstFitOutcome(FreePages(bs), n, true, Walk(bs, n, true)) <==> Undivided(bs, n))
    ensures NoEmptyLive(bs) ==> Undivided(bs, n)
  {
    if Undivided(bs, n) {
      UndividedIsFirstFit(bs, n, kmalloc, lo, hi);
    }
    if kmalloc && FirstFitOutcome(FreePages(bs), n, true, Walk(bs, n, true)) {
      FirstFitIsUndivided(bs, n, lo, hi);
    }
  }

  /** A request for no pages changes no page: it returns an empty block, or fails. */
  lemma {:induction false} NoPagesTaken(bs: seq<Block>, kmalloc: bool, lo: nat, hi: nat)
    requires Partition(bs, lo, hi)
    ensures FreePages(Walk(bs, 0, kmalloc).blocks) == FreePages(bs)
    ensures Walk(bs, 0, kmalloc).Found? ==> exists i :: 0 <= i < |bs| && bs[i].free
    ensures kmalloc && Walk(bs, 0, kmalloc).NoMemory? ==> forall i :: 0 <= i < |bs| ==> !bs[i].free
    decreases |bs|
  {
    if bs != [] {
      var out := Walk(bs, 0, kmalloc);
      if !bs[0].free {
        NoPagesTaken(bs[1..], kmalloc, lo + bs[0].pages, hi);
        var rest := Walk(bs[1..], 0, kmalloc).blocks;
        assert ([bs[0]] + rest)[1..] == rest;
      } else if bs[0].pages == 0 {
        assert out.blocks[1..] == bs[1..];
        assert Span(bs[0].offset, 0) == {};
      } else if |bs| > 1 && bs[1].free {
        DonatedPages(bs, 0, lo, hi, out.blocks);
      } else if kmalloc {
        SplitPages(bs, 0, lo, hi, out.blocks);
      }
    }
  }

  /** Within fewer than `n` pages nothing fits, and neither does a run that
      starts there and would have to go on past page `hi`, which is not free. */
  lemma TooShort(free: set<int>, lo: int, hi: int, n: nat)
    requires 0 < n && hi - lo < n && hi !in free
    requires forall p :: p in free && p < hi ==> lo <= p
    ensures forall a :: a < hi ==> !Fits(free, a, n)
    ensures (forall p :: p in free ==> p < hi) ==> forall a :: !Fits(free, a, n)
  {
    forall a
      ensures Fits(free, a, n) ==> hi <= a && a in free
    {
      assert Fits(free, a, n) ==> a in free;
      assert Fits(free, a, n) && lo <= a < hi ==> hi in free;
    }
  }

  /** A free block that is too small, followed by one in use. */
  lemma SkippedFirstFit(bs: seq<Block>, n: nat, lo: nat, hi: nat)
    requires |bs| >= 2 && bs[0].free && bs[0].pages < n && !bs[1].free && Partition(bs, lo, hi) && Undivided(bs, n)
    ensures FreePages(bs[..2]) == Span(lo, bs[0].pages)
    ensures FreePages(bs) == Span(lo, bs[0].pages) + FreePages(bs[2..])
    ensures forall a :: a in Span(lo, bs[0].pages) ==> !Fits(FreePages(bs), a, n)
    ensures forall p :: p in FreePages(bs[2..]) ==> lo + bs[0].pages + bs[1].pages <= p
  {
    TwoPartition(bs, lo, hi);
    PartitionBounds(bs[2..], lo + bs[0].pages + bs[1].pages, hi);
    assert bs[..2] + bs[2..] == bs;
    FreePagesSplit(bs[..2], bs[2..]);
    assert bs[..2][1..] == [bs[1]];
    assert FreePages([bs[1]]) == {};
    if bs[1].pages > 0 {
      TooShort(FreePages(bs), lo, lo + bs[0].pages, n);
    } else {
      forall a | a in Span(lo, bs[0].pages)
        ensures !Fits(FreePages(bs), a, n)
      {
        NothingDivided(bs, n, lo, hi, a);
      }
    }
  }

  /** Otherwise a fit from `a` would make the empty block behind divide one from `lo`. */
  lemma NothingDivided(bs: seq<Block>, n: nat, lo: nat, hi: nat, a: int)
    requires |bs| >= 2 && bs[0].free && bs[0].pages < n && !bs[1].free && bs[1].pages == 0
    requires Partition(bs, lo, hi) && Undivided(bs, n) && lo <= a < lo + bs[0].pages
    ensures !Fits(FreePages(bs), a, n)
  {
    var free := FreePages(bs);
    PartitionBounds(bs, lo, hi);
    if Fits(free, a, n) {
      assert forall p :: Within(p, lo, bs[0].pages) ==> p in free;
      assert forall p :: lo <= p < lo + n ==> Within(p, lo, bs[0].pages) || a <= p < a + n;
      assert Fits(free, lo, n);
      assert forall a' :: a' < lo && Fits(free, a', n) ==> a' in free;
      assert FirstFit(free, lo, n) && Divides(bs[1], lo, n);
    }
  }

  // ----- What becomes of the blocks in use -----

  lemma {:induction false} WalkKeeps(bs: seq<Block>, n: nat, kmalloc: bool, b: Block)
    requires b in bs && !b.free
    ensures b in Walk(bs, n, kmalloc).blocks
    decreases |bs|
  {
    assert bs == [bs[0]] + bs[1..];
    if !bs[0].free {
      if b in bs[1..] {
        WalkKeeps(bs[1..], n, kmalloc, b);
      }
    } else if bs[0].pages < n && |bs| > 1 {
      assert bs == [bs[0], bs[1]] + bs[2..];
      if bs[1].free {
        WalkKeeps([bs[0].(pages := bs[0].pages + bs[1].pages)] + bs[2..], n, kmalloc, b);
      } else if b in bs[2..] {
        WalkKeeps(bs[2..], n, kmalloc, b);
      }
    } else if |bs| > 1 {
      assert bs == [bs[0], bs[1]] + bs[2..];
    }
  }

  lemma LiveInMerged(bs: seq<Block>, b: Block)
    requires |bs| > 1 && !b.free && b in [bs[0].(pages := bs[0].pages + bs[1].pages)] + bs[2..] && bs[0].free
    ensures b in bs
  {
  }

  lemma {:induction false} WalkAdds(bs: seq<Block>, n: nat, kmalloc: bool, i: nat)
    requires i < |Walk(bs, n, kmalloc).blocks| && !Walk(bs, n, kmalloc).blocks[i].free
    ensures var out := Walk(bs, n, kmalloc);
            out.blocks[i] in bs || (out.Found? && i == out.at)
    decreases |bs|
  {
    if bs != [] {
      var b := bs[0];
      if !b.free {
        if i > 0 {
          WalkAdds(bs[1..], n, kmalloc, i - 1);
        }
      } else if b.pages < n && |bs| > 1 {
        if bs[1].free {
          var merged := [b.(pages := b.pages + bs[1].pages)] + bs[2..];
          WalkAdds(merged, n, kmalloc, i);
          if Walk(bs, n, kmalloc).blocks[i] in merged {
            LiveInMerged(bs, Walk(bs, n, kmalloc).blocks[i]);
          }
        } else if i > 1 {
          WalkAdds(bs[2..], n, kmalloc, i - 2);
        }
      }
    }
  }

  lemma {:induction false} WalkFinds(bs: seq<Block>, n: nat, kmalloc: bool)
    ensures var out := Walk(bs, n, kmalloc);
            out.Found? ==> out.at < |out.blocks| && !out.blocks[out.at].free && out.blocks[out.at].pages == n
    decreases |bs|
  {
    if bs != [] {
      var b := bs[0];
      if !b.free {
        WalkFinds(bs[1..], n, kmalloc);
      } else if b.pages < n && |bs| > 1 {
        if bs[1].free {
          WalkFinds([b.(pages := b.pages + bs[1].pages)] + bs[2..], n, kmalloc);
        } else {
          WalkFinds(bs[2..], n, kmalloc);
        }
      }
    }
  }

  /** The walk leaves every block in use as it is and puts at most one more into
      the list: the one it returns. */
  lemma WalkKeepsLive(bs: seq<Block>, n: nat, kmalloc: bool)
    ensures var out := Walk(bs, n, kmalloc);
            && (out.Found? ==> out.at < |out.blocks| && !out.blocks[out.at].free && out.blocks[out.at].pages == n)
            && (forall b :: b in bs && !b.free ==> b in out.blocks)
            && (forall i :: 0 <= i < |out.blocks| && !out.blocks[i].free ==>
                  out.blocks[i] in bs || (out.Found? && i == out.at))
  {
    var out := Walk(bs, n, kmalloc);
    WalkFinds(bs, n, kmalloc);
    forall b | b in bs && !b.free ensures b in out.blocks { WalkKeeps(bs, n, kmalloc, b); }
    forall i | 0 <= i < |out.blocks| && !out.blocks[i].free
      ensures out.blocks[i] in bs || (out.Found? && i == out.at)
    {
      WalkAdds(bs, n, kmalloc, i);
    }
  }

  /** An allocation leaves no block in use empty exactly if it fails or asks for
      at least one page. */
  lemma NoEmptyLiveKept(bs: seq<Block>, n: nat, kmalloc: bool)
    requires NoEmptyLive(bs)
    ensures NoEmptyLive(Walk(bs, n, kmalloc).blocks) <==> Walk(bs, n, kmalloc).NoMemory? || n > 0
  {
    WalkKeepsLive(bs, n, kmalloc);
  }

  /** Why it matters: an empty block in use, which a request for no pages leaves
      behind, keeps its two free neighbours from being merged, so five free pages
      in a row are not found. */
  lemma EmptyLiveSeparates()
    ensures var full := [Block(true, 3, 5)];
            var one := Walk(full, 2, true).blocks;
            var two := Walk(one, 0, true).blocks;
            var three := [two[0].(free := true)] + two[1..];
            && Walk(three, 5, true).NoMemory? && Fits(FreePages(three), 3, 5)
  {
    var full := [Block(true, 3, 5)];
    var live, rest := Block(false, 3, 2), Block(true, 5, 3);
    var one := Walk(full, 2, true).blocks;
    assert one == [live, rest];
    assert one[1..] == [rest];
    assert Walk([rest], 0, true) == Found(0, [Block(false, 5, 0), rest]);
    var two := Walk(one, 0, true).blocks;
    assert two == [live, Block(false, 5, 0), rest];
    var free := Block(true, 3, 2);
    var three := [free] + two[1..];
    assert three == [free, Block(false, 5, 0), rest];
    assert three[2..] == [rest] && three[1..] == [Block(false, 5, 0), rest] && three[1..][1..] == [rest];
    assert [rest][1..] == [];
    assert FreePages([rest]) == Span(5, 3);
    assert FreePages(three[1..]) == FreePages([rest]);
    assert FreePages(three) == Span(3, 2) + Span(5, 3);
    assert forall p :: 3 <= p < 8 ==> Within(p, 3, 2) || Within(p, 5, 3);
  }

  // ----- Sequences of allocations and releases -----

  datatype Op = Take(n: nat, kmalloc: bool) | Give(block: Block)

  /** Releasing marks the block free and changes nothing else. */
  function Release(bs: seq<Block>, block: Block): (r: seq<Block>)
    ensures |r| == |bs|
    ensures forall i :: 0 <= i < |bs| ==> r[i] == if bs[i] == block then bs[i].(free := true) else bs[i]
  {
    seq(|bs|, i requires 0 <= i < |bs| => if bs[i] == block then bs[i].(free := true) else bs[i])
  }

  function Apply(bs: seq<Block>, op: Op): seq<Block> {
    match op
    case Take(n, kmalloc) => Walk(bs, n, kmalloc).blocks
    case Give(block) => Release(bs, block)
  }

  function ApplyAll(bs: seq<Block>, ops: seq<Op>): seq<Block>
    decreases |ops|
  {
    if ops == [] then bs else Apply(ApplyAll(bs, ops[..|ops| - 1]), ops[|ops| - 1])
  }

  lemma {:induction false} ReleasePartitions(bs: seq<Block>, block: Block, lo: nat, hi: nat)
    requires Partition(bs, lo, hi)
    ensures Partition(Release(bs, block), lo, hi)
    decreases |bs|
  {
    if bs != [] {
      ReleasePartitions(bs[1..], block, lo + bs[0].pages, hi);
      assert Release(bs, block)[1..] == Release(bs[1..], block);
    }
  }

  /** Releasing a non-empty block in use makes exactly its pages free. */
  lemma {:induction false} ReleasePages(bs: seq<Block>, block: Block, lo: nat, hi: nat)
    requires Partition(bs, lo, hi) && block in bs && !block.free
    ensures FreePages(Release(bs, block)) == FreePages(bs) + Span(block.offset, block.pages)
    decreases |bs|
  {
    var out := Release(bs, block);
    assert out[1..] == Release(bs[1..], block);
    if block in bs[1..] {
      ReleasePages(bs[1..], block, lo + bs[0].pages, hi);
    } else {
      assert bs == [bs[0]] + bs[1..];
      assert out[1..] == bs[1..];
    }
  }

  ghost predicate NoEmpty(bs: seq<Block>) {
    forall i :: 0 <= i < |bs| ==> bs[i].pages > 0
  }

  lemma {:induction false} NoEmptyKept(bs: seq<Block>, n: nat, kmalloc: bool)
    requires NoEmpty(bs) && n > 0
    ensures NoEmpty(Walk(bs, n, kmalloc).blocks)
    decreases |bs|
  {
    if bs != [] {
      if !bs[0].free {
        NoEmptyKept(bs[1..], n, kmalloc);
      } else if bs[0].pages < n && |bs| > 1 {
        if bs[1].free {
          NoEmptyKept([bs[0].(pages := bs[0].pages + bs[1].pages)] + bs[2..], n, kmalloc);
        } else {
          NoEmptyKept(bs[2..], n, kmalloc);
        }
      }
    }
  }

  /** Unless pages are asked for by the zero, and unless there are none at all, all
      blocks, free or in use, are non-empty over any sequence of operations. */
  lemma {:induction false} AlwaysNonEmpty(total: nat, ops: seq<Op>)
    requires total > RESERVED_PAGES && forall i :: 0 <= i < |ops| && ops[i].Take? ==> ops[i].n > 0
    ensures NoEmpty(ApplyAll([Block(true, RESERVED_PAGES, total - RESERVED_PAGES)], ops))
    decreases |ops|
  {
    if ops != [] {
      var k := |ops| - 1;
      AlwaysNonEmpty(total, ops[..k]);
      if ops[k].Take? {
        var bs := ApplyAll([Block(true, RESERVED_PAGES, total - RESERVED_PAGES)], ops[..k]);
        NoEmptyKept(bs, ops[k].n, ops[k].kmalloc);
      }
    }
  }

  /** Over any sequence of allocations and releases that starts from the one
      initial block, the list partitions the pages behind the reserved ones, its
      first block stays in place, and no block in use is empty as long as no
      allocation asks for zero pages. */
  lemma {:induction false} AlwaysPartition(total: nat, ops: seq<Op>)
    requires total >= RESERVED_PAGES
    ensures var bs := ApplyAll([Block(true, RESERVED_PAGES, total - RESERVED_PAGES)], ops);
            && Partition(bs, RESERVED_PAGES, total) && bs != [] && bs[0].offset == RESERVED_PAGES
            && ((forall i :: 0 <= i < |ops| && ops[i].Take? ==> ops[i].n > 0) ==> NoEmptyLive(bs))
    decreases |ops|
  {
    var init := [Block(true, RESERVED_PAGES, total - RESERVED_PAGES)];
    if ops == [] {
      assert init[1..] == [];
    } else {
      var k := |ops| - 1;
      AlwaysPartition(total, ops[..k]);
      var bs := ApplyAll(init, ops[..k]);
      match ops[k]
      case Take(n, kmalloc) =>
        WalkPartitions(bs, n, kmalloc, RESERVED_PAGES, total);
        WalkNotEmpty(bs, n, kmalloc);
        WalkKeepsLive(bs, n, kmalloc);
      case Give(block) =>
        ReleasePartitions(bs, block, RESERVED_PAGES, total);
    }
  }

  lemma {:induction false} WalkNotEmpty(bs: seq<Block>, n: nat, kmalloc: bool)
    requires bs != []
    ensures Walk(bs, n, kmalloc).blocks != []
    decreases |bs|
  {
    if bs[0].free && bs[0].pages < n && |bs| > 1 && bs[1].free {
      WalkNotEmpty([bs[0].(pages := bs[0].pages + bs[1].pages)] + bs[2..], n, kmalloc);
    }
  }

  /** A block in use keeps its place and its size through any sequence of
      allocations and releases of other blocks. */
  lemma {:induction false} LiveUntilReleased(bs: seq<Block>, ops: seq<Op>, b: Block)
    requires b in bs && !b.free && Give(b) !in ops
    ensures b in ApplyAll(bs, ops)
    decreases |ops|
  {
    if ops != [] {
      var k := |ops| - 1;
      assert ops == ops[..k] + [ops[k]];
      LiveUntilReleased(bs, ops[..k], b);
      var before := ApplyAll(bs, ops[..k]);
      match ops[k]
      case Take(n, kmalloc) => WalkKeepsLive(before, n, kmalloc);
      case Give(block) =>
        var i :| 0 <= i < |before| && before[i] == b;
        assert Release(before, block)[i] == b;
    }
  }
}
