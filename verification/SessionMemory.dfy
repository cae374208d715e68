/** Which session owns which block of shared memory. */
module SessionMemory {
  import opened BlockList
  import opened Platform
  import opened Shm

  const PAGE_SIZE := 0x1000
  const SIZE_LIMIT := 0x1_0000_0000_0000_0000
  const PAGES_LIMIT := 0x1_0000_0000

  /** A size in bytes, as an unsigned long of 64 bits. */
  type Size = n: int | 0 <= n < SIZE_LIMIT

  /** The pages asked for: rounded up in 64 bits, passed on in 32. */
  function PagesFor(size: Size): nat {
    (size + PAGE_SIZE - 1) % SIZE_LIMIT / PAGE_SIZE % PAGES_LIMIT
  }

  /** The pages asked for hold the size asked for exactly if that is at most
      2^32 - 1 pages; and then they are the fewest that do. (A size of 2^44
      bytes, for one, asks for no pages at all.) */
  lemma PagesForEnough(size: Size)
    ensures PagesFor(size) * PAGE_SIZE >= size <==> size <= (PAGES_LIMIT - 1) * PAGE_SIZE
    ensures size <= (PAGES_LIMIT - 1) * PAGE_SIZE ==> PagesFor(size) * PAGE_SIZE < size + PAGE_SIZE
    ensures 0 < size <= (PAGES_LIMIT - 1) * PAGE_SIZE ==> PagesFor(size) > 0
    ensures PagesFor(0x1000_0000_0000) == 0
  {
  }

  /** Every session's block is in use, and no two sessions share one. */
  ghost predicate Held(mem: seq<Node?>, live: set<Node>) {
    && (forall i :: 0 <= i < |mem| && mem[i] != null ==> mem[i] in live)
    && (forall i, j :: 0 <= i < j < |mem| && mem[i] != null ==> mem[i] != mem[j])
  }

  /** Every block in use belongs to a session. */
  ghost predicate Complete(mem: seq<Node?>, live: set<Node>) {
    forall m :: m in live ==> m in mem
  }

  class Sessions {
    const shm: Allocator
    /** The block of each session, if any. */
    var mem: seq<Node?>

    ghost predicate Valid()
      reads this, shm, shm.nodes
    {
      && |mem| == SESSIONS
      && shm.Valid()
      && Held(mem, Live(shm.nodes))
    }

    /** No block in use is forgotten: blocks in use and sessions' blocks correspond
        one to one. */
    ghost predicate NothingForgotten()
      reads this, shm, shm.nodes
    {
      Complete(mem, Live(shm.nodes))
    }

    /** Where the block of session `i` lies, and its pages; nothing if it has none. */
    function Extent(i: nat): (nat, nat)
      requires i < |mem|
      reads this, mem[i]
    {
      if mem[i] == null then (0, 0) else (mem[i].offset, mem[i].pages)
    }

    constructor (shm: Allocator)
      requires shm.Valid() && Live(shm.nodes) == {}
      ensures Valid() && NothingForgotten() && this.shm == shm && forall i :: 0 <= i < SESSIONS ==> mem[i] == null
    {
      this.shm := shm;
      mem := seq(SESSIONS, _ => null);
    }

    /** Session `i` owns the new block, which has joined the blocks `live`. */
    method Adopt(i: nat, block: Node, ghost live: set<Node>)
      requires |mem| == SESSIONS && i < SESSIONS && mem[i] == null && shm.Valid() && Held(mem, live)
      requires block !in live && Live(shm.nodes) == live + {block}
      modifies this`mem
      ensures Valid() && mem == old(mem)[i := block]
      ensures Complete(old(mem), live) ==> NothingForgotten()
    {
      GiveOwner(mem, live, i, block);
      hide Held, Complete;
      mem := mem[i := block];
    }

    /** Allocating memory for session `i`. */
    method Alloc(i: nat, size: Size, interrupted: bool, kmalloc: bool) returns (ret: int)
      requires Valid() && i < SESSIONS
      modifies this, shm, shm.nodes
      ensures Valid() && (old(NothingForgotten()) ==> NothingForgotten())
      ensures old(mem[i]) != null <==> ret == -EEXIST
      ensures old(mem[i]) == null && size == 0 <==> ret == -EINVAL
      // It succeeds exactly if the walk finds a block, which is first fit for positive
      // sizes unless an empty block in use divides the fit.
      ensures ret == -ERESTARTSYS <==> old(mem[i]) == null && size != 0 && interrupted
      ensures var out := Walk(old(shm.blocks), PagesFor(size), kmalloc);
              && (ret == 0 <==> old(mem[i]) == null && size != 0 && !interrupted && out.Found?)
              && (ret == -ENOMEM <==> old(mem[i]) == null && size != 0 && !interrupted && !out.Found?)
      ensures var (free, n) := (old(FreePages(shm.blocks)), PagesFor(size));
              old(mem[i]) == null && !interrupted && kmalloc && n > 0 && old(Undivided(shm.blocks, n)) ==>
                && (ret == 0 <==> exists a :: Fits(free, a, n))
                && (ret == 0 ==> mem[i] != null && FirstFit(free, mem[i].offset, n))
      ensures ret != 0 ==> mem == old(mem)
      ensures ret == 0 ==>
                && mem == old(mem)[i := mem[i]]
                && mem[i] != null && mem[i].pages == PagesFor(size)
      ensures forall m :: m in old(Live(shm.nodes)) ==> m.Value() == old(m.Value())
    {
      hide Undivided, FirstFitOutcome, FreePages, Walk, Fits, FirstFit, Held, Complete, Represents, Partition;
      if mem[i] != null {
        return -EEXIST;
      }
      if size == 0 {
        return -EINVAL;
      }
      ghost var blocks, n := shm.blocks, PagesFor(size);
      ghost var out := Walk(blocks, n, kmalloc);
      FitsIffFound(blocks, n, out);
      var block;
      ret, block := shm.Alloc(PagesFor(size), interrupted, kmalloc);
      if ret == 0 {
        Adopt(i, block, old(Live(shm.nodes)));
      } else {
        assert Live(shm.nodes) == old(Live(shm.nodes));
      }
    }

    /** What closing a session, or finding it terminated, does with its memory:
        the session forgets the block even if the allocator's semaphore was not
        obtained. The correspondence survives exactly if that did not happen. */
    method Release(i: nat, interrupted: bool)
      requires Valid() && i < SESSIONS
      modifies this`mem, shm`blocks, if mem[i] == null then {} else {mem[i]}
      ensures Valid() && mem == old(mem)[i := null] && shm.nodes == old(shm.nodes)
      ensures old(NothingForgotten()) ==> (NothingForgotten() <==> old(mem[i]) == null || !interrupted)
      ensures Live(shm.nodes)
           == old(Live(shm.nodes)) - (if old(mem[i]) != null && !interrupted then {old(mem[i])} else {})
      ensures forall m :: m in Live(shm.nodes) ==> m.Value() == old(m.Value())
    {
      ghost var freed := mem[i] != null && !interrupted;
      FreeBlock(i, interrupted, freed);
      Disown(i, old(Live(shm.nodes)), freed);
    }

    method FreeBlock(i: nat, interrupted: bool, ghost freed: bool)
      requires Valid() && i < SESSIONS && freed == (mem[i] != null && !interrupted)
      modifies shm`blocks, if mem[i] == null then {} else {mem[i]}
      ensures shm.Valid() && shm.nodes == old(shm.nodes)
      ensures Live(shm.nodes) == old(Live(shm.nodes)) - if freed then {mem[i]} else {}
      ensures forall m :: m in Live(shm.nodes) ==> m.Value() == old(m.Value())
    {
      assert mem[i] != null ==> mem[i] in Live(shm.nodes);
      hide Held;
      var ret := shm.Free(mem[i], interrupted);
    }

    /** Session `i` has no block any more, which may (`freed`) have left the blocks `live`. */
    method Disown(i: nat, ghost live: set<Node>, ghost freed: bool)
      requires |mem| == SESSIONS && i < SESSIONS && shm.Valid() && Held(mem, live) && (freed ==> mem[i] != null)
      requires Live(shm.nodes) == live - if freed then {mem[i]} else {}
      modifies this`mem
      ensures Valid() && mem == old(mem)[i := null]
      ensures Complete(old(mem), live) ==> (NothingForgotten() <==> freed || old(mem[i]) == null)
    {
      Forget(mem, live, i, freed);
      hide Held, Complete;
      mem := mem[i := null];
    }

    /** Sessions' pages do not overlap and are none of the reserved ones. */
    lemma PagesDisjoint(i: nat, j: nat)
      requires Valid() && i < j < SESSIONS && mem[i] != null && mem[j] != null
      ensures mem[i].offset + mem[i].pages <= mem[j].offset || mem[j].offset + mem[j].pages <= mem[i].offset
      ensures RESERVED_PAGES <= mem[i].offset && mem[i].offset + mem[i].pages <= shm.total
      ensures RESERVED_PAGES <= mem[j].offset && mem[j].offset + mem[j].pages <= shm.total
    {
      var m, n := mem[i], mem[j];
      assert m in Live(shm.nodes) && n in Live(shm.nodes) && m != n;
      var x :| 0 <= x < |shm.nodes| && shm.nodes[x] == m;
      var y :| 0 <= y < |shm.nodes| && shm.nodes[y] == n;
      assert shm.nodes[x].Value() == shm.blocks[x] && shm.nodes[y].Value() == shm.blocks[y];
      PartitionDisjoint(shm.blocks, RESERVED_PAGES, shm.total, if x < y then x else y, if x < y then y else x);
      PartitionBounds(shm.blocks, RESERVED_PAGES, shm.total);
    }
  }

  /** With memory for a split, first fit finds a block exactly if there are pages for it. */
  lemma FitsIffFound(blocks: seq<Block>, n: nat, out: Outcome)
    ensures FirstFitOutcome(FreePages(blocks), n, true, out) ==>
              && (out.Found? <==> exists a :: Fits(FreePages(blocks), a, n))
              && (out.Found? ==> out.at < |out.blocks| && FirstFit(FreePages(blocks), out.blocks[out.at].offset, n))
  {
    hide Fits, FreePages;
  }

  lemma GiveOwner(mem: seq<Node?>, live: set<Node>, i: nat, m: Node)
    requires Held(mem, live) && i < |mem| && mem[i] == null && m !in live
    ensures Held(mem[i := m], live + {m})
    ensures Complete(mem, live) ==> Complete(mem[i := m], live + {m})
  {
    var mem' := mem[i := m];
    if Complete(mem, live) {
      forall n | n in live + {m}
        ensures n in mem'
      {
        if n == m {
          assert mem'[i] == m;
        } else {
          var j :| 0 <= j < |mem| && mem[j] == n;
          assert mem'[j] == n;
        }
      }
    }
  }

  /** Session `i` forgets its block, which may (`freed`) leave the blocks in use. */
  lemma Forget(mem: seq<Node?>, live: set<Node>, i: nat, freed: bool)
    requires Held(mem, live) && i < |mem| && (freed ==> mem[i] != null)
    ensures var live' := live - if freed then {mem[i]} else {};
            && Held(mem[i := null], live')
            && (Complete(mem, live) ==> (Complete(mem[i := null], live') <==> freed || mem[i] == null))
  {
    var mem', live' := mem[i := null], live - if freed then {mem[i]} else {};
    if mem[i] == null {
      assert mem' == mem;
    } else {
      assert mem[i] in live && mem[i] !in mem';
      if Complete(mem, live) {
        forall n | n in live - {mem[i]}
          ensures n in mem'
        {
          var j :| 0 <= j < |mem| && mem[j] == n;
          assert mem'[j] == n;
        }
      }
    }
  }
}
