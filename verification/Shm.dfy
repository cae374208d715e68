/** The shared-memory block allocator: a linked list of blocks, rewritten in
    place, under one semaphore. Module BlockList says what each operation does
    to the list as a value; here it is done to the list itself. */
module Shm {
  import opened BlockList
  import opened Platform

  class Node {
    var free: bool
    var offset: nat
    var pages: nat
    var next: Node?

    constructor (free: bool, offset: nat, pages: nat, next: Node?)
      ensures this.free == free && this.offset == offset && this.pages == pages && this.next == next
    {
      this.free, this.offset, this.pages, this.next := free, offset, pages, next;
    }

    function Value(): Block
      reads this
    {
      Block(free, offset, pages)
    }
  }

  /** The nodes `ns` are distinct, linked in this order, and hold the blocks `bs`. */
  ghost predicate Represents(ns: seq<Node>, bs: seq<Block>)
    reads ns
  {
    && |ns| == |bs|
    && Distinct(ns)
    && (forall i :: 0 <= i < |ns| ==> ns[i].next == NextOf(ns, i) && ns[i].Value() == bs[i])
  }

  ghost predicate Apart(ns: seq<Node>, i: nat, j: nat)
    requires i < j < |ns|
  {
    ns[i] != ns[j]
  }

  ghost predicate Distinct(ns: seq<Node>) {
    forall i, j :: 0 <= i < j < |ns| ==> Apart(ns, i, j)
  }

  lemma Others(ns: seq<Node>, i: nat)
    requires Distinct(ns) && i < |ns|
    ensures forall j :: 0 <= j < |ns| && j != i ==> ns[j] != ns[i]
  {
    forall j | 0 <= j < |ns| && j != i
      ensures ns[j] != ns[i]
    {
      assert if i < j then Apart(ns, i, j) else Apart(ns, j, i);
    }
  }

  lemma DistinctWithout(ns: seq<Node>, i: nat)
    requires Distinct(ns) && i < |ns|
    ensures Distinct(ns[..i] + ns[i + 1..])
  {
    var out := ns[..i] + ns[i + 1..];
    forall j, k | 0 <= j < k < |out|
      ensures Apart(out, j, k)
    {
      assert Apart(ns, if j < i then j else j + 1, if k < i then k else k + 1);
    }
  }

  lemma DistinctWith(ns: seq<Node>, i: nat, m: Node)
    requires Distinct(ns) && i <= |ns| && m !in ns
    ensures Distinct(ns[..i] + [m] + ns[i..])
  {
    var out := ns[..i] + [m] + ns[i..];
    forall j, k | 0 <= j < k < |out|
      ensures Apart(out, j, k)
    {
      if j != i && k != i {
        assert Apart(ns, if j < i then j else j - 1, if k < i then k else k - 1);
      }
    }
  }

  ghost function NextOf(ns: seq<Node>, i: nat): Node?
    requires i < |ns|
  {
    if i + 1 < |ns| then ns[i + 1] else null
  }

  lemma NodeAt(ns: seq<Node>, bs: seq<Block>, i: nat)
    requires Represents(ns, bs) && i < |ns|
    ensures |ns| == |bs| && ns[i].next == NextOf(ns, i) && ns[i].Value() == bs[i]
  {
  }

  /** Node `i + 1` leaves the list and node `i` takes over its block. */
  lemma DropNode(ns: seq<Node>, bs: seq<Block>, i: nat)
    requires |ns| == |bs| && i + 1 < |ns| && Distinct(ns)
    requires forall k :: 0 <= k < |ns| && k != i && k != i + 1 ==> ns[k].next == NextOf(ns, k) && ns[k].Value() == bs[k]
    requires ns[i].next == NextOf(ns, i + 1)
    requires ns[i].Value() == bs[i].(pages := bs[i].pages + bs[i + 1].pages)
    ensures Represents(ns[..i + 1] + ns[i + 2..], Merged(bs, i))
  {
    DistinctWithout(ns, i + 1);
    var out, vs := ns[..i + 1] + ns[i + 2..], Merged(bs, i);
    forall j | 0 <= j < |out|
      ensures out[j].next == NextOf(out, j) && out[j].Value() == vs[j]
    {
      var k := if j <= i then j else j + 1;
      assert out[j] == ns[k] && (k != i ==> ns[k].next == NextOf(ns, k));
    }
  }

  /** Node `i` now holds block `b`. */
  lemma ChangeNode(ns: seq<Node>, bs: seq<Block>, i: nat, b: Block)
    requires |ns| == |bs| && i < |ns| && Distinct(ns)
    requires forall k :: 0 <= k < |ns| ==> ns[k].next == NextOf(ns, k)
    requires forall k :: 0 <= k < |ns| && k != i ==> ns[k].Value() == bs[k]
    requires ns[i].Value() == b
    ensures Represents(ns, bs[i := b])
  {
    hide Distinct;
  }

  /** What is known of the nodes before one of them is changed. */
  lemma BeforeChange(ns: seq<Node>, bs: seq<Block>, i: nat)
    requires Represents(ns, bs) && i < |ns|
    ensures |ns| == |bs| && Distinct(ns)
    ensures forall k :: 0 <= k < |ns| ==> ns[k].next == NextOf(ns, k) && ns[k].Value() == bs[k]
    ensures forall j :: 0 <= j < |ns| && j != i ==> ns[j] != ns[i]
  {
    Others(ns, i);
    hide Distinct;
  }

  /** Pages move from node `i` to node `i + 1`. */
  lemma MoveBetween(ns: seq<Node>, bs: seq<Block>, i: nat, n: nat)
    requires |ns| == |bs| && i + 1 < |ns| && Distinct(ns) && n <= bs[i].pages
    requires forall k :: 0 <= k < |ns| ==> ns[k].next == NextOf(ns, k)
    requires forall k :: 0 <= k < |ns| && k != i && k != i + 1 ==> ns[k].Value() == bs[k]
    requires ns[i].Value() == Donated(bs, i, n)[i] && ns[i + 1].Value() == Donated(bs, i, n)[i + 1]
    ensures Represents(ns, Donated(bs, i, n))
  {
  }

  lemma DonateSettled(ns: seq<Node>, bs: seq<Block>, i: nat, n: nat, kmalloc: bool, out: Outcome)
    requires Represents(ns, bs) && i + 1 < |ns| && ns[i].free && ns[i].pages > n && ns[i + 1].free
    requires LeadsTo(bs, i, n, kmalloc, out)
    ensures forall j :: 0 <= j < |ns| && j != i ==> ns[j] != ns[i]
    ensures forall j :: 0 <= j < |ns| && j != i + 1 ==> ns[j] != ns[i + 1]
    ensures ns[i].Value() == bs[i] && ns[i + 1].Value() == bs[i + 1] && out == Found(i, Donated(bs, i, n))
    ensures |ns| == |bs| && Distinct(ns)
    ensures forall j :: 0 <= j < |ns| ==> ns[j].next == NextOf(ns, j) && ns[j].Value() == bs[j]
  {
    hide Distinct;
    assert ns[i].Value() == bs[i] && ns[i + 1].Value() == bs[i + 1];
    Others(ns, i);
    Others(ns, i + 1);
    Settled(bs, i, n, kmalloc);
  }

  /** A new node joins the list behind node `i`, which keeps `n` pages. */
  lemma AddNode(ns: seq<Node>, bs: seq<Block>, i: nat, n: nat, rest: Node)
    requires |ns| == |bs| && i < |ns| && Distinct(ns) && rest !in ns && n <= bs[i].pages
    requires forall k :: 0 <= k < |ns| && k != i ==> ns[k].next == NextOf(ns, k) && ns[k].Value() == bs[k]
    requires ns[i].next == rest && rest.next == NextOf(ns, i)
    requires ns[i].Value() == Block(false, bs[i].offset, n)
    requires rest.Value() == Block(true, bs[i].offset + n, bs[i].pages - n)
    ensures Represents(ns[..i + 1] + [rest] + ns[i + 1..], Cut(bs, i, n))
  {
    DistinctWith(ns, i + 1, rest);
    var out, vs := ns[..i + 1] + [rest] + ns[i + 1..], Cut(bs, i, n);
    forall j | 0 <= j < |out|
      ensures out[j].next == NextOf(out, j) && out[j].Value() == vs[j]
    {
      if j != i + 1 {
        var k := if j <= i then j else j - 1;
        assert out[j] == ns[k] && (k != i ==> ns[k].next == NextOf(ns, k));
      }
    }
  }

  /** The blocks in use. */
  ghost function Live(ns: seq<Node>): set<Node>
    reads ns
  {
    set m | m in ns && !m.free
  }

  class Allocator {
    const head: Node
    const total: nat
    ghost var nodes: seq<Node>
    ghost var blocks: seq<Block>

    ghost predicate Valid()
      reads this, nodes
    {
      && nodes != [] && nodes[0] == head
      && Represents(nodes, blocks)
      && Partition(blocks, RESERVED_PAGES, total)
    }

    /** The caller has checked that the reserved pages fit. */
    constructor (total: nat)
      requires total >= RESERVED_PAGES
      ensures Valid() && this.total == total && fresh(nodes)
      ensures blocks == [Block(true, RESERVED_PAGES, total - RESERVED_PAGES)]
    {
      var b := new Node(true, RESERVED_PAGES, total - RESERVED_PAGES, null);
      head := b;
      this.total := total;
      nodes := [b];
      blocks := [Block(true, RESERVED_PAGES, total - RESERVED_PAGES)];
      new;
      assert blocks[1..] == [];
    }

    /** The free block at `i` takes over the pages of the free block behind it,
        which leaves the list and is freed. */
    method MergeNext(b: Node, ghost i: nat)
      requires Represents(nodes, blocks) && i + 1 < |nodes| && nodes[i] == b
      modifies this`nodes, this`blocks, b`pages, b`next
      ensures Represents(nodes, blocks)
      ensures nodes == old(nodes[..i + 1] + nodes[i + 2..])
      ensures blocks == old(Merged(blocks, i))
    {
      assert nodes[i].next == nodes[i + 1] && nodes[i + 1].next == NextOf(nodes, i + 1);
      Others(nodes, i);
      var n := b.next;
      b.pages := b.pages + n.pages;
      b.next := n.next;
      DropNode(nodes, blocks, i);
      blocks := Merged(blocks, i);
      nodes := nodes[..i + 1] + nodes[i + 2..];
    }

    /** Merging as a step of the walk, which it does not change the outcome of. */
    method Coalesce(b: Node, n: nat, ghost i: nat, ghost kmalloc: bool, ghost out: Outcome)
      requires Represents(nodes, blocks) && i + 1 < |nodes| && nodes[i] == b
      requires b.free && b.pages < n && nodes[i + 1].free && LeadsTo(blocks, i, n, kmalloc, out)
      modifies this`nodes, this`blocks, b`pages, b`next
      ensures Represents(nodes, blocks)
      ensures i < |nodes| == old(|nodes|) - 1 && nodes[i] == b && nodes[0] == old(nodes[0])
      ensures LeadsTo(blocks, i, n, kmalloc, out)
      ensures forall m :: m in nodes ==> m in old(nodes)
      ensures Live(nodes) == old(Live(nodes)) && forall m :: m in Live(nodes) ==> m.pages == old(m.pages)
    {
      hide LeadsTo, Represents;
      MergeHarmless(nodes, blocks, i, n, kmalloc, out);
      MergeNext(b, i);
    }

    /** `b` has the right size. */
    method Take(b: Node, n: nat, ghost i: nat, ghost kmalloc: bool, ghost out: Outcome)
      requires Represents(nodes, blocks) && i < |nodes| && nodes[i] == b
      requires b.free && b.pages == n && LeadsTo(blocks, i, n, kmalloc, out)
      modifies this`blocks, b`free
      ensures Represents(nodes, blocks)
      ensures Live(nodes) == old(Live(nodes)) + {b}
      ensures forall m :: m in old(Live(nodes)) ==> m.Value() == old(m.Value())
      ensures out == Found(i, blocks)
    {
      BeforeChange(nodes, blocks, i);
      Settled(blocks, i, n, kmalloc);
      assert out == Found(i, blocks[i := blocks[i].(free := false)]);
      hide Represents, Distinct, LeadsTo, Walk, After;
      b.free := false;
      ChangeNode(nodes, blocks, i, blocks[i].(free := false));
      blocks := blocks[i := blocks[i].(free := false)];
    }

    /** What `b` has beyond `n` pages goes to the free block behind it. */
    method Donate(b: Node, next: Node, n: nat, ghost i: nat, ghost kmalloc: bool, ghost out: Outcome)
      requires Represents(nodes, blocks) && i + 1 < |nodes| && nodes[i] == b && nodes[i + 1] == next
      requires b.free && b.pages > n && next.free && LeadsTo(blocks, i, n, kmalloc, out)
      modifies this`blocks, b`pages, b`free, next`pages, next`offset
      ensures Represents(nodes, blocks)
      ensures Live(nodes) == old(Live(nodes)) + {b}
      ensures forall m :: m in old(Live(nodes)) ==> m.Value() == old(m.Value())
      ensures out == Found(i, blocks)
    {
      hide Represents, Distinct, LeadsTo;
      DonateSettled(nodes, blocks, i, n, kmalloc, out);
      next.pages := next.pages + (b.pages - n);
      next.offset := b.offset + n;
      b.pages := n;
      b.free := false;
      MoveBetween(nodes, blocks, i, n);
      blocks := Donated(blocks, i, n);
    }

    /** A new block behind `b` takes over all but `n` of its pages. */
    method SplitOff(b: Node, n: nat, ghost i: nat) returns (rest: Node)
      requires Represents(nodes, blocks) && i < |nodes| && nodes[i] == b
      requires b.pages > n
      modifies this`nodes, this`blocks, b`pages, b`next, b`free
      ensures Represents(nodes, blocks) && !b.free
      ensures nodes == old(nodes[..i + 1]) + [rest] + old(nodes[i + 1..]) && fresh(rest) && rest.free
      ensures nodes[i] == b && nodes[0] == old(nodes[0])
      ensures blocks == old(Cut(blocks, i, n))
    {
      NodeAt(nodes, blocks, i);
      Others(nodes, i);
      rest := new Node(true, b.offset + n, b.pages - n, b.next);
      b.next := rest;
      b.pages := n;
      b.free := false;
      AddNode(nodes, blocks, i, n, rest);
      blocks := Cut(blocks, i, n);
      nodes := nodes[..i + 1] + [rest] + nodes[i + 1..];
    }

    method SplitNode(b: Node, n: nat, ghost i: nat) returns (rest: Node)
      requires Represents(nodes, blocks) && i < |nodes| && nodes[i] == b
      requires b.free && b.pages > n
      modifies this`nodes, this`blocks, b`pages, b`next, b`free
      ensures Represents(nodes, blocks) && fresh(rest)
      ensures |nodes| == old(|nodes|) + 1 && nodes[i] == b && nodes[0] == old(nodes[0])
      ensures forall m :: m in nodes ==> m in old(nodes) || m == rest
      ensures Live(nodes) == old(Live(nodes)) + {b}
      ensures forall m :: m in old(Live(nodes)) ==> m.Value() == old(m.Value())
      ensures blocks == old(Cut(blocks, i, n))
    {
      hide Represents, Cut;
      rest := SplitOff(b, n, i);
      Inserted(old(nodes), i, rest);
    }

    method Split(b: Node, n: nat, ghost i: nat, ghost out: Outcome)
      requires Represents(nodes, blocks) && i < |nodes| && nodes[i] == b
      requires b.free && b.pages > n && (i + 1 < |nodes| ==> !nodes[i + 1].free) && LeadsTo(blocks, i, n, true, out)
      modifies this`nodes, this`blocks, b`pages, b`next, b`free
      ensures Represents(nodes, blocks)
      ensures |nodes| == old(|nodes|) + 1 && nodes[i] == b && nodes[0] == old(nodes[0])
      ensures forall m :: m in nodes ==> m in old(nodes) || fresh(m)
      ensures Live(nodes) == old(Live(nodes)) + {b}
      ensures forall m :: m in old(Live(nodes)) ==> m.Value() == old(m.Value())
      ensures out == Found(i, blocks)
    {
      SplitSettled(nodes, blocks, i, n, out);
      hide LeadsTo, Walk, After, Represents, Cut, Live;
      var rest := SplitNode(b, n, i);
    }

    /** The walk: skips blocks in use and free ones that are too small, merging
        adjacent free ones, and stops at a free block that is large enough, or at
        the last block, or (`b` is null) behind it. */
    method Search(n: nat, ghost kmalloc: bool, ghost out: Outcome) returns (b: Node?, ghost i: nat)
      requires Valid() && out == Walk(blocks, n, kmalloc)
      modifies this`nodes, this`blocks, nodes`pages, nodes`next
      ensures Represents(nodes, blocks) && nodes != [] && nodes[0] == head
      ensures i <= |nodes| && b == if i < |nodes| then nodes[i] else null
      ensures b != null ==> b.free && (b.pages < n ==> b.next == null)
      ensures LeadsTo(blocks, i, n, kmalloc, out)
      ensures forall m :: m in nodes ==> m in old(nodes)
      ensures Live(nodes) == old(Live(nodes)) && forall m :: m in Live(nodes) ==> m.pages == old(m.pages)
    {
      b, i := head, 0;
      AfterNothing(blocks, n, kmalloc);
      hide LeadsTo, Walk, After, Represents, Live, Partition;
      while b != null
        invariant Represents(nodes, blocks) && nodes != [] && nodes[0] == head
        invariant i <= |nodes| && b == if i < |nodes| then nodes[i] else null
        invariant LeadsTo(blocks, i, n, kmalloc, out)
        invariant forall m :: m in nodes ==> m in old(nodes)
        invariant Live(nodes) == old(Live(nodes)) && forall m :: m in Live(nodes) ==> m.pages == old(m.pages)
        decreases |nodes| - i
      {
        var next := b.next;
        NodeAt(nodes, blocks, i);
        if !b.free {
          SkipOne(blocks, i, n, kmalloc, out);
          b, i := next, i + 1;
        } else if b.pages >= n || next == null {
          break;
        } else if next.free {
          assert nodes[i] in old(nodes);
          Coalesce(b, n, i, kmalloc, out);
        } else {
          NodeAt(nodes, blocks, i + 1);
          SkipTwo(blocks, i, n, kmalloc, out);
          b, i := next.next, i + 2;
        }
      }
    }

    /** What is done where the walk stops: take the block `b` as it is, give what
        it has too much to the free block behind it or to a new one, or fail. */
    method Settle(b: Node?, n: nat, kmalloc: bool, ghost i: nat, ghost out: Outcome) returns (ret: int, block: Node?)
      requires Represents(nodes, blocks) && i <= |nodes| && b == if i < |nodes| then nodes[i] else null
      requires b != null ==> b.free && (b.pages < n ==> b.next == null)
      requires LeadsTo(blocks, i, n, kmalloc, out)
      modifies this`nodes, this`blocks, set m | m in nodes
      ensures Represents(nodes, blocks) && old(|nodes|) <= |nodes| && (old(|nodes|) > 0 ==> nodes[0] == old(nodes[0]))
      ensures blocks == out.blocks && (ret == 0 <==> out.Found?)
      ensures if out.Found? then b != null && out.at == i < |nodes| && nodes[i] == b == block
              else ret == -ENOMEM && block == null
      ensures forall m :: m in nodes ==> m in old(nodes) || fresh(m)
      ensures Live(nodes) == old(Live(nodes)) + if ret == 0 then {b} else {}
      ensures forall m :: m in old(Live(nodes)) ==> m.Value() == old(m.Value())
    {
      ret, block := -ENOMEM, null;
      assert b != null ==> b.next == NextOf(nodes, i) && b.Value() == blocks[i];
      if b == null || b.pages < n {
        Exhausted(blocks, i, n, kmalloc);
        return;
      }
      var found := Carve(b, n, kmalloc, i, out);
      if found {
        ret, block := 0, b;
      }
    }

    /** Makes the free block `b`, which is large enough, one of `n` pages in use. */
    method Carve(b: Node, n: nat, kmalloc: bool, ghost i: nat, ghost out: Outcome) returns (found: bool)
      requires Represents(nodes, blocks) && i < |nodes| && nodes[i] == b && b.free && b.pages >= n
      requires LeadsTo(blocks, i, n, kmalloc, out)
      modifies this`nodes, this`blocks, set m | m in nodes
      ensures Represents(nodes, blocks) && old(|nodes|) <= |nodes| && nodes[0] == old(nodes[0])
      ensures if found then out == Found(i, blocks) && nodes[i] == b else out == NoMemory(blocks)
      ensures forall m :: m in nodes ==> m in old(nodes) || fresh(m)
      ensures Live(nodes) == old(Live(nodes)) + if found then {b} else {}
      ensures forall m :: m in old(Live(nodes)) ==> m.Value() == old(m.Value())
    {
      NodeAt(nodes, blocks, i);
      hide LeadsTo, Walk, After, Represents, Live;
      var next := b.next;
      found := true;
      if b.pages == n {
        Take(b, n, i, kmalloc, out);
      } else if next != null && next.free {
        Donate(b, next, n, i, kmalloc, out);
      } else if kmalloc {
        Split(b, n, i, out);
      } else {
        Unsplit(nodes, blocks, i, n, out);
        found := false;
      }
    }

    /** `interrupted`: whether the semaphore was not obtained; `kmalloc`: whether
        memory for one more block is available. */
    method Alloc(n: nat, interrupted: bool, kmalloc: bool) returns (ret: int, block: Node?)
      requires Valid()
      modifies this`nodes, this`blocks, nodes
      ensures Valid()
      ensures interrupted ==> ret == -ERESTARTSYS && block == null && nodes == old(nodes) && blocks == old(blocks)
      ensures !interrupted ==>
                var out := Walk(old(blocks), n, kmalloc);
                && blocks == out.blocks
                && (ret == 0 <==> out.Found?)
                && (if out.Found? then out.at < |nodes| && block == nodes[out.at] else ret == -ENOMEM && block == null)
                && (out.Found? ==> block.Value() == out.blocks[out.at])
                && (n > 0 && old(Undivided(blocks, n)) ==> FirstFitOutcome(old(FreePages(blocks)), n, kmalloc, out))
      // Blocks in use stay in the list, untouched, and only the result joins them.
      ensures Live(nodes) == old(Live(nodes)) + if ret == 0 then {block} else {}
      ensures ret == 0 ==> block !in old(Live(nodes)) && block.pages == n
      ensures ret != 0 ==> block == null
      ensures forall m :: m in old(Live(nodes)) ==> m.Value() == old(m.Value())
      ensures forall m :: m in nodes ==> m in old(nodes) || fresh(m)
    {
      if interrupted {
        return -ERESTARTSYS, null;
      }
      WalkPartitions(blocks, n, kmalloc, RESERVED_PAGES, total);
      WalkFinds(blocks, n, kmalloc);
      if n > 0 {
        WalkIsFirstFit(blocks, n, kmalloc, RESERVED_PAGES, total);
      }
      ghost var out := Walk(blocks, n, kmalloc);
      hide Represents, Live, Partition, Walk, Undivided, FirstFitOutcome, FreePages;
      ret, block := Find(n, kmalloc, out);
      if ret == 0 {
        NodeAt(nodes, blocks, out.at);
      }
    }

    /** The walk and what is done where it stops. */
    method Find(n: nat, kmalloc: bool, ghost out: Outcome) returns (ret: int, block: Node?)
      requires Valid() && out == Walk(blocks, n, kmalloc)
      modifies this`nodes, this`blocks, nodes
      ensures Represents(nodes, blocks) && nodes != [] && nodes[0] == head && blocks == out.blocks
      ensures ret == 0 <==> out.Found?
      ensures if out.Found? then out.at < |nodes| && block == nodes[out.at] else ret == -ENOMEM && block == null
      ensures Live(nodes) == old(Live(nodes)) + if ret == 0 then {block} else {}
      ensures block !in old(Live(nodes))
      ensures forall m :: m in old(Live(nodes)) ==> m.Value() == old(m.Value())
      ensures forall m :: m in nodes ==> m in old(nodes) || fresh(m)
    {
      hide Represents, Partition, Walk, LeadsTo;
      var b, i := Search(n, kmalloc, out);
      ret, block := Settle(b, n, kmalloc, i, out);
    }

    /** Nothing to release is not an error; if interrupted, nothing is released. */
    method Free(b: Node?, interrupted: bool) returns (ret: int)
      requires Valid() && (b != null ==> b in nodes)
      modifies this`blocks, if b == null then {} else {b}
      ensures Valid() && nodes == old(nodes)
      ensures ret == if b != null && interrupted then -ERESTARTSYS else 0
      ensures forall m :: m in nodes ==>
                m.Value() == if m == b && ret == 0 then old(m.Value()).(free := true) else old(m.Value())
      ensures Live(nodes) == if b != null && ret == 0 then old(Live(nodes)) - {b} else old(Live(nodes))
      ensures b == null || ret != 0 ==> blocks == old(blocks)
      ensures b != null && ret == 0 && old(b.free || b.pages > 0) ==> blocks == Release(old(blocks), old(b.Value()))
    {
      hide Live, Allocator.Valid;
      if b == null {
        return 0;
      }
      if interrupted {
        return -ERESTARTSYS;
      }
      MarkFree(b);
      return 0;
    }

    method MarkFree(b: Node)
      requires Valid() && b in nodes
      modifies this`blocks, b`free
      ensures Valid() && b.free && Live(nodes) == old(Live(nodes)) - {b}
      ensures old(b.free || b.pages > 0) ==> blocks == Release(old(blocks), old(b.Value()))
    {
      hide Represents, Live, Partition, Release;
      ghost var i :| 0 <= i < |nodes| && nodes[i] == b;
      FreeFacts(nodes, blocks, i, total);
      SetFree(b, i);
    }

    method SetFree(b: Node, ghost i: nat)
      requires Represents(nodes, blocks) && i < |nodes| && nodes[i] == b
      modifies this`blocks, b`free
      ensures Represents(nodes, blocks) && b.free && Live(nodes) == old(Live(nodes)) - {b}
      ensures blocks == old(blocks)[i := old(blocks)[i].(free := true)]
    {
      hide Represents, Distinct;
      BeforeChange(nodes, blocks, i);
      b.free := true;
      ChangeNode(nodes, blocks, i, blocks[i].(free := true));
      blocks := blocks[i := blocks[i].(free := true)];
    }
  }

  /** Initialisation fails without memory for the first block. */
  method Init(total: nat, kmalloc: bool) returns (ret: int, shm: Allocator?)
    requires total >= RESERVED_PAGES
    ensures ret == (if kmalloc then 0 else -ENOMEM) && (ret == 0 <==> shm != null)
    ensures ret == 0 ==>
              && fresh(shm) && shm.Valid() && shm.total == total && fresh(shm.nodes) && Live(shm.nodes) == {}
              && shm.blocks == [Block(true, RESERVED_PAGES, total - RESERVED_PAGES)]
  {
    if !kmalloc {
      return -ENOMEM, null;
    }
    shm := new Allocator(total);
    ret := 0;
    assert forall m :: m in shm.nodes ==> m.Value() == shm.blocks[0];
  }

  lemma FreeFacts(ns: seq<Node>, bs: seq<Block>, i: nat, total: nat)
    requires Represents(ns, bs) && i < |ns| && Partition(bs, RESERVED_PAGES, total)
    ensures |ns| == |bs| && ns[i].Value() == bs[i]
    ensures Partition(bs[i := bs[i].(free := true)], RESERVED_PAGES, total)
    ensures bs[i].free || bs[i].pages > 0 ==> Release(bs, bs[i]) == bs[i := bs[i].(free := true)]
  {
    assert ns[i].Value() == bs[i];
    FreeAtPartitions(bs, i, RESERVED_PAGES, total);
    if !bs[i].free && bs[i].pages > 0 {
      OnlyOne(bs, i, RESERVED_PAGES, total);
    }
  }

  // ----- Membership in the list -----

  lemma Remaining(ns: seq<Node>, i: nat)
    requires i + 1 < |ns| && ns[i + 1].free
    ensures forall m :: m in ns[..i + 1] + ns[i + 2..] ==> m in ns
    ensures Live(ns[..i + 1] + ns[i + 2..]) == Live(ns)
  {
    assert ns == ns[..i + 1] + [ns[i + 1]] + ns[i + 2..];
  }

  lemma MergeHarmless(ns: seq<Node>, bs: seq<Block>, i: nat, n: nat, kmalloc: bool, out: Outcome)
    requires LeadsTo(bs, i, n, kmalloc, out)
    requires Represents(ns, bs) && i + 1 < |ns| && ns[i].free && ns[i].pages < n && ns[i + 1].free
    ensures forall m :: m in ns[..i + 1] + ns[i + 2..] ==> m in ns
    ensures Live(ns[..i + 1] + ns[i + 2..]) == Live(ns)
    ensures i + 1 < |bs| && LeadsTo(Merged(bs, i), i, n, kmalloc, out)
  {
    assert ns[i].Value() == bs[i] && ns[i + 1].Value() == bs[i + 1];
    Remaining(ns, i);
    MergeStep(bs, i, n, kmalloc);
  }

  lemma Inserted(ns: seq<Node>, i: nat, rest: Node)
    requires i < |ns|
    ensures forall m :: m in ns[..i + 1] + [rest] + ns[i + 1..] <==> m in ns || m == rest
  {
    assert ns == ns[..i + 1] + ns[i + 1..];
  }

  // ----- Values of the list -----

  /** `After` composes. */
  lemma AfterAfter(p: seq<Block>, q: seq<Block>, out: Outcome)
    ensures After(p, After(q, out)) == After(p + q, out)
  {
    assert p + (q + out.blocks) == p + q + out.blocks;
  }

  /** The walk of `bs`, continued at block `i`, has the outcome `out`. */
  ghost predicate LeadsTo(bs: seq<Block>, i: nat, n: nat, kmalloc: bool, out: Outcome) {
    i <= |bs| && out == After(bs[..i], Walk(bs[i..], n, kmalloc))
  }

  lemma AfterNothing(bs: seq<Block>, n: nat, kmalloc: bool)
    ensures LeadsTo(bs, 0, n, kmalloc, Walk(bs, n, kmalloc))
  {
    assert bs[0..] == bs;
    assert [] + Walk(bs, n, kmalloc).blocks == Walk(bs, n, kmalloc).blocks;
  }

  function Merged(bs: seq<Block>, i: nat): seq<Block>
    requires i + 1 < |bs|
  {
    bs[..i] + [bs[i].(pages := bs[i].pages + bs[i + 1].pages)] + bs[i + 2..]
  }

  function Donated(bs: seq<Block>, i: nat, n: nat): seq<Block>
    requires i + 1 < |bs| && n <= bs[i].pages
  {
    bs[i := Block(false, bs[i].offset, n)]
      [i + 1 := Block(true, bs[i].offset + n, bs[i + 1].pages + (bs[i].pages - n))]
  }

  function Cut(bs: seq<Block>, i: nat, n: nat): seq<Block>
    requires i < |bs| && n <= bs[i].pages
  {
    bs[..i] + [Block(false, bs[i].offset, n), Block(true, bs[i].offset + n, bs[i].pages - n)] + bs[i + 1..]
  }

  /** How a walk ends at a block that is large enough, as an update of the list. */
  lemma Settled(bs: seq<Block>, i: nat, n: nat, kmalloc: bool)
    requires i < |bs| && bs[i].free && bs[i].pages >= n
    ensures After(bs[..i], Walk(bs[i..], n, kmalloc))
         == if bs[i].pages == n then Found(i, bs[i := bs[i].(free := false)])
            else if i + 1 < |bs| && bs[i + 1].free then Found(i, Donated(bs, i, n))
            else if kmalloc then Found(i, Cut(bs, i, n))
            else NoMemory(bs)
  {
    assert bs[i..][1..] == bs[i + 1..];
    assert bs[..i] + bs[i..] == bs;
    if i + 1 < |bs| {
      assert bs[i..][2..] == bs[i + 2..];
    }
  }

  lemma SplitSettled(ns: seq<Node>, bs: seq<Block>, i: nat, n: nat, out: Outcome)
    requires Represents(ns, bs) && i < |ns| && LeadsTo(bs, i, n, true, out)
    requires ns[i].free && ns[i].pages > n && (i + 1 < |ns| ==> !ns[i + 1].free)
    ensures i < |bs| && n <= bs[i].pages
    ensures out == Found(i, Cut(bs, i, n))
  {
    assert ns[i].Value() == bs[i];
    assert i + 1 < |ns| ==> ns[i + 1].Value() == bs[i + 1];
    Settled(bs, i, n, true);
  }

  lemma Unsplit(ns: seq<Node>, bs: seq<Block>, i: nat, n: nat, out: Outcome)
    requires Represents(ns, bs) && i < |ns| && LeadsTo(bs, i, n, false, out)
    requires ns[i].free && ns[i].pages > n && (i + 1 < |ns| ==> !ns[i + 1].free)
    ensures out == NoMemory(bs)
  {
    assert ns[i].Value() == bs[i];
    assert i + 1 < |ns| ==> ns[i + 1].Value() == bs[i + 1];
    Settled(bs, i, n, false);
  }

  lemma Exhausted(bs: seq<Block>, i: nat, n: nat, kmalloc: bool)
    requires i == |bs| || (i + 1 == |bs| && bs[i].free && bs[i].pages < n)
    ensures After(bs[..i], Walk(bs[i..], n, kmalloc)) == NoMemory(bs)
  {
    assert bs[..i] + bs[i..] == bs;
  }

  lemma SkipOne(bs: seq<Block>, i: nat, n: nat, kmalloc: bool, out: Outcome)
    requires i < |bs| && !bs[i].free && LeadsTo(bs, i, n, kmalloc, out)
    ensures LeadsTo(bs, i + 1, n, kmalloc, out)
  {
    assert bs[i..][1..] == bs[i + 1..];
    AfterAfter(bs[..i], [bs[i]], Walk(bs[i + 1..], n, kmalloc));
    assert bs[..i] + [bs[i]] == bs[..i + 1];
  }

  lemma SkipTwo(bs: seq<Block>, i: nat, n: nat, kmalloc: bool, out: Outcome)
    requires i + 1 < |bs| && bs[i].free && bs[i].pages < n && !bs[i + 1].free && LeadsTo(bs, i, n, kmalloc, out)
    ensures LeadsTo(bs, i + 2, n, kmalloc, out)
  {
    assert bs[i..][2..] == bs[i + 2..];
    assert bs[i..][..2] == bs[i..i + 2];
    AfterAfter(bs[..i], bs[i..i + 2], Walk(bs[i + 2..], n, kmalloc));
    assert bs[..i] + bs[i..i + 2] == bs[..i + 2];
  }

  lemma MergeStep(bs: seq<Block>, i: nat, n: nat, kmalloc: bool)
    requires i + 1 < |bs| && bs[i].free && bs[i].pages < n && bs[i + 1].free
    ensures var merged := Merged(bs, i);
            After(bs[..i], Walk(bs[i..], n, kmalloc)) == After(merged[..i], Walk(merged[i..], n, kmalloc))
  {
    var merged := Merged(bs, i);
    assert bs[i..][2..] == bs[i + 2..];
    assert merged[i..] == [bs[i].(pages := bs[i].pages + bs[i + 1].pages)] + bs[i + 2..];
    assert merged[..i] == bs[..i];
  }

  lemma {:induction false} FreeAtPartitions(bs: seq<Block>, i: nat, lo: nat, hi: nat)
    requires i < |bs| && Partition(bs, lo, hi)
    ensures Partition(bs[i := bs[i].(free := true)], lo, hi)
    decreases i
  {
    var out := bs[i := bs[i].(free := true)];
    if i > 0 {
      FreeAtPartitions(bs[1..], i - 1, lo + bs[0].pages, hi);
      assert out[1..] == bs[1..][i - 1 := bs[i].(free := true)];
    } else {
      assert out[1..] == bs[1..];
    }
  }

  /** A non-empty block occurs only once in a partition. */
  lemma OnlyOne(bs: seq<Block>, i: nat, lo: nat, hi: nat)
    requires i < |bs| && bs[i].pages > 0 && Partition(bs, lo, hi)
    ensures Release(bs, bs[i]) == bs[i := bs[i].(free := true)]
  {
    forall j | 0 <= j < |bs| && j != i
      ensures bs[j] != bs[i]
    {
      PartitionDisjoint(bs, lo, hi, if i < j then i else j, if i < j then j else i);
    }
  }
}
