/** The block arena behind the syntax tree (compiler/parser.c, compiler/include/ast.h). */
module Arena {

  const U32: nat := 0x1_0000_0000
  const U64: nat := 0x1_0000_0000_0000_0000

  /** Rounding up to 8 bytes. The mask is a 32-bit constant widened with zeros, so the
      upper half of the sum is cleared as well. */
  function Round(sz: nat): (r: nat)
    ensures r % 8 == 0 && r < U32
  {
    (sz + 7) % U64 % U32 / 8 * 8
  }

  /** A region is as large as what was asked for exactly while the sum stays below 2^32. */
  lemma RoundCoversIff(sz: nat)
    requires sz < U64
    ensures Round(sz) >= sz <==> sz + 7 < U32
    ensures sz + 7 < U32 ==> Round(sz) < sz + 8
  {
    if sz + 7 < U32 {
      assert (sz + 7) % U64 == sz + 7 && (sz + 7) % U32 == sz + 7;
    } else if sz < U32 {
      assert (sz + 7) % U64 == sz + 7 && (sz + 7) % U32 == sz + 7 - U32;
    }
  }

  /** A request of 2^32 - 7 bytes gets a region of none. */
  lemma RoundFallsShort()
    ensures Round(0x1_0000_0000 - 7) == 0
  {
  }

  class Block {
    const buf: array<bv8>
    var next: Block?
    var used: nat

    /** arena_new_block; the bytes are whatever malloc hands out. */
    constructor (cap: nat)
      ensures fresh(buf) && buf.Length == cap && used == 0 && next == null
    {
      buf := new bv8[cap];
      used, next := 0, null;
    }
  }

  /** What one allocation returned, and how much of the block belongs to it. */
  datatype Region = Region(block: Block, off: nat, size: nat)

  ghost predicate Disjoint(r: Region, s: Region) {
    r.block == s.block ==> r.off + r.size <= s.off || s.off + s.size <= r.off
  }

  ghost function Sizes(rs: seq<Region>): nat {
    if rs == [] then 0 else Sizes(rs[..|rs|-1]) + rs[|rs|-1].size
  }

  function Used(bs: seq<Block>): nat
    reads bs
  {
    if bs == [] then 0 else Used(bs[..|bs|-1]) + bs[|bs|-1].used
  }

  ghost predicate Separate(bs: seq<Block>) {
    forall i, j :: 0 <= i < j < |bs| ==> bs[i] != bs[j] && bs[i].buf != bs[j].buf
  }

  ghost predicate Fits(bs: seq<Block>)
    reads bs
  {
    forall i :: 0 <= i < |bs| ==> bs[i].used <= bs[i].buf.Length && bs[i].used % 8 == 0
  }

  ghost predicate Placed(bs: seq<Block>, rs: seq<Region>)
    reads bs
  {
    forall k :: 0 <= k < |rs| ==>
      rs[k].block in bs && rs[k].off % 8 == 0 && rs[k].off + rs[k].size <= rs[k].block.used
  }

  ghost predicate AllDisjoint(rs: seq<Region>) {
    forall i, j :: 0 <= i < j < |rs| ==> Disjoint(rs[i], rs[j])
  }

  /** A region that starts where the used part of its block ended. */
  lemma AppendDisjoint(bs: seq<Block>, rs: seq<Region>, r: Region)
    requires Placed(bs, rs) && AllDisjoint(rs) && r.off >= r.block.used
    ensures AllDisjoint(rs + [r])
  {
  }

  /** memset to zero. */
  method Clear(buf: array<bv8>, off: nat, size: nat)
    requires off + size <= buf.Length
    modifies buf
    ensures forall i :: 0 <= i < buf.Length ==> buf[i] == if off <= i < off + size then 0 else old(buf[i])
  {
    forall i | off <= i < off + size {
      buf[i] := 0;
    }
  }

  class Arena {
    var head: Block
    const blockSize: nat
    /** The blocks, newest last, and every allocation so far. */
    ghost var blocks: seq<Block>
    ghost var regions: seq<Region>

    /** The blocks are the chain that starts at `head`. */
    ghost predicate Chained()
      reads this, blocks
    {
      && blocks != [] && blocks[|blocks|-1] == head && blocks[0].next == null
      && (forall i, j :: 0 <= i && j == i + 1 && j < |blocks| ==> blocks[j].next == blocks[i])
    }

    /** Every allocation is aligned, lies inside the used part of its block and shares no
        byte with another; together they make up all that is used. */
    ghost predicate Valid()
      reads this, blocks
    {
      && Chained()
      && Separate(blocks)
      && Fits(blocks)
      && Placed(blocks, regions)
      && AllDisjoint(regions)
      && Used(blocks) == Sizes(regions)
    }

    /** kdal_arena_new, with memory. */
    constructor (initialCap: nat)
      ensures Valid() && fresh(blocks) && regions == [] && head.buf.Length == blockSize == initialCap
      ensures fresh(head.buf)
    {
      blockSize := initialCap;
      var b := new Block(initialCap);
      head := b;
      blocks, regions := [b], [];
      new;
    }

    /** kdal_arena_alloc; `memory` tells whether malloc would succeed. */
    method Alloc(sz: nat, memory: bool) returns (block: Block?, off: nat)
      requires Valid() && sz < U64
      modifies this, head, head.buf
      ensures Valid()
      ensures block == null <==> old(head.used) + Round(sz) > old(head.buf.Length) && !memory
      ensures block == null ==> unchanged(this) && unchanged(old(head)) && unchanged(old(head.buf))
      ensures block != null ==>
        && regions == old(regions) + [Region(block, off, Round(sz))]
        && (block == old(head) || (fresh(block) && fresh(block.buf)))
        && (forall i :: off <= i < off + Round(sz) ==> 0 <= i < block.buf.Length && block.buf[i] == 0)
      ensures forall r, i :: r in old(regions) && r.off <= i < r.off + r.size ==>
        0 <= i < r.block.buf.Length && r.block.buf[i] == old(r.block.buf[i])
    {
      hide Chained, Separate, Fits, Placed, AllDisjoint, Used, Sizes;
      var size := Round(sz);
      Elsewhere();
      if head.used + size > head.buf.Length {
        if !memory {
          return null, 0;
        }
        NewBlock(if blockSize > size then blockSize else size);
      }
      block, off := head, head.used;
      Elsewhere();
      Take(size);
      Clear(block.buf, off, size);
    }

    /** No allocation has a byte in the unused part of the head. */
    lemma Elsewhere()
      requires Valid()
      ensures head in blocks && head.used <= head.buf.Length
      ensures forall r :: r in regions ==>
        && r.off + r.size <= r.block.buf.Length
        && (r.block.buf == head.buf ==> r.off + r.size <= head.used)
    {
      hide AllDisjoint, Used, Sizes;
      forall r | r in regions
        ensures r.off + r.size <= r.block.buf.Length && (r.block.buf == head.buf ==> r.off + r.size <= head.used)
      {
        var k :| 0 <= k < |regions| && regions[k] == r;
        var i :| 0 <= i < |blocks| && blocks[i] == r.block;
      }
    }

    /** A new block becomes the head. */
    method NewBlock(cap: nat)
      requires Valid()
      modifies this`head, this`blocks
      ensures Valid() && regions == old(regions)
      ensures fresh(head) && fresh(head.buf) && head.used == 0 && head.buf.Length == cap
    {
      hide AllDisjoint, Sizes, Used;
      ghost var was := blocks;
      var b := new Block(cap);
      b.next := head;
      head := b;
      blocks := was + [b];
      forall i | 0 <= i < |was|
        ensures blocks[i] == was[i] && was[i] != b && was[i].buf != b.buf
      {
      }
      assert blocks[..|was|] == was;
      UsedLast(blocks);
      forall i, j | 0 <= i && j == i + 1 && j < |blocks|
        ensures blocks[j].next == blocks[i]
      {
        assert blocks[i] == was[i];
        assert j < |was| ==> blocks[j] == was[j];
      }
      assert Placed(blocks, regions);
    }

    /** The next `size` bytes of the head are taken. */
    method Take(size: nat)
      requires Valid() && size % 8 == 0 && head.used + size <= head.buf.Length
      modifies this`regions, head`used
      ensures Valid() && regions == old(regions) + [Region(head, old(head.used), size)]
      ensures head.used == old(head.used) + size
    {
      hide AllDisjoint, Used, Sizes;
      ghost var rest, r := blocks[..|blocks|-1], Region(head, head.used, size);
      AppendDisjoint(blocks, regions, r);
      SizesAppend(regions, r);
      UsedLast(blocks);
      assert head !in rest;
      head.used := head.used + size;
      UsedLast(blocks);
      regions := regions + [r];
    }
  }

  lemma UsedLast(bs: seq<Block>)
    requires bs != []
    ensures Used(bs) == Used(bs[..|bs|-1]) + bs[|bs|-1].used
  {
  }

  lemma SizesAppend(rs: seq<Region>, r: Region)
    ensures Sizes(rs + [r]) == Sizes(rs) + r.size
  {
    assert (rs + [r])[..|rs|] == rs;
  }
}
