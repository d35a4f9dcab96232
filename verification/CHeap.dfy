/** malloc and its relations. */
module CHeap {
  import opened Answers
  import opened Bytes
  import opened CMemory

  /** failures says which calls run out of memory. */
  class Heap {
    const failures: seq<int>
    var calls: nat
    var blocks: Blocks

    constructor (failures: seq<int>)
      ensures this.failures == failures && calls == 0 && blocks == map[]
    {
      this.failures := failures;
      calls, blocks := 0, map[];
    }

    /** calloc(3) and strdup(3); null when memory runs out. */
    method Allocate(b: Block) returns (p: nat)
      modifies this
      ensures calls == old(calls) + 1
      ensures p == 0 <==> ErrnoAt(failures, old(calls)) != 0
      ensures p == 0 ==> blocks == old(blocks)
      ensures p != 0 ==> p !in old(blocks) && blocks == old(blocks)[p := b]
    {
      calls := calls + 1;
      if ErrnoAt(failures, calls - 1) != 0 {
        return 0;
      }
      ghost var free := Unused(blocks.Keys + {0});
      p :| p != 0 && p !in blocks;
      blocks := blocks[p := b];
    }

    /** free(3): nothing is freed twice, and a null pointer is let be. */
    method Free(p: nat)
      requires p == 0 || p in blocks
      modifies this`blocks
      ensures blocks == if p == 0 then old(blocks) else old(blocks) - {p}
    {
      if p != 0 {
        blocks := blocks - {p};
      }
    }

    /** An assignment to element i of the array at p. */
    method Store(p: nat, i: nat, cell: Cell)
      requires p in blocks && blocks[p].Cells? && i < |blocks[p].cells|
      modifies this`blocks
      ensures blocks == old(blocks)[p := Cells(old(blocks)[p].cells[i := cell])]
    {
      blocks := blocks[p := Cells(blocks[p].cells[i := cell])];
    }
  }
}
