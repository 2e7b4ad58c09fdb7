/** The id allocator behind the L2CAP service (service/common/index_allocator.c). */
module IdAllocator {

  /** Distance of an id from `next`, going up and around. */
  function Ahead(next: nat, id: nat, max: nat): int { if id >= next then id - next else id - next + max + 1 }

  class Allocator {
    const idMax: nat
    var used: set<nat>    // the bits of id_map
    var idNext: nat       // a uint8

    /** The highest id there is: `idNext` cannot count past 255. */
    function Top(): nat { if idMax < 256 then idMax else 255 }

    ghost predicate Valid()
      reads this
    {
      idNext <= Top() && forall id :: id in used ==> id <= Top()
    }

    /** `index_allocator_create`. */
    constructor (max: nat)
      ensures Valid() && idMax == max && used == {} && idNext == 0
    {
      idMax, used, idNext := max, {}, 0;
    }

    /** `index_alloc`: the first unused id from `idNext` on, going around once; -1 when there is none. */
    method Alloc() returns (r: int)
      requires Valid()
      modifies this`used, this`idNext
      ensures Valid()
      ensures r == -1 || 0 <= r <= Top()
      ensures r == -1 <==> forall id :: 0 <= id <= Top() ==> id in old(used)
      ensures r == -1 ==> used == old(used) && idNext == old(idNext)
      ensures r >= 0 ==> r !in old(used) && used == old(used) + {r} && idNext == if r == Top() then 0 else r + 1
      ensures r >= 0 ==> forall id :: 0 <= id <= Top() && id !in old(used) ==>
                                        Ahead(old(idNext), r, Top()) <= Ahead(old(idNext), id, Top())
    {
      var start := idNext;
      ghost var turns := 0;
      while true
        invariant Valid() && start <= Top() && 0 <= turns <= Top() && used == old(used)
        invariant turns == Ahead(start, idNext, Top())
        invariant forall id :: 0 <= id <= Top() && Ahead(start, id, Top()) < turns ==> id in used
        decreases Top() - turns
      {
        var minor := idNext;
        idNext := if idNext >= idMax then 0 else (idNext + 1) % 256;
        if minor !in used {
          used := used + {minor};
          return minor;
        }
        if idNext == start {
          return -1;
        }
        turns := turns + 1;
      }
    }

    /** `index_free`. */
    method Free(id: nat)
      requires Valid() && id in used
      modifies this`used, this`idNext
      ensures Valid() && used == old(used) - {id} && idNext == if id < old(idNext) then id else old(idNext)
    {
      used := used - {id};
      if id < idNext {
        idNext := id;
      }
    }

    /** A freed id below `idNext` is the next one handed out. */
    method FreeThenAlloc(id: nat) returns (r: int)
      requires Valid() && id in used && id < idNext
      modifies this`used, this`idNext
      ensures r == id && used == old(used)
    {
      Free(id);
      r := Alloc();
    }
  }
}
