/** The markers of the allocators: a 64-bit word that names a version of a block and a holder or an owner
    of it (`UniMessage`). */
module Markers {
  import Arithmetic

  const MAX_BLOCK_COUNT: nat := 0xffff
  const LOGS: nat := 0x400_0000_0000

  /** A marker unpacked (`UniMessage`): 42 bits of version, 16 of position, 6 of holder. */
  datatype Uni = Uni(log: nat, pos: nat, shift: nat) {
    predicate Fits() {
      log < LOGS && pos < 0x10000 && shift < 64
    }
  }

  function Pack(u: Uni): nat {
    u.log * 0x400000 + u.pos * 64 + u.shift
  }

  function Unpack(m: nat): Uni {
    Uni(m / 0x400000, m / 64 % 0x10000, m % 64)
  }

  lemma UnpackPack(u: Uni)
    requires u.Fits()
    ensures Unpack(Pack(u)) == u
  {
    var m, high := Pack(u), u.log * 0x10000 + u.pos;
    Arithmetic.Divides(m, 64, high, u.shift);
    Arithmetic.Divides(high, 0x10000, u.log, u.pos);
    Arithmetic.Divides(m, 0x400000, u.log, u.pos * 64 + u.shift);
  }

  lemma PackUnpack(m: nat)
    ensures Pack(Unpack(m)) == m
  {
  }

  /** A later version has a greater marker. */
  lemma PackOrder(u: Uni, v: Uni)
    requires u.Fits() && v.Fits() && u.log < v.log
    ensures Pack(u) < Pack(v)
  {
  }
}
