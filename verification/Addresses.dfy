/** The addresses of a sandbox's link (For, internal/network/network.go). */
module Addresses {
  import opened Basics

  datatype Address = Address(a: nat, b: nat, c: nat, d: nat)

  datatype Link = Link(host: Address, peer: Address)

  predicate IsHexLower(c: char) {
    '0' <= c <= '9' || 'a' <= c <= 'f'
  }

  function For(id: string, slot: int): Option<Link> {
    if |id| != 32 || slot < 1 || slot > 16000 || (exists i :: 0 <= i < |id| && !IsHexLower(id[i])) then None
    else
      var n := slot * 4;
      Some(Link(Address(10, 240, n / 256, n % 256 + 1), Address(10, 240, n / 256, n % 256 + 2)))
  }

  /** What the daemon takes as an ID: 128 random bits in hexadecimal. */
  predicate IsId(id: string) {
    |id| == 32 && forall i :: 0 <= i < |id| ==> IsHexLower(id[i])
  }

  function Value(x: Address): nat {
    ((x.a * 256 + x.b) * 256 + x.c) * 256 + x.d
  }

  predicate IsAddress(x: Address) {
    x.a < 256 && x.b < 256 && x.c < 256 && x.d < 256
  }

  /** Two addresses in the same /30 block. */
  predicate SameBlock(x: Address, y: Address) {
    Value(x) / 4 == Value(y) / 4
  }

  /** Both ends are the two usable addresses of one block, and the blocks of different slots have nothing in common. */
  lemma BlocksAreDisjoint(id: string, slot: int, id': string, slot': int)
    requires For(id, slot).Some? && For(id', slot').Some?
    ensures var l, m := For(id, slot).value, For(id', slot').value;
            && IsAddress(l.host) && IsAddress(l.peer)
            && Value(l.host) % 4 == 1 && Value(l.peer) % 4 == 2 && SameBlock(l.host, l.peer)
            && (SameBlock(l.host, m.host) <==> slot == slot')
            && (SameBlock(l.host, m.peer) <==> slot == slot')
  {
    BlockOf(id, slot);
    BlockOf(id', slot');
  }

  lemma BlockOf(id: string, slot: int)
    requires For(id, slot).Some?
    ensures var l := For(id, slot).value;
            && IsAddress(l.host) && IsAddress(l.peer)
            && Value(l.host) == (10 * 256 + 240) * 65536 + slot * 4 + 1 && Value(l.peer) == Value(l.host) + 1
  {
    var n := slot * 4;
    assert n == n / 256 * 256 + n % 256;
  }
}
