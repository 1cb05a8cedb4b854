/** The packet buffer every layer writes into and reads from: a fixed-size
    byte region with a current cursor, a logical end, and the origins the
    layers record so that a header can be written over reserved room after
    the payload behind it is complete. */
module Packets {
  import opened Bytes

  class Packet {
    /** The buffer; its size is fixed when the packet is made. */
    const data: array<u8>
    /** Where the payload of the layers beneath the RDP layer begins; the
        lower layers' own header room lies before it. */
    var payload: nat
    /** The RDP layer origin: where the share header goes. */
    var rdp: nat
    var current: nat
    var end: nat

    ghost predicate Valid()
      reads this
    {
      payload <= data.Length && rdp <= data.Length && current <= data.Length && end <= data.Length
    }

    constructor (size: nat)
      ensures Valid() && fresh(data) && data.Length == size
      ensures payload == 0 && rdp == 0 && current == 0 && end == 0
    {
      data := new u8[size];
      payload, rdp, current, end := 0, 0, 0, 0;
    }

    /** Moves the cursor over `n` bytes without writing them. */
    method Seek(n: nat)
      requires Valid() && current + n <= data.Length
      modifies this`current
      ensures Valid() && current == old(current) + n
    {
      current := current + n;
    }

    /** Marks everything written so far as the packet's content. */
    method MarkEnd()
      requires Valid()
      modifies this`end
      ensures Valid() && end == current
    {
      end := current;
    }

    /** Writes `w` at the cursor and moves past it.  Only those bytes
        change, so the bytes of the current RDP layer and of the lower
        layers' payload grow by exactly `w`. */
    method Write(w: seq<u8>)
      requires Valid() && current + |w| <= data.Length
      modifies this`current, data
      ensures Valid() && current == old(current) + |w|
      ensures payload == old(payload) && rdp == old(rdp) && end == old(end)
      ensures data[..] == Splice(old(data[..]), old(current), w)
      ensures old(rdp) <= old(current) ==> data[rdp..current] == old(data[rdp..current]) + w
      ensures old(payload) <= old(current) ==> data[payload..current] == old(data[payload..current]) + w
    {
      forall i | 0 <= i < |w| {
        data[current + i] := w[i];
      }
      assert data[..] == Splice(old(data[..]), current, w);
      if rdp <= current {
        SpliceExtends(old(data[..]), rdp, current, w);
      }
      if payload <= current {
        SpliceExtends(old(data[..]), payload, current, w);
      }
      current := current + |w|;
    }

    /** Writes a 16-bit value at `at`, a position remembered earlier,
        without moving the cursor. */
    method Patch16(at: nat, v: u16)
      requires Valid() && at + 2 <= data.Length
      modifies data
      ensures payload == old(payload) && rdp == old(rdp) && current == old(current) && end == old(end)
      ensures data[..] == Splice(old(data[..]), at, LE16(v))
    {
      data[at], data[at + 1] := LE16(v)[0], LE16(v)[1];
    }

    /** Whether `n` more bytes can be read before the end. */
    predicate Remains(n: nat)
      reads this
    {
      current + n <= end
    }

    method ReadU8() returns (v: u8)
      requires Valid() && Remains(1)
      modifies this`current
      ensures Valid() && current == old(current) + 1
      ensures v == data[old(current)]
    {
      v := data[current];
      current := current + 1;
    }

    method ReadU16() returns (v: u16)
      requires Valid() && Remains(2)
      modifies this`current
      ensures Valid() && current == old(current) + 2
      ensures v == U16At(data[..], old(current))
    {
      v := data[current] as int + 0x100 * data[current + 1] as int;
      current := current + 2;
    }

    method ReadU32() returns (v: u32)
      requires Valid() && Remains(4)
      modifies this`current
      ensures Valid() && current == old(current) + 4
      ensures v == U32At(data[..], old(current))
    {
      v := data[current] as int + 0x100 * data[current + 1] as int
        + 0x1_0000 * data[current + 2] as int + 0x100_0000 * data[current + 3] as int;
      current := current + 4;
    }
  }
}
