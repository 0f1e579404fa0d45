/** A linear socket buffer and the kernel helpers the TC programs call on it. */
module SkBuff {
  import opened Bytes
  import opened OnesComplement

  const ETH_HLEN := 14
  const TOT_LEN_OFF := ETH_HLEN + 2
  const IP_CHECK_OFF := ETH_HLEN + 10
  const IPPROTO_TCP := 6

  /** `bpf_skb_load_bytes`: a read past the end yields zeroes. */
  function Load(p: seq<byte>, off: nat, n: nat): (r: seq<byte>)
    ensures |r| == n
  {
    if off + n <= |p| then p[off..off + n] else seq(n, _ => 0)
  }

  function Load8(p: seq<byte>, off: nat): byte {
    Load(p, off, 1)[0]
  }

  function LoadBe16(p: seq<byte>, off: nat): u16 {
    var b := Load(p, off, 2);
    Be16(b[0], b[1])
  }

  function LoadBe32(p: seq<byte>, off: nat): u32 {
    Be32(Load(p, off, 4))
  }

  class Skb {
    var data: array<byte>

    constructor (bytes: seq<byte>)
      ensures fresh(data) && data[..] == bytes
    {
      data := new byte[|bytes|](i requires 0 <= i < |bytes| => bytes[i]);
    }

    /** `bpf_skb_change_tail`: the contents of the new bytes are the kernel's business. */
    method ChangeTail(filler: seq<byte>)
      modifies this
      ensures fresh(data) && data[..] == old(data[..]) + filler
    {
      var bytes := data[..] + filler;
      data := new byte[|bytes|](i requires 0 <= i < |bytes| => bytes[i]);
    }

    /** `bpf_skb_adjust_room` in network mode: `n` zero bytes open up at `at`. */
    method AdjustRoom(at: nat, n: nat)
      requires at <= data.Length
      modifies this
      ensures fresh(data)
      ensures data[..] == old(data[..at]) + seq(n, _ => 0) + old(data[at..])
    {
      var bytes: seq<byte> := data[..at] + seq(n, _ => 0) + data[at..];
      data := new byte[|bytes|](i requires 0 <= i < |bytes| => bytes[i]);
    }

    /** `bpf_skb_store_bytes` inside the packet. */
    method StoreBytes(off: nat, v: seq<byte>)
      requires off + |v| <= data.Length
      modifies data
      ensures data[..] == Patch(old(data[..]), off, v)
    {
      ghost var p := data[..];
      forall i | 0 <= i < |v| {
        data[off + i] := v[i];
      }
      assert data[..] == Patch(p, off, v);
    }

    /** `bpf_l3_csum_replace` on a two-byte field. */
    method L3CsumReplace2(off: nat, from: u16, to: u16)
      requires off + 2 <= data.Length
      modifies data
      ensures var check := CsumReplace2(Le16(old(data[off]), old(data[off + 1])), from, to);
              data[..] == Patch(old(data[..]), off, Le16Bytes(check))
    {
      hide CsumReplace2;
      StoreBytes(off, Le16Bytes(CsumReplace2(Le16(data[off], data[off + 1]), from, to)));
    }

    /** `bpf_l3_csum_replace` on a four-byte field. */
    method L3CsumReplace4(off: nat, from: u32, to: u32)
      requires off + 2 <= data.Length
      modifies data
      ensures var check := CsumReplace4(Le16(old(data[off]), old(data[off + 1])), from, to);
              data[..] == Patch(old(data[..]), off, Le16Bytes(check))
    {
      hide CsumReplace4;
      StoreBytes(off, Le16Bytes(CsumReplace4(Le16(data[off], data[off + 1]), from, to)));
    }
  }
}
