/** How a list of output indices is written to the store: two bytes each, low byte first. */
module IndexCodec {
  import opened Core

  function Pair(low: nat, high: nat): nat {
    low + 0x100 * high
  }

  ghost predicate Encodes(bytes: seq<byte>, indices: seq<uint16>) {
    && |bytes| == 2 * |indices|
    && forall i :: 0 <= i < |indices| ==> indices[i] == Pair(bytes[2 * i], bytes[2 * i + 1])
  }

  lemma {:induction false} Split(x: uint16)
    ensures Pair(x % 0x100, x / 0x100) == x && x / 0x100 < 0x100
  {
  }

  method ToByteArray(source: seq<uint16>) returns (dst: seq<byte>)
    ensures Encodes(dst, source)
    ensures forall i :: 0 <= i < |source| ==> dst[2 * i] == source[i] % 0x100 && dst[2 * i + 1] == source[i] / 0x100
  {
    dst := [];
    for i := 0 to |source|
      invariant |dst| == 2 * i && forall j :: 0 <= j < i ==> source[j] == Pair(dst[2 * j], dst[2 * j + 1])
      invariant forall j :: 0 <= j < i ==> dst[2 * j] == source[j] % 0x100 && dst[2 * j + 1] == source[j] / 0x100
    {
      var low, high := source[i] % 0x100, source[i] / 0x100;
      Split(source[i]);
      hide Pair;
      dst := dst + [low, high];
    }
  }

  /** `None` stands for a missing value. */
  method GetUint16Array(source: Option<seq<byte>>) returns (dst: Option<seq<uint16>>)
    ensures dst.Some? <==> source.Some? && |source.value| % 2 == 0
    ensures dst.Some? ==> Encodes(source.value, dst.value)
  {
    if source.None? || |source.value| % 2 != 0 {
      return None;
    }
    var indices: seq<uint16> := [];
    for i := 0 to |source.value| / 2
      invariant |indices| == i && forall j :: 0 <= j < i ==> indices[j] == Pair(source.value[2 * j], source.value[2 * j + 1])
    {
      indices := indices + [Pair(source.value[2 * i], source.value[2 * i + 1])];
    }
    return Some(indices);
  }

  /** Bytes stand for one list, and a list for one sequence of bytes. */
  lemma {:induction false} OneEncoding(bytes: seq<byte>, bytes': seq<byte>, indices: seq<uint16>, indices': seq<uint16>)
    requires Encodes(bytes, indices) && Encodes(bytes', indices')
    ensures bytes == bytes' <==> indices == indices'
  {
    if indices == indices' {
      forall k | 0 <= k < |bytes| ensures bytes[k] == bytes'[k] {
        var i := k / 2;
        assert indices[i] == Pair(bytes[2 * i], bytes[2 * i + 1]) == Pair(bytes'[2 * i], bytes'[2 * i + 1]);
        assert k == 2 * i || k == 2 * i + 1;
      }
    }
  }

  /** What is written is read back. */
  method WriteThenRead(indices: seq<uint16>) returns (back: Option<seq<uint16>>)
    ensures back == Some(indices)
  {
    var bytes := ToByteArray(indices);
    back := GetUint16Array(Some(bytes));
    OneEncoding(bytes, bytes, indices, back.value);
  }
}
