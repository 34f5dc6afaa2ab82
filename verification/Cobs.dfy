/** Consistent Overhead Byte Stuffing (Cheshire and Baker) as in src/protocol.cpp. */
module Cobs {
  import opened Words

  datatype Outcome = Done(size: nat) | BufferTooSmall | Malformed

  predicate ZeroFree(s: seq<byte>) {
    forall i :: 0 <= i < |s| ==> s[i] != 0
  }

  // ------------------------------------------------------- the code

  /** Encoding of `data` when the nonzero bytes `run` already wait in the open block.
      A block closes at a zero, or once it holds 254 bytes. */
  function EncodeFrom(run: seq<byte>, data: seq<byte>): seq<byte>
    requires |run| < 254
    decreases |data|
  {
    if data == [] then [|run| + 1] + run
    else if data[0] == 0 then [|run| + 1] + run + EncodeFrom([], data[1..])
    else if |run| == 253 then [255] + run + [data[0]] + EncodeFrom([], data[1..])
    else EncodeFrom(run + [data[0]], data[1..])
  }

  function Encode(data: seq<byte>): seq<byte> {
    EncodeFrom([], data)
  }

  /** The bytes a code word stands for; None when a block is empty-coded or runs past the end. */
  function Decode(code: seq<byte>): Option<seq<byte>>
    decreases |code|
  {
    if code == [] || code[0] == 0 || code[0] > |code| then None
    else if code[0] == |code| then Some(code[1..])
    else Prepend(code[1..code[0]], Decode(code[code[0]..]))
  }

  /** A block that is not full stands for its bytes and a zero. */
  function Separator(block: seq<byte>): seq<byte> {
    if |block| == 254 then [] else [0]
  }

  function Prepend(block: seq<byte>, tail: Option<seq<byte>>): Option<seq<byte>> {
    if tail.None? then None else Some(block + Separator(block) + tail.value)
  }

  // ------------------------------------------------------- length and content

  /** Blocks that reach 254 bytes while `data` is encoded with `waiting` bytes pending. */
  function FullBlocks(waiting: nat, data: seq<byte>): nat
    requires waiting < 254
    decreases |data|
  {
    if data == [] then 0
    else if data[0] == 0 then FullBlocks(0, data[1..])
    else if waiting == 253 then 1 + FullBlocks(0, data[1..])
    else FullBlocks(waiting + 1, data[1..])
  }

  /** One byte of overhead, plus one for every completed block. */
  lemma {:induction false} EncodeLength(run: seq<byte>, data: seq<byte>)
    requires |run| < 254
    ensures |EncodeFrom(run, data)| == |run| + |data| + 1 + FullBlocks(|run|, data)
    decreases |data|
  {
    if data != [] {
      EncodeLength(if data[0] == 0 || |run| == 253 then [] else run + [data[0]], data[1..]);
    }
  }

  /** At most one full block for every 254 bytes. */
  lemma {:induction false} FullBlocksBound(waiting: nat, data: seq<byte>)
    requires waiting < 254
    ensures 254 * FullBlocks(waiting, data) <= waiting + |data|
    decreases |data|
  {
    if data != [] {
      FullBlocksBound(if data[0] == 0 || waiting == 253 then 0 else waiting + 1, data[1..]);
    }
  }

  lemma {:induction false} EncodeZeroFree(run: seq<byte>, data: seq<byte>)
    requires |run| < 254 && ZeroFree(run)
    ensures ZeroFree(EncodeFrom(run, data))
    decreases |data|
  {
    if data != [] {
      EncodeZeroFree(if data[0] == 0 || |run| == 253 then [] else run + [data[0]], data[1..]);
    }
  }

  lemma DecodeBounds(code: seq<byte>)
    ensures Decode(code).Some? ==> code[0] - 1 <= |Decode(code).value| < |code|
    ensures Decode(code).Some? && code[0] != 255 && code[0] < |code| ==> code[0] <= |Decode(code).value|
  {
  }

  // ------------------------------------------------------- round trips

  /** Decoding undoes encoding, for every byte string. */
  lemma {:induction false} DecodeEncode(run: seq<byte>, data: seq<byte>)
    requires |run| < 254 && ZeroFree(run)
    ensures Decode(EncodeFrom(run, data)) == Some(run + data)
    decreases |data|
  {
    if data == [] {
      assert run + data == run;
    } else if data[0] == 0 {
      DecodeEncode([], data[1..]);
      DecodeBlock(run, EncodeFrom([], data[1..]));
      Rejoined(run, data);
    } else if |run| == 253 {
      DecodeEncode([], data[1..]);
      DecodeBlock(run + [data[0]], EncodeFrom([], data[1..]));
      Rejoined(run, data);
      assert [255] + run + [data[0]] == [255] + (run + [data[0]]);
    } else {
      DecodeEncode(run + [data[0]], data[1..]);
      Rejoined(run, data);
    }
  }

  lemma Rejoined(run: seq<byte>, data: seq<byte>)
    requires data != []
    ensures run + [data[0]] + data[1..] == run + [data[0]] + ([] + data[1..]) == run + [data[0]] + [] + ([] + data[1..])
            == run + data
  {
    assert [] + data[1..] == data[1..] && run + [data[0]] + [] == run + [data[0]];
    assert data == [data[0]] + data[1..];
  }

  lemma DecodeBlock(block: seq<byte>, rest: seq<byte>)
    requires |block| <= 254 && Decode(rest).Some?
    ensures Decode([|block| + 1] + block + rest) == Prepend(block, Decode(rest))
  {
    var code := [|block| + 1] + block + rest;
    assert code[0] == |block| + 1 && |code| > code[0];
    assert code[1..code[0]] == block;
    assert code[code[0]..] == rest;
  }

  /** Whether a code word stops right after a full block, without opening the next one. */
  predicate EndsFull(code: seq<byte>)
    requires Decode(code).Some?
    decreases |code|
  {
    if code[0] == |code| then code[0] == 255 else EndsFull(code[code[0]..])
  }

  /** Every zero-free code word that decodes is the encoding of what it decodes to, except that
      the encoder adds an empty block after a final full one. */
  lemma {:induction false} EncodeDecode(code: seq<byte>)
    requires ZeroFree(code) && Decode(code).Some?
    ensures Encode(Decode(code).value) == if EndsFull(code) then code + [1] else code
    decreases |code|
  {
    var block, rest := code[1..code[0]], code[code[0]..];
    assert code == [code[0]] + block + rest;
    if code[0] == |code| {
      assert code == [|block| + 1] + block;
      EncodeBlock(block);
    } else {
      EncodeDecode(rest);
      EncodeBlockThen(block, Decode(rest).value);
      assert [code[0]] + block + (rest + [1]) == code + [1];
    }
  }

  /** Such a code word: one full block and nothing behind it. */
  lemma FullBlockIsNoEncoding()
    ensures var code := [255] + seq(254, _ => 1);
            ZeroFree(code) && Decode(code) == Some(seq(254, _ => 1)) && Encode(seq(254, _ => 1)) == code + [1]
  {
    var code := [255] + seq(254, _ => 1);
    assert code[1..255] == seq(254, _ => 1);
    EncodeDecode(code);
  }

  lemma EncodeBlock(block: seq<byte>)
    requires ZeroFree(block) && |block| <= 254
    ensures Encode(block) == if |block| == 254 then ([|block| + 1] + block) + [1] else [|block| + 1] + block
  {
    EncodeRun([], block, []);
    assert block + [] == block && [] + block == block && [255] + [] == [255];
    assert EncodeFrom([], []) == [1];
  }

  lemma EncodeBlockThen(block: seq<byte>, tail: seq<byte>)
    requires ZeroFree(block) && |block| <= 254
    ensures Encode(block + Separator(block) + tail) == [|block| + 1] + block + Encode(tail)
  {
    var rest := Separator(block) + tail;
    EncodeRun([], block, rest);
    assert block + Separator(block) + tail == block + rest && [] + block == block;
    if |block| < 254 {
      assert rest[0] == 0 && rest[1..] == tail;
    } else {
      assert rest == tail;
      assert [255] + [] + block == [255] + block;
    }
  }

  lemma {:induction false} EncodeRun(run: seq<byte>, block: seq<byte>, rest: seq<byte>)
    requires |run| < 254 && |run| + |block| <= 254 && ZeroFree(block)
    ensures EncodeFrom(run, block + rest) ==
            if |run| + |block| < 254 then EncodeFrom(run + block, rest)
            else [255] + run + block + EncodeFrom([], rest)
    decreases |block|
  {
    var data := block + rest;
    if block == [] {
      assert data == rest && run + block == run;
    } else {
      assert data[0] == block[0] && data[1..] == block[1..] + rest;
      if |run| == 253 {
        assert block == [block[0]] && data[1..] == rest;
      } else {
        EncodeRun(run + [block[0]], block[1..], rest);
        assert run + [block[0]] + block[1..] == run + block;
        assert [255] + (run + [block[0]]) + block[1..] == [255] + run + block;
      }
    }
  }

  // ------------------------------------------------------- the loops

  /** Encoder loop: `out` holds the finished blocks up to `codeIndex`, then a hole for the code
      byte, then the bytes of the open block up to `writeIndex`. */
  ghost predicate Encoding(data: seq<byte>, out: seq<byte>, readIndex: nat, codeIndex: nat, writeIndex: nat) {
    readIndex <= |data| && codeIndex < writeIndex <= |out| && writeIndex - codeIndex <= 254 &&
    Encode(data) == out[..codeIndex] + EncodeFrom(out[codeIndex + 1..writeIndex], data[readIndex..])
  }

  lemma EncodingNeedsRoom(data: seq<byte>, out: seq<byte>, readIndex: nat, codeIndex: nat, writeIndex: nat)
    requires Encoding(data, out, readIndex, codeIndex, writeIndex)
    ensures |Encode(data)| >= writeIndex + |data| - readIndex
  {
    EncodeLength(out[codeIndex + 1..writeIndex], data[readIndex..]);
  }

  /** Writing the code byte closes the open block. */
  lemma CloseBlock(out: seq<byte>, codeIndex: nat, writeIndex: nat)
    requires codeIndex < writeIndex <= |out| && writeIndex - codeIndex <= 255
    ensures out[codeIndex := writeIndex - codeIndex][..writeIndex]
         == out[..codeIndex] + ([writeIndex - codeIndex] + out[codeIndex + 1..writeIndex])
  {
  }

  lemma EncodingZero(data: seq<byte>, out: seq<byte>, readIndex: nat, codeIndex: nat, writeIndex: nat)
    requires Encoding(data, out, readIndex, codeIndex, writeIndex)
    requires readIndex < |data| && data[readIndex] == 0 && writeIndex < |out|
    ensures Encoding(data, out[codeIndex := writeIndex - codeIndex], readIndex + 1, writeIndex, writeIndex + 1)
  {
    var run, rest, next := out[codeIndex + 1..writeIndex], data[readIndex..], data[readIndex + 1..];
    assert rest[0] == 0 && rest[1..] == next;
    CloseBlock(out, codeIndex, writeIndex);
    assert out[..codeIndex] + ([|run| + 1] + run + EncodeFrom([], next))
        == out[..codeIndex] + ([|run| + 1] + run) + EncodeFrom([], next);
  }

  lemma EncodingByte(data: seq<byte>, out: seq<byte>, readIndex: nat, codeIndex: nat, writeIndex: nat)
    requires Encoding(data, out, readIndex, codeIndex, writeIndex)
    requires readIndex < |data| && data[readIndex] != 0 && writeIndex < |out| && writeIndex - codeIndex < 254
    ensures Encoding(data, out[writeIndex := data[readIndex]], readIndex + 1, codeIndex, writeIndex + 1)
  {
    var run, rest := out[codeIndex + 1..writeIndex], data[readIndex..];
    var out' := out[writeIndex := data[readIndex]];
    assert rest[1..] == data[readIndex + 1..];
    assert out'[..codeIndex] == out[..codeIndex];
    assert out'[codeIndex + 1..writeIndex + 1] == run + [rest[0]];
  }

  lemma EncodingFull(data: seq<byte>, out: seq<byte>, readIndex: nat, codeIndex: nat, writeIndex: nat)
    requires Encoding(data, out, readIndex, codeIndex, writeIndex)
    requires readIndex < |data| && data[readIndex] != 0 && writeIndex + 1 < |out| && writeIndex - codeIndex == 254
    ensures Encoding(data, out[writeIndex := data[readIndex]][codeIndex := 255], readIndex + 1, writeIndex + 1,
                     writeIndex + 2)
  {
    var run, rest, next := out[codeIndex + 1..writeIndex], data[readIndex..], data[readIndex + 1..];
    var out' := out[writeIndex := data[readIndex]];
    assert rest[1..] == next;
    assert out'[..codeIndex] == out[..codeIndex];
    assert out'[codeIndex + 1..writeIndex + 1] == run + [rest[0]];
    CloseBlock(out', codeIndex, writeIndex + 1);
    assert out[..codeIndex] + ([255] + run + [rest[0]] + EncodeFrom([], next))
        == out[..codeIndex] + ([255] + (run + [rest[0]])) + EncodeFrom([], next);
  }

  lemma EncodingEnd(data: seq<byte>, out: seq<byte>, codeIndex: nat, writeIndex: nat)
    requires Encoding(data, out, |data|, codeIndex, writeIndex)
    ensures out[codeIndex := writeIndex - codeIndex][..writeIndex] == Encode(data)
  {
    assert data[|data|..] == [];
    CloseBlock(out, codeIndex, writeIndex);
  }

  method CobsEncode(data: seq<byte>, output: array<byte>, capacity: nat) returns (r: Outcome)
    requires capacity <= output.Length
    modifies output
    ensures |Encode(data)| <= capacity ==> r == Done(|Encode(data)|) && output[..|Encode(data)|] == Encode(data)
    ensures |Encode(data)| > capacity ==> r == BufferTooSmall
    ensures output[capacity..] == old(output[capacity..])
  {
    EncodeLength([], data);
    if capacity == 0 {
      return BufferTooSmall;
    }
    var readIndex, writeIndex, codeIndex := 0, 1, 0;
    var code: byte := 1;
    assert Encoding(data, output[..capacity], 0, 0, 1) by {
      assert data[0..] == data;
    }
    while readIndex < |data|
      invariant code == writeIndex - codeIndex
      invariant Encoding(data, output[..capacity], readIndex, codeIndex, writeIndex)
      invariant output[capacity..] == old(output[capacity..])
    {
      ghost var out := output[..capacity];
      EncodingNeedsRoom(data, out, readIndex, codeIndex, writeIndex);
      var value := data[readIndex];
      if value == 0 {
        if writeIndex >= capacity {
          return BufferTooSmall;
        }
        EncodingZero(data, out, readIndex, codeIndex, writeIndex);
        output[codeIndex] := code;
        assert output[..capacity] == out[codeIndex := code];
        readIndex, codeIndex, writeIndex, code := readIndex + 1, writeIndex, writeIndex + 1, 1;
        continue;
      }
      if writeIndex >= capacity {
        return BufferTooSmall;
      }
      output[writeIndex] := value;
      assert output[..capacity] == out[writeIndex := value];
      if code == 254 {
        if writeIndex + 1 >= capacity {
          FullBlockNeedsRoom(data, out, readIndex, codeIndex, writeIndex);
          return BufferTooSmall;
        }
        EncodingFull(data, out, readIndex, codeIndex, writeIndex);
        output[codeIndex] := 255;
        assert output[..capacity] == out[writeIndex := value][codeIndex := 255];
        readIndex, codeIndex, writeIndex, code := readIndex + 1, writeIndex + 1, writeIndex + 2, 1;
      } else {
        EncodingByte(data, out, readIndex, codeIndex, writeIndex);
        readIndex, writeIndex, code := readIndex + 1, writeIndex + 1, code + 1;
      }
    }
    ghost var out := output[..capacity];
    EncodingNeedsRoom(data, out, readIndex, codeIndex, writeIndex);
    EncodingEnd(data, out, codeIndex, writeIndex);
    output[codeIndex] := code;
    assert output[..capacity] == out[codeIndex := code];
    assert output[..writeIndex] == out[codeIndex := code][..writeIndex];
    return Done(writeIndex);
  }

  lemma FullBlockNeedsRoom(data: seq<byte>, out: seq<byte>, readIndex: nat, codeIndex: nat, writeIndex: nat)
    requires Encoding(data, out, readIndex, codeIndex, writeIndex)
    requires readIndex < |data| && data[readIndex] != 0 && writeIndex - codeIndex == 254
    ensures |Encode(data)| > writeIndex + 1
  {
    var run, rest := out[codeIndex + 1..writeIndex], data[readIndex..];
    EncodeLength(run, rest);
    assert FullBlocks(253, rest) >= 1;
  }

  /** Decoder loop: `done` came from the first `at` bytes and the rest decides the outcome. */
  ghost predicate Decoding(code: seq<byte>, done: seq<byte>, at: nat) {
    at < |code| && |done| <= at && Decode(code) == Append(done, Decode(code[at..]))
  }

  ghost function Append(done: seq<byte>, tail: Option<seq<byte>>): Option<seq<byte>> {
    if tail.None? then None else Some(done + tail.value)
  }

  lemma DecodingStart(code: seq<byte>)
    requires code != []
    ensures Decoding(code, [], 0)
  {
    assert code[0..] == code;
    assert Decode(code).Some? ==> [] + Decode(code).value == Decode(code).value;
  }

  lemma DecodingMalformed(code: seq<byte>, done: seq<byte>, at: nat)
    requires Decoding(code, done, at) && (code[at] == 0 || at + code[at] > |code|)
    ensures Decode(code) == None
  {
  }

  lemma DecodingLast(code: seq<byte>, done: seq<byte>, block: seq<byte>, at: nat)
    requires Decoding(code, done, at) && code[at] != 0 && at + code[at] == |code| &&
             block == code[at + 1..at + code[at]]
    ensures Decode(code) == Some(done + block)
  {
    assert code[at..][1..] == block;
  }

  lemma DecodingBlock(code: seq<byte>, done: seq<byte>, block: seq<byte>, at: nat)
    requires Decoding(code, done, at) && code[at] != 0 && at + code[at] < |code|
    requires block == code[at + 1..at + code[at]]
    ensures Decoding(code, done + block + Separator(block), at + code[at])
  {
    var rest := code[at..];
    assert rest[1..rest[0]] == block;
    assert rest[rest[0]..] == code[at + code[at]..];
    AppendPrepend(done, block, Decode(code[at + code[at]..]));
  }

  lemma DecodingFull(code: seq<byte>, done: seq<byte>, block: seq<byte>, at: nat)
    requires Decoding(code, done, at) && code[at] == 255 && at + 255 < |code| && block == code[at + 1..at + 255]
    ensures Decoding(code, done + block, at + 255)
  {
    DecodingBlock(code, done, block, at);
    assert done + block + [] == done + block;
  }

  lemma DecodingShort(code: seq<byte>, done: seq<byte>, block: seq<byte>, at: nat)
    requires Decoding(code, done, at) && 0 < code[at] < 255 && at + code[at] < |code|
    requires block == code[at + 1..at + code[at]]
    ensures Decoding(code, done + block + [0], at + code[at])
  {
    DecodingBlock(code, done, block, at);
  }

  /** A block that does not fit proves the whole result too long. */
  lemma DecodingTooLong(code: seq<byte>, done: seq<byte>, at: nat, room: nat)
    requires Decoding(code, done, at) && code[at] != 0 && at + code[at] <= |code|
    requires |done| + code[at] - 1 > room ||
             (|done| + code[at] - 1 == room && code[at] != 255 && at + code[at] < |code|)
    ensures room + 1 < |code| && (Decode(code).Some? ==> |Decode(code).value| > room)
  {
    DecodeBounds(code[at..]);
  }

  lemma AppendPrepend(done: seq<byte>, block: seq<byte>, tail: Option<seq<byte>>)
    ensures Append(done, Prepend(block, tail)) == Append(done + block + Separator(block), tail)
  {
    if tail.Some? {
      assert done + (block + Separator(block) + tail.value) == done + block + Separator(block) + tail.value;
    }
  }

  /** memcpy into `output` at `offset`. */
  method Copy(output: array<byte>, offset: nat, source: seq<byte>)
    requires offset + |source| <= output.Length
    modifies output
    ensures output[..offset + |source|] == old(output[..offset]) + source
    ensures output[offset + |source|..] == old(output[offset + |source|..])
  {
    for i := 0 to |source|
      invariant output[..offset] == old(output[..offset])
      invariant output[offset..offset + i] == source[..i]
      invariant output[offset + |source|..] == old(output[offset + |source|..])
    {
      output[offset + i] := source[i];
      assert source[..i + 1] == source[..i] + [source[i]];
    }
  }

  /** The block behind the code byte at `at`. */
  function BlockAt(code: seq<byte>, at: nat): (block: seq<byte>)
    requires at < |code| && code[at] != 0 && at + code[at] <= |code|
    ensures |block| == code[at] - 1 && block == code[at + 1..at + code[at]]
  {
    code[at + 1..at + code[at]]
  }

  method CopyBlock(output: array<byte>, writeIndex: nat, code: seq<byte>, at: nat) returns (next: nat)
    requires at < |code| && code[at] != 0 && at + code[at] <= |code| && writeIndex + code[at] - 1 <= output.Length
    modifies output
    ensures next == writeIndex + code[at] - 1 && output[..next] == old(output[..writeIndex]) + BlockAt(code, at)
  {
    Copy(output, writeIndex, BlockAt(code, at));
    next := writeIndex + code[at] - 1;
  }

  method PutZero(output: array<byte>, writeIndex: nat) returns (next: nat)
    requires writeIndex < output.Length
    modifies output
    ensures next == writeIndex + 1 && output[..next] == old(output[..writeIndex]) + [0]
  {
    output[writeIndex] := 0;
    next := writeIndex + 1;
  }

  method CobsDecode(code: seq<byte>, output: array<byte>) returns (r: Outcome)
    modifies output
    ensures match r
            case Done(size) => size <= output.Length && Decode(code) == Some(output[..size])
            case Malformed => Decode(code) == None
            case BufferTooSmall => output.Length + 1 < |code| &&
                                   (Decode(code).Some? ==> |Decode(code).value| > output.Length)
  {
    if |code| == 0 {
      return Malformed;
    }
    var readIndex, writeIndex := 0, 0;
    DecodingStart(code);
    while true
      invariant 0 <= readIndex < |code| && 0 <= writeIndex <= output.Length
      invariant Decoding(code, output[..writeIndex], readIndex)
      decreases |code| - readIndex
    {
      ghost var done := output[..writeIndex];
      var at, blockCode := readIndex, code[readIndex];
      readIndex := readIndex + 1;
      if blockCode == 0 || blockCode - 1 > |code| - readIndex {
        DecodingMalformed(code, done, at);
        return Malformed;
      }
      var blockSize := blockCode - 1;
      if blockSize > output.Length - writeIndex {
        DecodingTooLong(code, done, at, output.Length);
        return BufferTooSmall;
      }
      writeIndex := CopyBlock(output, writeIndex, code, at);
      readIndex := readIndex + blockSize;
      if readIndex == |code| {
        DecodingLast(code, done, BlockAt(code, at), at);
        break;
      }
      if blockCode == 255 {
        DecodingFull(code, done, BlockAt(code, at), at);
        continue;
      }
      if writeIndex >= output.Length {
        DecodingTooLong(code, done, at, output.Length);
        return BufferTooSmall;
      }
      DecodingShort(code, done, BlockAt(code, at), at);
      writeIndex := PutZero(output, writeIndex);
    }
    return Done(writeIndex);
  }
}
