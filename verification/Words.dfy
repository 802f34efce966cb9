// Bytes and 32-bit machine words as memoria, cpu and the wire format see them.
module Words {

  type Byte = x: int | 0 <= x < 0x100

  // uint32_t
  type Word = x: int | 0 <= x < 0x1_0000_0000

  // int, two's complement
  type Int32 = x: int | -0x8000_0000 <= x < 0x8000_0000

  datatype Option<+T> = None | Some(value: T) {
    predicate IsFailure() {
      None?
    }

    function PropagateFailure<U>(): Option<U>
      requires IsFailure()
    {
      None
    }

    function Extract(): T
      requires Some?
    {
      value
    }
  }

  // The four bytes that memcpy moves for a word on a little-endian machine.
  function Le32(w: Word): (bytes: seq<Byte>)
    ensures |bytes| == 4
  {
    [w % 0x100, w / 0x100 % 0x100, w / 0x1_0000 % 0x100, w / 0x100_0000]
  }

  function FromLe32(bytes: seq<Byte>): Word
    requires |bytes| == 4
  {
    bytes[0] + 0x100 * (bytes[1] as int) + 0x1_0000 * (bytes[2] as int) + 0x100_0000 * (bytes[3] as int)
  }

  lemma LeRoundTrip(w: Word)
    ensures FromLe32(Le32(w)) == w
  {
    assert w / 0x100 / 0x100 == w / 0x1_0000;
    assert w / 0x1_0000 / 0x100 == w / 0x100_0000;
  }

  lemma BytesRoundTrip(bytes: seq<Byte>)
    requires |bytes| == 4
    ensures Le32(FromLe32(bytes)) == bytes
  {
    var w: int := FromLe32(bytes);
    var b0: int, b1: int, b2: int, b3: int := bytes[0], bytes[1], bytes[2], bytes[3];
    assert w == b0 + 0x100 * (b1 + 0x100 * (b2 + 0x100 * b3));
    assert w / 0x100 == b1 + 0x100 * (b2 + 0x100 * b3);
    assert w / 0x1_0000 == w / 0x100 / 0x100 == b2 + 0x100 * b3;
    assert w / 0x100_0000 == w / 0x1_0000 / 0x100 == b3;
  }

  // uint32_t addition wraps around.
  function Plus(a: Word, b: Word): Word {
    var sum: int := (a as int) + b;
    if sum < 0x1_0000_0000 then sum else sum - 0x1_0000_0000
  }

  // An int sent as its four bytes.
  function Unsigned(x: Int32): Word {
    if x >= 0 then x else x + 0x1_0000_0000
  }

  function Signed(w: Word): Int32 {
    if w < 0x8000_0000 then w else w - 0x1_0000_0000
  }

  // Addition modulo 2^32.
  lemma PlusIsSum(a: Word, b: Word)
    ensures Plus(a, b) == ((a as int) + b) % 0x1_0000_0000
  {
  }

  // Memory and wire have the low byte first.
  lemma LowByteFirst(w: Word)
    ensures var b := Le32(w);
            (w as int) == (b[0] as int) + 0x100 * (b[1] as int) + 0x1_0000 * (b[2] as int) + 0x100_0000 * (b[3] as int)
    ensures Le32(0x0403_0201) == [1, 2, 3, 4]
  {
    LeRoundTrip(w);
    var b := Le32(w);
    assert FromLe32(b) == w;
    assert (w as int) / 0x100 / 0x100 == (w as int) / 0x1_0000;
  }

  // A cast from int to uint32_t is the number modulo 2^32, and the cast back undoes it.
  lemma CastModulo(x: Int32)
    ensures Unsigned(x) == (x as int) % 0x1_0000_0000 && Signed(Unsigned(x)) == x
  {
  }
}
