/** LEB128 variable-length integers (section 7.6 "Variable Length Data" of
    the DWARF Debugging Information Format, Version 4), as written by
    `Common::EncodeVarInt`.

    The encoder is a template over any integral type. Values are modelled as
    unbounded integers: `value & 0x7f` is `value % 128` (Dafny's `%` is
    Euclidean, so this is the low seven bits in two's complement too) and
    `value >>= 7` is `value / 128`, which for a positive divisor is floor
    division, that is a logical shift of a non-negative value and an
    arithmetic shift of a negative one. Neither depends on the width of the
    type, so one model covers every width. */
module VarInt {
  import opened Bytes
  import opened Wrappers

  /** Every byte but the last has bit 7 (the continuation bit) set, and the
      last has it clear. */
  ghost predicate Framed(r: seq<Byte>)
  {
    && |r| >= 1
    && (forall i :: 0 <= i < |r| - 1 ==> r[i] >= 0x80)
    && r[|r| - 1] < 0x80
  }

  function Last(r: seq<Byte>): Byte
    requires |r| >= 1
  {
    r[|r| - 1]
  }

  /** The signed loop's stopping test: what is left of the value is nothing
      but sign bits, and bit 6 of the byte just taken (`byte & 0x40`; the byte
      is below 0x80, so that bit is set exactly when it is at least 0x40)
      agrees with the sign. */
  predicate SignedDone(negative: bool, rest: int, b: int)
  {
    if negative then rest == -1 && b >= 0x40 else rest == 0 && b < 0x40
  }

  /** The bytes the unsigned path appends for `v`. */
  function UnsignedLeb(v: nat): (r: seq<Byte>)
    ensures Framed(r)
    decreases v
  {
    if v / 128 == 0 then [v % 128] else [v % 128 + 0x80] + UnsignedLeb(v / 128)
  }

  /** The bytes the signed path appends for `v`. */
  function SignedLeb(v: int): (r: seq<Byte>)
    ensures Framed(r)
    ensures v < 0 <==> Last(r) >= 0x40
    decreases if v < 0 then -v else v
  {
    var b := v % 128;
    var rest := v / 128;
    if SignedDone(v < 0, rest, b) then [b]
    else
      assert v != 0 && v != -1;
      [b + 0x80] + SignedLeb(rest)
  }

  /** What one instantiation of the template appends: the unsigned path for
      an unsigned `T`, the signed path otherwise. */
  function Encoding(value: int, isSigned: bool): (r: seq<Byte>)
    requires isSigned || value >= 0
  {
    if isSigned then SignedLeb(value) else UnsignedLeb(value)
  }

  /** Whether the loop goes on after taking the low seven bits of `v`. */
  predicate MoreAfter(v: int, isSigned: bool)
  {
    if isSigned then !SignedDone(v < 0, v / 128, v % 128) else v / 128 != 0
  }

  /** One round of the loop: the encoding is the byte taken from `v`, with
      bit 7 set when more follow, then the encoding of what is left. */
  lemma EncodingStep(v: int, isSigned: bool)
    requires isSigned || v >= 0
    ensures MoreAfter(v, isSigned) ==>
      Encoding(v, isSigned) == [v % 128 + 0x80] + Encoding(v / 128, isSigned)
    ensures !MoreAfter(v, isSigned) ==> Encoding(v, isSigned) == [v % 128]
  {
  }

  /** `EncodeVarInt(container, value)`: a do-while loop that takes seven bits
      at a time and pushes each onto the end of the container. */
  method EncodeVarInt(container: ByteVector, value: int, isSigned: bool)
    requires isSigned || value >= 0
    modifies container
    ensures container.items == old(container.items) + Encoding(value, isSigned)
  {
    var negative := value < 0;
    var v := value;
    var more := true;
    ghost var pending := Encoding(value, isSigned);
    while more
      invariant container.items + pending == old(container.items) + Encoding(value, isSigned)
      invariant more ==> (isSigned || v >= 0) && negative == (v < 0) && pending == Encoding(v, isSigned)
      invariant !more ==> pending == []
      decreases |pending|
    {
      EncodingStep(v, isSigned);
      ghost var before := container.items;
      var b := v % 128;
      v := v / 128;
      if !isSigned {
        more := v != 0;
      } else {
        more := !SignedDone(negative, v, b);
      }
      var byte := b + if more then 0x80 else 0;
      container.PushBack(byte);
      pending := if more then Encoding(v, isSigned) else [];
      assert before + ([byte] + pending) == (before + [byte]) + pending;
    }
  }

  /** A reader for the unsigned form: the value of the first LEB128 number at
      the front of `s` and how many bytes it takes, or None when `s` ends
      before a byte with bit 7 clear. */
  function DecodeUnsigned(s: seq<Byte>): (r: Option<(nat, nat)>)
    ensures r.Some? ==> 1 <= r.value.1 <= |s|
  {
    if s == [] then None
    else if s[0] < 0x80 then Some((s[0], 1))
    else
      match DecodeUnsigned(s[1..])
      case None => None
      case Some((v, n)) => Some((s[0] - 0x80 + 128 * v, n + 1))
  }

  /** The same for the signed form: the last byte's seven bits are read as a
      two's-complement number (sign-extended from bit 6). */
  function DecodeSigned(s: seq<Byte>): (r: Option<(int, nat)>)
    ensures r.Some? ==> 1 <= r.value.1 <= |s|
  {
    if s == [] then None
    else if s[0] < 0x80 then Some((if s[0] >= 0x40 then s[0] as int - 0x80 else s[0] as int, 1))
    else
      match DecodeSigned(s[1..])
      case None => None
      case Some((v, n)) => Some((s[0] - 0x80 + 128 * v, n + 1))
  }

  function Pow128(k: nat): (p: nat)
    ensures p >= 1
  {
    if k == 0 then 1 else 128 * Pow128(k - 1)
  }

  /** Unsigned round trip: reading back what the encoder appended, whatever
      follows it in the container, gives the value and consumes exactly the
      appended bytes. */
  lemma {:induction false} UnsignedRoundTrip(v: nat, tail: seq<Byte>)
    ensures DecodeUnsigned(UnsignedLeb(v) + tail) == Some((v, |UnsignedLeb(v)|))
    decreases v
  {
    var s := UnsignedLeb(v) + tail;
    if v / 128 != 0 {
      UnsignedRoundTrip(v / 128, tail);
      assert s[1..] == UnsignedLeb(v / 128) + tail;
    }
  }

  /** Signed round trip, in the same sense. */
  lemma {:induction false} SignedRoundTrip(v: int, tail: seq<Byte>)
    ensures DecodeSigned(SignedLeb(v) + tail) == Some((v, |SignedLeb(v)|))
    decreases if v < 0 then -v else v
  {
    var s := SignedLeb(v) + tail;
    var b := v % 128;
    var rest := v / 128;
    if !SignedDone(v < 0, rest, b) {
      assert v != 0 && v != -1;
      SignedRoundTrip(rest, tail);
      assert s[1..] == SignedLeb(rest) + tail;
    }
  }

  /** The signed reader is the unsigned reading of the same bytes,
      sign-extended from bit 6 of the final byte: when that bit is set the
      number is 128^n less than its unsigned reading. */
  lemma {:induction false} SignExtension(s: seq<Byte>)
    requires DecodeUnsigned(s).Some?
    ensures DecodeSigned(s).Some?
    ensures
      var (u, n) := DecodeUnsigned(s).value;
      DecodeSigned(s).value == (if s[n - 1] >= 0x40 then u - Pow128(n) else u, n)
  {
    if s[0] >= 0x80 {
      SignExtension(s[1..]);
      var (u, n) := DecodeUnsigned(s[1..]).value;
      assert s[1..][n - 1] == s[n];
    }
  }

  /** The encoder always appends at least one byte, and only the last of them
      has bit 7 clear. */
  lemma EncodingFramed(value: int, isSigned: bool)
    requires isSigned || value >= 0
    ensures |Encoding(value, isSigned)| >= 1
    ensures forall i :: 0 <= i < |Encoding(value, isSigned)| - 1 ==> Encoding(value, isSigned)[i] >= 0x80
    ensures Last(Encoding(value, isSigned)) < 0x80
  {
  }

  /** The unsigned encoding is minimal: zero is the single byte 0x00, and
      otherwise the final byte is not zero (so no trailing 0x80 0x00 pad). */
  lemma {:induction false} UnsignedMinimal(v: nat)
    ensures v == 0 <==> UnsignedLeb(v) == [0]
    ensures |UnsignedLeb(v)| > 1 ==> Last(UnsignedLeb(v)) != 0
    decreases v
  {
    if v / 128 != 0 {
      UnsignedMinimal(v / 128);
      assert Last(UnsignedLeb(v)) == Last(UnsignedLeb(v / 128));
    }
  }

  /** The unsigned encoding of `v` fits in k bytes exactly when `v` is below
      128^k (so a 32-bit value takes at most 5 bytes, a 64-bit one 10). */
  lemma {:induction false} UnsignedLength(v: nat, k: nat)
    requires k >= 1
    ensures |UnsignedLeb(v)| <= k <==> v < Pow128(k)
    decreases k
  {
    if v / 128 != 0 {
      if k == 1 {
        assert Pow128(1) == 128;
      } else {
        UnsignedLength(v / 128, k - 1);
        assert v < Pow128(k) <==> v / 128 < Pow128(k - 1);
      }
    } else {
      assert Pow128(k) >= 128 by { PowAtLeast(k); }
    }
  }

  lemma {:induction false} PowAtLeast(k: nat)
    requires k >= 1
    ensures Pow128(k) >= 128
  {
    if k > 1 {
      PowAtLeast(k - 1);
    }
  }

  /** The signed encoding is minimal: dropping its last byte would leave an
      encoding of the same value, so that byte is never a bare sign
      extension of the byte before it (0x00 after a byte with bit 6 clear,
      0x7f after a byte with bit 6 set). */
  lemma {:induction false} SignedMinimal(v: int)
    ensures var r := SignedLeb(v);
      |r| >= 2 ==>
        && !(Last(r) == 0 && r[|r| - 2] % 128 < 0x40)
        && !(Last(r) == 0x7f && r[|r| - 2] % 128 >= 0x40)
    decreases if v < 0 then -v else v
  {
    var b := v % 128;
    var rest := v / 128;
    if !SignedDone(v < 0, rest, b) {
      assert v != 0 && v != -1;
      var r := SignedLeb(v);
      var t := SignedLeb(rest);
      assert r == [b + 0x80] + t;
      if |t| >= 2 {
        SignedMinimal(rest);
        assert Last(r) == Last(t) && r[|r| - 2] == t[|t| - 2];
      } else {
        assert t == [rest % 128];
        if Last(t) == 0 {
          assert rest == 0;
        }
        if Last(t) == 0x7f {
          assert rest == -1;
        }
      }
    }
  }

  /** Worked values: the examples of section 7.6 and the sign cases. */
  lemma Examples()
    ensures UnsignedLeb(0) == [0x00]
    ensures UnsignedLeb(127) == [0x7f]
    ensures UnsignedLeb(128) == [0x80, 0x01]
    ensures UnsignedLeb(12857) == [0xb9, 0x64]
    ensures SignedLeb(0) == [0x00]
    ensures SignedLeb(-1) == [0x7f]
    ensures SignedLeb(63) == [0x3f]
    ensures SignedLeb(64) == [0xc0, 0x00]
    ensures SignedLeb(-64) == [0x40]
    ensures SignedLeb(-65) == [0xbf, 0x7f]
    ensures SignedLeb(-128) == [0x80, 0x7f]
  {
  }
}
