/**
  The part of the postcard wire format the test protocols use: unsigned
  integers as little-endian base-128 varints (section "Varint Encoded Integers"
  of the postcard wire format specification), read with the width limits of
  section "Maximum Encoded Length".
*/
module Postcard {
  type Byte = b: int | 0 <= b < 256
  type U32 = n: nat | n < 0x1_0000_0000
  type U64 = n: nat | n < 0x1_0000_0000_0000_0000

  datatype Option<+T> = None | Some(value: T)

  /** What a decoder makes of a byte string: a value and the unread bytes, or a failure. */
  datatype Decoded<+T> = Got(value: T, rest: seq<Byte>) | Bad

  /** The longest varint of a type, and the largest last byte a varint of that length may have. */
  datatype Width = Width(maxLen: nat, maxLast: nat) {
    predicate Valid() { 1 <= maxLen && maxLast < 128 }
  }

  const W32 := Width(5, 15)
  const W64 := Width(10, 1)

  /** The number of values that fit a width. */
  function Capacity(w: Width): (n: nat)
    requires w.Valid()
    ensures n >= 1
    decreases w.maxLen
  {
    if w.maxLen == 1 then w.maxLast + 1 else 128 * Capacity(w.(maxLen := w.maxLen - 1))
  }

  lemma {:induction false} CapacityOfWidths()
    ensures Capacity(W32) == 0x1_0000_0000
    ensures Capacity(W64) == 0x1_0000_0000_0000_0000
  {
    assert Capacity(Width(3, 15)) == 0x4_0000;
    assert Capacity(Width(4, 1)) == 0x40_0000;
    assert Capacity(Width(7, 1)) == 0x800_0000_0000;
  }

  function Varint(n: nat): (s: seq<Byte>)
    ensures |s| >= 1
  {
    if n < 128 then [n] else [n % 128 + 128] + Varint(n / 128)
  }

  /** Reads one varint; over-long encodings are accepted, as the library does. */
  function TakeVarint(w: Width, s: seq<Byte>): (d: Decoded<nat>)
    requires w.Valid()
    decreases w.maxLen
  {
    if s == [] then Bad
    else if s[0] < 128 then
      if w.maxLen == 1 && s[0] > w.maxLast then Bad else Got(s[0], s[1..])
    else if w.maxLen == 1 then Bad
    else
      match TakeVarint(w.(maxLen := w.maxLen - 1), s[1..])
      case Got(v, rest) => Got(s[0] - 128 + 128 * v, rest)
      case Bad => Bad
  }

  /** A decoded integer fits its type, and what is left is a proper suffix of the input. */
  lemma {:induction false} TakenFits(w: Width, s: seq<Byte>)
    requires w.Valid() && TakeVarint(w, s).Got?
    ensures var d := TakeVarint(w, s);
            && d.value < Capacity(w)
            && |d.rest| < |s| && |s| - |d.rest| <= w.maxLen && d.rest == s[|s| - |d.rest|..]
    decreases w.maxLen
  {
    if s[0] < 128 {
    } else {
      TakenFits(w.(maxLen := w.maxLen - 1), s[1..]);
    }
  }

  lemma NextGroup(w: Width, n: nat, q: nat)
    requires w.Valid() && n < Capacity(w) && n >= 128 && q == n / 128
    ensures w.maxLen > 1 && q < Capacity(w.(maxLen := w.maxLen - 1))
  {
  }

  lemma TakeContinued(w: Width, b: Byte, s: seq<Byte>)
    requires w.Valid() && w.maxLen > 1 && b >= 128
    ensures TakeVarint(w, [b] + s)
         == match TakeVarint(w.(maxLen := w.maxLen - 1), s)
            case Got(v, rest) => Got(b - 128 + 128 * v, rest)
            case Bad => Bad
  {
    assert ([b] + s)[1..] == s;
  }

  lemma VarintStep(n: nat, q: nat, b: Byte)
    requires n >= 128 && q == n / 128 && b == n % 128 + 128
    ensures Varint(n) == [b] + Varint(q)
    ensures b - 128 + 128 * q == n && b >= 128
  {
  }

  lemma RoundTripStep(w: Width, n: nat, q: nat, t: seq<Byte>)
    requires w.Valid() && w.maxLen > 1 && n >= 128 && q == n / 128
    requires TakeVarint(w.(maxLen := w.maxLen - 1), Varint(q) + t) == Got(q, t)
    ensures TakeVarint(w, Varint(n) + t) == Got(n, t)
    ensures |Varint(n)| == 1 + |Varint(q)|
  {
    var b: Byte := n % 128 + 128;
    VarintStep(n, q, b);
    var v := Varint(q);
    TakeContinued(w, b, v + t);
    assert [b] + v + t == [b] + (v + t);
  }

  /** Decoding undoes encoding whatever follows, and the encoding respects the maximum length. */
  lemma {:induction false} VarintRoundTrip(w: Width, n: nat, t: seq<Byte>)
    requires w.Valid() && n < Capacity(w)
    ensures TakeVarint(w, Varint(n) + t) == Got(n, t)
    ensures |Varint(n)| <= w.maxLen
    decreases w.maxLen
  {
    if n < 128 {
      assert (Varint(n) + t)[1..] == t;
    } else {
      var q := n / 128;
      NextGroup(w, n, q);
      VarintRoundTrip(w.(maxLen := w.maxLen - 1), q, t);
      RoundTripStep(w, n, q, t);
    }
  }

  /** A varint cut short is never a varint. */
  lemma {:induction false} VarintPrefixIsBad(w: Width, n: nat, k: nat)
    requires w.Valid() && k < |Varint(n)|
    ensures TakeVarint(w, Varint(n)[..k]) == Bad
    decreases w.maxLen
  {
    if n >= 128 && k >= 1 && w.maxLen > 1 {
      VarintPrefixIsBad(w.(maxLen := w.maxLen - 1), n / 128, k - 1);
      assert Varint(n)[..k][1..] == Varint(n / 128)[..k - 1];
    }
  }

  /**
    Exactly when re-encoding a decoded integer gives back the bytes that were read:
    when the encoding was not padded with a final zero group. So the decoder is not
    injective, and the encoder always picks a shortest form.
  */
  lemma {:induction false} VarintCanonicalIff(w: Width, s: seq<Byte>)
    requires w.Valid() && TakeVarint(w, s).Got?
    ensures var d := TakeVarint(w, s);
            var k := |s| - |d.rest|;
            && 0 < k <= |s|
            && (s[..k] == Varint(d.value) <==> k == 1 || s[k - 1] != 0)
            && |Varint(d.value)| <= k
    decreases w.maxLen
  {
    var d := TakeVarint(w, s);
    var k := |s| - |d.rest|;
    TakenFits(w, s);
    if s[0] < 128 {
      assert s[..k] == [s[0]];
    } else {
      var w' := w.(maxLen := w.maxLen - 1);
      var e := TakeVarint(w', s[1..]);
      VarintCanonicalIff(w', s[1..]);
      assert s[..k] == [s[0]] + s[1..][..k - 1];
      assert s[1..][k - 2] == s[k - 1];
      if e.value == 0 {
        assert d.value < 128 && Varint(e.value) == [0];
        assert |s[..k]| > 1;
      } else {
        assert d.value >= 128 && d.value % 128 == s[0] - 128 && d.value / 128 == e.value;
        assert Varint(d.value) == [s[0]] + Varint(e.value);
        assert s[..k][1..] == s[1..][..k - 1];
        assert Varint(d.value)[1..] == Varint(e.value);
      }
    }
  }

  /** Two encodings of zero that the decoder takes alike. */
  lemma PaddedZeroDecodes(t: seq<Byte>)
    ensures TakeVarint(W64, [0] + t) == TakeVarint(W64, [128, 0] + t) == Got(0, t)
    ensures Varint(0) != [128, 0]
  {
    assert ([0] + t)[1..] == t;
    TakeContinued(W64, 128, [0] + t);
    assert [128, 0] + t == [128] + ([0] + t);
  }

  // The bytes themselves

  /** `n` without its last `k` groups of seven bits. */
  function Above(n: nat, k: nat): nat {
    if k == 0 then n else Above(n / 128, k - 1)
  }

  /** Byte `k` holds group `k` of seven bits, least significant first, and every byte but the last is marked. */
  lemma {:induction false} VarintGroups(n: nat, k: nat)
    requires k < |Varint(n)|
    ensures Varint(n)[k] == Above(n, k) % 128 + if k + 1 == |Varint(n)| then 0 else 128
    ensures Above(n, |Varint(n)|) == 0
  {
    if n < 128 {
      assert Above(n, 1) == Above(n / 128, 0);
    } else {
      VarintGroups(n / 128, if k == 0 then 0 else k - 1);
      assert |Varint(n)| == 1 + |Varint(n / 128)|;
    }
  }

  /** The examples of section "Maximum Encoded Length". */
  lemma VarintExamples()
    ensures Varint(0) == [0x00] && Varint(127) == [0x7F]
    ensures Varint(128) == [0x80, 0x01] && Varint(16383) == [0xFF, 0x7F]
    ensures Varint(16384) == [0x80, 0x80, 0x01] && Varint(16385) == [0x81, 0x80, 0x01]
    ensures Varint(65535) == [0xFF, 0xFF, 0x03]
  {
    assert Varint(16384) == [0x80] + Varint(128);
    assert Varint(16385) == [0x81] + Varint(128);
    assert Varint(65535) == [0xFF] + Varint(511) && Varint(511) == [0xFF] + Varint(3);
  }
}
