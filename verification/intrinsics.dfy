/** The integer helpers of intrinsics.h: the 32-bit rotates, the RGBA byte packing, the substring search
    `StrStr` and the `Min`/`Max`/`Abs` macros. */
module Intrinsics {
  import opened Wrappers
  import opened CStrings
  import opened CTypes

  // ---- Arithmetic on splits of a 32-bit value ----

  function Pow2(n: nat): (p: nat)
    ensures p > 0
  {
    if n == 0 then 1 else 2 * Pow2(n - 1)
  }

  lemma {:induction false} Pow2Add(a: nat, b: nat)
    ensures Pow2(a + b) == Pow2(a) * Pow2(b)
  {
    if a > 0 {
      Pow2Add(a - 1, b);
      assert Pow2(a + b) == 2 * Pow2(a - 1 + b);
    }
  }

  /** Splitting a 32-bit value at bit n leaves an n-bit low part and a (32 - n)-bit high part. */
  lemma SplitsOfWord(n: nat)
    requires n <= 32
    ensures Pow2(n) * Pow2(32 - n) == U32Modulus
  {
    Pow2Add(n, 32 - n);
    Pow2Of32();
  }

  lemma Pow2Of32()
    ensures Pow2(32) == U32Modulus
  {
    assert Pow2(2) == 4;
    Pow2Add(2, 2);
    Pow2Add(4, 4);
    Pow2Add(8, 8);
    Pow2Add(16, 16);
  }

  lemma MulMono(a: int, b: int, m: int)
    requires a <= b && m >= 0
    ensures a * m <= b * m
  {
    assert b * m - a * m == (b - a) * m;
  }

  /** Euclidean division has one answer: a quotient and an in-range remainder that rebuild n are n / m and
      n % m. */
  lemma DivModUnique(n: int, m: int, q: int, r: int)
    requires m > 0 && 0 <= r < m && n == q * m + r
    ensures n / m == q && n % m == r
  {
    var q', r' := n / m, n % m;
    assert q * m - q' * m == r' - r;
    if q > q' {
      MulMono(q' + 1, q, m);
    } else if q < q' {
      MulMono(q + 1, q', m);
    }
  }

  /** With value < m * w, putting the low part (value % m) on top of the high part (value / m) fits again. */
  lemma SwappedFits(value: int, m: int, w: int)
    requires m > 0 && w > 0 && 0 <= value < m * w
    ensures value / m < w
    ensures 0 <= (value % m) * w + value / m < m * w
  {
    var high, low := value / m, value % m;
    assert value == high * m + low;
    if high >= w {
      MulMono(w, high, m);
    }
    MulMono(low, m - 1, w);
    assert (m - 1) * w == m * w - w;
    MulMono(0, low, w);
  }

  /** Swapping the parts twice, splitting at m and then at w, gives the value back. */
  lemma SwappedTwice(value: int, m: int, w: int)
    requires m > 0 && w > 0 && 0 <= value < m * w
    ensures var swapped := (value % m) * w + value / m;
      (swapped % w) * m + swapped / w == value
  {
    SwappedFits(value, m, w);
    DivModUnique((value % m) * w + value / m, w, value % m, value / m);
    assert value == (value / m) * m + value % m;
  }

  /** Shifting left by w bits keeps only the low part of the value, moved up. */
  lemma ShiftKeepsLowPart(value: int, m: int, w: int)
    requires m > 0 && w > 0 && 0 <= value < m * w
    ensures (value * w) % (m * w) == (value % m) * w
  {
    var high, low := value / m, value % m;
    assert value * w == high * (m * w) + low * w by {
      assert value == high * m + low;
    }
    MulMono(low, m - 1, w);
    assert (m - 1) * w == m * w - w;
    MulMono(0, low, w);
    DivModUnique(value * w, m * w, high, low * w);
  }

  // ---- RotateLeft, RotateRight ----

  /** The rotate distance of `_rotl` and `_rotr`: the amount modulo 32. */
  function Distance(amount: U32): (k: nat)
    ensures k < 32
  {
    amount % 32
  }

  /** The value with its low n bits moved above its high 32 - n bits. */
  function Swap(value: U32, n: nat): U32
    requires n <= 32
  {
    SplitsOfWord(n);
    SwappedFits(value, Pow2(n), Pow2(32 - n));
    (value % Pow2(n)) * Pow2(32 - n) + value / Pow2(n)
  }

  /** `RotateLeft(value, amount)`, that is `_rotl`: the top k bits wrap around to the bottom. */
  function RotateLeft(value: U32, amount: U32): U32 {
    Swap(value, 32 - Distance(amount))
  }

  /** `RotateRight(value, amount)`, that is `_rotr`: the bottom k bits wrap around to the top. */
  function RotateRight(value: U32, amount: U32): U32 {
    Swap(value, Distance(amount))
  }

  /** Rotating left is the shift pair it is usually written as: `(value << k) | (value >> (32 - k))` on 32
      bits, where the two shifted parts do not overlap, so the or is a sum. */
  lemma RotateLeftIsShiftPair(value: U32, amount: U32)
    ensures var k := Distance(amount);
      RotateLeft(value, amount) == (value * Pow2(k)) % U32Modulus + value / Pow2(32 - k)
  {
    var k := Distance(amount);
    SplitsOfWord(32 - k);
    assert 32 - (32 - k) == k;
    ShiftKeepsLowPart(value, Pow2(32 - k), Pow2(k));
  }

  /** Rotating right by the amount just rotated left by restores the value, and so does the reverse order. */
  lemma RotatesAreInverse(value: U32, amount: U32)
    ensures RotateRight(RotateLeft(value, amount), amount) == value
    ensures RotateLeft(RotateRight(value, amount), amount) == value
  {
    var k := Distance(amount);
    SplitsOfWord(k);
    SplitsOfWord(32 - k);
    assert 32 - (32 - k) == k;
    SwappedTwice(value, Pow2(32 - k), Pow2(k));
    SwappedTwice(value, Pow2(k), Pow2(32 - k));
  }

  /** Only the amount modulo 32 matters: a rotation by 32 is no rotation. */
  lemma FullTurnIsIdentity(value: U32)
    ensures RotateLeft(value, 32) == value && RotateRight(value, 32) == value
  {
    SplitsOfWord(32);
    DivModUnique(value, Pow2(32), 0, value);
  }

  // ---- PackRGBA ----

  /** The four channels after `RoundReal32ToU32(channel * 255.0f)`. */
  datatype Channels = Channels(r: bv32, g: bv32, b: bv32, a: bv32)

  /** `PackRGBA`: alpha in the top byte, then red, green and blue. The shifts are on 32 bits. */
  function PackRGBA(c: Channels): bv32 {
    (c.a << 24) | (c.r << 16) | (c.g << 8) | c.b
  }

  /** Reading the four bytes back. */
  function Unpack(p: bv32): Channels {
    Channels((p >> 16) & 0xFF, (p >> 8) & 0xFF, p & 0xFF, p >> 24)
  }

  predicate FitsInBytes(c: Channels) {
    c.r <= 0xFF && c.g <= 0xFF && c.b <= 0xFF && c.a <= 0xFF
  }

  /** What the bytes of a packed colour hold: each byte is its channel or-ed with the bits that the lower
      channels carry above their own byte. Nothing is clamped. */
  lemma PackedBytes(c: Channels)
    ensures Unpack(PackRGBA(c)) == Channels(
      (c.r | (c.g >> 8) | (c.b >> 16)) & 0xFF,
      (c.g | (c.b >> 8)) & 0xFF,
      c.b & 0xFF,
      (c.a | (c.r >> 8) | (c.g >> 16) | (c.b >> 24)) & 0xFF)
  {
  }

  /** Channels that fit in a byte decode back to themselves, and every 32-bit value is the packing of its
      bytes. */
  lemma PackRoundTrip(c: Channels, p: bv32)
    ensures FitsInBytes(c) ==> Unpack(PackRGBA(c)) == c
    ensures FitsInBytes(Unpack(p)) && PackRGBA(Unpack(p)) == p
  {
    PackedBytes(c);
  }

  /** A red channel of 256 (a colour component just above 1.0) spills into the alpha byte. */
  lemma OverflowingChannelOverlaps(c: Channels)
    requires c == Channels(256, 0, 0, 0)
    ensures Unpack(PackRGBA(c)).a == 1 && Unpack(PackRGBA(c)).r == 0
  {
    PackedBytes(c);
  }

  // ---- StrStr ----

  /** The pattern occurs in the text at position p. */
  predicate OccursAt(pattern: seq<char>, text: seq<char>, p: nat) {
    p + |pattern| <= |text| && text[p..p + |pattern|] == pattern
  }

  /** The inner loop of `StrStr` at haystack position p: compare needle character j with haystack character
      p + j while they agree and the needle goes on. The first comparison happens even for an empty needle. */
  method MatchesAt(needle: seq<char>, haystack: seq<char>, p: nat) returns (matched: bool)
    requires Nul in needle && Nul in haystack && p < CLength(haystack)
    ensures matched <==> CLength(needle) > 0 && OccursAt(Contents(needle), Contents(haystack), p)
  {
    var j := 0;
    matched := needle[0] == haystack[p];
    while matched && needle[j + 1] != Nul
      invariant j <= CLength(needle) && (j < CLength(needle) || j == 0)
      invariant p + j <= CLength(haystack)
      invariant needle[..j] == haystack[p..p + j]
      invariant matched <==> needle[j] == haystack[p + j]
      decreases CLength(needle) - j
    {
      assert needle[..j + 1] == needle[..j] + [needle[j]];
      assert haystack[p..p + j + 1] == haystack[p..p + j] + [haystack[p + j]];
      j := j + 1;
      matched := needle[j] == haystack[p + j];
    }
    var n := CLength(needle);
    if matched {
      assert j + 1 == n && p + n <= CLength(haystack);
      assert needle[..n] == haystack[p..p + n] by {
        assert needle[..j + 1] == needle[..j] + [needle[j]];
        assert haystack[p..p + j + 1] == haystack[p..p + j] + [haystack[p + j]];
      }
      assert Contents(haystack)[p..p + n] == haystack[p..p + n];
    } else if n > 0 && p + n <= CLength(haystack) {
      var pattern, text := Contents(needle), Contents(haystack);
      assert j < n;
      assert pattern[j] == needle[j] && text[p + j] == haystack[p + j];
      assert text[p..p + n][j] != pattern[j];
    }
  }

  /** `StrStr(needle, haystack)`: the first haystack position at which the needle occurs, or None. An empty
      needle is never found. The outer loop moves to the next position only while it is not the terminator,
      so an empty haystack would be read past its end: the caller must pass a non-empty one. */
  method StrStr(needle: seq<char>, haystack: seq<char>) returns (r: Option<nat>)
    requires Nul in needle && Nul in haystack && CLength(haystack) > 0
    ensures CLength(needle) == 0 ==> r == None
    ensures r.Some? ==> r.value < CLength(haystack) && OccursAt(Contents(needle), Contents(haystack), r.value)
    ensures r.Some? ==> forall q | 0 <= q < r.value :: !OccursAt(Contents(needle), Contents(haystack), q)
    ensures r.None? && CLength(needle) > 0 ==>
      forall q | 0 <= q <= CLength(haystack) :: !OccursAt(Contents(needle), Contents(haystack), q)
  {
    var p := 0;
    while true
      invariant p < CLength(haystack)
      invariant CLength(needle) > 0 ==> forall q | 0 <= q < p :: !OccursAt(Contents(needle), Contents(haystack), q)
      decreases CLength(haystack) - p
    {
      var matched := MatchesAt(needle, haystack, p);
      if matched {
        return Some(p);
      }
      if haystack[p + 1] == Nul {
        return None;
      }
      p := p + 1;
    }
  }

  // ---- Min, Max, Abs ----

  /** `Min(a, b)`: `(a) < (b) ? (a) : (b)`, read as a fully parenthesised expression. */
  function Min(a: int, b: int): (r: int)
    ensures r <= a && r <= b && (r == a || r == b)
  {
    if a < b then a else b
  }

  /** `Max(a, b)`: `(a) > (b) ? (a) : (b)`. */
  function Max(a: int, b: int): (r: int)
    ensures r >= a && r >= b && (r == a || r == b)
  {
    if a > b then a else b
  }

  /** `Abs(a)`: a negative argument gives `-(a + 1)`, one less than its magnitude. That keeps every 32-bit
      argument's result in range, `INT_MIN` included. */
  function Abs(a: int): (r: int)
    ensures r >= 0
    ensures a >= 0 ==> r == Magnitude(a)
    ensures a < 0 ==> r == Magnitude(a) - 1
    ensures IsInt32(a) ==> IsInt32(r)
  {
    if a < 0 then -(a + 1) else a
  }

  /** The values the macro gives at the edges. */
  lemma AbsEdgeValues()
    ensures Abs(-5) == 4 && Abs(5) == 5 && Abs(-1) == 0
    ensures Abs(IntMin) == IntMax
  {
  }
}
