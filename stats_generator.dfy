/** Deterministic fighter generation: a barcode's SHA-256 digest gives a
    64-bit seed, and fixed slices of the seed give the six stats and the
    colour signature. */
module StatsGenerator {
  import opened KotlinInt
  import opened Wrappers
  import opened Fighters
  import opened Colors

  type Byte = b: int | 0 <= b < 256

  /** A SHA-256 digest: 32 bytes. */
  type Digest = s: seq<Byte> | |s| == 32 witness seq(32, _ => 0)

  /** SHA-256 of a string's UTF-8 bytes. The hash itself is not modelled:
      every operation takes it as a parameter. */
  type Hasher = string -> Digest

  /** The twelve palette colours, evenly spaced around the colour wheel. */
  const ColorPalette: seq<Color> := [
    PaletteColor(0), PaletteColor(1), PaletteColor(2), PaletteColor(3),
    PaletteColor(4), PaletteColor(5), PaletteColor(6), PaletteColor(7),
    PaletteColor(8), PaletteColor(9), PaletteColor(10), PaletteColor(11)]

  /** Number of colours in a signature when the caller gives none. */
  const DefaultSignatureLength := 5

  /** The palette lookup failed: `COLOR_PALETTE[index]` with `index` outside
      the palette. */
  datatype LookupError = IndexOutOfBounds(index: int)

  // ---------------------------------------------------------------------
  // The seed

  function Pow256(n: nat): (r: nat)
    ensures r >= 1
  {
    if n == 0 then 1 else 256 * Pow256(n - 1)
  }

  /** The unsigned big-endian number written by the bytes `s`. */
  function BigEndian(s: seq<Byte>): (r: nat)
    ensures r < Pow256(|s|)
  {
    if s == [] then 0
    else
      var init := BigEndian(s[..|s| - 1]);
      assert init <= Pow256(|s| - 1) - 1;
      init * 256 + s[|s| - 1]
  }

  /** `ByteBuffer.wrap(digest, 0, 8).long`: the first eight bytes as a
      big-endian two's-complement `Long`. */
  function ReadLong(d: Digest): (seed: int)
    ensures IsLong(seed)
  {
    var u := BigEndian(d[..8]);
    assert Pow256(8) == 0x1_0000_0000_0000_0000;
    if u > MaxLong then u - 0x1_0000_0000_0000_0000 else u
  }

  /** The `n` low bytes of `u`, most significant first. */
  function BytesOf(u: nat, n: nat): (r: seq<Byte>)
    ensures |r| == n
  {
    if n == 0 then [] else BytesOf(u / 256, n - 1) + [u % 256]
  }

  /** Big-endian bytes of a `Long` in two's complement (`ByteBuffer.putLong`). */
  function LongBytes(x: int): (r: seq<Byte>)
    requires IsLong(x)
    ensures |r| == 8
  {
    BytesOf((x + 0x1_0000_0000_0000_0000) % 0x1_0000_0000_0000_0000, 8)
  }

  lemma {:induction false} BigEndianOfBytes(u: nat, n: nat)
    requires u < Pow256(n)
    ensures BigEndian(BytesOf(u, n)) == u
  {
    if n > 0 {
      var s := BytesOf(u, n);
      assert s[..|s| - 1] == BytesOf(u / 256, n - 1);
      BigEndianOfBytes(u / 256, n - 1);
    }
  }

  /** Every `Long` is the seed of the digests that start with its eight
      big-endian bytes, whatever the other 24 bytes are: the seed is exactly
      the digest's first eight bytes read as a signed 64-bit number. */
  lemma ReadLongOfBytes(x: int, rest: seq<Byte>)
    requires IsLong(x) && |rest| == 24
    ensures |LongBytes(x) + rest| == 32
    ensures ReadLong(LongBytes(x) + rest) == x
  {
    var d: Digest := LongBytes(x) + rest;
    assert d[..8] == LongBytes(x);
    assert Pow256(8) == 0x1_0000_0000_0000_0000;
    BigEndianOfBytes((x + 0x1_0000_0000_0000_0000) % 0x1_0000_0000_0000_0000, 8);
  }

  /** The seed of a barcode. */
  function Seed(barcode: string, hash: Hasher): (seed: int)
    ensures IsLong(seed)
  {
    ReadLong(hash(barcode))
  }

  // ---------------------------------------------------------------------
  // Stats

  /** One stat: `floor + (abs(seed shr shift) % range).toInt()`. The
      remainder keeps the sign of `abs`'s result, so the stat is less than
      `range` away from `floor` on either side. */
  function Stat(seed: int, shift: int, range: int, floor: int): (r: int)
    requires IsLong(seed) && 0 < range <= 51
    ensures floor - range < r < floor + range
  {
    floor + Wrap32(KRem(Abs64(Shr(seed, shift)), range))
  }

  /** The fighter generated from a seed, before it is stored. */
  function StatsFromSeed(name: string, barcode: string, seed: int): (f: Fighter)
    requires IsLong(seed)
    ensures f.name == name && f.barcode == barcode
    ensures f.id == 0 && f.wins == 0 && f.losses == 0
  {
    Fighter(
      id := 0,
      name := name,
      barcode := barcode,
      health := Stat(seed, 0, 51, 50),
      attack := Stat(seed, 8, 41, 10),
      defense := Stat(seed, 16, 36, 5),
      speed := Stat(seed, 24, 20, 1),
      luck := Stat(seed, 32, 10, 1),
      skill := Stat(seed, 40, 26, 5),
      wins := 0,
      losses := 0)
  }

  /** `generateStats(name, barcode)`: the name and barcode are kept as given,
      the record is not yet stored (id 0) and has no wins or losses. */
  function GenerateStats(name: string, barcode: string, hash: Hasher): (f: Fighter)
    ensures f.name == name && f.barcode == barcode
    ensures f.id == 0 && f.wins == 0 && f.losses == 0
  {
    StatsFromSeed(name, barcode, Seed(barcode, hash))
  }

  /** A stat whose slice is shifted by a non-zero distance, or taken from a
      seed other than `Long.MIN_VALUE`, lies in `[floor, floor + range)`. */
  lemma StatInRange(seed: int, shift: int, range: int, floor: int)
    requires IsLong(seed) && 0 < range <= 51
    requires shift % 64 != 0 || seed != MinLong
    ensures floor <= Stat(seed, shift, range, floor) < floor + range
  {
  }

  /** The stat ranges: attack in [10,50], defense in [5,40], speed in
      [1,20], luck in [1,10] and skill in [5,30] for every seed; health in
      [50,100] for every seed except `Long.MIN_VALUE`. */
  lemma StatsInRange(name: string, barcode: string, seed: int)
    requires IsLong(seed)
    ensures var f := StatsFromSeed(name, barcode, seed);
      && (seed != MinLong ==> 50 <= f.health <= 100)
      && 10 <= f.attack <= 50
      && 5 <= f.defense <= 40
      && 1 <= f.speed <= 20
      && 1 <= f.luck <= 10
      && 5 <= f.skill <= 30
  {
    if seed != MinLong {
      StatInRange(seed, 0, 51, 50);
    }
    StatInRange(seed, 8, 41, 10);
    StatInRange(seed, 16, 36, 5);
    StatInRange(seed, 24, 20, 1);
    StatInRange(seed, 32, 10, 1);
    StatInRange(seed, 40, 26, 5);
  }

  /** For the seed `Long.MIN_VALUE`, `abs` overflows and the sign-keeping
      remainder gives health 50 + (-26) = 24. */
  lemma MinSeedHealth(name: string, barcode: string)
    ensures StatsFromSeed(name, barcode, MinLong).health == 24
  {
    assert Abs64(MinLong) == MinLong;
  }

  /** Generation is a function of the first eight digest bytes: barcodes
      whose digests agree there give fighters with the same stats. */
  lemma StatsDependOnlyOnSeedBytes(name: string, b1: string, b2: string, hash: Hasher)
    requires hash(b1)[..8] == hash(b2)[..8]
    ensures GenerateStats(name, b1, hash).(barcode := b2) == GenerateStats(name, b2, hash)
  {
  }

  // ---------------------------------------------------------------------
  // Colour signature

  /** Palette index of colour `i`: `(abs(seed shr (i * 3)) % 12).toInt()`,
      with `i * 3` computed as a 32-bit `Int`. It is less than 12 away from
      0 on either side. */
  function ColorIndex(seed: int, i: int): (r: int)
    requires IsLong(seed)
    ensures -12 < r < 12
  {
    Wrap32(KRem(Abs64(Shr(seed, Wrap32(i * 3))), 12))
  }

  /** The JVM's shift distance for colour `i`: the 32-bit wrap of `i * 3`
      changes it by a multiple of 2^32, which the six-bit mask discards. */
  lemma ShiftDistance(i: int)
    ensures Wrap32(i * 3) % 64 == (i * 3) % 64
  {
  }

  /** Colour indices lie in the palette, except where the shift distance is
      a multiple of 64 (`i = 0`, `64`, `128`, ...) and the seed is
      `Long.MIN_VALUE`. */
  lemma ColorIndexInRange(seed: int, i: int)
    requires IsLong(seed)
    requires (i * 3) % 64 != 0 || seed != MinLong
    ensures 0 <= ColorIndex(seed, i) < 12
  {
    ShiftDistance(i);
  }

  /** For the seed `Long.MIN_VALUE`, a zero shift distance gives index -8,
      outside the palette. */
  lemma MinSeedColorIndex(i: int)
    requires (i * 3) % 64 == 0
    ensures ColorIndex(MinLong, i) == -8
  {
    ShiftDistance(i);
    assert Shr(MinLong, Wrap32(i * 3)) == MinLong;
  }

  /** `generateColorSignature(barcode, count)`: colour `i` is palette entry
      `ColorIndex(seed, i)` for `i` in `0 until count`; the first index that
      falls outside the palette ends the call with an index-out-of-bounds
      exception. */
  method GenerateColorSignature(barcode: string, hash: Hasher, count: int := DefaultSignatureLength)
    returns (r: Result<seq<Color>, LookupError>)
    requires IsInt(count)
    ensures r.Success? <==> forall i :: 0 <= i < count ==> 0 <= ColorIndex(Seed(barcode, hash), i) < 12
    ensures r.Success? ==> |r.value| == (if count < 0 then 0 else count)
    ensures r.Success? ==> forall i :: 0 <= i < |r.value| ==>
      r.value[i] == ColorPalette[ColorIndex(Seed(barcode, hash), i)]
    ensures r.Failure? ==> exists i :: (0 <= i < count
      && r.error == IndexOutOfBounds(ColorIndex(Seed(barcode, hash), i))
      && !(0 <= ColorIndex(Seed(barcode, hash), i) < 12)
      && forall j :: 0 <= j < i ==> 0 <= ColorIndex(Seed(barcode, hash), j) < 12)
  {
    var seed := Seed(barcode, hash);
    r := ColorsFromSeed(seed, count);
  }

  /** The loop of `generateColorSignature` once the seed is known. */
  method ColorsFromSeed(seed: int, count: int) returns (r: Result<seq<Color>, LookupError>)
    requires IsLong(seed)
    ensures r.Success? <==> forall i :: 0 <= i < count ==> 0 <= ColorIndex(seed, i) < 12
    ensures r.Success? ==> |r.value| == (if count < 0 then 0 else count)
    ensures r.Success? ==> forall i :: 0 <= i < |r.value| ==>
      r.value[i] == ColorPalette[ColorIndex(seed, i)]
    ensures r.Failure? ==> exists i :: (0 <= i < count
      && r.error == IndexOutOfBounds(ColorIndex(seed, i))
      && !(0 <= ColorIndex(seed, i) < 12)
      && forall j :: 0 <= j < i ==> 0 <= ColorIndex(seed, j) < 12)
  {
    var colors: seq<Color> := [];
    var i := 0;
    while i < count
      invariant 0 <= i && (count >= 0 ==> i <= count) && (count < 0 ==> i == 0)
      invariant |colors| == i
      invariant forall j :: 0 <= j < i ==> 0 <= ColorIndex(seed, j) < 12
      invariant forall j :: 0 <= j < i ==> colors[j] == ColorPalette[ColorIndex(seed, j)]
    {
      var index := ColorIndex(seed, i);
      if !(0 <= index < |ColorPalette|) {
        return Failure(IndexOutOfBounds(index));
      }
      colors := colors + [ColorPalette[index]];
      i := i + 1;
    }
    r := Success(colors);
  }

  // ---------------------------------------------------------------------
  // Corrected slices: `abs(x % m)` instead of `abs(x) % m`

  /** A stat computed as `floor + abs(x % range)`: the remainder is taken
      first, so `abs` never sees `Long.MIN_VALUE`. */
  function StatCorrected(seed: int, shift: int, range: int, floor: int): (r: int)
    requires IsLong(seed) && 0 < range <= 51
    ensures floor <= r < floor + range
  {
    floor + Wrap32(Abs64(KRem(Shr(seed, shift), range)))
  }

  /** Palette index computed as `abs(x % 12)`: always inside the palette. */
  function ColorIndexCorrected(seed: int, i: int): (r: int)
    requires IsLong(seed)
    ensures 0 <= r < 12
  {
    Wrap32(Abs64(KRem(Shr(seed, Wrap32(i * 3)), 12)))
  }

  /** `abs(x) % m` and `abs(x % m)` agree on every `Long` except
      `Long.MIN_VALUE`. */
  lemma AbsRemCommute(x: int, m: int)
    requires IsLong(x) && x != MinLong && 0 < m <= 51
    ensures KRem(Abs64(x), m) == Abs64(KRem(x, m))
  {
  }

  /** The corrected stat differs from the shipped one only where the shipped
      one leaves its range: at `Long.MIN_VALUE` with shift 0. */
  lemma StatCorrectedAgrees(seed: int, shift: int, range: int, floor: int)
    requires IsLong(seed) && 0 < range <= 51
    requires shift % 64 != 0 || seed != MinLong
    ensures StatCorrected(seed, shift, range, floor) == Stat(seed, shift, range, floor)
  {
    AbsRemCommute(Shr(seed, shift), range);
  }

  /** At `Long.MIN_VALUE` the corrected health is 50 + 26 = 76, inside
      [50,100]. */
  lemma MinSeedHealthCorrected()
    ensures StatCorrected(MinLong, 0, 51, 50) == 76
  {
  }

  /** The fighter generated with corrected slices: every stat is in its
      range for every seed, `Long.MIN_VALUE` included. */
  function StatsFromSeedCorrected(name: string, barcode: string, seed: int): (f: Fighter)
    requires IsLong(seed)
    ensures f.name == name && f.barcode == barcode
    ensures f.id == 0 && f.wins == 0 && f.losses == 0
    ensures 50 <= f.health <= 100 && 10 <= f.attack <= 50 && 5 <= f.defense <= 40
    ensures 1 <= f.speed <= 20 && 1 <= f.luck <= 10 && 5 <= f.skill <= 30
  {
    Fighter(
      id := 0,
      name := name,
      barcode := barcode,
      health := StatCorrected(seed, 0, 51, 50),
      attack := StatCorrected(seed, 8, 41, 10),
      defense := StatCorrected(seed, 16, 36, 5),
      speed := StatCorrected(seed, 24, 20, 1),
      luck := StatCorrected(seed, 32, 10, 1),
      skill := StatCorrected(seed, 40, 26, 5),
      wins := 0,
      losses := 0)
  }

  /** The corrected fighter is the shipped one for every seed except
      `Long.MIN_VALUE`, where only the health differs. */
  lemma StatsFromSeedCorrectedAgrees(name: string, barcode: string, seed: int)
    requires IsLong(seed)
    ensures seed != MinLong ==> StatsFromSeedCorrected(name, barcode, seed) == StatsFromSeed(name, barcode, seed)
    ensures StatsFromSeedCorrected(name, barcode, seed).(health := 0) == StatsFromSeed(name, barcode, seed).(health := 0)
  {
    if seed != MinLong {
      StatCorrectedAgrees(seed, 0, 51, 50);
    }
    StatCorrectedAgrees(seed, 8, 41, 10);
    StatCorrectedAgrees(seed, 16, 36, 5);
    StatCorrectedAgrees(seed, 24, 20, 1);
    StatCorrectedAgrees(seed, 32, 10, 1);
    StatCorrectedAgrees(seed, 40, 26, 5);
  }

  lemma ColorIndexCorrectedAgrees(seed: int, i: int)
    requires IsLong(seed)
    requires (i * 3) % 64 != 0 || seed != MinLong
    ensures ColorIndexCorrected(seed, i) == ColorIndex(seed, i)
  {
    ShiftDistance(i);
    AbsRemCommute(Shr(seed, Wrap32(i * 3)), 12);
  }
}
