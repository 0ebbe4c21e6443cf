/** The musical signature: each colour of a fighter's visual signature is
    looked up in the twelve-colour palette and replaced by the note at the
    same position of the chromatic scale. */
module Music {
  import opened Colors

  /** The chromatic scale C4 .. B4, frequencies in hundredths of a hertz. */
  const ChromaticScale: seq<int> :=
    [26163, 27718, 29366, 31113, 32963, 34923, 36999, 39200, 41530, 44000, 46616, 49388]

  /** This module's own copy of the palette, built like the generator's. */
  const ColorPalette: seq<Color> := [
    PaletteColor(0), PaletteColor(1), PaletteColor(2), PaletteColor(3),
    PaletteColor(4), PaletteColor(5), PaletteColor(6), PaletteColor(7),
    PaletteColor(8), PaletteColor(9), PaletteColor(10), PaletteColor(11)]

  /** A note of the signature: a scale tone, or the tone derived from a
      colour's hue when the colour is not in the palette (that derivation is
      not modelled). */
  datatype Note = Tone(centiHertz: int) | HueFallback(color: Color)

  /** `List.indexOf`: the position of the first occurrence of `x`, or -1. */
  function IndexOf<T(==)>(s: seq<T>, x: T): (r: int)
    ensures -1 <= r < |s|
    ensures r == -1 <==> x !in s
    ensures r >= 0 ==> s[r] == x && x !in s[..r]
  {
    if s == [] then -1
    else if s[0] == x then 0
    else
      var k := IndexOf(s[1..], x);
      assert s[1..][..if k < 0 then 0 else k] == s[1..if k < 0 then 1 else k + 1];
      if k == -1 then -1 else k + 1
  }

  /** The body of the loop over the colours: look the colour up in the
      palette and take the scale note at its index, or the hue fallback.
      A colour gives a scale tone exactly when it is in the palette. */
  function NoteFor(c: Color): (n: Note)
    ensures n.Tone? <==> c in ColorPalette
    ensures n.Tone? ==> n.centiHertz in ChromaticScale
    ensures n.HueFallback? ==> n.color == c
  {
    var index := IndexOf(ColorPalette, c);
    if index != -1 then Tone(ChromaticScale[index]) else HueFallback(c)
  }

  /** `generateMusicalSignature(colors)`: one note per colour, in order. */
  method GenerateMusicalSignature(colors: seq<Color>) returns (signature: seq<Note>)
    ensures |signature| == |colors|
    ensures forall i :: 0 <= i < |colors| ==> signature[i] == NoteFor(colors[i])
  {
    signature := [];
    for k := 0 to |colors|
      invariant |signature| == k
      invariant forall i :: 0 <= i < k ==> signature[i] == NoteFor(colors[i])
    {
      signature := signature + [NoteFor(colors[k])];
    }
  }

  /** The twelve palette colours are pairwise distinct. */
  lemma PaletteDistinct(i: int, j: int)
    requires 0 <= i < j < |ColorPalette|
    ensures ColorPalette[i] != ColorPalette[j]
  {
  }

  /** The palette colour at position `k` plays the scale note at position
      `k`; palette and scale have the same twelve positions. */
  lemma PaletteColorNote(k: int)
    requires 0 <= k < 12
    ensures |ColorPalette| == |ChromaticScale| == 12
    ensures NoteFor(ColorPalette[k]) == Tone(ChromaticScale[k])
  {
    assert ColorPalette[k] in ColorPalette;
    forall j | 0 <= j < 12 && j != k
      ensures ColorPalette[j] != ColorPalette[k]
    {
      if j < k { PaletteDistinct(j, k); } else { PaletteDistinct(k, j); }
    }
  }

  /** A signature of palette colours is made of scale tones only. */
  lemma PaletteSignatureTones(colors: seq<Color>, signature: seq<Note>)
    requires forall i :: 0 <= i < |colors| ==> colors[i] in ColorPalette
    requires |signature| == |colors|
    requires forall i :: 0 <= i < |colors| ==> signature[i] == NoteFor(colors[i])
    ensures forall i :: 0 <= i < |signature| ==> signature[i].Tone? && signature[i].centiHertz in ChromaticScale
  {
  }
}
