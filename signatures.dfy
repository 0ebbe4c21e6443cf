/** The visual and the musical signature of a barcode kept in lockstep:
    colour `i` and note `i` come from the same palette position. */
module Signatures {
  import opened KotlinInt
  import SG = StatsGenerator
  import opened Music

  /** The generator and the music mapping build the same palette. */
  lemma PalettesAgree()
    ensures SG.ColorPalette == Music.ColorPalette
  {
  }

  /** Feeding a generated colour signature to the music mapping gives, at
      every position `i`, the scale note `ChromaticScale[ColorIndex(seed, i)]`. */
  lemma GeneratedSignatureNotes(seed: int, colors: seq<Colors.Color>, notes: seq<Note>)
    requires IsLong(seed)
    requires forall i :: 0 <= i < |colors| ==> 0 <= SG.ColorIndex(seed, i) < 12
    requires forall i :: 0 <= i < |colors| ==> colors[i] == SG.ColorPalette[SG.ColorIndex(seed, i)]
    requires |notes| == |colors|
    requires forall i :: 0 <= i < |colors| ==> notes[i] == NoteFor(colors[i])
    ensures forall i :: 0 <= i < |notes| ==>
      notes[i] == Tone(ChromaticScale[SG.ColorIndex(seed, i)])
  {
    PalettesAgree();
    forall i | 0 <= i < |notes|
      ensures notes[i] == Tone(ChromaticScale[SG.ColorIndex(seed, i)])
    {
      PaletteColorNote(SG.ColorIndex(seed, i));
    }
  }

  /** For every seed other than `Long.MIN_VALUE` the first `n` notes of the
      barcode are all defined scale notes (no lookup fails). */
  lemma SignatureIndicesDefined(seed: int, n: nat)
    requires IsLong(seed) && seed != MinLong
    ensures forall i :: 0 <= i < n ==> 0 <= SG.ColorIndex(seed, i) < |ChromaticScale|
  {
    forall i | 0 <= i < n
      ensures 0 <= SG.ColorIndex(seed, i) < |ChromaticScale|
    {
      SG.ColorIndexInRange(seed, i);
    }
  }
}
