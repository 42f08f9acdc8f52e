/** biomorphs/morph_dna.h: the biomorph genome.

    The genome is eleven unsigned bit-fields. Their overlay with two 64-bit
    words depends on the compiler's bit-field packing and is not modelled;
    each field is a natural number below 2^width. The float dequantisation
    helpers (BASEANGLE, BASELENGTH, BASECOLOUR, BRANCH*) are not modelled. */
module MorphDna {
  import Bounds

  /** The widths of the eleven gene fields, in gene-index order. */
  const Widths: seq<nat> := [4, 7, 6, 8, 8, 5, 5, 5, 8, 8, 8]

  const GeneCount: nat := 11

  function Pow2(n: nat): (r: nat)
    ensures r >= 1
  {
    if n == 0 then 1 else 2 * Pow2(n - 1)
  }

  datatype MorphDNA = MorphDNA(
    branchDepth: nat,           // 4 bits: recursion depth minus one
    branchInitialAngle: nat,    // 7 bits: quantised 0..180 degrees
    branchInitialLength: nat,   // 6 bits: quantised 0..1
    branchLengthModifier: nat,  // 8 bits: quantised 0..2
    branchAngleModifier: nat,   // 8 bits: quantised 0..2
    baseColourRed: nat,         // 5 bits
    baseColourGreen: nat,       // 5 bits
    baseColourBlue: nat,        // 5 bits
    branchRedModifier: nat,     // 8 bits
    branchGreenModifier: nat,   // 8 bits
    branchBlueModifier: nat)    // 8 bits

  /** The genes in the order of the mutation switch. */
  function Genes(dna: MorphDNA): (g: seq<nat>)
    ensures |g| == GeneCount
  {
    [dna.branchDepth, dna.branchInitialAngle, dna.branchInitialLength,
     dna.branchLengthModifier, dna.branchAngleModifier,
     dna.baseColourRed, dna.baseColourGreen, dna.baseColourBlue,
     dna.branchRedModifier, dna.branchGreenModifier, dna.branchBlueModifier]
  }

  /** The value of gene `i`. */
  function Gene(dna: MorphDNA, i: nat): nat
    requires i < GeneCount
  {
    Genes(dna)[i]
  }

  /** Every field fits its bit-field. */
  predicate Valid(dna: MorphDNA) {
    forall i :: 0 <= i < GeneCount ==> Gene(dna, i) < Pow2(Widths[i])
  }

  /** Storing an unsigned value into a bit-field of the given width keeps its
      low bits (for a negative int, its two's complement low bits). */
  function StoreBits(v: int, width: nat): (r: nat)
    ensures r < Pow2(width)
    ensures 0 <= v < Pow2(width) ==> r == v
  {
    var m := Pow2(width);
    if 0 <= v < m then v else LowBits(v, m)
  }

  /** Euclidean remainder, the value's residue modulo m in [0, m). */
  function LowBits(v: int, m: int): (r: nat)
    requires m > 0
    ensures r < m
  {
    v % m
  }

  /** The default constructor zeroes both 64-bit words. */
  function DefaultDNA(): (d: MorphDNA)
    ensures Valid(d)
    ensures forall i :: 0 <= i < GeneCount ==> Gene(d, i) == 0
  {
    MorphDNA(0, 0, 0, 0, 0, 0, 0, 0, 0, 0, 0)
  }

  /** MAKEDNA, for its integer storage: every argument is the already
      quantised unsigned value (the float-to-int conversions are not
      modelled) and is stored into its bit-field. */
  function MakeDNA(branches: nat, initAngle: nat, initLength: nat, lengthMod: nat, angleMod: nat,
                   red: nat, green: nat, blue: nat, redMod: nat, greenMod: nat, blueMod: nat): (d: MorphDNA)
    ensures Valid(d)
    ensures d.branchDepth == branches % 16
    ensures branches < 16 ==> d.branchDepth == branches
  {
    MorphDNA(StoreBits(branches, 4), StoreBits(initAngle, 7), StoreBits(initLength, 6),
             StoreBits(lengthMod, 8), StoreBits(angleMod, 8),
             StoreBits(red, 5), StoreBits(green, 5), StoreBits(blue, 5),
             StoreBits(redMod, 8), StoreBits(greenMod, 8), StoreBits(blueMod, 8))
  }

  /** BASEDEPTH: the number of recursion levels. */
  function BaseDepth(dna: MorphDNA): (d: int)
    requires Valid(dna)
    ensures 1 <= d <= 16
    ensures d - 1 == dna.branchDepth
  {
    assert Gene(dna, 0) < Pow2(Widths[0]);
    1 + dna.branchDepth
  }

  /** MutateGene: clamp `originalValue + modification` below by `valueMin`
      (with Max) and then above by `valueMax` (with Min). */
  function MutateGene(originalValue: int, modification: int, valueMin: int, valueMax: int): (r: int)
    ensures valueMin <= valueMax ==> valueMin <= r <= valueMax
    ensures valueMin <= originalValue + modification <= valueMax ==> r == originalValue + modification
    ensures valueMin <= valueMax && originalValue + modification < valueMin ==> r == valueMin
    ensures originalValue + modification > valueMax ==> r == valueMax
    ensures r <= valueMax
  {
    var bd := originalValue + modification;
    var bd' := Bounds.Max(valueMin, bd);
    Bounds.Min(valueMax, bd')
  }

  /** The direction of a mutation: +1 iff the draw from 0..100 exceeds 50. */
  function Direction(draw: int): (dir: int)
    ensures dir == 1 || dir == -1
    ensures dir == 1 <==> draw > 50
  {
    if draw > 50 then 1 else -1
  }

  /** Per-gene step magnitude and clamp range of MutateDNA's switch. */
  const Steps: seq<int> := [1, 2, 1, 4, 4, 1, 1, 1, 3, 3, 3]
  const ClampLo: seq<int> := [15, 1, 1, 1, 1, 31, 31, 31, 1, 1, 1]
  const ClampHi: seq<int> := [15, 127, 63, 255, 255, 31, 31, 31, 255, 255, 255]

  /** The genome with field `i` replaced by `x`. */
  function SetGene(dna: MorphDNA, i: nat, x: nat): (r: MorphDNA)
    requires i < GeneCount
    ensures Genes(r) == Genes(dna)[i := x]
  {
    match i
    case 0 => dna.(branchDepth := x)
    case 1 => dna.(branchInitialAngle := x)
    case 2 => dna.(branchInitialLength := x)
    case 3 => dna.(branchLengthModifier := x)
    case 4 => dna.(branchAngleModifier := x)
    case 5 => dna.(baseColourRed := x)
    case 6 => dna.(baseColourGreen := x)
    case 7 => dna.(baseColourBlue := x)
    case 8 => dna.(branchRedModifier := x)
    case 9 => dna.(branchGreenModifier := x)
    case _ => dna.(branchBlueModifier := x)
  }

  /** MutateDNA with its two random draws as parameters: `gene` (0..10) picks
      the field, `draw` (0..100) the direction. Any other gene value matches
      no case of the switch and leaves the genome unchanged. */
  function MutateDNA(dna: MorphDNA, gene: int, draw: int): (r: MorphDNA)
    ensures !(0 <= gene < GeneCount) ==> r == dna
    ensures 0 <= gene < GeneCount ==>
      Gene(r, gene) == MutateGene(Gene(dna, gene), Direction(draw) * Steps[gene], ClampLo[gene], ClampHi[gene])
    ensures forall j :: 0 <= j < GeneCount && j != gene ==> Gene(r, j) == Gene(dna, j)
    ensures Valid(dna) ==> Valid(r)
  {
    if 0 <= gene < GeneCount then
      var v := MutateGene(Gene(dna, gene), Direction(draw) * Steps[gene], ClampLo[gene], ClampHi[gene]);
      ClampFitsWidth(gene);
      SetGene(dna, gene, StoreBits(v, Widths[gene]))
    else
      dna
  }

  /** Every clamp range lies inside its field's bit-field. */
  lemma ClampFitsWidth(g: nat)
    requires g < GeneCount
    ensures 0 < ClampLo[g] <= ClampHi[g] < Pow2(Widths[g])
  {
    PowWidths();
  }

  lemma PowWidths()
    ensures Pow2(4) == 16 && Pow2(5) == 32 && Pow2(6) == 64 && Pow2(7) == 128 && Pow2(8) == 256
  {
    assert Pow2(4) == 16;
    assert Pow2(5) == 32;
    assert Pow2(6) == 64;
    assert Pow2(7) == 128;
  }

  /** Every mutated field stays within its clamp range: the angle in 1..127,
      the length in 1..63, the five 8-bit modifiers in 1..255, and the
      depth and base colour fields at their single clamp value. */
  lemma MutationStaysInClampRange(dna: MorphDNA, gene: int, draw: int)
    requires 0 <= gene < GeneCount
    ensures ClampLo[gene] <= Gene(MutateDNA(dna, gene, draw), gene) <= ClampHi[gene]
  {
  }

  /** Genes 0, 5, 6 and 7 have a one-value clamp range, so mutating them sets
      the field to 15 (depth) or 31 (colour) whatever the old value and
      direction were. */
  lemma FrozenGenesSnap(dna: MorphDNA, draw: int)
    ensures MutateDNA(dna, 0, draw).branchDepth == 15
    ensures MutateDNA(dna, 5, draw).baseColourRed == 31
    ensures MutateDNA(dna, 6, draw).baseColourGreen == 31
    ensures MutateDNA(dna, 7, draw).baseColourBlue == 31
  {
    assert Gene(MutateDNA(dna, 0, draw), 0) == 15;
    assert Gene(MutateDNA(dna, 5, draw), 5) == 31;
    assert Gene(MutateDNA(dna, 6, draw), 6) == 31;
    assert Gene(MutateDNA(dna, 7, draw), 7) == 31;
  }

  /** A mutation away from the clamp bounds moves the field by exactly the
      gene's step in the drawn direction. */
  lemma InteriorMutationSteps(dna: MorphDNA, gene: int, draw: int)
    requires 0 <= gene < GeneCount
    requires ClampLo[gene] <= Gene(dna, gene) + Direction(draw) * Steps[gene] <= ClampHi[gene]
    ensures Gene(MutateDNA(dna, gene, draw), gene) == Gene(dna, gene) + Direction(draw) * Steps[gene]
  {
  }

  /** Mutating a valid genome keeps its recursion depth within 1..16. */
  lemma MutatedDepthInRange(dna: MorphDNA, gene: int, draw: int)
    requires Valid(dna)
    ensures 1 <= BaseDepth(MutateDNA(dna, gene, draw)) <= 16
    ensures gene == 0 ==> BaseDepth(MutateDNA(dna, gene, draw)) == 16
  {
    if gene == 0 {
      FrozenGenesSnap(dna, draw);
    }
  }
}
