/**
 One candidate solution: an ordered sequence of genes (its DNA) and a
 fitness value. Copying is by value, so a deep copy is a copy that equals
 its source; the gene operations take their random draws as parameters.
 */
module Individuals {
  import opened CppInt
  import opened Genes

  datatype Individual = Individual(dna: seq<Gene>, fitness: real)

  /** The individual a default construction yields: no genes, fitness 0. */
  function NewIndividual(): (r: Individual)
    ensures |r.dna| == 0 && r.fitness == 0.0
  {
    Individual([], 0.0)
  }

  /** Every gene of `ind` is valid on a `width` x `height` canvas. */
  predicate ValidIndividual(ind: Individual, width: int, height: int)
  {
    forall i :: 0 <= i < |ind.dna| ==> ValidGene(ind.dna[i], width, height)
  }

  /** Copies a DNA sequence gene by gene, cloning each one in order. */
  method CloneDna(src: seq<Gene>) returns (dna: seq<Gene>)
    ensures |dna| == |src|
    ensures forall i :: 0 <= i < |src| ==> dna[i] == src[i]
  {
    dna := [];
    for i := 0 to |src|
      invariant dna == src[..i]
    {
      dna := dna + [Clone(src[i])];
    }
  }

  /** The copy constructor: same fitness, and the DNA cloned gene by gene. */
  method CopyIndividual(other: Individual) returns (r: Individual)
    ensures r.fitness == other.fitness
    ensures |r.dna| == |other.dna|
    ensures forall i :: 0 <= i < |other.dna| ==> r.dna[i] == other.dna[i]
    ensures r == other
  {
    var dna := CloneDna(other.dna);
    r := Individual(dna, other.fitness);
  }

  /** Copy assignment of `source` onto `target`. `aliased` says that both
      name the same object; that case returns the target untouched. */
  method Assign(target: Individual, source: Individual, aliased: bool) returns (r: Individual)
    requires aliased ==> target == source
    ensures r == source
    ensures aliased ==> r == target
  {
    if aliased {
      return target;
    }
    var dna := CloneDna(source.dna);
    r := Individual(dna, source.fitness);
  }

  /** The values `add_random_gene` draws, in the order it draws them. */
  datatype GeneDraw = GeneDraw(x: int, y: int, r: int, g: int, b: int, a: int, size: int)

  /** The draw lies in the inclusive ranges `add_random_gene` asks for. */
  predicate GeneDrawOk(d: GeneDraw, imgWidth: int, imgHeight: int, maxSize: int)
  {
    && 0 <= d.x <= imgWidth - 1
    && 0 <= d.y <= imgHeight - 1
    && 0 <= d.r <= 255 && 0 <= d.g <= 255 && 0 <= d.b <= 255
    && 0 <= d.a <= 100
    && 1 <= d.size <= maxSize
  }

  /** A gene as `add_random_gene` creates it: on the canvas, opaque at most
      to alpha 100, of length in [1, maxSize] and of the requested shape. */
  predicate NewbornGene(g: Gene, imgWidth: int, imgHeight: int, maxSize: int, shape: ShapeType)
  {
    && 0 <= g.position.x <= imgWidth - 1
    && 0 <= g.position.y <= imgHeight - 1
    && g.color.a <= 100
    && 1 <= g.length <= maxSize
    && g.shape == shape
  }

  /** Appends a gene built from the draw `d`. */
  function AddRandomGene(ind: Individual, imgWidth: int, imgHeight: int, maxSize: int,
                         shape: ShapeType, d: GeneDraw): (r: Individual)
    requires GeneDrawOk(d, imgWidth, imgHeight, maxSize)
    ensures |r.dna| == |ind.dna| + 1
    ensures r.dna[..|ind.dna|] == ind.dna
    ensures NewbornGene(r.dna[|ind.dna|], imgWidth, imgHeight, maxSize, shape)
    ensures ValidGene(r.dna[|ind.dna|], imgWidth, imgHeight)
    ensures r.dna[|ind.dna|] == Gene(Position(d.x, d.y), Color(d.r, d.g, d.b, d.a), shape, d.size)
    ensures r.fitness == ind.fitness
  {
    var c := Color(ToUint8(d.r), ToUint8(d.g), ToUint8(d.b), ToUint8(d.a));
    ind.(dna := ind.dna + [Gene(Position(d.x, d.y), c, shape, d.size)])
  }

  /** Removes the gene at the drawn index; an individual without genes is
      returned unchanged. */
  function DeleteRandomGene(ind: Individual, index: int): (r: Individual)
    requires |ind.dna| > 0 ==> 0 <= index <= |ind.dna| - 1
    ensures |ind.dna| == 0 ==> r == ind
    ensures |ind.dna| > 0 ==> |r.dna| == |ind.dna| - 1
    ensures |ind.dna| > 0 ==> forall i :: 0 <= i < index ==> r.dna[i] == ind.dna[i]
    ensures |ind.dna| > 0 ==> forall i :: index <= i < |r.dna| ==> r.dna[i] == ind.dna[i + 1]
    ensures r.fitness == ind.fitness
  {
    if |ind.dna| == 0 then ind
    else ind.(dna := ind.dna[..index] + ind.dna[index + 1..])
  }

  /** One draw of `mutate_random_gene`'s mutation kind together with the
      values that kind draws: case 0 moves, case 1 recolours, case 2 resizes. */
  datatype Mutation =
    | MovePosition(dx: int, dy: int)
    | ShiftColor(dr: int, dg: int, db: int, da: int)
    | ResizeLength(dl: int)

  /** The values of `m` lie in the ranges its gene mutation asks for. */
  predicate MutationOk(m: Mutation, g: Gene, imgWidth: int, imgHeight: int)
  {
    match m
    case MovePosition(dx, dy) => PositionDrawOk(imgWidth, dx) && PositionDrawOk(imgHeight, dy)
    case ShiftColor(dr, dg, db, da) =>
      -10 <= dr <= 10 && -10 <= dg <= 10 && -10 <= db <= 10 && -10 <= da <= 10
    case ResizeLength(dl) => -LengthStep(g.length) <= dl <= LengthStep(g.length)
  }

  /** The gene mutation `m` selects, applied to `g`. */
  function ApplyMutation(g: Gene, m: Mutation, imgWidth: int, imgHeight: int): (r: Gene)
    requires MutationOk(m, g, imgWidth, imgHeight)
    ensures r.shape == g.shape
    ensures ValidGene(g, imgWidth, imgHeight) ==> ValidGene(r, imgWidth, imgHeight)
  {
    match m
    case MovePosition(dx, dy) => MutatePosition(g, imgWidth, imgHeight, dx, dy)
    case ShiftColor(dr, dg, db, da) => MutateColor(g, dr, dg, db, da)
    case ResizeLength(dl) => MutateLength(g, dl)
  }

  /** Mutates the gene at the drawn index; an individual without genes is
      returned unchanged. */
  function MutateRandomGene(ind: Individual, imgWidth: int, imgHeight: int, index: int, m: Mutation): (r: Individual)
    requires |ind.dna| > 0 ==> 0 <= index <= |ind.dna| - 1 && MutationOk(m, ind.dna[index], imgWidth, imgHeight)
    ensures |ind.dna| == 0 ==> r == ind
    ensures |r.dna| == |ind.dna|
    ensures forall i :: 0 <= i < |ind.dna| && i != index ==> r.dna[i] == ind.dna[i]
    ensures |ind.dna| > 0 ==> r.dna[index] == ApplyMutation(ind.dna[index], m, imgWidth, imgHeight)
    ensures forall i :: 0 <= i < |ind.dna| ==> r.dna[i].shape == ind.dna[i].shape
    ensures r.fitness == ind.fitness
  {
    if |ind.dna| == 0 then ind
    else ind.(dna := ind.dna[index := ApplyMutation(ind.dna[index], m, imgWidth, imgHeight)])
  }

  /** Putting the removed gene back at its index restores the DNA, so the
      deletion loses exactly that one gene. */
  lemma DeleteThenReinsert(ind: Individual, index: int)
    requires 0 <= index < |ind.dna|
    ensures DeleteRandomGene(ind, index).dna[..index] + [ind.dna[index]]
            + DeleteRandomGene(ind, index).dna[index..] == ind.dna
    ensures multiset(DeleteRandomGene(ind, index).dna) + multiset{ind.dna[index]} == multiset(ind.dna)
  {
  }

  /** Deleting the gene at the last index undoes an append. */
  lemma DeleteUndoesAdd(ind: Individual, imgWidth: int, imgHeight: int, maxSize: int,
                        shape: ShapeType, d: GeneDraw)
    requires GeneDrawOk(d, imgWidth, imgHeight, maxSize)
    ensures DeleteRandomGene(AddRandomGene(ind, imgWidth, imgHeight, maxSize, shape, d), |ind.dna|) == ind
  {
  }

  /** Appending, deleting and mutating keep every gene valid on a canvas of
      positive size. */
  lemma OperationsPreserveValid(ind: Individual, imgWidth: int, imgHeight: int, maxSize: int,
                                shape: ShapeType, d: GeneDraw, index: int, m: Mutation)
    requires ValidIndividual(ind, imgWidth, imgHeight)
    requires GeneDrawOk(d, imgWidth, imgHeight, maxSize)
    requires |ind.dna| > 0 ==> 0 <= index <= |ind.dna| - 1 && MutationOk(m, ind.dna[index], imgWidth, imgHeight)
    ensures ValidIndividual(AddRandomGene(ind, imgWidth, imgHeight, maxSize, shape, d), imgWidth, imgHeight)
    ensures ValidIndividual(DeleteRandomGene(ind, index), imgWidth, imgHeight)
    ensures ValidIndividual(MutateRandomGene(ind, imgWidth, imgHeight, index, m), imgWidth, imgHeight)
  {
  }

  /** The alpha range of a new gene is not an invariant: one colour
      mutation takes a fully transparent newborn gene to alpha 255. */
  lemma AlphaLeavesNewbornRange()
    ensures var g := Gene(Position(0, 0), Color(0, 0, 0, 0), Circle, 1);
            && NewbornGene(g, 1, 1, 1, Circle)
            && MutateColor(g, 0, 0, 0, -1).color.a == 255
  {
  }
}
