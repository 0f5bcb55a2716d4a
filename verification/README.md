# GeneticArt shape genome in Dafny

GeneticArt approximates a target image with a population of vector-shape
compositions evolved by a genetic algorithm. This project models the
genome layer of that program and the seeding of its population:

- a **gene** (`Genes`): a circle or square with a position, an RGBA colour
  of `uint8_t` channels and a length, and its three mutation operators —
  a toroidal position step of at most a tenth of each canvas dimension, a
  colour shift of at most 10 per channel that wraps modulo 256, and a
  length change of at most a fifth of the length with a floor of 1;
- an **individual** (`Individuals`): a DNA sequence of genes and a fitness,
  with deep copy construction and assignment, appending a random gene,
  deleting a random gene and mutating a random gene;
- the **genetic algorithm's constructor** (`GeneticAlgorithms`): it stores
  its six parameters and builds `populationSize` individuals of exactly one
  random gene each.

The C++ integer semantics the operators rely on — `/` truncating toward
zero, `%` taking the sign of the dividend, and the modulo-256 conversion to
`uint8_t` — are spelled out in `CppInt`, and the model proves that the
operators' net effect is the Euclidean remainder.

Every call of `Random::getInt(min, max)` draws uniformly from the inclusive
range `[min, max]`. In the model each draw is a parameter whose `requires`
states exactly that range, so each operation is a pure function and every
postcondition holds for every admissible draw. `mutate_random_gene`'s draw
of its mutation kind (`getInt(0, 2)`) is the constructor of the `Mutation`
datatype: `MovePosition` is case 0, `ShiftColor` case 1, `ResizeLength`
case 2. Objects are values: a deep copy is a copy equal to its source, and
the self-assignment test `this == &other` becomes a flag that may only be
set when target and source are the same value.

Each individual of the initial population starts with exactly one gene
(GeneticAlgorithm.h:43), and `maxGeneSize` bounds that gene's length
(Individual.h:52).

## Model

| member | source | states |
|---|---|---|
| CppInt.TruncDiv | Gene.h:38-39 | C++ division by a positive divisor truncates toward zero: the quotient times the divisor lies between zero and the dividend, within one divisor of it |
| CppInt.TruncRem | Gene.h:43 | C++ remainder satisfies `a == b * (a / b) + a % b` and has the sign of the dividend, with magnitude below the divisor |
| CppInt.ToUint8 | Individual.h:45-49 | conversion to `uint8_t` keeps values in [0, 256) and otherwise yields the value congruent modulo 256 |
| Genes.Clone | Gene.h:31-33 | a cloned gene has the same position, colour, shape and length as the original |
| Genes.Wrap | Gene.h:41-45 | the wrap lambda yields the Euclidean remainder `v mod limit`, in [0, limit), and 0 when the limit is not positive |
| Genes.MutatePosition | Gene.h:36-49 | the new x is `(x + dx) mod imgWidth` and lies in [0, imgWidth), or is 0 for a non-positive width; likewise y; colour, shape and length are unchanged |
| Genes.PositionDrawSymmetric | Gene.h:38-39 | the step range `[-limit / 10, limit / 10]` contains a step exactly when it contains its opposite |
| Genes.MutatePositionInverse | Gene.h:38-48 | for an on-canvas gene, a position mutation by `(dx, dy)` followed by one by `(-dx, -dy)` restores the gene |
| Genes.NarrowCanvasNeverMoves | Gene.h:38-48 | on a canvas less than 10 pixels wide and high, the position mutation leaves an on-canvas gene unchanged |
| Genes.ShiftChannel | Gene.h:53 | a channel shifted by an offset in [-10, 10] becomes `(c + d) mod 256`: unchanged sum in range, +256 below 0, -256 above 255 |
| Genes.MutateColor | Gene.h:51-57 | each of r, g, b, a becomes `(c + d) mod 256` for its own offset; position, shape and length are unchanged |
| Genes.ColorWrapsAround | Gene.h:52-56 | the colour shift wraps instead of clamping: 255 + 1 gives 0, 0 - 1 gives 255, 250 + 10 gives 4 |
| Genes.MutateColorInverse | Gene.h:53-56 | a colour mutation followed by the opposite offsets restores the gene |
| Genes.LengthStepIsFifth | Gene.h:61 | for a non-negative length, the truncated `length * 0.2` is `length / 5`, the largest k with `5 * k <= length` |
| Genes.MutateLength | Gene.h:59-63 | the new length is at least 1, lies in `[length - length / 5, length + length / 5]` for length >= 1, is unchanged for lengths 1 to 4, equals `length + d` when that is at least 1 and is exactly 1 otherwise; position, colour and shape are unchanged |
| Genes.MutationsPreserveValid | Gene.h:36-63 | each mutation keeps a gene on the canvas with length at least 1 |
| Individuals.NewIndividual | Individual.h:14 | a default individual has no genes and fitness 0 |
| Individuals.CloneDna | Individual.h:19-24 | the gene-by-gene clone loop yields a sequence of the same length with the same gene at every index |
| Individuals.CopyIndividual | Individual.h:17-25 | the copy has the source's fitness and an element-wise equal DNA of the same length, in the same order |
| Individuals.Assign | Individual.h:27-39 | after assignment the target equals the source; self-assignment leaves the target as it was |
| Individuals.AddRandomGene | Individual.h:41-54 | the DNA grows by exactly one gene, the earlier genes are kept in order, the new gene is on the canvas with alpha at most 100, length in [1, maxSize] and the requested shape, built from exactly the drawn position, colour and size, and fitness is unchanged |
| Individuals.DeleteRandomGene | Individual.h:56-60 | an empty DNA is left as it is; otherwise the length drops by one, genes before the index stay in place and genes after it move down by one; fitness is unchanged |
| Individuals.DeleteThenReinsert | Individual.h:58-59 | reinserting the removed gene at its index restores the DNA, and the multiset of genes loses exactly the removed gene |
| Individuals.DeleteUndoesAdd | Individual.h:53-59 | deleting the gene at the last index of a DNA that just grew by an appended gene gives back the original individual |
| Individuals.ApplyMutation | Individual.h:66-78 | each of the three mutation kinds keeps the shape and keeps a valid gene valid |
| Individuals.MutateRandomGene | Individual.h:62-79 | an empty DNA is left as it is; otherwise the length is kept, every gene but the drawn one is unchanged, the drawn one receives the chosen mutation, no shape changes and fitness is unchanged |
| Individuals.OperationsPreserveValid | Individual.h:41-79 | appending, deleting and mutating a gene keep every gene of an individual on the canvas with length at least 1 |
| Individuals.AlphaLeavesNewbornRange | Individual.h:48 | the alpha range [0, 100] of a new gene is not kept by colour mutation: alpha 0 shifted by -1 becomes 255 |
| GeneticAlgorithms.InitializePopulation | GeneticAlgorithm.h:40-46 | the population has `max(populationSize, 0)` individuals, the i-th being a default individual with one gene appended from the i-th draw; each has fitness 0, exactly one gene of the requested shape, on the canvas, with length in [1, maxGeneSize] |
| GeneticAlgorithms.NewGeneticAlgorithm | GeneticAlgorithm.h:8-18 | the constructor stores its six parameters unchanged and holds `max(populationSize, 0)` individuals, the i-th being a default individual with one gene appended from the i-th draw, each with fitness 0 and one newborn gene of the requested shape |
| GeneticAlgorithms.SeedingNeedsCanvas | Individual.h:42-52 | a non-empty population can only be drawn when width, height and maximum gene size are all at least 1 |

## Left out

- Random number generation (`Random`, RandomHelper.h): replaced by draw parameters whose preconditions are the inclusive ranges `getInt` promises; its seeding and `getDouble`, which the modelled code does not use, are not modelled.
- Image loading (LoadImage.h): file decoding through an external library, and its exception on failure, is I/O.
- `Draw` and `GeneticAlgorithm::DrawBetterIndividual` (Draw.h, GeneticAlgorithm.h:20-26): they only print to the console.
- main.cpp: a front-end that calls a constructor signature and functions (rendering, pixel conversion, best individual) not defined in any modelled file.
- Rendering, fitness scoring, sorting, tournament selection, crossover, elitism and the parallel evaluation pool: no source for them is part of this model.
- The `generations` field is stored by the constructor but used by nothing in the modelled code.
- Native `int` overflow: positions, lengths and canvas sizes are unbounded integers, so `position.x + dx` and `-img_width` never overflow in the model.
- Genes.LengthStep: `length * 0.2` is a floating-point product truncated to `int`; it is modelled as the truncating quotient `length / 5`, which it equals for every length of 32-bit range.
- Undefined behaviour of `getInt` with an empty range (for instance a non-positive width in `add_random_gene`, or a length of -5 or less in `mutateLength`): the model admits no draw there, so such calls are outside every precondition.
- Object identity and storage (`reserve`, `clear`, references into the vector): values replace objects, and self-assignment is the `aliased` flag of `Individuals.Assign`.
