/**
 The set-up of the evolution engine: the constructor stores the run's
 parameters and seeds the population with individuals of one random gene
 each. The random source is replaced by the sequence of gene draws, one per
 individual, in creation order.
 */
module GeneticAlgorithms {
  import opened Genes
  import opened Individuals

  datatype GeneticAlgorithm = GeneticAlgorithm(
    populationSize: int,
    imgWidth: int,
    imgHeight: int,
    maxGeneSize: int,
    generations: int,
    shapeType: ShapeType,
    population: seq<Individual>)

  /** The number of individuals a loop `for (i = 0; i < n; ++i)` creates. */
  function Count(n: int): nat
  {
    if n > 0 then n else 0
  }

  /** An individual as the initial population holds it: fitness 0 and one
      newborn gene of the requested shape. */
  predicate Seedling(ind: Individual, imgWidth: int, imgHeight: int, maxGeneSize: int, shape: ShapeType)
  {
    && ind.fitness == 0.0
    && |ind.dna| == 1
    && NewbornGene(ind.dna[0], imgWidth, imgHeight, maxGeneSize, shape)
  }

  /** Builds `populationSize` individuals, the i-th from a default individual
      with one gene appended from `draws[i]`. */
  method InitializePopulation(populationSize: int, imgWidth: int, imgHeight: int, maxGeneSize: int,
                              shapeType: ShapeType, draws: seq<GeneDraw>)
    returns (population: seq<Individual>)
    requires |draws| == Count(populationSize)
    requires forall i :: 0 <= i < |draws| ==> GeneDrawOk(draws[i], imgWidth, imgHeight, maxGeneSize)
    ensures |population| == Count(populationSize)
    ensures forall i :: 0 <= i < |population| ==>
              population[i] == AddRandomGene(NewIndividual(), imgWidth, imgHeight, maxGeneSize, shapeType, draws[i])
    ensures forall i :: 0 <= i < |population| ==>
              Seedling(population[i], imgWidth, imgHeight, maxGeneSize, shapeType)
    ensures forall i :: 0 <= i < |population| ==> ValidIndividual(population[i], imgWidth, imgHeight)
  {
    population := [];
    var i := 0;
    while i < populationSize
      invariant 0 <= i <= Count(populationSize)
      invariant |population| == i
      invariant forall j :: 0 <= j < i ==>
                  population[j] == AddRandomGene(NewIndividual(), imgWidth, imgHeight, maxGeneSize, shapeType, draws[j])
      invariant forall j :: 0 <= j < i ==> Seedling(population[j], imgWidth, imgHeight, maxGeneSize, shapeType)
      invariant forall j :: 0 <= j < i ==> ValidIndividual(population[j], imgWidth, imgHeight)
    {
      var individual := NewIndividual();
      individual := AddRandomGene(individual, imgWidth, imgHeight, maxGeneSize, shapeType, draws[i]);
      var copy := CopyIndividual(individual);
      population := population + [copy];
      i := i + 1;
    }
  }

  /** The constructor: stores its six parameters, then seeds the population. */
  method NewGeneticAlgorithm(populationSize: int, imgWidth: int, imgHeight: int, maxGeneSize: int,
                             generations: int, shapeType: ShapeType, draws: seq<GeneDraw>)
    returns (ga: GeneticAlgorithm)
    requires |draws| == Count(populationSize)
    requires forall i :: 0 <= i < |draws| ==> GeneDrawOk(draws[i], imgWidth, imgHeight, maxGeneSize)
    ensures ga.populationSize == populationSize && ga.imgWidth == imgWidth && ga.imgHeight == imgHeight
    ensures ga.maxGeneSize == maxGeneSize && ga.generations == generations && ga.shapeType == shapeType
    ensures |ga.population| == Count(populationSize)
    ensures forall i :: 0 <= i < |ga.population| ==>
              ga.population[i] == AddRandomGene(NewIndividual(), imgWidth, imgHeight, maxGeneSize, shapeType, draws[i])
    ensures forall i :: 0 <= i < |ga.population| ==>
              Seedling(ga.population[i], imgWidth, imgHeight, maxGeneSize, shapeType)
  {
    var population := InitializePopulation(populationSize, imgWidth, imgHeight, maxGeneSize, shapeType, draws);
    ga := GeneticAlgorithm(populationSize, imgWidth, imgHeight, maxGeneSize, generations, shapeType, population);
  }

  /** A population can only be seeded on a canvas of at least one pixel and
      with a maximum gene size of at least 1, unless it is empty. */
  lemma SeedingNeedsCanvas(populationSize: int, imgWidth: int, imgHeight: int, maxGeneSize: int,
                           draws: seq<GeneDraw>)
    requires |draws| == Count(populationSize)
    requires forall i :: 0 <= i < |draws| ==> GeneDrawOk(draws[i], imgWidth, imgHeight, maxGeneSize)
    ensures populationSize > 0 ==> imgWidth >= 1 && imgHeight >= 1 && maxGeneSize >= 1
  {
    if populationSize > 0 {
      assert GeneDrawOk(draws[0], imgWidth, imgHeight, maxGeneSize);
    }
  }
}
