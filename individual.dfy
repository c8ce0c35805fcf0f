/**
 * The Individual class of individual.h and individual.cpp: pedigree
 * bookkeeping (TrackParentage_* and RevokeParentage_*), the scalar and bulk
 * ("accelerated") access to the tag, tagF, fitnessScaling and x/y/z
 * properties, setSpatialPosition(), and relatedness(). The process-wide
 * pedigree id counter and the "ever set" flags are the fields of a
 * Globals object that the operations receive.
 */
module SlimIndividual {
  import opened EidosValue
  import Pedigree

  /** SLIM_TAG_UNSET_VALUE: the tag value that means "never set". */
  const TAG_UNSET: int := INT64_MIN

  /** The largest finite double. */
  const DBL_MAX: real := 179769313486231570814527423731704356798070567525844996598917476803157260780028538760589558632766878171540458953514382464234321326889464182768467546703537516986049910576551282076245490090389328944075868508455133942304583236903222948165808559332123348274797826204144723168738177180919299881250404026184124858368.0

  /** SLIM_TAGF_UNSET_VALUE: the tagF value that means "never set". */
  const TAGF_UNSET: Double := Num(-DBL_MAX)

  /** A fitnessScaling value the setters refuse: negative or NAN. */
  predicate InvalidFitnessScaling(d: Double)
  {
    d.NaN? || d.r < 0.0
  }

  datatype Coordinate = X | Y | Z

  /** The position of a coordinate within a point. */
  function Index(c: Coordinate): nat
  {
    match c
    case X => 0
    case Y => 1
    case Z => 2
  }

  /** gSLiM_next_pedigree_id and the static flags of Individual that record whether any individual ever had a property set. */
  class Globals {
    var nextPedigreeId: int
    var anyTagSet: bool
    var anyFitnessScalingSet: bool

    constructor()
      ensures nextPedigreeId == 0 && !anyTagSet && !anyFitnessScalingSet
    {
      nextPedigreeId := 0;
      anyTagSet := false;
      anyFitnessScalingSet := false;
    }
  }

  /** The part of a genome the individual writes: its pedigree-derived id and its tag. */
  class Genome {
    var genomeId: int
    var tag: int

    constructor(id: int, tag: int)
      ensures genomeId == id && this.tag == tag
    {
      genomeId := id;
      this.tag := tag;
    }
  }

  class Individual {
    var pedigreeId: int
    var p1: int
    var p2: int
    var g1: int
    var g2: int
    var g3: int
    var g4: int
    var reproductiveOutput: int
    var tag: int
    var tagF: Double
    var fitnessScaling: Double
    var x: Double
    var y: Double
    var z: Double
    const sex: Pedigree.Sex
    const genome1: Genome
    const genome2: Genome

    /**
     * Individual::Individual: no known parents or grandparents, no
     * offspring, tag and tagF unset, fitnessScaling 1; with a known
     * pedigree id the genomes get ids 2*id and 2*id+1, and both genomes'
     * tags are reset.
     */
    constructor(id: int, genome1: Genome, genome2: Genome, sex: Pedigree.Sex)
      requires genome1 != genome2
      modifies genome1, genome2
      ensures pedigreeId == id && this.genome1 == genome1 && this.genome2 == genome2 && this.sex == sex
      ensures p1 == p2 == g1 == g2 == g3 == g4 == Pedigree.UNKNOWN && reproductiveOutput == 0
      ensures tag == TAG_UNSET && tagF == TAGF_UNSET && fitnessScaling == Num(1.0)
      ensures id != Pedigree.UNKNOWN ==> genome1.genomeId == 2 * id && genome2.genomeId == 2 * id + 1
      ensures id == Pedigree.UNKNOWN ==> genome1.genomeId == old(genome1.genomeId) && genome2.genomeId == old(genome2.genomeId)
      ensures genome1.tag == TAG_UNSET && genome2.tag == TAG_UNSET
    {
      pedigreeId := id;
      p1, p2, g1, g2, g3, g4 := Pedigree.UNKNOWN, Pedigree.UNKNOWN, Pedigree.UNKNOWN, Pedigree.UNKNOWN, Pedigree.UNKNOWN, Pedigree.UNKNOWN;
      reproductiveOutput := 0;
      fitnessScaling := Num(1.0);
      this.genome1 := genome1;
      this.genome2 := genome2;
      this.sex := sex;
      new;
      if id != Pedigree.UNKNOWN {
        genome1.genomeId := id * 2;
        genome2.genomeId := id * 2 + 1;
      }
      tag := TAG_UNSET;
      tagF := TAGF_UNSET;
      genome1.tag := TAG_UNSET;
      genome2.tag := TAG_UNSET;
    }

    /** The pedigree record the relatedness computation reads. */
    function Ancestry(): Pedigree.Ancestry
      reads this
    {
      Pedigree.Ancestry(pedigreeId, p1, p2, g1, g2, g3, g4)
    }

    /** The value of one spatial coordinate. */
    function Coord(c: Coordinate): Double
      reads this
    {
      match c
      case X => x
      case Y => y
      case Z => z
    }

    // ------------------------------------------------------------ pedigrees

    /**
     * TrackParentage_Biparental: the next id of the global counter, the
     * genome ids derived from it, the parents' ids and their parents' ids;
     * each parent's reproductive output grows by one (by two when both
     * parents are the same individual). Every id issued before is smaller
     * than the new one.
     */
    method TrackParentageBiparental(parent1: Individual, parent2: Individual, g: Globals, ghost issued: seq<Individual>)
      requires parent1 != this && parent2 != this && genome1 != genome2
      requires this !in issued && forall o :: o in issued ==> o.pedigreeId < g.nextPedigreeId
      modifies this`pedigreeId, this`p1, this`p2, this`g1, this`g2, this`g3, this`g4
      modifies genome1`genomeId, genome2`genomeId, parent1`reproductiveOutput, parent2`reproductiveOutput, g`nextPedigreeId
      ensures pedigreeId == old(g.nextPedigreeId) && g.nextPedigreeId == pedigreeId + 1
      ensures genome1.genomeId == 2 * pedigreeId && genome2.genomeId == 2 * pedigreeId + 1
      ensures p1 == parent1.pedigreeId && p2 == parent2.pedigreeId
      ensures g1 == parent1.p1 && g2 == parent1.p2 && g3 == parent2.p1 && g4 == parent2.p2
      ensures parent1 != parent2 ==>
        parent1.reproductiveOutput == old(parent1.reproductiveOutput) + 1 && parent2.reproductiveOutput == old(parent2.reproductiveOutput) + 1
      ensures parent1 == parent2 ==> parent1.reproductiveOutput == old(parent1.reproductiveOutput) + 2
      ensures forall o :: o in issued ==> o.pedigreeId < pedigreeId
      ensures forall o :: o in issued + [this] ==> o.pedigreeId < g.nextPedigreeId
    {
      pedigreeId := g.nextPedigreeId;
      g.nextPedigreeId := g.nextPedigreeId + 1;
      genome1.genomeId := pedigreeId * 2;
      genome2.genomeId := pedigreeId * 2 + 1;
      p1 := parent1.pedigreeId;
      p2 := parent2.pedigreeId;
      g1 := parent1.p1;
      g2 := parent1.p2;
      g3 := parent2.p1;
      g4 := parent2.p2;
      parent1.reproductiveOutput := parent1.reproductiveOutput + 1;
      parent2.reproductiveOutput := parent2.reproductiveOutput + 1;
    }

    /** RevokeParentage_Biparental: takes back the reproductive output that tracking added. */
    method RevokeParentageBiparental(parent1: Individual, parent2: Individual)
      modifies parent1`reproductiveOutput, parent2`reproductiveOutput
      ensures parent1 != parent2 ==>
        parent1.reproductiveOutput == old(parent1.reproductiveOutput) - 1 && parent2.reproductiveOutput == old(parent2.reproductiveOutput) - 1
      ensures parent1 == parent2 ==> parent1.reproductiveOutput == old(parent1.reproductiveOutput) - 2
    {
      parent1.reproductiveOutput := parent1.reproductiveOutput - 1;
      parent2.reproductiveOutput := parent2.reproductiveOutput - 1;
    }

    /**
     * TrackParentage_Uniparental: as the biparental case with the one
     * parent in both roles, so p1 == p2, g1 == g3 and g2 == g4; the parent's
     * reproductive output grows by two.
     */
    method TrackParentageUniparental(parent: Individual, g: Globals, ghost issued: seq<Individual>)
      requires parent != this && genome1 != genome2
      requires this !in issued && forall o :: o in issued ==> o.pedigreeId < g.nextPedigreeId
      modifies this`pedigreeId, this`p1, this`p2, this`g1, this`g2, this`g3, this`g4
      modifies genome1`genomeId, genome2`genomeId, parent`reproductiveOutput, g`nextPedigreeId
      ensures pedigreeId == old(g.nextPedigreeId) && g.nextPedigreeId == pedigreeId + 1
      ensures genome1.genomeId == 2 * pedigreeId && genome2.genomeId == 2 * pedigreeId + 1
      ensures p1 == p2 == parent.pedigreeId
      ensures g1 == g3 == parent.p1 && g2 == g4 == parent.p2
      ensures parent.reproductiveOutput == old(parent.reproductiveOutput) + 2
      ensures forall o :: o in issued ==> o.pedigreeId < pedigreeId
      ensures forall o :: o in issued + [this] ==> o.pedigreeId < g.nextPedigreeId
    {
      pedigreeId := g.nextPedigreeId;
      g.nextPedigreeId := g.nextPedigreeId + 1;
      genome1.genomeId := pedigreeId * 2;
      genome2.genomeId := pedigreeId * 2 + 1;
      p1 := parent.pedigreeId;
      p2 := parent.pedigreeId;
      g1 := parent.p1;
      g2 := parent.p2;
      g3 := parent.p1;
      g4 := parent.p2;
      parent.reproductiveOutput := parent.reproductiveOutput + 2;
    }

    /** RevokeParentage_Uniparental: takes back the two offspring counted for the parent. */
    method RevokeParentageUniparental(parent: Individual)
      modifies parent`reproductiveOutput
      ensures parent.reproductiveOutput == old(parent.reproductiveOutput) - 2
    {
      parent.reproductiveOutput := parent.reproductiveOutput - 2;
    }

    /**
     * TrackParentage_Parentless: only the id and the genome ids; the parent
     * and grandparent ids keep the unknown value the constructor gave them.
     */
    method TrackParentageParentless(g: Globals, ghost issued: seq<Individual>)
      requires genome1 != genome2
      requires this !in issued && forall o :: o in issued ==> o.pedigreeId < g.nextPedigreeId
      modifies this`pedigreeId, genome1`genomeId, genome2`genomeId, g`nextPedigreeId
      ensures pedigreeId == old(g.nextPedigreeId) && g.nextPedigreeId == pedigreeId + 1
      ensures genome1.genomeId == 2 * pedigreeId && genome2.genomeId == 2 * pedigreeId + 1
      ensures forall o :: o in issued ==> o.pedigreeId < pedigreeId
      ensures forall o :: o in issued + [this] ==> o.pedigreeId < g.nextPedigreeId
    {
      pedigreeId := g.nextPedigreeId;
      g.nextPedigreeId := g.nextPedigreeId + 1;
      genome1.genomeId := pedigreeId * 2;
      genome2.genomeId := pedigreeId * 2 + 1;
    }

    // ------------------------------------------------ scalar property access

    /** GetProperty(tag): raises when the tag was never set. */
    method GetTag() returns (r: Result<int>)
      ensures r.Err? <==> tag == TAG_UNSET
      ensures r.Err? ==> r.error == TagUnset
      ensures r.Ok? ==> r.value == tag
    {
      if tag == TAG_UNSET {
        return Err(TagUnset);
      }
      r := Ok(tag);
    }

    /** SetProperty(tag): stores the value and records that a tag was set. */
    method SetTag(value: int, g: Globals)
      modifies this`tag, g`anyTagSet
      ensures tag == value && g.anyTagSet
    {
      tag := value;
      g.anyTagSet := true;
    }

    /** GetProperty(tagF): raises when tagF was never set. */
    method GetTagF() returns (r: Result<Double>)
      ensures r.Err? <==> tagF == TAGF_UNSET
      ensures r.Err? ==> r.error == TagFUnset
      ensures r.Ok? ==> r.value == tagF
    {
      if tagF == TAGF_UNSET {
        return Err(TagFUnset);
      }
      r := Ok(tagF);
    }

    /** SetProperty(tagF): stores the value and records that a tag was set. */
    method SetTagF(value: Double, g: Globals)
      modifies this`tagF, g`anyTagSet
      ensures tagF == value && g.anyTagSet
    {
      tagF := value;
      g.anyTagSet := true;
    }

    /**
     * SetProperty(fitnessScaling): the value is stored and the flag raised
     * first; a negative or NAN value then raises.
     */
    method SetFitnessScaling(value: Double, g: Globals) returns (r: Outcome)
      modifies this`fitnessScaling, g`anyFitnessScalingSet
      ensures fitnessScaling == value && g.anyFitnessScalingSet
      ensures r == if InvalidFitnessScaling(value) then Fail(FitnessScalingInvalid) else Pass
    {
      fitnessScaling := value;
      g.anyFitnessScalingSet := true;
      if value.NaN? || value.r < 0.0 {
        return Fail(FitnessScalingInvalid);
      }
      r := Pass;
    }

    /** SetProperty(x), SetProperty(y), SetProperty(z): one coordinate changes, the others stay. */
    method SetCoordinate(c: Coordinate, value: Double)
      modifies this`x, this`y, this`z
      ensures Coord(c) == value
      ensures forall d :: d != c ==> Coord(d) == old(Coord(d))
    {
      match c
      case X => x := value;
      case Y => y := value;
      case Z => z := value;
    }

    /**
     * The point setter behind setSpatialPosition(): the first |point|
     * coordinates take the point's values, the rest stay.
     */
    method SetPoint(point: seq<Double>)
      requires 1 <= |point| <= 3
      modifies this`x, this`y, this`z
      ensures forall c :: Index(c) < |point| ==> Coord(c) == point[Index(c)]
      ensures forall c :: Index(c) >= |point| ==> Coord(c) == old(Coord(c))
    {
      x := point[0];
      if |point| >= 2 {
        y := point[1];
      }
      if |point| == 3 {
        z := point[2];
      }
    }

    /**
     * relatedness(): with pedigree tracking, each individual's relatedness
     * to the receiver through the sex-chromosome-aware computation;
     * without it, 1 for the receiver itself and 0 for anybody else.
     */
    method Relatedness(individuals: seq<Individual>, pedigreesEnabled: bool, chromosome: Pedigree.ChromosomeType)
      returns (r: seq<real>)
      ensures |r| == |individuals|
      ensures pedigreesEnabled ==> forall i :: 0 <= i < |r| ==>
        r[i] == Pedigree.SexAwareRelatedness(Ancestry(), individuals[i].Ancestry(), sex, individuals[i].sex, chromosome)
      ensures !pedigreesEnabled ==> forall i :: 0 <= i < |r| ==> r[i] == if individuals[i] == this then 1.0 else 0.0
      ensures forall i :: 0 <= i < |r| ==> 0.0 <= r[i] <= 1.0
    {
      r := [];
      var i := 0;
      while i < |individuals|
        invariant 0 <= i <= |individuals| && |r| == i
        invariant pedigreesEnabled ==> forall k :: 0 <= k < i ==>
          r[k] == Pedigree.SexAwareRelatedness(Ancestry(), individuals[k].Ancestry(), sex, individuals[k].sex, chromosome)
        invariant !pedigreesEnabled ==> forall k :: 0 <= k < i ==> r[k] == if individuals[k] == this then 1.0 else 0.0
        invariant forall k :: 0 <= k < i ==> 0.0 <= r[k] <= 1.0
      {
        var ind := individuals[i];
        var v := if pedigreesEnabled then Pedigree.SexAwareRelatedness(Ancestry(), ind.Ancestry(), sex, ind.sex, chromosome)
                 else if ind == this then 1.0 else 0.0;
        r := r + [v];
        i := i + 1;
      }
    }
  }

  /**
   * The constructor as written resets the first genome's tag twice and
   * never the second's: only the first genome's tag is known to be unset
   * afterwards.
   */
  function GenomeTagsAfterConstructionAsWritten(tag1: int, tag2: int): (r: (int, int))
    ensures r.0 == TAG_UNSET
  {
    (TAG_UNSET, tag2)
  }

  /** A second genome that arrives with a tag keeps it through the constructor as written. */
  lemma SecondGenomeTagSurvivesAsWritten()
    ensures GenomeTagsAfterConstructionAsWritten(TAG_UNSET, 7).1 == 7 != TAG_UNSET
  {
  }

  // ---------------------------------------------------- bulk property access

  /** ts[i] does not occur again among ts[i+1..n]: its value is the one written at position i. */
  predicate LastIn(ts: seq<Individual>, i: int, n: int)
    requires 0 <= i < n <= |ts|
  {
    forall j :: i < j < n ==> ts[j] != ts[i]
  }

  /** GetProperty_Accelerated_tag: the tags in order; raises when any one was never set. */
  method GetTags(targets: seq<Individual>) returns (r: Result<seq<int>>)
    ensures r.Err? <==> exists i :: 0 <= i < |targets| && targets[i].tag == TAG_UNSET
    ensures r.Err? ==> r.error == TagUnset
    ensures r.Ok? ==> |r.value| == |targets| && forall i :: 0 <= i < |targets| ==> r.value[i] == targets[i].tag
  {
    var out: seq<int> := [];
    var i := 0;
    while i < |targets|
      invariant 0 <= i <= |targets| && |out| == i
      invariant forall k :: 0 <= k < i ==> out[k] == targets[k].tag && targets[k].tag != TAG_UNSET
    {
      if targets[i].tag == TAG_UNSET {
        return Err(TagUnset);
      }
      out := out + [targets[i].tag];
      i := i + 1;
    }
    r := Ok(out);
  }

  /** GetProperty_Accelerated_tagF: the tagF values in order; raises when any one was never set. */
  method GetTagFs(targets: seq<Individual>) returns (r: Result<seq<Double>>)
    ensures r.Err? <==> exists i :: 0 <= i < |targets| && targets[i].tagF == TAGF_UNSET
    ensures r.Err? ==> r.error == TagFUnset
    ensures r.Ok? ==> |r.value| == |targets| && forall i :: 0 <= i < |targets| ==> r.value[i] == targets[i].tagF
  {
    var out: seq<Double> := [];
    var i := 0;
    while i < |targets|
      invariant 0 <= i <= |targets| && |out| == i
      invariant forall k :: 0 <= k < i ==> out[k] == targets[k].tagF && targets[k].tagF != TAGF_UNSET
    {
      if targets[i].tagF == TAGF_UNSET {
        return Err(TagFUnset);
      }
      out := out + [targets[i].tagF];
      i := i + 1;
    }
    r := Ok(out);
  }

  /** GetProperty_Accelerated_fitnessScaling: the fitnessScaling values in order. */
  method GetFitnessScalings(targets: seq<Individual>) returns (r: seq<Double>)
    ensures |r| == |targets| && forall i :: 0 <= i < |targets| ==> r[i] == targets[i].fitnessScaling
  {
    r := [];
    var i := 0;
    while i < |targets|
      invariant 0 <= i <= |targets| && |r| == i
      invariant forall k :: 0 <= k < i ==> r[k] == targets[k].fitnessScaling
    {
      r := r + [targets[i].fitnessScaling];
      i := i + 1;
    }
  }

  /** GetProperty_Accelerated_x, _y and _z: one coordinate of every target, in order. */
  method GetCoordinates(targets: seq<Individual>, c: Coordinate) returns (r: seq<Double>)
    ensures |r| == |targets| && forall i :: 0 <= i < |targets| ==> r[i] == targets[i].Coord(c)
  {
    r := [];
    var i := 0;
    while i < |targets|
      invariant 0 <= i <= |targets| && |r| == i
      invariant forall k :: 0 <= k < i ==> r[k] == targets[k].Coord(c)
    {
      r := r + [targets[i].Coord(c)];
      i := i + 1;
    }
  }

  /** ts[i] is none of ts[..n]: the first n writes left it alone. */
  predicate Untouched(ts: seq<Individual>, i: int, n: int)
    requires 0 <= i < |ts| && 0 <= n <= |ts|
  {
    forall j :: 0 <= j < n ==> ts[j] != ts[i]
  }

  /** The last position at which ts[i] occurs. */
  function LastOccurrence(ts: seq<Individual>, i: nat): (j: nat)
    requires i < |ts|
    ensures i <= j < |ts| && ts[j] == ts[i] && LastIn(ts, j, |ts|)
    decreases |ts| - i
  {
    if forall k :: i < k < |ts| ==> ts[k] != ts[i] then i
    else
      var k :| i < k < |ts| && ts[k] == ts[i];
      LastOccurrence(ts, k)
  }

  /**
   * SetProperty_Accelerated_tag: records that a tag was set; a singleton
   * source is written to every target, otherwise source[i] to target i
   * (a target listed twice keeps its last value). No other field changes.
   */
  method SetTags(targets: seq<Individual>, source: seq<int>, g: Globals)
    requires |source| == 1 || |source| == |targets|
    modifies targets`tag, g`anyTagSet
    ensures g.anyTagSet
    ensures |source| == 1 ==> forall i :: 0 <= i < |targets| ==> targets[i].tag == source[0]
    ensures |source| != 1 ==> forall i :: 0 <= i < |targets| && LastIn(targets, i, |targets|) ==> targets[i].tag == source[i]
  {
    g.anyTagSet := true;
    if |source| == 1 {
      var value := source[0];
      var k := 0;
      while k < |targets|
        invariant 0 <= k <= |targets|
        invariant forall i :: 0 <= i < k ==> targets[i].tag == value
        invariant g.anyTagSet
      {
        targets[k].tag := value;
        k := k + 1;
      }
    } else {
      var k := 0;
      while k < |targets|
        invariant 0 <= k <= |targets|
        invariant forall i :: 0 <= i < k && LastIn(targets, i, k) ==> targets[i].tag == source[i]
        invariant g.anyTagSet
      {
        targets[k].tag := source[k];
        k := k + 1;
      }
    }
  }

  /** SetProperty_Accelerated_tagF: as SetTags, for tagF. */
  method SetTagFs(targets: seq<Individual>, source: seq<Double>, g: Globals)
    requires |source| == 1 || |source| == |targets|
    modifies targets`tagF, g`anyTagSet
    ensures g.anyTagSet
    ensures |source| == 1 ==> forall i :: 0 <= i < |targets| ==> targets[i].tagF == source[0]
    ensures |source| != 1 ==> forall i :: 0 <= i < |targets| && LastIn(targets, i, |targets|) ==> targets[i].tagF == source[i]
  {
    g.anyTagSet := true;
    if |source| == 1 {
      var value := source[0];
      var k := 0;
      while k < |targets|
        invariant 0 <= k <= |targets|
        invariant forall i :: 0 <= i < k ==> targets[i].tagF == value
        invariant g.anyTagSet
      {
        targets[k].tagF := value;
        k := k + 1;
      }
    } else {
      var k := 0;
      while k < |targets|
        invariant 0 <= k <= |targets|
        invariant forall i :: 0 <= i < k && LastIn(targets, i, k) ==> targets[i].tagF == source[i]
        invariant g.anyTagSet
      {
        targets[k].tagF := source[k];
        k := k + 1;
      }
    }
  }

  /** The first position of an invalid fitnessScaling value in values, or |values| when there is none. */
  function FirstInvalid(values: seq<Double>): (n: nat)
    ensures n <= |values|
    ensures forall i :: 0 <= i < n ==> !InvalidFitnessScaling(values[i])
    ensures n < |values| ==> InvalidFitnessScaling(values[n])
    decreases |values|
  {
    if |values| == 0 then 0
    else if InvalidFitnessScaling(values[0]) then 0
    else 1 + FirstInvalid(values[1..])
  }

  /**
   * SetProperty_Accelerated_fitnessScaling: records that fitnessScaling
   * was set. A singleton source is checked once and then written to every
   * target; otherwise each source element is checked as it is written, so
   * an invalid element raises after the targets before it were written.
   */
  method SetFitnessScalings(targets: seq<Individual>, source: seq<Double>, g: Globals) returns (r: Outcome)
    requires |source| == 1 || |source| == |targets|
    modifies targets`fitnessScaling, g`anyFitnessScalingSet
    ensures g.anyFitnessScalingSet
    ensures r.Fail? ==> r.error == FitnessScalingInvalid
    ensures |source| == 1 ==> (r.Fail? <==> InvalidFitnessScaling(source[0]))
    ensures |source| == 1 && r.Pass? ==> forall i :: 0 <= i < |targets| ==> targets[i].fitnessScaling == source[0]
    ensures |source| == 1 && r.Fail? ==> forall i :: 0 <= i < |targets| ==> targets[i].fitnessScaling == old(targets[i].fitnessScaling)
    ensures |source| != 1 ==> (r.Fail? <==> exists i :: 0 <= i < |source| && InvalidFitnessScaling(source[i]))
    ensures |source| != 1 ==>
      var n := FirstInvalid(source);
      && (forall i :: 0 <= i < n && LastIn(targets, i, n) ==> targets[i].fitnessScaling == source[i])
      && (forall i :: 0 <= i < |targets| && Untouched(targets, i, n) ==> targets[i].fitnessScaling == old(targets[i].fitnessScaling))
  {
    g.anyFitnessScalingSet := true;
    if |source| == 1 {
      var value := source[0];
      if value.NaN? || value.r < 0.0 {
        return Fail(FitnessScalingInvalid);
      }
      BroadcastFitnessScaling(targets, value);
      r := Pass;
    } else {
      r := AssignFitnessScalings(targets, source);
    }
  }

  /** The broadcast loop of SetFitnessScalings. */
  method BroadcastFitnessScaling(targets: seq<Individual>, value: Double)
    modifies targets`fitnessScaling
    ensures forall i :: 0 <= i < |targets| ==> targets[i].fitnessScaling == value
  {
    var k := 0;
    while k < |targets|
      invariant 0 <= k <= |targets|
      invariant forall i :: 0 <= i < k ==> targets[i].fitnessScaling == value
    {
      targets[k].fitnessScaling := value;
      k := k + 1;
    }
  }

  /** The element-wise loop of SetFitnessScalings: checks and writes source[k] to target k, stopping at the first invalid element. */
  method AssignFitnessScalings(targets: seq<Individual>, source: seq<Double>) returns (r: Outcome)
    requires |source| == |targets|
    modifies targets`fitnessScaling
    ensures r.Fail? ==> r.error == FitnessScalingInvalid
    ensures r.Fail? <==> exists i :: 0 <= i < |source| && InvalidFitnessScaling(source[i])
    ensures var n := FirstInvalid(source);
      && (forall i :: 0 <= i < n && LastIn(targets, i, n) ==> targets[i].fitnessScaling == source[i])
      && (forall i :: 0 <= i < |targets| && Untouched(targets, i, n) ==> targets[i].fitnessScaling == old(targets[i].fitnessScaling))
  {
    var k := StoreUntilInvalid(targets, source);
    r := if k < |source| then Fail(FitnessScalingInvalid) else Pass;
  }

  /** The stores of that loop: k is where it stopped, the first invalid element or the end. */
  method StoreUntilInvalid(targets: seq<Individual>, source: seq<Double>) returns (k: nat)
    requires |source| == |targets|
    modifies targets`fitnessScaling
    ensures k == FirstInvalid(source)
    ensures forall i :: 0 <= i < k && LastIn(targets, i, k) ==> targets[i].fitnessScaling == source[i]
    ensures forall i :: 0 <= i < |targets| && Untouched(targets, i, k) ==> targets[i].fitnessScaling == old(targets[i].fitnessScaling)
  {
    ghost var before := Scalings(targets);
    k := 0;
    while k < |targets| && !InvalidFitnessScaling(source[k])
      invariant 0 <= k <= FirstInvalid(source)
      invariant forall i :: 0 <= i < k && LastIn(targets, i, k) ==> targets[i].fitnessScaling == source[i]
      invariant forall i :: 0 <= i < |targets| && Untouched(targets, i, k) ==> targets[i].fitnessScaling == before[i]
    {
      ValidBeforeFirstInvalid(source, k);
      StoreFitnessScaling(targets, source, before, k);
      k := k + 1;
    }
  }

  /** A valid element at or before the first invalid one lies strictly before it. */
  lemma ValidBeforeFirstInvalid(values: seq<Double>, k: nat)
    requires k <= FirstInvalid(values) && k < |values| && !InvalidFitnessScaling(values[k])
    ensures k < FirstInvalid(values)
  {
  }

  /** The fitnessScaling of each individual, in order. */
  ghost function Scalings(ts: seq<Individual>): (r: seq<Double>)
    reads ts
    ensures |r| == |ts| && forall i :: 0 <= i < |ts| ==> r[i] == ts[i].fitnessScaling
  {
    if |ts| == 0 then [] else Scalings(ts[..|ts| - 1]) + [ts[|ts| - 1].fitnessScaling]
  }

  /** One store of the fitnessScaling loop: target k takes source[k], the stores so far still stand, and the rest keep their values. */
  method StoreFitnessScaling(targets: seq<Individual>, source: seq<Double>, ghost before: seq<Double>, k: nat)
    requires |source| == |targets| == |before| && k < |targets|
    requires forall i :: 0 <= i < k && LastIn(targets, i, k) ==> targets[i].fitnessScaling == source[i]
    requires forall i :: 0 <= i < |targets| && Untouched(targets, i, k) ==> targets[i].fitnessScaling == before[i]
    modifies targets`fitnessScaling
    ensures forall i :: 0 <= i < k + 1 && LastIn(targets, i, k + 1) ==> targets[i].fitnessScaling == source[i]
    ensures forall i :: 0 <= i < |targets| && Untouched(targets, i, k + 1) ==> targets[i].fitnessScaling == before[i]
  {
    targets[k].fitnessScaling := source[k];
  }

  /** The first invalid element is at k when none before k is invalid and k is invalid or the end. */
  lemma {:induction false} FirstInvalidAt(values: seq<Double>, k: nat)
    requires k <= |values|
    requires forall i :: 0 <= i < k ==> !InvalidFitnessScaling(values[i])
    requires k < |values| ==> InvalidFitnessScaling(values[k])
    ensures FirstInvalid(values) == k
    decreases k
  {
    if k > 0 {
      FirstInvalidAt(values[1..], k - 1);
    }
  }

  /**
   * SetProperty_Accelerated_x, _y and _z: a singleton source is written to
   * every target, otherwise source[i] to target i; the other coordinates
   * do not change.
   */
  method SetCoordinates(targets: seq<Individual>, c: Coordinate, source: seq<Double>)
    requires |source| == 1 || |source| == |targets|
    modifies targets`x, targets`y, targets`z
    ensures |source| == 1 ==> forall i :: 0 <= i < |targets| ==> targets[i].Coord(c) == source[0]
    ensures |source| != 1 ==> forall i :: 0 <= i < |targets| && LastIn(targets, i, |targets|) ==> targets[i].Coord(c) == source[i]
    ensures forall i, d :: 0 <= i < |targets| && d != c ==> targets[i].Coord(d) == old(targets[i].Coord(d))
  {
    if |source| == 1 {
      var value := source[0];
      var k := 0;
      while k < |targets|
        invariant 0 <= k <= |targets|
        invariant forall i :: 0 <= i < k ==> targets[i].Coord(c) == value
        invariant forall i, d :: 0 <= i < |targets| && d != c ==> targets[i].Coord(d) == old(targets[i].Coord(d))
      {
        targets[k].SetCoordinate(c, value);
        k := k + 1;
      }
    } else {
      var k := 0;
      while k < |targets|
        invariant 0 <= k <= |targets|
        invariant forall i :: 0 <= i < k && LastIn(targets, i, k) ==> targets[i].Coord(c) == source[i]
        invariant forall i, d :: 0 <= i < |targets| && d != c ==> targets[i].Coord(d) == old(targets[i].Coord(d))
      {
        targets[k].SetCoordinate(c, source[k]);
        k := k + 1;
      }
    }
  }

  /**
   * setSpatialPosition(): raises in a non-spatial model, for fewer
   * coordinates than the dimensionality, and for a position count that is
   * neither one point nor one point per target. One point is written to
   * every target; one point per target is written target by target.
   * Coordinates beyond the dimensionality never change, and nothing
   * changes when the call raises.
   */
  method SetSpatialPosition(targets: seq<Individual>, position: seq<Double>, dimensionality: int) returns (r: Outcome)
    modifies targets`x, targets`y, targets`z
    ensures dimensionality == 0 ==> r == Fail(NonSpatial)
    ensures dimensionality < 0 || dimensionality > 3 ==> r == Fail(Internal)
    ensures 1 <= dimensionality <= 3 && |position| < dimensionality ==> r == Fail(TooFewCoordinates)
    ensures 1 <= dimensionality <= 3 && |position| > dimensionality && |position| != dimensionality * |targets| ==>
      r == Fail(PositionCountMismatch)
    ensures 1 <= dimensionality <= 3 && |position| == dimensionality ==>
      (r == Pass && forall i, c :: 0 <= i < |targets| && Index(c) < dimensionality ==> targets[i].Coord(c) == position[Index(c)])
    ensures 1 <= dimensionality <= 3 && |position| > dimensionality && |position| == dimensionality * |targets| ==>
      (r == Pass && forall i, c :: 0 <= i < |targets| && LastIn(targets, i, |targets|) && Index(c) < dimensionality ==>
        targets[i].Coord(c) == position[dimensionality * i + Index(c)])
    ensures forall i, c :: 0 <= i < |targets| && (r.Fail? || Index(c) >= dimensionality) ==>
      targets[i].Coord(c) == old(targets[i].Coord(c))
  {
    var dim := dimensionality;
    if dim == 0 {
      return Fail(NonSpatial);
    }
    if dim < 0 || dim > 3 {
      return Fail(Internal);
    }
    if |position| < dim {
      return Fail(TooFewCoordinates);
    }
    if |position| == dim {
      BroadcastPoint(targets, position);
      r := Pass;
    } else if |position| == dim * |targets| {
      AssignPoints(targets, position, dim);
      r := Pass;
    } else {
      r := Fail(PositionCountMismatch);
    }
  }

  /** One point written to every target. */
  method BroadcastPoint(targets: seq<Individual>, point: seq<Double>)
    requires 1 <= |point| <= 3
    modifies targets`x, targets`y, targets`z
    ensures forall i, c :: 0 <= i < |targets| && Index(c) < |point| ==> targets[i].Coord(c) == point[Index(c)]
    ensures forall i, c :: 0 <= i < |targets| && Index(c) >= |point| ==> targets[i].Coord(c) == old(targets[i].Coord(c))
  {
    var k := 0;
    while k < |targets|
      invariant 0 <= k <= |targets|
      invariant forall i, c :: 0 <= i < k && Index(c) < |point| ==> targets[i].Coord(c) == point[Index(c)]
      invariant forall i, c :: 0 <= i < |targets| && Index(c) >= |point| ==> targets[i].Coord(c) == old(targets[i].Coord(c))
    {
      targets[k].SetPoint(point);
      k := k + 1;
    }
  }

  /** Point k of the position vector, of dim coordinates, written to target k. */
  method AssignPoints(targets: seq<Individual>, position: seq<Double>, dim: int)
    requires 1 <= dim <= 3 && |position| == dim * |targets|
    modifies targets`x, targets`y, targets`z
    ensures forall i, c :: 0 <= i < |targets| && LastIn(targets, i, |targets|) && Index(c) < dim ==>
      targets[i].Coord(c) == position[dim * i + Index(c)]
    ensures forall i, c :: 0 <= i < |targets| && Index(c) >= dim ==> targets[i].Coord(c) == old(targets[i].Coord(c))
  {
    var k := 0;
    while k < |targets|
      invariant 0 <= k <= |targets|
      invariant forall i, c :: 0 <= i < k && LastIn(targets, i, k) && Index(c) < dim ==>
        targets[i].Coord(c) == position[dim * i + Index(c)]
      invariant forall i, c :: 0 <= i < |targets| && Index(c) >= dim ==> targets[i].Coord(c) == old(targets[i].Coord(c))
    {
      AssignPoint(targets, position, dim, k);
      k := k + 1;
    }
  }

  /** One step of AssignPoints: target k takes point k, and the points already written to other targets stay. */
  method AssignPoint(targets: seq<Individual>, position: seq<Double>, dim: int, k: nat)
    requires 1 <= dim <= 3 && |position| == dim * |targets| && k < |targets|
    requires forall i, c :: 0 <= i < k && LastIn(targets, i, k) && Index(c) < dim ==>
      targets[i].Coord(c) == position[dim * i + Index(c)]
    modifies targets`x, targets`y, targets`z
    ensures forall i, c :: 0 <= i < k + 1 && LastIn(targets, i, k + 1) && Index(c) < dim ==>
      targets[i].Coord(c) == position[dim * i + Index(c)]
    ensures forall i, c :: 0 <= i < |targets| && Index(c) >= dim ==> targets[i].Coord(c) == old(targets[i].Coord(c))
  {
    PointFits(k, |targets|, dim);
    var base := dim * k;
    var point := position[base .. base + dim];
    assert forall c :: Index(c) < dim ==> point[Index(c)] == position[base + Index(c)];
    targets[k].SetPoint(point);
  }

  /** Point k of a vector of n points of d coordinates lies inside it. */
  lemma PointFits(k: nat, n: nat, d: nat)
    requires k < n
    ensures d * k + d <= d * n
  {
    var m := n - k - 1;
    assert d * n == d * (k + 1 + m);
    assert d * (k + 1 + m) == d * k + d + d * m;
  }
}
