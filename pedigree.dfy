/**
 * Pedigree relatedness of individual.cpp: _InPedigree, the recursive
 * ::_Relatedness over an individual's id and its parent and grandparent
 * ids, and Individual::_Relatedness, which first rewrites the ancestry for
 * a modelled X or Y chromosome. An id of -1 means "unknown". Results are
 * exact reals: every value the recursion produces is a sum of halves and
 * quarters, which a double holds exactly.
 */
module Pedigree {
  /** The id the source uses for an unknown individual. */
  const UNKNOWN: int := -1

  /** An individual's id, its parents' ids (p1 female, p2 male) and its grandparents' ids. */
  datatype Ancestry = Ancestry(id: int, p1: int, p2: int, g1: int, g2: int, g3: int, g4: int)

  datatype Sex = Hermaphrodite | Female | Male

  datatype ChromosomeType = Autosome | XChromosome | YChromosome

  /** _InPedigree(A, ..., B): B is known and is A itself, a parent of A or a grandparent of A. */
  predicate InPedigree(a: Ancestry, b: int)
  {
    b != UNKNOWN && (b == a.id || b == a.p1 || b == a.p2 || b == a.g1 || b == a.g2 || b == a.g3 || b == a.g4)
  }

  /** The known ids in an ancestry. */
  function Ids(a: Ancestry): set<int>
  {
    {a.id, a.p1, a.p2, a.g1, a.g2, a.g3, a.g4} - {UNKNOWN}
  }

  /** The first parent's line: its id and its own parents, with nothing known further up. */
  function Up1(a: Ancestry): Ancestry
  {
    Ancestry(a.p1, a.g1, a.g2, UNKNOWN, UNKNOWN, UNKNOWN, UNKNOWN)
  }

  /** The second parent's line. */
  function Up2(a: Ancestry): Ancestry
  {
    Ancestry(a.p2, a.g3, a.g4, UNKNOWN, UNKNOWN, UNKNOWN, UNKNOWN)
  }

  /** How many generations of an ancestry are known: the termination measure of the recursion. */
  function Depth(a: Ancestry): nat
  {
    if a.id == UNKNOWN then 0
    else if a.g1 != UNKNOWN || a.g2 != UNKNOWN || a.g3 != UNKNOWN || a.g4 != UNKNOWN then 3
    else if a.p1 != UNKNOWN || a.p2 != UNKNOWN then 2
    else 1
  }

  /**
   * ::_Relatedness(A..., B...): 0 when either id is unknown, 1 for the same
   * individual; when A occurs in B's pedigree, half of A's relatedness to
   * each of B's parental lines, and otherwise half of the relatedness of
   * each of A's parental lines to B. A match stops the climb at that node.
   */
  function Relatedness(a: Ancestry, b: Ancestry): (r: real)
    ensures 0.0 <= r <= 1.0
    ensures a.id == UNKNOWN || b.id == UNKNOWN ==> r == 0.0
    ensures a.id != UNKNOWN && a.id == b.id ==> r == 1.0
    decreases Depth(a) + Depth(b)
  {
    if a.id == UNKNOWN || b.id == UNKNOWN then 0.0
    else if a.id == b.id then 1.0
    else if InPedigree(b, a.id) then
      Relatedness(a, Up1(b)) / 2.0 + Relatedness(a, Up2(b)) / 2.0
    else
      Relatedness(Up1(a), b) / 2.0 + Relatedness(Up2(a), b) / 2.0
  }

  /** Two individuals whose known pedigrees share no id are unrelated. */
  lemma {:induction false} UnrelatedPedigrees(a: Ancestry, b: Ancestry)
    requires Ids(a) !! Ids(b)
    ensures Relatedness(a, b) == 0.0
    decreases Depth(a) + Depth(b)
  {
    if a.id != UNKNOWN && b.id != UNKNOWN {
      assert a.id in Ids(a);
      assert a.id !in Ids(b);
      assert Ids(Up1(a)) <= Ids(a);
      assert Ids(Up2(a)) <= Ids(a);
      UnrelatedPedigrees(Up1(a), b);
      UnrelatedPedigrees(Up2(a), b);
    }
  }

  /**
   * A parent contributes one half: when A is B's first parent and A's
   * pedigree shares nothing with B's second parental line, their
   * relatedness is 0.5.
   */
  lemma ParentContributesHalf(a: Ancestry, b: Ancestry)
    requires a.id != UNKNOWN && b.id != UNKNOWN && a.id != b.id
    requires b.p1 == a.id
    requires Ids(a) !! Ids(Up2(b))
    ensures Relatedness(a, b) == 0.5
  {
    assert InPedigree(b, a.id);
    UnrelatedPedigrees(a, Up2(b));
  }

  /** The same seen from the child: B is A's first parent, and B's pedigree shares nothing with A's second line. */
  lemma ChildOfParentHalf(a: Ancestry, b: Ancestry)
    requires a.id != UNKNOWN && b.id != UNKNOWN && a.id != b.id
    requires a.p1 == b.id && !InPedigree(b, a.id)
    requires Ids(Up2(a)) !! Ids(b)
    ensures Relatedness(a, b) == 0.5
  {
    UnrelatedPedigrees(Up2(a), b);
  }

  /**
   * A grandparent contributes one quarter: when A is B's first grandparent
   * (the first parent's first parent), and A occurs nowhere else in B's
   * pedigree nor shares ids with the rest of it, their relatedness is 0.25.
   */
  lemma GrandparentContributesQuarter(a: Ancestry, b: Ancestry)
    requires a.id != UNKNOWN && b.id != UNKNOWN && a.id != b.id
    requires b.g1 == a.id && b.p1 != a.id && b.p1 != UNKNOWN
    requires Ids(a) !! Ids(Up2(b))
    requires Ids(a) !! Ids(Ancestry(b.g2, UNKNOWN, UNKNOWN, UNKNOWN, UNKNOWN, UNKNOWN, UNKNOWN))
    ensures Relatedness(a, b) == 0.25
  {
    assert InPedigree(b, a.id);
    var b1 := Up1(b);
    assert InPedigree(b1, a.id);
    assert Up1(b1) == Ancestry(a.id, UNKNOWN, UNKNOWN, UNKNOWN, UNKNOWN, UNKNOWN, UNKNOWN);
    UnrelatedPedigrees(a, Up2(b1));
    UnrelatedPedigrees(a, Up2(b));
  }

  /**
   * X-chromosome correction: an individual's male parent received a Y from
   * his own father, so g4 is replaced by g3; a male received a Y from his
   * father, so his father's line is replaced by his mother's.
   */
  function XCorrected(a: Ancestry, sex: Sex): Ancestry
  {
    if sex == Male then Ancestry(a.id, a.p1, a.p1, a.g1, a.g2, a.g1, a.g2)
    else a.(g4 := a.g3)
  }

  /**
   * Y-chromosome correction: only males carry a Y, received from the father,
   * so every female ancestor is replaced by the male one of the same
   * generation.
   */
  function YCorrected(a: Ancestry): Ancestry
  {
    Ancestry(a.id, a.p2, a.p2, a.g4, a.g4, a.g4, a.g4)
  }

  /**
   * Individual::_Relatedness: autosomes use the ancestries as they are; on
   * the X each ancestry is rewritten for the male ancestors that pass on a
   * Y; on the Y a female has relatedness 1 to herself and 0 to everybody
   * else, and males use their paternal line only.
   */
  function SexAwareRelatedness(a: Ancestry, b: Ancestry, sexA: Sex, sexB: Sex, chromosome: ChromosomeType): (r: real)
    ensures 0.0 <= r <= 1.0
    ensures a.id == UNKNOWN || b.id == UNKNOWN ==> r == 0.0 || (chromosome == YChromosome && a.id == b.id)
  {
    match chromosome
    case Autosome => Relatedness(a, b)
    case XChromosome => Relatedness(XCorrected(a, sexA), XCorrected(b, sexB))
    case YChromosome =>
      if sexA == Female || sexB == Female then (if a.id == b.id then 1.0 else 0.0)
      else Relatedness(YCorrected(a), YCorrected(b))
  }

  /** On the Y, a female is related only to herself. */
  lemma YFemaleRelatedOnlyToSelf(a: Ancestry, b: Ancestry, sexA: Sex, sexB: Sex)
    requires sexA == Female || sexB == Female
    ensures SexAwareRelatedness(a, b, sexA, sexB, YChromosome) == if a.id == b.id then 1.0 else 0.0
  {
  }

  /** On the Y, a son shares his father's whole Y: their relatedness is 1. */
  lemma YFatherAndSon(a: Ancestry, b: Ancestry)
    requires a.id != UNKNOWN && b.id != UNKNOWN && a.id != b.id
    requires b.p2 == a.id
    ensures SexAwareRelatedness(a, b, Male, Male, YChromosome) == 1.0
  {
    var ya, yb := YCorrected(a), YCorrected(b);
    assert InPedigree(yb, ya.id);
    assert Relatedness(ya, Up1(yb)) == 1.0;
    assert Relatedness(ya, Up2(yb)) == 1.0;
  }

  /**
   * On the X, a son inherits nothing from his father: the father of a male
   * is unrelated to him unless he also occurs on the son's maternal side.
   */
  lemma XFatherAndSon(a: Ancestry, b: Ancestry)
    requires b.p2 == a.id
    requires Ids(XCorrected(a, Male)) !! {b.id, b.p1, b.g1, b.g2}
    ensures SexAwareRelatedness(a, b, Male, Male, XChromosome) == 0.0
  {
    var xb := XCorrected(b, Male);
    assert Ids(xb) <= {b.id, b.p1, b.g1, b.g2};
    UnrelatedPedigrees(XCorrected(a, Male), xb);
  }

  /** On the X, a daughter receives her father's single X whole: a father and daughter are related by 0.5. */
  lemma XFatherAndDaughter(a: Ancestry, b: Ancestry)
    requires a.id != UNKNOWN && b.id != UNKNOWN && a.id != b.id
    requires b.p2 == a.id && b.p1 != a.id && b.g1 != a.id && b.g2 != a.id
    requires Ids(XCorrected(a, Male)) !! Ids(Ancestry(b.p1, b.g1, b.g2, UNKNOWN, UNKNOWN, UNKNOWN, UNKNOWN))
    ensures SexAwareRelatedness(a, b, Male, Female, XChromosome) == 0.5
  {
    var xa, xb := XCorrected(a, Male), XCorrected(b, Female);
    assert InPedigree(xb, xa.id);
    assert Up1(xb) == Ancestry(b.p1, b.g1, b.g2, UNKNOWN, UNKNOWN, UNKNOWN, UNKNOWN);
    UnrelatedPedigrees(xa, Up1(xb));
    assert Relatedness(xa, Up2(xb)) == 1.0;
  }
}
