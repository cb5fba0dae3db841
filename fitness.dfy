/**
 * Objects that carry a fitness score. Equality and the four order operators
 * compare the scores and nothing else.
 */
module Fitness {
  /** An object with a fitness score. */
  datatype Fitnessable = Fitnessable(fitness: int)

  /** `Fitnessable(fitness=0)`. */
  function NewFitnessable(fitness: int := 0): Fitnessable
  {
    Fitnessable(fitness)
  }

  predicate Eq(a: Fitnessable, b: Fitnessable) { a.fitness == b.fitness }
  predicate Ge(a: Fitnessable, b: Fitnessable) { a.fitness >= b.fitness }
  predicate Gt(a: Fitnessable, b: Fitnessable) { a.fitness > b.fitness }
  predicate Le(a: Fitnessable, b: Fitnessable) { a.fitness <= b.fitness }
  predicate Lt(a: Fitnessable, b: Fitnessable) { a.fitness < b.fitness }

  /** `a != b` is `not a == b`. */
  predicate Ne(a: Fitnessable, b: Fitnessable) { !Eq(a, b) }

  /** Every element is no fitter than any element after it. */
  ghost predicate SortedByFitness(s: seq<Fitnessable>)
  {
    forall i, j :: 0 <= i < j < |s| ==> Le(s[i], s[j])
  }

  /** Every element is no fitter than the next one. */
  ghost predicate AdjacentNondecreasing(s: seq<Fitnessable>)
  {
    forall i :: 1 <= i < |s| ==> s[i].fitness >= s[i - 1].fitness
  }

  lemma DefaultFitness()
    ensures NewFitnessable().fitness == 0
    ensures NewFitnessable() == NewFitnessable(0)
  {
  }

  /** Two objects are equal iff their scores are, and `!=` is the negation of `==`. */
  lemma EqualityByFitness(a: Fitnessable, b: Fitnessable)
    ensures Eq(a, b) <==> a.fitness == b.fitness
    ensures Ne(a, b) <==> !Eq(a, b)
    ensures Ne(a, b) <==> a.fitness != b.fitness
  {
  }

  /** Exactly one of `<`, `==` and `>` holds. */
  lemma Trichotomy(a: Fitnessable, b: Fitnessable)
    ensures Lt(a, b) || Eq(a, b) || Gt(a, b)
    ensures !(Lt(a, b) && Eq(a, b)) && !(Lt(a, b) && Gt(a, b)) && !(Eq(a, b) && Gt(a, b))
  {
  }

  /** The operators mirror each other and split into strict part and equality. */
  lemma OperatorDuality(a: Fitnessable, b: Fitnessable)
    ensures Le(a, b) <==> Ge(b, a)
    ensures Lt(a, b) <==> Gt(b, a)
    ensures Le(a, b) <==> Lt(a, b) || Eq(a, b)
    ensures Ge(a, b) <==> !Lt(a, b)
    ensures Gt(a, b) <==> !Le(a, b)
  {
  }

  /** `<=` is a total preorder: reflexive, total and transitive. */
  lemma TotalPreorder(a: Fitnessable, b: Fitnessable, c: Fitnessable)
    ensures Le(a, a)
    ensures Le(a, b) || Le(b, a)
    ensures Le(a, b) && Le(b, c) ==> Le(a, c)
    ensures Lt(a, b) && Le(b, c) ==> Lt(a, c)
    ensures Eq(a, b) <==> Le(a, b) && Le(b, a)
  {
  }

  /** The test suite's values 30, 45 and 45. */
  lemma ComparisonExample()
    ensures var a, b, c := Fitnessable(30), Fitnessable(45), Fitnessable(45);
            && !Ge(a, b) && !Le(b, a) && Lt(a, b) && Le(b, c) && Gt(b, a) && Ge(b, c)
  {
  }

  /** A sequence is sorted by fitness iff every adjacent pair is in order. */
  lemma {:induction false} SortedIffAdjacent(s: seq<Fitnessable>)
    ensures SortedByFitness(s) <==> AdjacentNondecreasing(s)
  {
    if AdjacentNondecreasing(s) {
      forall i, j | 0 <= i < j < |s| ensures Le(s[i], s[j]) {
        AdjacentChain(s, i, j);
      }
    }
  }

  lemma {:induction false} AdjacentChain(s: seq<Fitnessable>, i: nat, j: nat)
    requires AdjacentNondecreasing(s) && i <= j < |s|
    ensures Le(s[i], s[j])
  {
    if i < j {
      AdjacentChain(s, i, j - 1);
    }
  }
}
