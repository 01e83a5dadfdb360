/**
 * `CompRule<P>` of `pallet-rules` and its two `process` implementations: the
 * specialised one for totally ordered `P`, and the default one for types that
 * only have equality, which refuses every ordering variant.
 */
module CompRules {

  datatype CompRule<P> =
    | Any
    | AnyOf(values: seq<P>)
    | NoneOf(values: seq<P>)
    | Exactly(value: P)
    | GreaterThan(value: P)
    | LesserThan(value: P)
    | GreaterOrEqualTo(value: P)
    | LesserOrEqualTo(value: P)
  {
    /** The variants that need an order on `P`. */
    predicate IsOrdering()
    {
      GreaterThan? || LesserThan? || GreaterOrEqualTo? || LesserOrEqualTo?
    }
  }

  /** `core::cmp::Ordering`. */
  datatype Ordering = Less | Equal | Greater

  /**
   * The laws of `Ord::cmp`: it agrees with equality, swapping the arguments
   * reverses the answer, and `Less` is transitive.
   */
  ghost predicate TotalOrder<P(!new)>(cmp: (P, P) -> Ordering)
  {
    && (forall a, b :: cmp(a, b) == Equal <==> a == b)
    && (forall a, b :: cmp(a, b) == Less <==> cmp(b, a) == Greater)
    && (forall a, b, c :: cmp(a, b) == Less && cmp(b, c) == Less ==> cmp(a, c) == Less)
  }

  /**
   * `process` for ordered `P`; `x > v` is `cmp(x, v) == Greater` and `x >= v`
   * is `cmp(x, v) != Less`, as the default methods of `PartialOrd` read them.
   * On the variants that need no order it agrees with the default impl.
   */
  function ProcessOrdered<P(==)>(rule: CompRule<P>, x: P, cmp: (P, P) -> Ordering): (r: bool)
    ensures !rule.IsOrdering() ==> r == ProcessDefault(rule, x)
  {
    match rule
    case Any => true
    case AnyOf(values) => x in values
    case NoneOf(values) => x !in values
    case Exactly(v) => v == x
    case GreaterThan(v) => cmp(x, v) == Greater
    case LesserThan(v) => cmp(x, v) == Less
    case GreaterOrEqualTo(v) => cmp(x, v) != Less
    case LesserOrEqualTo(v) => cmp(x, v) != Greater
  }

  /** The default `process`, for `P` with equality only. */
  function ProcessDefault<P(==)>(rule: CompRule<P>, x: P): (r: bool)
    ensures rule.IsOrdering() ==> !r
  {
    match rule
    case Any => true
    case AnyOf(values) => x in values
    case NoneOf(values) => x !in values
    case Exactly(v) => v == x
    case _ => false
  }

  /** `Any` accepts every value, in both impls. */
  lemma AnyAcceptsEverything<P>(x: P, cmp: (P, P) -> Ordering)
    ensures ProcessOrdered(Any, x, cmp) && ProcessDefault(Any, x)
  {
  }

  /** `AnyOf(v)` accepts exactly the members of `v`, in both impls. */
  lemma AnyOfIsMembership<P>(values: seq<P>, x: P, cmp: (P, P) -> Ordering)
    ensures ProcessOrdered(AnyOf(values), x, cmp) <==> x in values
    ensures ProcessDefault(AnyOf(values), x) <==> x in values
  {
  }

  /** `NoneOf(v)` accepts exactly what `AnyOf(v)` refuses, in both impls. */
  lemma NoneOfNegatesAnyOf<P>(values: seq<P>, x: P, cmp: (P, P) -> Ordering)
    ensures ProcessOrdered(NoneOf(values), x, cmp) == !ProcessOrdered(AnyOf(values), x, cmp)
    ensures ProcessDefault(NoneOf(values), x) == !ProcessDefault(AnyOf(values), x)
  {
  }

  /** `Exactly(v)` accepts `v` and nothing else, in both impls. */
  lemma ExactlyIsEquality<P>(v: P, x: P, cmp: (P, P) -> Ordering)
    ensures ProcessOrdered(Exactly(v), x, cmp) <==> x == v
    ensures ProcessDefault(Exactly(v), x) <==> x == v
  {
  }

  /** For a total order, `>= v` accepts what `> v` or `Exactly(v)` accepts. */
  lemma GreaterOrEqualSplits<P(!new)>(v: P, x: P, cmp: (P, P) -> Ordering)
    requires TotalOrder(cmp)
    ensures ProcessOrdered(GreaterOrEqualTo(v), x, cmp) ==
            (ProcessOrdered(GreaterThan(v), x, cmp) || ProcessOrdered(Exactly(v), x, cmp))
  {
  }

  /** For a total order, `<= v` accepts what `< v` or `Exactly(v)` accepts. */
  lemma LesserOrEqualSplits<P(!new)>(v: P, x: P, cmp: (P, P) -> Ordering)
    requires TotalOrder(cmp)
    ensures ProcessOrdered(LesserOrEqualTo(v), x, cmp) ==
            (ProcessOrdered(LesserThan(v), x, cmp) || ProcessOrdered(Exactly(v), x, cmp))
  {
  }

  /** `< v` accepts exactly what `>= v` refuses, and `> v` what `<= v` refuses. */
  lemma StrictNegatesNonStrict<P>(v: P, x: P, cmp: (P, P) -> Ordering)
    ensures ProcessOrdered(LesserThan(v), x, cmp) == !ProcessOrdered(GreaterOrEqualTo(v), x, cmp)
    ensures ProcessOrdered(GreaterThan(v), x, cmp) == !ProcessOrdered(LesserOrEqualTo(v), x, cmp)
  {
  }

  /**
   * For a total order at most one of `< v`, `Exactly(v)` and `> v` accepts a
   * value, and one of them always does.
   */
  lemma Trichotomy<P(!new)>(v: P, x: P, cmp: (P, P) -> Ordering)
    requires TotalOrder(cmp)
    ensures ProcessOrdered(LesserThan(v), x, cmp) || ProcessOrdered(Exactly(v), x, cmp) ||
            ProcessOrdered(GreaterThan(v), x, cmp)
    ensures !(ProcessOrdered(LesserThan(v), x, cmp) && ProcessOrdered(Exactly(v), x, cmp))
    ensures !(ProcessOrdered(GreaterThan(v), x, cmp) && ProcessOrdered(Exactly(v), x, cmp))
    ensures !(ProcessOrdered(LesserThan(v), x, cmp) && ProcessOrdered(GreaterThan(v), x, cmp))
  {
  }

  /**
   * `GreaterThan` is transitive through the rule: a value above `x` passes
   * every `> v` rule that `x` passes.
   */
  lemma GreaterThanIsUpwardClosed<P(!new)>(v: P, x: P, y: P, cmp: (P, P) -> Ordering)
    requires TotalOrder(cmp)
    requires ProcessOrdered(GreaterThan(v), x, cmp)
    requires cmp(y, x) == Greater
    ensures ProcessOrdered(GreaterThan(v), y, cmp)
  {
    assert cmp(v, x) == Less;
    assert cmp(x, y) == Less;
  }
}
