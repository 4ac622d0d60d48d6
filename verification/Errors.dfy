/** Error chains: `fmt.Errorf("%w")` wraps one error, `errors.Join` holds several. */
module Errors {
  datatype Kind = NotExist | Cancelled | DeadlineExceeded | Closed | Other(code: nat)

  datatype Error = Sentinel(kind: Kind) | Wrapped(inner: Error) | Joined(errors: seq<Error>)

  /** errors.Is(err, target) for a sentinel target: some error in the tree is the target. */
  predicate Is(err: Error, kind: Kind) {
    match err
    case Sentinel(k) => k == kind
    case Wrapped(inner) => Is(inner, kind)
    case Joined(errors) => exists e | e in errors :: Is(e, kind)
  }

  /** This error is part of the tree. */
  ghost predicate Holds(err: Error, part: Error) {
    || err == part
    || match err
       case Sentinel(_) => false
       case Wrapped(inner) => Holds(inner, part)
       case Joined(errors) => exists e | e in errors :: Holds(e, part)
  }

  lemma {:induction false} IsExactly(err: Error, kind: Kind)
    ensures Is(err, kind) <==> Holds(err, Sentinel(kind))
  {
    match err
    case Sentinel(_) =>
    case Wrapped(inner) => IsExactly(inner, kind);
    case Joined(errors) =>
      forall e | e in errors
        ensures Is(e, kind) <==> Holds(e, Sentinel(kind))
      {
        IsExactly(e, kind);
      }
  }

  /** definiteMissing: errors.Unwrap follows wrapping only, so a joined error ends the chain. */
  predicate DefiniteMissing(err: Error) {
    match err
    case Sentinel(k) => k == NotExist
    case Wrapped(inner) => DefiniteMissing(inner)
    case Joined(_) => false
  }

  predicate Unambiguous(err: Error) {
    match err
    case Sentinel(_) => true
    case Wrapped(inner) => Unambiguous(inner)
    case Joined(_) => false
  }

  /** Only a single, unambiguous not-found chain counts as a definite absence. */
  lemma {:induction false} DefiniteMissingExact(err: Error)
    ensures DefiniteMissing(err) <==> Unambiguous(err) && Is(err, NotExist)
  {
    match err
    case Sentinel(_) =>
    case Wrapped(inner) => DefiniteMissingExact(inner);
    case Joined(_) =>
  }

  /** A cancelled or timed-out call is never taken for an absence. */
  lemma {:induction false} MissingIsNotCancelled(err: Error)
    ensures DefiniteMissing(err) ==> !Is(err, Cancelled) && !Is(err, DeadlineExceeded)
  {
    match err
    case Sentinel(_) =>
    case Wrapped(inner) => MissingIsNotCancelled(inner);
    case Joined(_) =>
  }
}
