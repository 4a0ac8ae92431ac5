/** Express route chains as data: each route lists the middleware that runs
    before its handler. Dispatch (which route a URL selects) is not modelled.

    `adminMiddleware` and `validator` are not part of this model; they are
    abstracted as "the authenticated user is an admin" and "no validation
    chain before it reported an error". A validation chain itself never stops
    a request: it only records errors. */
module Routing {

  datatype Verb = Get | Post | Put | Delete

  /** `V` names the validation chains of a router. */
  datatype Guard<V> = Authenticate | RequireAdmin | Validate(chain: V) | Validator

  datatype Route<V, H> = Route(verb: Verb, path: string, guards: seq<Guard<V>>, handler: H)

  /** What the guards learn about a request: whether `authMiddleware` accepts
      it and whether the user it attaches is an admin. */
  datatype Caller = Caller(authenticated: bool, admin: bool)

  /** Guard `i` calls `next()`; `valid` says which chains report no error. */
  predicate Passes<V>(guards: seq<Guard<V>>, i: int, caller: Caller, valid: V -> bool)
    requires 0 <= i < |guards|
  {
    match guards[i]
    case Authenticate => caller.authenticated
    case RequireAdmin => caller.admin
    case Validate(_) => true
    case Validator => forall j | 0 <= j < i && guards[j].Validate? :: valid(guards[j].chain)
  }

  /** The handler runs exactly when every guard before it calls `next()`. */
  predicate Reaches<V>(guards: seq<Guard<V>>, caller: Caller, valid: V -> bool) {
    forall i | 0 <= i < |guards| :: Passes(guards, i, caller, valid)
  }

  /** A chain that starts with `authMiddleware` reaches its handler only for an
      authenticated caller. */
  lemma AuthFirstGates<V>(guards: seq<Guard<V>>, caller: Caller, valid: V -> bool)
    requires |guards| > 0 && guards[0] == Authenticate
    ensures Reaches(guards, caller, valid) ==> caller.authenticated
  {
    if Reaches(guards, caller, valid) {
      assert Passes(guards, 0, caller, valid);
    }
  }

  /** A chain with `adminMiddleware` reaches its handler only for an admin. */
  lemma AdminGates<V>(guards: seq<Guard<V>>, i: int, caller: Caller, valid: V -> bool)
    requires 0 <= i < |guards| && guards[i] == RequireAdmin
    ensures Reaches(guards, caller, valid) ==> caller.admin
  {
    if Reaches(guards, caller, valid) {
      assert Passes(guards, i, caller, valid);
    }
  }

  /** A chain whose `validator` follows a validation chain reaches its
      handler only when that chain reported no error. */
  lemma ValidatorGates<V>(guards: seq<Guard<V>>, i: int, k: int, caller: Caller, valid: V -> bool)
    requires 0 <= i < k < |guards| && guards[i].Validate? && guards[k] == Validator
    ensures Reaches(guards, caller, valid) ==> valid(guards[i].chain)
  {
    if Reaches(guards, caller, valid) {
      assert Passes(guards, k, caller, valid);
    }
  }
}
