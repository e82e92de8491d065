/**
 * The registry that connects emitters to particle pools: each pool registers its
 * `emit` callback under a name, and an emitter reaches the pool through that name.
 */
module Store {
  import opened Basics

  /** Registering keeps an existing entry; otherwise it adds exactly one. */
  function Registered<F>(m: map<string, F>, name: string, callback: F): (r: map<string, F>)
    ensures name in m ==> r == m
    ensures name !in m ==> r.Keys == m.Keys + {name} && r[name] == callback
    ensures forall k :: k in m ==> k in r && r[k] == m[k]
  {
    if name in m then m else m[name := callback]
  }

  /** Unregistering drops the name, whether or not it was there, and nothing else. */
  function Unregistered<F>(m: map<string, F>, name: string): (r: map<string, F>)
    ensures r.Keys == m.Keys - {name}
    ensures forall k :: k in r ==> r[k] == m[k]
    ensures name !in m ==> r == m
  {
    m - {name}
  }

  /** Registering a fresh name and unregistering it again restores the registry. */
  lemma RegisterThenUnregister<F>(m: map<string, F>, name: string, callback: F)
    requires name !in m
    ensures Unregistered(Registered(m, name, callback), name) == m
  {
  }

  /** A second registration under a taken name cannot replace the first callback. */
  lemma FirstRegistrationWins<F>(m: map<string, F>, name: string, first: F, second: F)
    ensures Registered(Registered(m, name, first), name, second) == Registered(m, name, first)
    ensures name !in m ==> Registered(Registered(m, name, first), name, second)[name] == first
  {
  }

  /** The zustand store: the `emitters` object and its three operations. */
  class Registry<F> {
    var emitters: map<string, F>

    constructor ()
      ensures emitters == map[]
    {
      emitters := map[];
    }

    method RegisterEmitter(name: string, callback: F)
      modifies this
      ensures emitters == Registered(old(emitters), name, callback)
    {
      if name in emitters {
        return;
      }
      emitters := emitters[name := callback];
    }

    method UnregisterEmitter(name: string)
      modifies this
      ensures emitters == Unregistered(old(emitters), name)
    {
      emitters := emitters - {name};
    }

    /** The one call `emit` makes: the named callback with the parameters passed
        through unchanged, or no call when the name is unknown. */
    method Emit<P>(name: string, params: P) returns (call: Option<(F, P)>)
      ensures call.Some? <==> name in emitters
      ensures call.Some? ==> call.value.0 == emitters[name] && call.value.1 == params
    {
      if name !in emitters {
        return None;
      }
      call := Some((emitters[name], params));
    }
  }
}
