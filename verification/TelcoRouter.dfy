/** The plain telco router, in which the adapter registered last for a country takes over. */
module TelcoRouter {
  import opened Options
  import opened Routing
  import opened RouterRuns

  function Mapped(mapping: map<string, Adapter>, country: string): Option<Adapter> {
    if country in mapping then Some(mapping[country]) else None
  }

  function LastOf(served: seq<Adapter>): Option<Adapter> {
    if served == [] then None else Some(served[|served| - 1])
  }

  /** An adapter takes a country over as soon as it lists it, and however often it does. */
  lemma ServingEndsWith(adapters: seq<Adapter>, a: Adapter, country: string)
    ensures LastOf(Serving(adapters + [a], country)) ==
            if country in a.countries then Some(a) else LastOf(Serving(adapters, country))
  {
    assert (adapters + [a])[..|adapters|] == adapters;
    var copies := Copies(a, country, a.countries);
    CopiesAre(a, country, a.countries);
    CopiesExactlyWhenListed(a, country, a.countries);
    if copies == [] {
      assert Serving(adapters, country) + copies == Serving(adapters, country);
    } else {
      assert copies[|copies| - 1] in copies;
    }
  }

  lemma {:induction false} CopiesExactlyWhenListed(a: Adapter, country: string, listed: seq<string>)
    ensures Copies(a, country, listed) != [] <==> country in listed
  {
    if listed != [] {
      CopiesExactlyWhenListed(a, country, listed[..|listed| - 1]);
      assert listed == listed[..|listed| - 1] + [listed[|listed| - 1]];
    }
  }

  class Router {
    var adapters: seq<Adapter>
    var countryMapping: map<string, Adapter>

    /** Each country is mapped to the last of the adapters that serve it, and to none if none does. */
    ghost predicate Valid()
      reads this
    {
      forall country :: Mapped(countryMapping, country) == LastOf(Serving(adapters, country))
    }

    constructor ()
      ensures Valid() && adapters == []
    {
      adapters, countryMapping := [], map[];
    }

    method Register(adapter: Adapter)
      requires Valid()
      modifies this
      ensures Valid() && adapters == old(adapters) + [adapter]
    {
      adapters := adapters + [adapter];
      for i := 0 to |adapter.countries|
        invariant adapters == old(adapters) + [adapter]
        invariant forall country ::
                    Mapped(countryMapping, country) ==
                    if country in adapter.countries[..i] then Some(adapter) else Mapped(old(countryMapping), country)
      {
        countryMapping := countryMapping[adapter.countries[i] := adapter];
        assert adapter.countries[..i + 1] == adapter.countries[..i] + [adapter.countries[i]];
      }
      assert adapter.countries[..|adapter.countries|] == adapter.countries;
      forall country ensures Mapped(countryMapping, country) == LastOf(Serving(adapters, country)) {
        ServingEndsWith(old(adapters), adapter, country);
        assert Mapped(old(countryMapping), country) == old(LastOf(Serving(adapters, country)));
      }
    }

    /** A country is supported iff some registered adapter serves it; no circuit is looked at. */
    method IsSupported(country: string) returns (supported: bool)
      requires Valid()
      ensures supported <==> Serving(adapters, country) != []
    {
      assert Mapped(countryMapping, country) == LastOf(Serving(adapters, country));
      return country in countryMapping;
    }

    /** The adapter that a silent verification or SIM swap check goes to, or none, which is an error. */
    method Chosen(country: string) returns (adapter: Option<Adapter>)
      requires Valid()
      ensures adapter == LastOf(Serving(adapters, country))
    {
      assert Mapped(countryMapping, country) == LastOf(Serving(adapters, country));
      adapter := if country in countryMapping then Some(countryMapping[country]) else None;
    }
  }
}
