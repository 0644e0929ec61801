/** `FiltersMapping`: the filter chains an HTTP request passes through before
    and after its handler. A chain is a short-circuit conjunction: the filters
    run in registration order and the first one that answers false stops the
    chain, which then fails.

    `ChainUrlMapping` is a value here: an optional context and, per URL, the
    chain of filters registered under it. A request selects the chain
    registered under its path. What a filter answers for a request is the
    parameter `verdict`. */
module Filters {
  import opened Wrappers

  /** A registered filter, known by its identity. */
  datatype Filter = Filter(id: nat)

  datatype Request = Request(path: string)

  datatype ChainMapping = ChainMapping(context: Option<string>, chains: map<string, seq<Filter>>)
  {
    /** `isEmpty()`: no URL has a chain. */
    predicate IsEmpty(): (b: bool)
      ensures b <==> chains == map[]
    {
      |chains| == 0
    }

    /** `get(request)`: the chain registered under the request's path, if any. */
    function Get(request: Request): (r: Option<seq<Filter>>)
      ensures r.Some? <==> request.path in chains
      ensures r.Some? ==> r.value == ChainAt(request.path)
      ensures r.None? ==> ChainAt(request.path) == []
    {
      if request.path in chains then Some(chains[request.path]) else None
    }

    /** The chain registered under `url`, empty when there is none. */
    function ChainAt(url: string): seq<Filter>
    {
      if url in chains then chains[url] else []
    }

    /** `add(url, filter)`: appends the filter to the chain under `url`. */
    function Add(url: string, f: Filter): (m: ChainMapping)
      ensures m.context == context && !m.IsEmpty()
      ensures m.ChainAt(url) == ChainAt(url) + [f]
      ensures forall u :: u != url ==> m.ChainAt(u) == ChainAt(u)
    {
      ChainMapping(context, chains[url := ChainAt(url) + [f]])
    }

    /** `setContext(context)`: the chains stay as they are. */
    function WithContext(c: Option<string>): (m: ChainMapping)
      ensures m.context == c && m.chains == chains
    {
      ChainMapping(c, chains)
    }
  }

  /** `new ChainUrlMapping<>(context)`: no chains yet. */
  function EmptyMapping(context: Option<string>): (m: ChainMapping)
    ensures m.context == context && m.IsEmpty()
    ensures forall request :: m.Get(request) == None
  {
    ChainMapping(context, map[])
  }

  /** `filter(chain, request, response)`: the short-circuit conjunction of the
      chain's verdicts. */
  function ChainPasses(chain: seq<Filter>, request: Request, verdict: (Filter, Request) -> bool): (pass: bool)
    ensures chain == [] ==> pass
    ensures chain != [] && !verdict(chain[0], request) ==> !pass
  {
    if chain == [] then true
    else verdict(chain[0], request) && ChainPasses(chain[1..], request, verdict)
  }

  /** The filters a chain actually invokes: every filter up to and including
      the first that fails, or the whole chain when none fails. */
  function Consulted(chain: seq<Filter>, request: Request, verdict: (Filter, Request) -> bool): (invoked: seq<Filter>)
    ensures |invoked| <= |chain|
    ensures chain != [] ==> invoked != [] && invoked[0] == chain[0]
    ensures chain == [] ==> invoked == []
  {
    if chain == [] then []
    else if !verdict(chain[0], request) then [chain[0]]
    else [chain[0]] + Consulted(chain[1..], request, verdict)
  }

  /** A chain passes exactly when every one of its filters passes the request. */
  lemma {:induction false} ChainPassesAll(chain: seq<Filter>, request: Request, verdict: (Filter, Request) -> bool)
    ensures ChainPasses(chain, request, verdict) <==> forall i :: 0 <= i < |chain| ==> verdict(chain[i], request)
  {
    if chain != [] {
      ChainPassesAll(chain[1..], request, verdict);
      assert forall i :: 1 <= i < |chain| ==> chain[i] == chain[1..][i - 1];
    }
  }

  /** Evaluation stops at the first failing filter: the invoked filters are a
      prefix of the chain in which all but the last passed, and the last
      failed unless the whole chain passed and was invoked. Filters after the
      first failure are never invoked. */
  lemma {:induction false} ConsultedStopsAtFirstFailure(chain: seq<Filter>, request: Request,
                                                        verdict: (Filter, Request) -> bool)
    ensures Consulted(chain, request, verdict) <= chain
    ensures var invoked := Consulted(chain, request, verdict);
      forall i :: 0 <= i < |invoked| - 1 ==> verdict(invoked[i], request)
    ensures ChainPasses(chain, request, verdict) ==> Consulted(chain, request, verdict) == chain
    ensures var invoked := Consulted(chain, request, verdict);
      !ChainPasses(chain, request, verdict) ==> invoked != [] && !verdict(invoked[|invoked| - 1], request)
  {
    if chain != [] && verdict(chain[0], request) {
      ConsultedStopsAtFirstFailure(chain[1..], request, verdict);
      var rest := Consulted(chain[1..], request, verdict);
      assert Consulted(chain, request, verdict) == [chain[0]] + rest;
      assert chain == [chain[0]] + chain[1..];
      assert forall i :: 1 <= i < |rest| + 1 ==> ([chain[0]] + rest)[i] == rest[i - 1];
    }
  }

  /** What `filter(request, response, mapping)` answers: an empty mapping and
      a request without a chain pass; otherwise the selected chain decides. */
  function MappingPasses(mapping: ChainMapping, request: Request, verdict: (Filter, Request) -> bool): (pass: bool)
    ensures mapping.IsEmpty() ==> pass
    ensures mapping.Get(request).None? ==> pass
    ensures mapping.Get(request).Some? ==>
      (pass <==> forall i :: 0 <= i < |mapping.Get(request).value| ==> verdict(mapping.Get(request).value[i], request))
  {
    if mapping.IsEmpty() then true
    else match mapping.Get(request)
      case None => true
      case Some(chain) =>
        ChainPassesAll(chain, request, verdict);
        ChainPasses(chain, request, verdict)
  }

  /** The filters `filter(request, response, mapping)` invokes. */
  function MappingConsulted(mapping: ChainMapping, request: Request, verdict: (Filter, Request) -> bool)
    : (invoked: seq<Filter>)
    ensures mapping.Get(request).None? ==> invoked == []
    ensures mapping.Get(request).Some? ==>
      && invoked <= mapping.Get(request).value
      && (MappingPasses(mapping, request, verdict) <==>
            invoked == mapping.Get(request).value && forall i :: 0 <= i < |invoked| ==> verdict(invoked[i], request))
  {
    if mapping.IsEmpty() then []
    else match mapping.Get(request)
      case None => []
      case Some(chain) =>
        ConsultedStopsAtFirstFailure(chain, request, verdict);
        Consulted(chain, request, verdict)
  }

  /** A chain made of two parts passes exactly when both parts pass. */
  lemma {:induction false} ChainPassesAppend(a: seq<Filter>, b: seq<Filter>, request: Request,
                                             verdict: (Filter, Request) -> bool)
    ensures ChainPasses(a + b, request, verdict) <==> ChainPasses(a, request, verdict) && ChainPasses(b, request, verdict)
  {
    if a == [] {
      assert a + b == b;
    } else {
      assert (a + b)[1..] == a[1..] + b;
      ChainPassesAppend(a[1..], b, request, verdict);
    }
  }

  /** Registering a filter under a request's path adds it to the end of that
      request's chain: the request now passes exactly when the old chain
      passes and the new filter does too. Requests on other paths are
      unaffected. */
  lemma AddedFilterConsulted(mapping: ChainMapping, url: string, f: Filter, request: Request,
                             verdict: (Filter, Request) -> bool)
    ensures request.path == url ==>
      (MappingPasses(mapping.Add(url, f), request, verdict) <==>
         ChainPasses(mapping.ChainAt(url), request, verdict) && verdict(f, request))
    ensures request.path != url ==>
      MappingPasses(mapping.Add(url, f), request, verdict) == MappingPasses(mapping, request, verdict)
  {
    var m := mapping.Add(url, f);
    if request.path == url {
      assert m.Get(request) == Some(mapping.ChainAt(url) + [f]);
      ChainPassesAppend(mapping.ChainAt(url), [f], request, verdict);
    } else {
      assert request.path in m.chains <==> request.path in mapping.chains;
    }
  }

  /** When the first `i` filters pass, the chain invokes them all and then
      goes on as the chain from position `i` does. */
  lemma {:induction false} PassedPrefix(chain: seq<Filter>, i: nat, request: Request, verdict: (Filter, Request) -> bool)
    requires i <= |chain|
    requires forall j :: 0 <= j < i ==> verdict(chain[j], request)
    ensures ChainPasses(chain, request, verdict) == ChainPasses(chain[i..], request, verdict)
    ensures Consulted(chain, request, verdict) == chain[..i] + Consulted(chain[i..], request, verdict)
  {
    if i > 0 {
      PassedPrefix(chain[1..], i - 1, request, verdict);
      assert chain[1..][i - 1..] == chain[i..];
      assert chain[..i] == [chain[0]] + chain[1..][..i - 1];
    }
  }

  /** The short-circuit loop of `filter(chain, request, response)`. `invoked`
      lists the filters called, in order. */
  method RunChain(chain: seq<Filter>, request: Request, verdict: (Filter, Request) -> bool)
    returns (pass: bool, invoked: seq<Filter>)
    ensures pass == ChainPasses(chain, request, verdict)
    ensures invoked == Consulted(chain, request, verdict)
  {
    invoked := [];
    var i := 0;
    while i < |chain|
      invariant 0 <= i <= |chain| && invoked == chain[..i]
      invariant forall j :: 0 <= j < i ==> verdict(chain[j], request)
    {
      invoked := invoked + [chain[i]];
      if !verdict(chain[i], request) {
        PassedPrefix(chain, i, request, verdict);
        assert chain[i..][0] == chain[i];
        return false, invoked;
      }
      assert chain[..i + 1] == invoked;
      i := i + 1;
    }
    PassedPrefix(chain, i, request, verdict);
    assert chain[..i] == chain;
    pass := true;
  }

  class FiltersMapping {
    var before: ChainMapping
    var after: ChainMapping

    /** `FiltersMapping()`: both mappings empty, with no context. */
    constructor Default()
      ensures before == EmptyMapping(None) && after == EmptyMapping(None)
    {
      before, after := EmptyMapping(None), EmptyMapping(None);
    }

    /** `FiltersMapping(context)`: both mappings empty, with that context. */
    constructor (context: Option<string>)
      ensures before == EmptyMapping(context) && after == EmptyMapping(context)
    {
      before, after := EmptyMapping(context), EmptyMapping(context);
    }

    /** `addBefore(url, handler)`, returning this mapping for chaining. */
    method AddBefore(url: string, handler: Filter) returns (self: FiltersMapping)
      modifies this`before
      ensures self == this && before == old(before).Add(url, handler)
    {
      before := before.Add(url, handler);
      self := this;
    }

    /** `addAfter(url, handler)`, returning this mapping for chaining. */
    method AddAfter(url: string, handler: Filter) returns (self: FiltersMapping)
      modifies this`after
      ensures self == this && after == old(after).Add(url, handler)
    {
      after := after.Add(url, handler);
      self := this;
    }

    /** `addBeforeAndAfter(url, handler)`: registers the handler in both mappings. */
    method AddBeforeAndAfter(url: string, handler: Filter) returns (self: FiltersMapping)
      modifies this`before, this`after
      ensures self == this
      ensures before == old(before).Add(url, handler) && after == old(after).Add(url, handler)
    {
      var m := AddBefore(url, handler);
      self := m.AddAfter(url, handler);
    }

    /** `filter(request, response, mapping)`. */
    method FilterWith(request: Request, mapping: ChainMapping, verdict: (Filter, Request) -> bool)
      returns (pass: bool, invoked: seq<Filter>)
      ensures pass == MappingPasses(mapping, request, verdict)
      ensures invoked == MappingConsulted(mapping, request, verdict)
      ensures mapping.IsEmpty() || mapping.Get(request).None? ==> pass && invoked == []
    {
      if mapping.IsEmpty() {
        return true, [];
      }
      var filters := mapping.Get(request);
      if filters.Some? {
        var ok;
        ok, invoked := RunChain(filters.value, request, verdict);
        if !ok {
          return false, invoked;
        }
        return true, invoked;
      }
      return true, [];
    }

    /** `before(request, response)`: only the `before` mapping is consulted. */
    method Before(request: Request, verdict: (Filter, Request) -> bool) returns (pass: bool, invoked: seq<Filter>)
      ensures pass == MappingPasses(before, request, verdict)
      ensures invoked == MappingConsulted(before, request, verdict)
    {
      pass, invoked := FilterWith(request, before, verdict);
    }

    /** `after(request, response)`: only the `after` mapping is consulted. */
    method After(request: Request, verdict: (Filter, Request) -> bool) returns (pass: bool, invoked: seq<Filter>)
      ensures pass == MappingPasses(after, request, verdict)
      ensures invoked == MappingConsulted(after, request, verdict)
    {
      pass, invoked := FilterWith(request, after, verdict);
    }

    /** `setContext(context)`: the same context on both mappings. */
    method SetContext(context: Option<string>)
      modifies this
      ensures before == old(before).WithContext(context) && after == old(after).WithContext(context)
    {
      before := before.WithContext(context);
      after := after.WithContext(context);
    }
  }
}
