/**
 * The federator's request translation: web-service query parameters and
 * POST bodies become the command-line arguments of the fdsnws_fetch tool.
 *
 * The translator keeps a table of output slots keyed by command-line flag.
 * The `-q` slot is a list that only grows; every other slot holds one value
 * that a later write replaces.
 */
module GeneralRequest {
  import opened Wrappers
  import opened Strings
  import opened Settings

  const QueryValueSeparator := '='
  const OutfileParam := "-o"
  const ServiceParam := "-y"
  const RoutingParam := "-u"
  const QueryParam := "-q"
  const PostfileParam := "-p"

  /**
   * Web-service parameter name to fdsnws_fetch flag. An empty flag means
   * the parameter is passed on as a `-q name=value` entry.
   */
  const QueryToFetch: map<string, string> := map[
    "starttime" := "-s", "endtime" := "-e", "network" := "-N", "station" := "-S",
    "location" := "-L", "channel" := "-C",
    "format" := "", "nodata" := "", "quality" := "", "minimumlength" := "", "longestonly" := "",
    "minlatitude" := "", "maxlatitude" := "", "minlongitude" := "", "maxlongitude" := "",
    "latitude" := "", "longitude" := "", "minradius" := "", "maxradius" := "", "level" := "",
    "includerestricted" := "", "includeavailability" := "", "updatedafter" := "",
    "matchtimeseries" := ""]

  /** The non-empty flags of the table. */
  const Flags: set<string> := {"-s", "-e", "-N", "-S", "-L", "-C"}

  /** The errors the request layer raises. */
  datatype RequestError =
    | BadRequestError
    | NoDataError
      /** The KeyError of a registry lookup that finds no routing server. */
    | RoutingLookupFailed

  /** One output slot: a single value, or the list the `-q` slot holds. */
  datatype Slot = Single(value: string) | Multi(values: seq<string>)

  /** The values a slot contributes to the argument list, in order. */
  function SlotValues(s: Slot): seq<string>
  {
    match s
    case Single(v) => [v]
    case Multi(vs) => vs
  }

  type Params = map<string, Slot>

  /** The shape construction sets up and `add` keeps: `-q` is the one list slot. */
  predicate Shaped(p: Params)
  {
    && QueryParam in p && p[QueryParam].Multi?
    && forall n :: n in p && n != QueryParam ==> p[n].Single?
  }

  /**
   * `add`: append to a slot that already holds a list, otherwise set the
   * slot to the value, replacing what it held.
   */
  function Added(p: Params, param: string, value: string): (r: Params)
    ensures r.Keys == p.Keys + {param}
    ensures forall n :: n in p && n != param ==> r[n] == p[n]
    ensures r[param].Multi? <==> param in p && p[param].Multi?
    ensures SlotValues(r[param]) == if param in p && p[param].Multi? then SlotValues(p[param]) + [value] else [value]
    ensures Shaped(p) ==> Shaped(r)
  {
    if param in p && p[param].Multi? then p[param := Multi(p[param].values + [value])]
    else p[param := Single(value)]
  }

  /** `add` called with each of `values` in turn. */
  function AddAll(p: Params, param: string, values: seq<string>): Params
  {
    if values == [] then p else Added(AddAll(p, param, values[..|values| - 1]), param, values[|values| - 1])
  }

  /** On a shaped table, adding to `-q` appends in order and leaves every other slot alone. */
  lemma {:induction false} AddAllQuery(p: Params, values: seq<string>)
    requires Shaped(p)
    ensures AddAll(p, QueryParam, values) == p[QueryParam := Multi(p[QueryParam].values + values)]
  {
    if values == [] {
      assert p[QueryParam].values + values == p[QueryParam].values;
    } else {
      var init := values[..|values| - 1];
      AddAllQuery(p, init);
      assert (p[QueryParam].values + init) + [values[|values| - 1]] == p[QueryParam].values + values;
    }
  }

  /** The slots `__init__` sets before it maps the query parameters. */
  function Initial(outfile: string, routingUrl: string): (r: Params)
    ensures Shaped(r) && r[QueryParam].values == []
    ensures r.Keys == {QueryParam, OutfileParam, RoutingParam}
    ensures r[OutfileParam] == Single(outfile) && r[RoutingParam] == Single(routingUrl)
  {
    map[QueryParam := Multi([]), OutfileParam := Single(outfile), RoutingParam := Single(routingUrl)]
  }

  /** One query parameter, as the loop of `__init__` handles it. */
  function MapArg(p: Params, name: string, value: Option<string>): Result<Params, RequestError>
  {
    if value.None? then Success(p)
    else if name !in QueryToFetch then Failure(BadRequestError)
    else if QueryToFetch[name] != "" then Success(Added(p, QueryToFetch[name], value.value))
    else Success(Added(p, QueryParam, name + "=" + value.value))
  }

  /** The loop of `__init__` over the query parameters, in iteration order. */
  function MapArgs(p: Params, args: seq<(string, Option<string>)>): Result<Params, RequestError>
  {
    if args == [] then Success(p)
    else
      match MapArgs(p, args[..|args| - 1])
      case Failure(e) => Failure(e)
      case Success(q) => MapArg(q, args[|args| - 1].0, args[|args| - 1].1)
  }

  /** A parameter with a value whose name the table does not know. */
  predicate Unknown(args: seq<(string, Option<string>)>)
  {
    exists i :: 0 <= i < |args| && args[i].1.Some? && args[i].0 !in QueryToFetch
  }

  /** The `-q` entries the parameters produce: `name=value`, in order. */
  function QueryEntries(args: seq<(string, Option<string>)>): seq<string>
  {
    if args == [] then []
    else
      var (name, value) := args[|args| - 1];
      QueryEntries(args[..|args| - 1])
      + (if value.Some? && name in QueryToFetch && QueryToFetch[name] == "" then [name + "=" + value.value] else [])
  }

  /** The value of the last parameter with a value that maps to `flag`. */
  function LastValue(args: seq<(string, Option<string>)>, flag: string): Option<string>
  {
    if args == [] then None
    else
      var (name, value) := args[|args| - 1];
      if value.Some? && name in QueryToFetch && QueryToFetch[name] == flag then value
      else LastValue(args[..|args| - 1], flag)
  }

  /** Mapping fails exactly when some parameter with a value has an unknown name, and then with BadRequest. */
  lemma {:induction false} MapArgsFailsIff(p: Params, args: seq<(string, Option<string>)>)
    ensures MapArgs(p, args).Failure? <==> Unknown(args)
    ensures MapArgs(p, args).Failure? ==> MapArgs(p, args).error == BadRequestError
  {
    if args != [] {
      var init := args[..|args| - 1];
      var last := args[|args| - 1];
      MapArgsFailsIff(p, init);
      assert Unknown(init) ==> Unknown(args) by {
        if Unknown(init) {
          var i :| 0 <= i < |init| && init[i].1.Some? && init[i].0 !in QueryToFetch;
          assert args[i] == init[i];
        }
      }
      assert Unknown(args) ==> Unknown(init) || (last.1.Some? && last.0 !in QueryToFetch) by {
        if Unknown(args) {
          var i :| 0 <= i < |args| && args[i].1.Some? && args[i].0 !in QueryToFetch;
          if i < |init| {
            assert init[i] == args[i];
          }
        }
      }
    }
  }

  /**
   * A successful mapping keeps the shape, and the `-q` list grows by the
   * parameters' `name=value` entries, in order.
   */
  lemma {:induction false} MapArgsQuery(p: Params, args: seq<(string, Option<string>)>)
    requires Shaped(p) && MapArgs(p, args).Success?
    ensures Shaped(MapArgs(p, args).value)
    ensures MapArgs(p, args).value[QueryParam] == Multi(p[QueryParam].values + QueryEntries(args))
  {
    if args == [] {
      assert p[QueryParam].values + [] == p[QueryParam].values;
    } else {
      var init := args[..|args| - 1];
      var (name, value) := args[|args| - 1];
      MapArgsQuery(p, init);
      if value.Some? && name in QueryToFetch && QueryToFetch[name] == "" {
        assert (p[QueryParam].values + QueryEntries(init)) + [name + "=" + value.value]
               == p[QueryParam].values + QueryEntries(args);
      } else {
        assert QueryEntries(args) == QueryEntries(init) + [];
        if value.Some? && name in QueryToFetch {
          MappedFlag(name);
        }
      }
    }
  }

  /** The table maps every name to one of the flags or to the empty flag; none of them is `-q`. */
  lemma MappedFlag(name: string)
    requires name in QueryToFetch
    ensures QueryToFetch[name] == "" || QueryToFetch[name] in Flags
    ensures QueryToFetch[name] != QueryParam
  {
  }

  /**
   * After a successful mapping, a slot other than `-q` exists when it did
   * before or some parameter mapped to it; a flag slot then holds the value
   * of the last parameter mapped to it, and every other slot is kept.
   */
  lemma {:induction false} MapArgsFlags(p: Params, args: seq<(string, Option<string>)>, n: string)
    requires Shaped(p) && MapArgs(p, args).Success? && n != QueryParam
    ensures n in MapArgs(p, args).value <==> n in p || (n in Flags && LastValue(args, n).Some?)
    ensures n in MapArgs(p, args).value ==>
              MapArgs(p, args).value[n] == if n in Flags && LastValue(args, n).Some? then Single(LastValue(args, n).value) else p[n]
  {
    if args != [] {
      MapArgsFlags(p, args[..|args| - 1], n);
    }
  }

  /**
   * `get_routing_url`: the routing server of the configured node, falling
   * back to the default node's when the configured node or its server is
   * missing, followed by the routing path. A missing default raises.
   */
  function GetRoutingUrl(routingService: string, registry: Registry, defaultService: string,
                         routingPath: string): (r: Result<string, RequestError>)
    ensures r.Failure? <==>
              (routingService !in registry.entries || registry.entries[routingService].routingServer.None?)
              && (defaultService !in registry.entries || registry.entries[defaultService].routingServer.None?)
    ensures r.Failure? ==> r.error == RoutingLookupFailed
    ensures r.Success? ==> exists node :: node in {routingService, defaultService} && node in registry.entries
                                          && registry.entries[node].routingServer.Some?
                                          && r.value == registry.entries[node].routingServer.value + routingPath
    ensures routingService in registry.entries && registry.entries[routingService].routingServer.Some? ==>
              r == Success(registry.entries[routingService].routingServer.value + routingPath)
  {
    if routingService in registry.entries && registry.entries[routingService].routingServer.Some? then
      Success(registry.entries[routingService].routingServer.value + routingPath)
    else if defaultService in registry.entries && registry.entries[defaultService].routingServer.Some? then
      Success(registry.entries[defaultService].routingServer.value + routingPath)
    else
      Failure(RoutingLookupFailed)
  }

  /** The configuration `__init__` reads to find the routing URL. */
  datatype RoutingConfig = RoutingConfig(service: string, registry: Registry, defaultService: string,
                                         routingPath: string)

  /** What constructing a translator produces: the slots, or the error raised. */
  function Translated(args: seq<(string, Option<string>)>, outfile: string, routing: RoutingConfig)
    : Result<Params, RequestError>
  {
    match GetRoutingUrl(routing.service, routing.registry, routing.defaultService, routing.routingPath)
    case Failure(e) => Failure(e)
    case Success(url) => MapArgs(Initial(outfile, url), args)
  }

  /** Construction fails exactly when the routing lookup fails or a parameter is unknown. */
  lemma TranslatedFailsIff(args: seq<(string, Option<string>)>, outfile: string, routing: RoutingConfig)
    ensures Translated(args, outfile, routing).Failure? <==>
              GetRoutingUrl(routing.service, routing.registry, routing.defaultService, routing.routingPath).Failure?
              || Unknown(args)
    ensures Translated(args, outfile, routing).Failure? ==>
              Translated(args, outfile, routing).error ==
                if GetRoutingUrl(routing.service, routing.registry, routing.defaultService, routing.routingPath).Failure?
                then RoutingLookupFailed else BadRequestError
  {
    var url := GetRoutingUrl(routing.service, routing.registry, routing.defaultService, routing.routingPath);
    if url.Success? {
      MapArgsFailsIff(Initial(outfile, url.value), args);
    }
  }

  /**
   * The slots after a successful construction: `-q` lists the parameters'
   * `name=value` entries in order, `-o` and `-u` hold the output file and
   * the routing URL, each flag slot exists exactly when some parameter
   * mapped to it and then holds the last such value, and there is no other
   * slot.
   */
  lemma TranslatedSlots(args: seq<(string, Option<string>)>, outfile: string, routing: RoutingConfig)
    requires Translated(args, outfile, routing).Success?
    ensures var r := Translated(args, outfile, routing).value;
            && Shaped(r) && OutfileParam in r && RoutingParam in r
            && r[QueryParam] == Multi(QueryEntries(args))
            && r[OutfileParam] == Single(outfile)
            && r[RoutingParam] == Single(GetRoutingUrl(routing.service, routing.registry,
                                                      routing.defaultService, routing.routingPath).value)
    ensures forall n :: n != QueryParam ==>
              var r := Translated(args, outfile, routing).value;
              && (n in r <==> n == OutfileParam || n == RoutingParam || (n in Flags && LastValue(args, n).Some?))
              && (n in r && n in Flags ==> r[n] == Single(LastValue(args, n).value))
  {
    var url := GetRoutingUrl(routing.service, routing.registry, routing.defaultService, routing.routingPath);
    var init := Initial(outfile, url.value);
    assert Translated(args, outfile, routing) == MapArgs(init, args);
    MapArgsQuery(init, args);
    assert [] + QueryEntries(args) == QueryEntries(args);
    forall n | n != QueryParam
      ensures var r := MapArgs(init, args).value;
              && (n in r <==> n in init || (n in Flags && LastValue(args, n).Some?))
              && (n in r ==> r[n] == if n in Flags && LastValue(args, n).Some? then Single(LastValue(args, n).value) else init[n])
    {
      MapArgsFlags(init, args, n);
    }
  }

  /** Pairs `[name, v]` for each of `values`, in order: the inner loop of `getlist`. */
  function Interleave(name: string, values: seq<string>): (r: seq<string>)
    ensures |r| == 2 * |values|
  {
    if values == [] then [] else Interleave(name, values[..|values| - 1]) + [name, values[|values| - 1]]
  }

  /** The flag/value pairs `getlist` emits for one slot. */
  function Emit(name: string, s: Slot): (r: seq<string>)
    ensures |r| == 2 * |SlotValues(s)|
  {
    match s
    case Single(v) => [name, v]
    case Multi(vs) => Interleave(name, vs)
  }

  /** The number of values the slots in `order` hold. */
  function ValueCount(p: Params, order: seq<string>): nat
    requires forall i :: 0 <= i < |order| ==> order[i] in p
  {
    if order == [] then 0 else ValueCount(p, order[..|order| - 1]) + |SlotValues(p[order[|order| - 1]])|
  }

  /** What `getlist` emits when it visits the slots in the given order. */
  function Flatten(p: Params, order: seq<string>): (r: seq<string>)
    requires forall i :: 0 <= i < |order| ==> order[i] in p
    ensures |r| == 2 * ValueCount(p, order)
  {
    if order == [] then [] else Flatten(p, order[..|order| - 1]) + Emit(order[|order| - 1], p[order[|order| - 1]])
  }

  /** The values paired with flag `n` in a flag/value list, in order. */
  function ValuesFor(out: seq<string>, n: string): seq<string>
  {
    if |out| < 2 then []
    else ValuesFor(out[..|out| - 2], n) + (if out[|out| - 2] == n then [out[|out| - 1]] else [])
  }

  /** The values slot `n` holds; none when there is no such slot. */
  function ValuesAt(p: Params, n: string): seq<string>
  {
    if n in p then SlotValues(p[n]) else []
  }

  /**
   * `out` is a flag/value list of the slots in `p`, in some slot order:
   * each slot's values follow its flag, in order, and no other flag occurs.
   */
  ghost predicate IsArgList(out: seq<string>, p: Params)
  {
    && |out| % 2 == 0
    && (forall n :: ValuesFor(out, n) == ValuesAt(p, n))
  }

  /** Pairs appended after a list contribute their own values after the list's. */
  lemma {:induction false} ValuesForAppend(a: seq<string>, b: seq<string>, pairs: nat, n: string)
    requires |b| == 2 * pairs
    ensures ValuesFor(a + b, n) == ValuesFor(a, n) + ValuesFor(b, n)
  {
    if b == [] {
      assert a + b == a;
    } else {
      ValuesForAppend(a, b[..|b| - 2], pairs - 1, n);
      assert (a + b)[..|a + b| - 2] == a + b[..|b| - 2];
    }
  }

  lemma {:induction false} ValuesForInterleave(name: string, values: seq<string>, n: string)
    ensures ValuesFor(Interleave(name, values), n) == if n == name then values else []
  {
    if values != [] {
      var init := values[..|values| - 1];
      ValuesForInterleave(name, init, n);
      var out := Interleave(name, values);
      assert out[..|out| - 2] == Interleave(name, init);
      assert init + [values[|values| - 1]] == values;
    }
  }

  lemma ValuesForEmit(name: string, s: Slot, n: string)
    ensures ValuesFor(Emit(name, s), n) == if n == name then SlotValues(s) else []
  {
    match s
    case Single(v) =>
      assert Emit(name, s)[..0] == [];
    case Multi(vs) =>
      ValuesForInterleave(name, vs, n);
  }

  /** Flattening a duplicate-free listing pairs each listed slot's flag with exactly its values, in order. */
  lemma {:induction false} FlattenValues(p: Params, order: seq<string>, n: string)
    requires forall i :: 0 <= i < |order| ==> order[i] in p
    requires Distinct(order)
    ensures ValuesFor(Flatten(p, order), n) == if n in order then SlotValues(p[n]) else []
  {
    if order != [] {
      var init := order[..|order| - 1];
      var last := order[|order| - 1];
      var a := Flatten(p, init);
      var b := Emit(last, p[last]);
      FlattenValues(p, init, n);
      assert ValuesFor(a + b, n) == ValuesFor(a, n) + ValuesFor(b, n) by {
        ValuesForAppend(a, b, |SlotValues(p[last])|, n);
      }
      assert ValuesFor(b, n) == if n == last then SlotValues(p[last]) else [] by {
        ValuesForEmit(last, p[last], n);
      }
      InSnoc(order, n);
    }
  }

  /**
   * Flattening a listing of all the slots, once each, gives a flag/value
   * list of the table; on a shaped table it holds two entries per single
   * slot and two per `-q` element.
   */
  lemma FlattenArgList(p: Params, order: seq<string>)
    requires forall i :: 0 <= i < |order| ==> order[i] in p
    requires forall n :: n in p ==> n in order
    requires Distinct(order)
    ensures IsArgList(Flatten(p, order), p)
    ensures Shaped(p) ==> |Flatten(p, order)| == 2 * (|p| - 1 + |p[QueryParam].values|)
  {
    FlattenIsArgList(p, order);
    if Shaped(p) {
      FlattenShapedLength(p, order);
    }
  }

  lemma FlattenIsArgList(p: Params, order: seq<string>)
    requires forall i :: 0 <= i < |order| ==> order[i] in p
    requires forall n :: n in p ==> n in order
    requires Distinct(order)
    ensures IsArgList(Flatten(p, order), p)
  {
    var out := Flatten(p, order);
    assert |out| % 2 == 0 by {
      assert |out| == 2 * ValueCount(p, order);
    }
    assert forall n :: ValuesFor(out, n) == ValuesAt(p, n) by {
      forall n ensures ValuesFor(out, n) == ValuesAt(p, n) {
        FlattenValues(p, order, n);
      }
    }
  }

  lemma FlattenShapedLength(p: Params, order: seq<string>)
    requires forall i :: 0 <= i < |order| ==> order[i] in p
    requires forall n :: n in p ==> n in order
    requires Distinct(order)
    requires Shaped(p)
    ensures |Flatten(p, order)| == 2 * (|p| - 1 + |p[QueryParam].values|)
  {
    assert QueryParam in order;
    ShapedValueCount(p, order);
    ListingSize(order, p.Keys);
  }

  /** In a shaped table every slot but `-q` holds one value. */
  lemma {:induction false} ShapedValueCount(p: Params, order: seq<string>)
    requires forall i :: 0 <= i < |order| ==> order[i] in p
    requires Distinct(order)
    requires Shaped(p)
    ensures ValueCount(p, order) + (if QueryParam in order then 1 else 0)
            == |order| + (if QueryParam in order then |p[QueryParam].values| else 0)
  {
    if order != [] {
      var init := order[..|order| - 1];
      ShapedValueCount(p, init);
      assert QueryParam in order <==> QueryParam in init || order[|order| - 1] == QueryParam;
      if order[|order| - 1] == QueryParam {
        assert QueryParam !in init;
      }
    }
  }

  lemma InSnoc<T>(s: seq<T>, x: T)
    requires |s| > 0
    ensures x in s <==> x in s[..|s| - 1] || x == s[|s| - 1]
  {
    assert s == s[..|s| - 1] + [s[|s| - 1]];
  }

  /** No element occurs twice. */
  predicate Distinct(order: seq<string>)
  {
    order == [] || (Distinct(order[..|order| - 1]) && order[|order| - 1] !in order[..|order| - 1])
  }

  /** A duplicate-free listing of a set is as long as the set is large. */
  lemma {:induction false} ListingSize(order: seq<string>, keys: set<string>)
    requires Distinct(order)
    requires forall i :: 0 <= i < |order| ==> order[i] in keys
    requires forall n :: n in keys ==> n in order
    ensures |keys| == |order|
  {
    if order != [] {
      var init := order[..|order| - 1];
      var last := order[|order| - 1];
      assert order == init + [last];
      ListingSize(init, keys - {last});
    }
  }

  /** The inner loop of `getlist`: one `[name, v]` pair per element of a list slot, in list order. */
  method ExtendPairs(out: seq<string>, name: string, values: seq<string>) returns (r: seq<string>)
    ensures r == out + Interleave(name, values)
  {
    r := out;
    var j := 0;
    while j < |values|
      invariant 0 <= j <= |values|
      invariant r == out + Interleave(name, values[..j])
    {
      assert values[..j + 1][..j] == values[..j];
      r := r + [name, values[j]];
      j := j + 1;
    }
    assert values[..j] == values;
  }

  /** A table of output slots: the state of `GeneralRequestTranslator`. */
  class RequestTranslator {
    var outParams: Params

    ghost predicate Valid()
      reads this
    {
      Shaped(outParams)
    }

    /**
     * The first half of `__init__`: an empty `-q` list, the output file
     * and the routing URL.
     */
    constructor (outfile: string, routingUrl: string)
      ensures Valid()
      ensures outParams == Initial(outfile, routingUrl)
    {
      outParams := map[QueryParam := Multi([]), OutfileParam := Single(outfile), RoutingParam := Single(routingUrl)];
    }

    /** `add`. */
    method Add(param: string, value: string)
      modifies this
      ensures outParams == Added(old(outParams), param, value)
    {
      if param in outParams && outParams[param].Multi? {
        outParams := outParams[param := Multi(outParams[param].values + [value])];
      } else {
        outParams := outParams[param := Single(value)];
      }
    }

    /** `getpar`: the slot, or None when the table has no such slot. */
    function GetPar(param: string): (r: Option<Slot>)
      reads this
      ensures r.Some? <==> param in outParams
      ensures r.Some? ==> SlotValues(r.value) == ValuesAt(outParams, param)
    {
      if param in outParams then Some(outParams[param]) else None
    }

    /**
     * `getlist`: the flag/value pairs of every slot, a list slot giving one
     * pair per element in list order. The slot order is that of the
     * table's iteration, which is left open.
     */
    method GetList() returns (out: seq<string>)
      ensures IsArgList(out, outParams)
      ensures Shaped(outParams) ==> |out| == 2 * (|outParams| - 1 + |outParams[QueryParam].values|)
    {
      out := [];
      var pending := outParams.Keys;
      ghost var order: seq<string> := [];
      while pending != {}
        invariant pending <= outParams.Keys
        invariant forall i :: 0 <= i < |order| ==> order[i] in outParams && order[i] !in pending
        invariant forall n :: n in outParams && n !in pending ==> n in order
        invariant Distinct(order)
        invariant out == Flatten(outParams, order)
        decreases pending
      {
        var name :| name in pending;
        match outParams[name] {
          case Single(value) =>
            out := out + [name, value];
          case Multi(values) =>
            out := ExtendPairs(out, name, values);
        }
        assert (order + [name])[..|order|] == order;
        order := order + [name];
        pending := pending - {name};
      }
      FlattenArgList(outParams, order);
    }

    /** `serialize`: the argument list joined with single spaces. */
    method Serialize() returns (line: string)
      ensures exists out :: IsArgList(out, outParams) && line == Join(out, ' ')
    {
      var out := GetList();
      line := Join(out, ' ');
    }
  }

  /** `__init__` of `GeneralRequestTranslator`: a translator, or the error it raises. */
  method NewRequestTranslator(args: seq<(string, Option<string>)>, outfile: string, routing: RoutingConfig)
    returns (r: Result<RequestTranslator, RequestError>)
    ensures r.Failure? <==> Translated(args, outfile, routing).Failure?
    ensures r.Failure? ==> r.error == Translated(args, outfile, routing).error
    ensures r.Success? ==>
              fresh(r.value) && r.value.Valid() && r.value.outParams == Translated(args, outfile, routing).value
  {
    var url := GetRoutingUrl(routing.service, routing.registry, routing.defaultService, routing.routingPath);
    if url.Failure? {
      return Failure(url.error);
    }
    var t := new RequestTranslator(outfile, url.value);
    var i := 0;
    while i < |args|
      invariant 0 <= i <= |args|
      invariant MapArgs(Initial(outfile, url.value), args[..i]) == Success(t.outParams)
      invariant t.Valid()
    {
      assert args[..i + 1][..i] == args[..i];
      var (name, value) := args[i];
      if value.Some? {
        if name in QueryToFetch {
          if QueryToFetch[name] != "" {
            t.Add(QueryToFetch[name], value.value);
          } else {
            t.Add(QueryParam, name + "=" + value.value);
          }
        } else {
          assert MapArgs(Initial(outfile, url.value), args[..i + 1]).Failure?;
          MapArgsPrefixFails(Initial(outfile, url.value), args, i + 1);
          assert args[..|args|] == args;
          return Failure(BadRequestError);
        }
      }
      i := i + 1;
    }
    assert args[..i] == args;
    return Success(t);
  }

  /** Once mapping a prefix fails, mapping the whole sequence fails with the same error. */
  lemma {:induction false} MapArgsPrefixFails(p: Params, args: seq<(string, Option<string>)>, k: nat)
    requires k <= |args| && MapArgs(p, args[..k]).Failure?
    ensures MapArgs(p, args).Failure? && MapArgs(p, args).error == MapArgs(p, args[..k]).error
    decreases |args| - k
  {
    if k < |args| {
      assert args[..k + 1][..k] == args[..k];
      MapArgsPrefixFails(p, args, k + 1);
    } else {
      assert args[..k] == args;
    }
  }

  /** How `_process_post_args` treats one line of a POST body, by its pieces around `=`. */
  datatype LineKind =
    | Blank
      /** Two pieces: a `-q` entry from the stripped key and value. */
    | Override(key: string, value: string)
      /** One piece: a line of the bulk request, kept verbatim. */
    | Bulk
      /** Three or more pieces: dropped. */
    | Illegal

  function Classify(line: string): (k: LineKind)
    ensures k.Blank? <==> line == ""
    ensures k.Override? <==> line != "" && CountChar(line, QueryValueSeparator) == 1
    ensures k.Bulk? <==> line != "" && CountChar(line, QueryValueSeparator) == 0
    ensures k.Illegal? <==> CountChar(line, QueryValueSeparator) >= 2
    ensures k.Override? ==> QueryValueSeparator !in k.key && QueryValueSeparator !in k.value
  {
    if line == "" then Blank
    else
      var pieces := Split(line, QueryValueSeparator);
      if |pieces| == 2 then Override(Strip(pieces[0]), Strip(pieces[1]))
      else if |pieces| == 1 then Bulk
      else Illegal
  }

  /** A `key=value` line whose key and value hold no `=` is an override of the stripped key and value. */
  lemma OverrideLine(key: string, value: string)
    requires QueryValueSeparator !in key && QueryValueSeparator !in value
    ensures Classify(key + [QueryValueSeparator] + value) == Override(Strip(key), Strip(value))
  {
    var line := key + [QueryValueSeparator] + value;
    assert Join([key, value], QueryValueSeparator) == line;
    SplitJoin([key, value], QueryValueSeparator);
    assert line[|key|] == QueryValueSeparator;
  }

  /** The `-q` entries the override lines add, in line order; each holds exactly one `=`. */
  function Overrides(lines: seq<string>): (r: seq<string>)
    ensures forall i :: 0 <= i < |r| ==> CountChar(r[i], QueryValueSeparator) == 1
  {
    if lines == [] then []
    else
      var k := Classify(lines[|lines| - 1]);
      Overrides(lines[..|lines| - 1])
      + if k.Override? then [OverrideEntry(k.key, k.value)] else []
  }

  function OverrideEntry(key: string, value: string): (r: string)
    requires QueryValueSeparator !in key && QueryValueSeparator !in value
    ensures CountChar(r, QueryValueSeparator) == 1
  {
    CountCharAbsent(key, QueryValueSeparator);
    CountCharAbsent(value, QueryValueSeparator);
    CountCharAppend(key, [QueryValueSeparator], QueryValueSeparator);
    CountCharAppend(key + [QueryValueSeparator], value, QueryValueSeparator);
    key + [QueryValueSeparator] + value
  }

  /** The text `_process_post_args` writes to the POST file: each bulk line followed by a newline. */
  function CleanedBody(lines: seq<string>): string
  {
    if lines == [] then ""
    else
      var line := lines[|lines| - 1];
      CleanedBody(lines[..|lines| - 1]) + if Classify(line).Bulk? then line + "\n" else ""
  }

  /** The cleaned body is empty exactly when no line is a bulk line, overrides or not. */
  lemma {:induction false} CleanedEmptyIff(lines: seq<string>)
    ensures CleanedBody(lines) == "" <==> forall i :: 0 <= i < |lines| ==> !Classify(lines[i]).Bulk?
  {
    if lines != [] {
      var init := lines[..|lines| - 1];
      CleanedEmptyIff(init);
      assert forall i :: 0 <= i < |init| ==> init[i] == lines[i];
    }
  }

  /** Bulk lines are copied whole and in order: all-bulk lines come out newline-joined, with a final newline. */
  lemma {:induction false} CleanedAllBulk(lines: seq<string>)
    requires |lines| >= 1
    requires forall i :: 0 <= i < |lines| ==> Classify(lines[i]).Bulk?
    ensures CleanedBody(lines) == Join(lines, '\n') + "\n"
  {
    var init := lines[..|lines| - 1];
    var last := lines[|lines| - 1];
    JoinSnoc(init, last, '\n');
    assert init + [last] == lines;
    if init != [] {
      CleanedAllBulk(init);
    }
  }

  /**
   * A body of non-empty lines without `=` is written to the POST file as it
   * came, plus a final newline.
   */
  lemma PlainBodyKept(body: string)
    requires forall i :: 0 <= i < |Split(body, '\n')| ==>
               Split(body, '\n')[i] != "" && QueryValueSeparator !in Split(body, '\n')[i]
    ensures CleanedBody(Split(body, '\n')) == body + "\n"
  {
    var lines := Split(body, '\n');
    forall i | 0 <= i < |lines| ensures Classify(lines[i]).Bulk? {
      CountCharAbsent(lines[i], QueryValueSeparator);
    }
    CleanedAllBulk(lines);
    JoinSplit(body, '\n');
  }

  /**
   * On a shaped table, POST splitting sets `-p` to the POST file, appends the
   * override entries to `-q` in line order, and changes nothing else.
   */
  lemma PostSlots(p: Params, postfile: string, lines: seq<string>)
    requires Shaped(p)
    ensures var r := AddAll(Added(p, PostfileParam, postfile), QueryParam, Overrides(lines));
            && r == p[PostfileParam := Single(postfile)][QueryParam := Multi(p[QueryParam].values + Overrides(lines))]
            && Shaped(r)
            && (OutfileParam in p ==> OutfileParam in r && r[OutfileParam] == p[OutfileParam])
  {
    var q := Added(p, PostfileParam, postfile);
    assert q == p[PostfileParam := Single(postfile)];
    AddAllQuery(q, Overrides(lines));
  }

  /**
   * `_process_post_args`: set `-p` to the POST file, turn `key=value` lines
   * into `-q` entries, keep the other one-piece lines as the body to write,
   * and raise BadRequest when that body is empty. The result is the POST
   * file and the text written to it.
   */
  method ProcessPostArgs(t: RequestTranslator, body: string, postfile: string)
    returns (r: Result<(string, string), RequestError>)
    modifies t
    ensures t.outParams == AddAll(Added(old(t.outParams), PostfileParam, postfile), QueryParam,
                                  Overrides(Split(body, '\n')))
    ensures r.Failure? <==> CleanedBody(Split(body, '\n')) == ""
    ensures r.Failure? ==> r.error == BadRequestError
    ensures r.Success? ==> r.value == (postfile, CleanedBody(Split(body, '\n')))
  {
    t.Add(PostfileParam, postfile);
    ghost var base := t.outParams;
    var cleaned := "";
    var lines := Split(body, '\n');
    var i := 0;
    while i < |lines|
      invariant 0 <= i <= |lines|
      invariant cleaned == CleanedBody(lines[..i])
      invariant t.outParams == AddAll(base, QueryParam, Overrides(lines[..i]))
    {
      cleaned := ProcessPostLine(t, lines[i], cleaned);
      PostLinesStep(base, lines, i);
      i := i + 1;
    }
    assert lines[..i] == lines;
    if |cleaned| == 0 {
      return Failure(BadRequestError);
    }
    return Success((postfile, cleaned));
  }

  /** The body of the line loop of `_process_post_args`, for one line. */
  method ProcessPostLine(t: RequestTranslator, line: string, cleaned: string) returns (cleaned': string)
    modifies t
    ensures var k := Classify(line);
            t.outParams == if k.Override? then Added(old(t.outParams), QueryParam, OverrideEntry(k.key, k.value))
                           else old(t.outParams)
    ensures cleaned' == cleaned + if Classify(line).Bulk? then line + "\n" else ""
  {
    cleaned' := cleaned;
    if line != "" {
      var checkParam := Split(line, QueryValueSeparator);
      if |checkParam| == 2 {
        t.Add(QueryParam, Strip(checkParam[0]) + [QueryValueSeparator] + Strip(checkParam[1]));
      } else if |checkParam| == 1 {
        cleaned' := cleaned + line + "\n";
      }
    }
  }

  /** One more line: the override entries and the cleaned body grow by that line's share. */
  lemma PostLinesStep(base: Params, lines: seq<string>, i: nat)
    requires i < |lines|
    ensures var k := Classify(lines[i]);
            && AddAll(base, QueryParam, Overrides(lines[..i + 1]))
               == (if k.Override? then Added(AddAll(base, QueryParam, Overrides(lines[..i])), QueryParam, OverrideEntry(k.key, k.value))
                   else AddAll(base, QueryParam, Overrides(lines[..i])))
            && CleanedBody(lines[..i + 1]) == CleanedBody(lines[..i]) + if k.Bulk? then lines[i] + "\n" else ""
  {
    assert lines[..i + 1][..i] == lines[..i] && lines[..i + 1][i] == lines[i];
    var k := Classify(lines[i]);
    if k.Override? {
      var entry := OverrideEntry(k.key, k.value);
      assert Overrides(lines[..i + 1]) == Overrides(lines[..i]) + [entry];
      AddAllSnoc(base, QueryParam, Overrides(lines[..i]), entry);
    } else {
      assert Overrides(lines[..i + 1]) == Overrides(lines[..i]) + [];
      assert Overrides(lines[..i + 1]) == Overrides(lines[..i]);
    }
  }

  lemma AddAllSnoc(p: Params, param: string, values: seq<string>, value: string)
    ensures AddAll(p, param, values + [value]) == Added(AddAll(p, param, values), param, value)
  {
    assert (values + [value])[..|values|] == values;
  }

  /** What the fdsnws_fetch run and the file system report; the model takes them as inputs. */
  datatype FetchRun = FetchRun(raises: bool, outputExists: bool, outputSize: nat)

  /**
   * What the client gets once a request with output file `outfile` has been
   * translated: NoData when the run raised or left no file or an empty one,
   * otherwise the file.
   */
  function Fetched(outfile: string, run: FetchRun): Result<string, RequestError>
  {
    if run.raises || !run.outputExists || run.outputSize == 0 then Failure(NoDataError) else Success(outfile)
  }

  /**
   * `process_request`: no output file slot gives None; otherwise the tool
   * runs on the argument list, and the output file is returned when the run
   * did not raise and the file exists.
   */
  method ProcessRequest(t: RequestTranslator, run: FetchRun) returns (path: Option<string>)
    requires t.Valid()
    ensures path.Some? <==> OutfileParam in t.outParams && !run.raises && run.outputExists
    ensures path.Some? ==> t.outParams[OutfileParam] == Single(path.value)
  {
    var tempfile := t.GetPar(OutfileParam);
    if tempfile.None? {
      return None;
    }
    var args := t.GetList();
    if run.raises {
      return None;
    }
    if run.outputExists {
      return Some(tempfile.value.value);
    }
    return None;
  }

  /**
   * `_process_request`: NoData when there is no result file or it is
   * empty; otherwise the file is sent.
   */
  method ProcessAndSend(t: RequestTranslator, run: FetchRun) returns (r: Result<string, RequestError>)
    requires t.Valid()
    ensures r.Failure? <==>
              OutfileParam !in t.outParams || run.raises || !run.outputExists || run.outputSize == 0
    ensures r.Failure? ==> r.error == NoDataError
    ensures r.Success? ==> t.outParams[OutfileParam] == Single(r.value)
    ensures OutfileParam in t.outParams ==> r == Fetched(t.outParams[OutfileParam].value, run)
  {
    var path := ProcessRequest(t, run);
    if path.None? || run.outputSize == 0 {
      return Failure(NoDataError);
    }
    return Success(path.value);
  }
}
