/**
 * The federator's dataselect route: the general translator plus the
 * `-y dataselect` service flag and, for GET requests, a sanity check that
 * the request names a station, channel or location.
 */
module Dataselect {
  import opened Wrappers
  import opened Strings
  import opened GeneralRequest

  /** The names the general query parser declares. */
  const GeneralArgNames: seq<string> :=
    ["starttime", "endtime", "network", "station", "location", "channel", "format", "nodata"]

  /** The names the dataselect parser adds to them. */
  const DataselectExtraNames: seq<string> := ["quality", "minimumlength", "longestonly"]

  /** The names the dataselect parser declares; every other query parameter is ignored by the parser. */
  const DataselectArgNames: seq<string> := GeneralArgNames + DataselectExtraNames

  const DataselectService := "dataselect"

  datatype HttpMethod = Get | Post

  /**
   * The GET sanity check as written: station, channel and location all
   * unset, and location unset or a wildcard. The last clause adds nothing,
   * so the check rejects exactly when the three slots are all missing.
   */
  predicate GetCheckRejects(p: Params)
    ensures GetCheckRejects(p) <==> "-S" !in p && "-C" !in p && "-L" !in p
  {
    && "-S" !in p && "-C" !in p && "-L" !in p
    && ("-L" !in p || ("-L", Single("*")) in p.Items || ("-L", Single("??")) in p.Items)
  }

  /** What constructing a dataselect translator produces: the slots, or the error raised. */
  function DataselectTranslated(args: seq<(string, Option<string>)>, outfile: string, routing: RoutingConfig,
                                httpMethod: HttpMethod): Result<Params, RequestError>
  {
    match Translated(args, outfile, routing)
    case Failure(e) => Failure(e)
    case Success(p) =>
      var q := Added(p, ServiceParam, DataselectService);
      if httpMethod == Get && GetCheckRejects(q) then Failure(BadRequestError) else Success(q)
  }

  /** `DataselectRequestTranslator.__init__`. */
  method NewDataselectTranslator(args: seq<(string, Option<string>)>, outfile: string, routing: RoutingConfig,
                                 httpMethod: HttpMethod)
    returns (r: Result<RequestTranslator, RequestError>)
    ensures r.Failure? <==> DataselectTranslated(args, outfile, routing, httpMethod).Failure?
    ensures r.Failure? ==> r.error == DataselectTranslated(args, outfile, routing, httpMethod).error
    ensures r.Success? ==>
              fresh(r.value) && r.value.Valid()
              && r.value.outParams == DataselectTranslated(args, outfile, routing, httpMethod).value
  {
    var base := NewRequestTranslator(args, outfile, routing);
    if base.Failure? {
      return Failure(base.error);
    }
    var t := base.value;
    t.Add(ServiceParam, DataselectService);
    var station, channel, location := t.GetPar("-S"), t.GetPar("-C"), t.GetPar("-L");
    if httpMethod == Get && station.None? && channel.None? && location.None?
       && (location.None? || location in {Some(Single("*")), Some(Single("??"))})
    {
      return Failure(BadRequestError);
    }
    return Success(t);
  }

  /** A parameter that maps to the flag has a value. */
  predicate Sets(args: seq<(string, Option<string>)>, flag: string)
  {
    exists i :: 0 <= i < |args| && args[i].1.Some? && args[i].0 in QueryToFetch && QueryToFetch[args[i].0] == flag
  }

  lemma {:induction false} LastValueSome(args: seq<(string, Option<string>)>, flag: string)
    ensures LastValue(args, flag).Some? <==> Sets(args, flag)
  {
    if args != [] {
      var init := args[..|args| - 1];
      LastValueSome(init, flag);
      assert Sets(init, flag) ==> Sets(args, flag) by {
        if Sets(init, flag) {
          var i :| 0 <= i < |init| && init[i].1.Some? && init[i].0 in QueryToFetch && QueryToFetch[init[i].0] == flag;
          assert args[i] == init[i];
        }
      }
      assert Sets(args, flag) ==> Sets(init, flag) || LastValue(args, flag).Some? by {
        if Sets(args, flag) {
          var i :| 0 <= i < |args| && args[i].1.Some? && args[i].0 in QueryToFetch && QueryToFetch[args[i].0] == flag;
          if i < |init| {
            assert init[i] == args[i];
          }
        }
      }
    }
  }

  /** Only `station`, `channel` and `location` map to `-S`, `-C` and `-L`. */
  lemma FlagSources(name: string)
    requires name in QueryToFetch
    ensures QueryToFetch[name] == "-S" <==> name == "station"
    ensures QueryToFetch[name] == "-C" <==> name == "channel"
    ensures QueryToFetch[name] == "-L" <==> name == "location"
  {
  }

  /** A parameter of the given name has a value. */
  predicate Given(args: seq<(string, Option<string>)>, name: string)
  {
    exists i :: 0 <= i < |args| && args[i].0 == name && args[i].1.Some?
  }

  lemma SetsIffGiven(args: seq<(string, Option<string>)>, flag: string, name: string)
    requires (flag, name) in {("-S", "station"), ("-C", "channel"), ("-L", "location")}
    ensures Sets(args, flag) <==> Given(args, name)
  {
    if Sets(args, flag) {
      var i :| 0 <= i < |args| && args[i].1.Some? && args[i].0 in QueryToFetch && QueryToFetch[args[i].0] == flag;
      FlagSources(args[i].0);
    }
    if Given(args, name) {
      var i :| 0 <= i < |args| && args[i].0 == name && args[i].1.Some?;
      FlagSources(args[i].0);
    }
  }

  /** After a successful translation, the slot of `-S`, `-C` or `-L` exists exactly when its parameter was given. */
  lemma FlagSlotIffGiven(args: seq<(string, Option<string>)>, outfile: string, routing: RoutingConfig,
                         flag: string, name: string)
    requires Translated(args, outfile, routing).Success?
    requires (flag, name) in {("-S", "station"), ("-C", "channel"), ("-L", "location")}
    ensures flag in Added(Translated(args, outfile, routing).value, ServiceParam, DataselectService)
            <==> Given(args, name)
  {
    TranslatedSlots(args, outfile, routing);
    assert flag != QueryParam && flag != ServiceParam && flag in Flags;
    LastValueSome(args, flag);
    SetsIffGiven(args, flag, name);
  }

  /**
   * After the general translation succeeds, a GET is rejected exactly when
   * none of station, channel and location has a value, whatever the network
   * and whether or not a given value is a wildcard; a POST is never checked.
   */
  lemma GetCheckIff(args: seq<(string, Option<string>)>, outfile: string, routing: RoutingConfig)
    requires Translated(args, outfile, routing).Success?
    ensures DataselectTranslated(args, outfile, routing, Get).Failure? <==>
              !Given(args, "station") && !Given(args, "channel") && !Given(args, "location")
    ensures DataselectTranslated(args, outfile, routing, Get).Failure? ==>
              DataselectTranslated(args, outfile, routing, Get).error == BadRequestError
    ensures DataselectTranslated(args, outfile, routing, Post).Success?
  {
    FlagSlotIffGiven(args, outfile, routing, "-S", "station");
    FlagSlotIffGiven(args, outfile, routing, "-C", "channel");
    FlagSlotIffGiven(args, outfile, routing, "-L", "location");
  }

  /**
   * A successful dataselect construction holds `-y dataselect` beside the
   * general translation's slots, which it leaves as they were.
   */
  lemma DataselectSlots(args: seq<(string, Option<string>)>, outfile: string, routing: RoutingConfig,
                        httpMethod: HttpMethod)
    requires DataselectTranslated(args, outfile, routing, httpMethod).Success?
    ensures var r := DataselectTranslated(args, outfile, routing, httpMethod).value;
            var p := Translated(args, outfile, routing).value;
            && Shaped(r)
            && ServiceParam in r && r[ServiceParam] == Single(DataselectService)
            && r.Keys == p.Keys + {ServiceParam}
            && (forall n :: n in p && n != ServiceParam ==> r[n] == p[n])
            && OutfileParam in r && r[OutfileParam] == Single(outfile)
  {
    TranslatedSlots(args, outfile, routing);
  }

  /** Every name the dataselect parser declares is in the table, so parsed parameters never raise. */
  lemma ParsedNamesKnown(args: seq<(string, Option<string>)>)
    requires forall i :: 0 <= i < |args| ==> args[i].0 in DataselectArgNames
    ensures !Unknown(args)
  {
  }

  /** `quality`, `minimumlength` and `longestonly` have no flag of their own: they become `-q` entries. */
  lemma {:induction false} ExtrasGoToQuery(args: seq<(string, Option<string>)>, i: nat)
    requires i < |args| && args[i].0 in DataselectExtraNames && args[i].1.Some?
    ensures args[i].0 + "=" + args[i].1.value in QueryEntries(args)
  {
    var init := args[..|args| - 1];
    if i < |args| - 1 {
      assert init[i] == args[i];
      ExtrasGoToQuery(init, i);
    }
  }

  /** `DataselectResource.get`: translate with the GET check, then run the request. */
  method HandleGet(args: seq<(string, Option<string>)>, outfile: string, routing: RoutingConfig, run: FetchRun)
    returns (r: Result<string, RequestError>)
    ensures r == match DataselectTranslated(args, outfile, routing, Get)
                 case Failure(e) => Failure(e)
                 case Success(_) => Fetched(outfile, run)
  {
    var t := NewDataselectTranslator(args, outfile, routing, Get);
    if t.Failure? {
      return Failure(t.error);
    }
    DataselectSlots(args, outfile, routing, Get);
    r := ProcessAndSend(t.value, run);
  }

  /**
   * `DataselectResource.post`: translate without the GET check, split the
   * POST body (an empty bulk part raises BadRequest), then run the request.
   */
  method HandlePost(args: seq<(string, Option<string>)>, body: string, outfile: string, postfile: string,
                    routing: RoutingConfig, run: FetchRun)
    returns (r: Result<string, RequestError>)
    ensures r == match Translated(args, outfile, routing)
                 case Failure(e) => Failure(e)
                 case Success(_) =>
                   if CleanedBody(Split(body, '\n')) == "" then Failure(BadRequestError) else Fetched(outfile, run)
  {
    var t := NewDataselectTranslator(args, outfile, routing, Post);
    if t.Failure? {
      return Failure(t.error);
    }
    var translator := t.value;
    DataselectSlots(args, outfile, routing, Post);
    ghost var before := translator.outParams;
    var post := ProcessPostArgs(translator, body, postfile);
    if post.Failure? {
      return Failure(post.error);
    }
    PostSlots(before, postfile, Split(body, '\n'));
    r := ProcessAndSend(translator, run);
  }
}
