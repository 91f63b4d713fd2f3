/**
 * General helpers of the EIDA services: the shape check that
 * `from_fdsnws_datetime` applies to a date-time string, and the flattening
 * of a list of stream-epoch dicts into FDSN query parameters.
 */
module Utils {
  import opened Wrappers
  import opened Strings

  // ---------------------------------------------------------------------------
  // Date-time shape (the `_iso8601_re` pattern, anchored at the start by
  // `re.match` and at the end by `$`)
  // ---------------------------------------------------------------------------

  /** The seconds part `:S(S)` with its optional fraction `.F...` (1 to 12 digits). */
  datatype SecondsText = SecondsText(second: string, fraction: Option<string>)

  /**
   * The pieces of a string of the shape `YYYY-M(M)-D(D)`, `T` or a space,
   * `H(H):M(M)`, optional seconds, and nothing after it but, optionally, one
   * final newline (Python's `$` also matches just before a final newline).
   */
  datatype DateTimeText = DateTimeText(
    year: string, month: string, day: string, separator: char,
    hour: string, minute: string, seconds: Option<SecondsText>, finalNewline: bool)

  predicate DigitsBetween(s: string, lo: nat, hi: nat)
  {
    lo <= |s| <= hi && AllDigits(s)
  }

  /** What the pattern admits in each piece. */
  predicate WellFormed(d: DateTimeText)
  {
    && DigitsBetween(d.year, 4, 4)
    && DigitsBetween(d.month, 1, 2)
    && DigitsBetween(d.day, 1, 2)
    && (d.separator == 'T' || d.separator == ' ')
    && DigitsBetween(d.hour, 1, 2)
    && DigitsBetween(d.minute, 1, 2)
    && (d.seconds.Some? ==>
          && DigitsBetween(d.seconds.value.second, 1, 2)
          && (d.seconds.value.fraction.Some? ==> DigitsBetween(d.seconds.value.fraction.value, 1, 12)))
  }

  function RenderEnd(finalNewline: bool): string
  {
    if finalNewline then "\n" else ""
  }

  function RenderTail(seconds: Option<SecondsText>, finalNewline: bool): string
  {
    match seconds
    case None => RenderEnd(finalNewline)
    case Some(SecondsText(sec, None)) => ":" + (sec + RenderEnd(finalNewline))
    case Some(SecondsText(sec, Some(f))) => ":" + (sec + ("." + (f + RenderEnd(finalNewline))))
  }

  /** The text the pieces stand for. */
  function Render(d: DateTimeText): string
  {
    d.year + ("-" + (d.month + ("-" + (d.day + ([d.separator] + (d.hour + (":" + (d.minute
      + RenderTail(d.seconds, d.finalNewline)))))))))
  }

  /** The longest run of digits at the front of `s`, and what follows it. */
  function TakeDigits(s: string): (r: (string, string))
    ensures r.0 + r.1 == s
    ensures AllDigits(r.0)
    ensures r.1 == [] || !IsDigit(r.1[0])
  {
    if |s| > 0 && IsDigit(s[0]) then
      var rest := TakeDigits(s[1..]);
      ([s[0]] + rest.0, rest.1)
    else ([], s)
  }

  /** A run of digits followed by a non-digit (or nothing) is taken whole. */
  lemma {:induction false} TakeDigitsOf(w: string, t: string)
    requires AllDigits(w)
    requires t == [] || !IsDigit(t[0])
    ensures TakeDigits(w + t) == (w, t)
  {
    if w == [] {
      assert w + t == t;
    } else {
      TakeDigitsOf(w[1..], t);
      assert (w + t)[1..] == w[1..] + t;
      assert [w[0]] + w[1..] == w;
    }
  }

  /** One `\d{lo,hi}` run and the literal character that must follow it. */
  function Field(s: string, lo: nat, hi: nat, ends: set<char>): (r: Option<(string, char, string)>)
    ensures r.Some? ==> DigitsBetween(r.value.0, lo, hi) && r.value.1 in ends
    ensures r.Some? ==> s == r.value.0 + ([r.value.1] + r.value.2)
  {
    var run := TakeDigits(s);
    if lo <= |run.0| <= hi && run.1 != [] && run.1[0] in ends then
      assert run.1 == [run.1[0]] + run.1[1..];
      Some((run.0, run.1[0], run.1[1..]))
    else None
  }

  lemma FieldOf(w: string, c: char, t: string, lo: nat, hi: nat, ends: set<char>)
    requires DigitsBetween(w, lo, hi) && c in ends && !IsDigit(c)
    ensures Field(w + ([c] + t), lo, hi, ends) == Some((w, c, t))
  {
    TakeDigitsOf(w, [c] + t);
    assert ([c] + t)[1..] == t;
  }

  function ParseEnd(r: string): Option<bool>
  {
    if r == "" then Some(false) else if r == "\n" then Some(true) else None
  }

  /** What may follow the minutes: optional seconds with optional fraction, then the end. */
  function ParseTail(r: string): Option<(Option<SecondsText>, bool)>
  {
    if r == "" then Some((None, false))
    else if r == "\n" then Some((None, true))
    else if r[0] != ':' then None
    else
      var sec := TakeDigits(r[1..]);
      if !(1 <= |sec.0| <= 2) then None
      else if sec.1 != [] && sec.1[0] == '.' then
        var frac := TakeDigits(sec.1[1..]);
        if !(1 <= |frac.0| <= 12) then None
        else match ParseEnd(frac.1)
          case None => None
          case Some(nl) => Some((Some(SecondsText(sec.0, Some(frac.0))), nl))
      else match ParseEnd(sec.1)
        case None => None
        case Some(nl) => Some((Some(SecondsText(sec.0, None)), nl))
  }

  /**
   * The pattern as a scanner: each `\d{m,n}` is the maximal digit run at its
   * place, since every literal that follows a run is a non-digit.
   */
  function ParseIso8601(s: string): Option<DateTimeText>
  {
    match Field(s, 4, 4, {'-'})
    case None => None
    case Some(y) =>
      match Field(y.2, 1, 2, {'-'})
      case None => None
      case Some(mo) =>
        match Field(mo.2, 1, 2, {'T', ' '})
        case None => None
        case Some(dd) =>
          match Field(dd.2, 1, 2, {':'})
          case None => None
          case Some(hh) =>
            var mi := TakeDigits(hh.2);
            if !(1 <= |mi.0| <= 2) then None
            else match ParseTail(mi.1)
              case None => None
              case Some(tail) => Some(DateTimeText(y.0, mo.0, dd.0, dd.1, hh.0, mi.0, tail.0, tail.1))
  }

  lemma ParseTailSound(r: string)
    requires ParseTail(r).Some?
    ensures var t := ParseTail(r).value;
            && (t.0.Some? ==>
                  && DigitsBetween(t.0.value.second, 1, 2)
                  && (t.0.value.fraction.Some? ==> DigitsBetween(t.0.value.fraction.value, 1, 12)))
            && RenderTail(t.0, t.1) == r
  {
    if r != "" && r != "\n" {
      var sec := TakeDigits(r[1..]);
      assert r == ":" + (sec.0 + sec.1);
      if sec.1 != [] && sec.1[0] == '.' {
        var frac := TakeDigits(sec.1[1..]);
        assert sec.1 == "." + (frac.0 + frac.1);
      }
    }
  }

  /** Whatever the scanner accepts has the shape, and is the text of its pieces. */
  lemma ParseSound(s: string)
    requires ParseIso8601(s).Some?
    ensures WellFormed(ParseIso8601(s).value)
    ensures Render(ParseIso8601(s).value) == s
  {
    var y := Field(s, 4, 4, {'-'}).value;
    var mo := Field(y.2, 1, 2, {'-'}).value;
    var dd := Field(mo.2, 1, 2, {'T', ' '}).value;
    var hh := Field(dd.2, 1, 2, {':'}).value;
    var mi := TakeDigits(hh.2);
    ParseTailSound(mi.1);
  }

  lemma ParseTailSeconds(sec: string, finalNewline: bool)
    requires DigitsBetween(sec, 1, 2)
    ensures ParseTail(":" + (sec + RenderEnd(finalNewline))) == Some((Some(SecondsText(sec, None)), finalNewline))
  {
    var e := RenderEnd(finalNewline);
    TakeDigitsOf(sec, e);
    assert (":" + (sec + e))[1..] == sec + e;
  }

  lemma ParseTailFraction(sec: string, f: string, finalNewline: bool)
    requires DigitsBetween(sec, 1, 2) && DigitsBetween(f, 1, 12)
    ensures ParseTail(":" + (sec + ("." + (f + RenderEnd(finalNewline)))))
            == Some((Some(SecondsText(sec, Some(f))), finalNewline))
  {
    var e := RenderEnd(finalNewline);
    var r := ":" + (sec + ("." + (f + e)));
    TakeDigitsOf(sec, "." + (f + e));
    assert r[1..] == sec + ("." + (f + e));
    var frac := TakeDigits(("." + (f + e))[1..]);
    TakeDigitsOf(f, e);
    assert ("." + (f + e))[1..] == f + e;
    assert frac == (f, e);
  }

  lemma ParseTailComplete(seconds: Option<SecondsText>, finalNewline: bool)
    requires seconds.Some? ==>
               && DigitsBetween(seconds.value.second, 1, 2)
               && (seconds.value.fraction.Some? ==> DigitsBetween(seconds.value.fraction.value, 1, 12))
    ensures ParseTail(RenderTail(seconds, finalNewline)) == Some((seconds, finalNewline))
  {
    match seconds
    case None =>
    case Some(SecondsText(sec, None)) =>
      ParseTailSeconds(sec, finalNewline);
    case Some(SecondsText(sec, Some(f))) =>
      ParseTailFraction(sec, f, finalNewline);
  }

  /** Every string of the shape is accepted, and scanned back into its own pieces. */
  lemma ParseComplete(d: DateTimeText)
    requires WellFormed(d)
    ensures ParseIso8601(Render(d)) == Some(d)
  {
    var tail := RenderTail(d.seconds, d.finalNewline);
    ParseTailComplete(d.seconds, d.finalNewline);
    var t4 := d.minute + tail;
    var t3 := d.hour + ([':'] + t4);
    var t2 := d.day + ([d.separator] + t3);
    var t1 := d.month + (['-'] + t2);
    assert Render(d) == d.year + (['-'] + t1);
    FieldOf(d.year, '-', t1, 4, 4, {'-'});
    FieldOf(d.month, '-', t2, 1, 2, {'-'});
    FieldOf(d.day, d.separator, t3, 1, 2, {'T', ' '});
    FieldOf(d.hour, ':', t4, 1, 2, {':'});
    TakeDigitsOf(d.minute, tail);
  }

  /** Outcome of the shape check in `from_fdsnws_datetime`. */
  datatype DatetimeText = DateOnly(date: string) | DateAndTime(parts: DateTimeText)

  /** The ValueError 'Not a valid ISO8601-formatted string.' */
  datatype DatetimeError = NotIso8601

  /**
   * `from_fdsnws_datetime` up to the library calls: a string of length 10
   * goes to the date parser; any other string must have the shape or is
   * rejected.
   */
  function CheckFdsnwsDatetime(s: string): (r: Result<DatetimeText, DatetimeError>)
    ensures |s| == 10 ==> r == Success(DateOnly(s))
    ensures r.Success? && r.value.DateAndTime? ==> WellFormed(r.value.parts) && Render(r.value.parts) == s
  {
    if |s| == 10 then Success(DateOnly(s))
    else match ParseIso8601(s)
      case None => Failure(NotIso8601)
      case Some(d) =>
        ParseSound(s);
        Success(DateAndTime(d))
  }

  /**
   * The check rejects exactly the strings of length other than 10 that are
   * not the text of any well-formed pieces.
   */
  lemma CheckRejectsIff(s: string)
    ensures CheckFdsnwsDatetime(s).Failure? <==> |s| != 10 && forall d :: WellFormed(d) ==> Render(d) != s
  {
    if CheckFdsnwsDatetime(s).Failure? {
      forall d | WellFormed(d) ensures Render(d) != s {
        ParseComplete(d);
      }
    } else if |s| != 10 {
      ParseSound(s);
    }
  }

  /** No character of `s` is in `bad`. */
  predicate Avoids(s: string, bad: set<char>)
  {
    forall i :: 0 <= i < |s| ==> s[i] !in bad
  }

  lemma AvoidsAppend(a: string, b: string, bad: set<char>)
    requires Avoids(a, bad) && Avoids(b, bad)
    ensures Avoids(a + b, bad)
  {
    forall i | 0 <= i < |a + b| ensures (a + b)[i] !in bad {
      if i >= |a| {
        assert (a + b)[i] == b[i - |a|];
      }
    }
  }

  lemma AvoidsTail(seconds: Option<SecondsText>, finalNewline: bool, bad: set<char>)
    requires bad == {'Z', '+', '-'}
    requires seconds.Some? ==>
               && AllDigits(seconds.value.second)
               && (seconds.value.fraction.Some? ==> AllDigits(seconds.value.fraction.value))
    ensures Avoids(RenderTail(seconds, finalNewline), bad)
  {
    var e := RenderEnd(finalNewline);
    match seconds
    case None =>
    case Some(SecondsText(sec, None)) =>
      AvoidsAppend(sec, e, bad);
      AvoidsAppend(":", sec + e, bad);
    case Some(SecondsText(sec, Some(f))) =>
      AvoidsAppend(f, e, bad);
      AvoidsAppend(".", f + e, bad);
      AvoidsAppend(sec, "." + (f + e), bad);
      AvoidsAppend(":", sec + ("." + (f + e)), bad);
  }

  /** The shape has no `Z` or `+` and exactly the two date dashes, and is at least 12 long. */
  lemma RenderAlphabet(d: DateTimeText)
    requires WellFormed(d)
    ensures 'Z' !in Render(d) && '+' !in Render(d)
    ensures CountChar(Render(d), '-') == 2
    ensures |Render(d)| >= 12
  {
    var bad := {'Z', '+', '-'};
    var zone := {'Z', '+'};
    var tail := RenderTail(d.seconds, d.finalNewline);
    AvoidsTail(d.seconds, d.finalNewline, bad);
    var t4 := d.minute + tail;
    AvoidsAppend(d.minute, tail, bad);
    var t3 := d.hour + (":" + t4);
    AvoidsAppend(":", t4, bad);
    AvoidsAppend(d.hour, ":" + t4, bad);
    var rest := d.day + ([d.separator] + t3);
    AvoidsAppend([d.separator], t3, bad);
    AvoidsAppend(d.day, [d.separator] + t3, bad);
    assert Render(d) == d.year + ("-" + (d.month + ("-" + rest)));
    AvoidsAppend("-", rest, zone);
    AvoidsAppend(d.month, "-" + rest, zone);
    AvoidsAppend("-", d.month + ("-" + rest), zone);
    AvoidsAppend(d.year, "-" + (d.month + ("-" + rest)), zone);
    CountCharAbsent(rest, '-');
    CountCharAbsent(d.month, '-');
    CountCharAbsent(d.year, '-');
    CountCharAppend("-", rest, '-');
    CountCharAppend(d.month, "-" + rest, '-');
    CountCharAppend("-", d.month + ("-" + rest), '-');
    CountCharAppend(d.year, "-" + (d.month + ("-" + rest)), '-');
  }

  /**
   * No timezone: a well-formed date-time followed by `Z`, or by an offset
   * starting with `+` or `-`, is rejected.
   */
  lemma TimezoneRejected(d: DateTimeText, tz: string)
    requires WellFormed(d)
    requires |tz| > 0 && (tz[0] == 'Z' || tz[0] == '+' || tz[0] == '-')
    ensures CheckFdsnwsDatetime(Render(d) + tz).Failure?
  {
    var s := Render(d) + tz;
    RenderAlphabet(d);
    CheckRejectsIff(s);
    CountCharAppend(Render(d), tz, '-');
    assert tz[0] == '-' ==> CountChar(tz, '-') >= 1 by {
      assert tz == [tz[0]] + tz[1..];
    }
    assert tz[0] in s;
    forall d' | WellFormed(d') ensures Render(d') != s {
      RenderAlphabet(d');
    }
  }

  // ---------------------------------------------------------------------------
  // convert_scnl_dicts_to_query_params
  // ---------------------------------------------------------------------------

  /** One stream epoch as a dict of query parameters. */
  type StreamEpochDict = map<string, string>

  /** The ValueError 'StreamEpoch objects provide multiple temporal constraints.' */
  datatype ConversionError = MultipleTemporalConstraints

  predicate IsTemporalConstraint(key: string)
  {
    key == "starttime" || key == "endtime"
  }

  /** Every key of every dict. */
  function AllKeys(epochs: seq<StreamEpochDict>): set<string>
  {
    if epochs == [] then {} else AllKeys(epochs[..|epochs| - 1]) + epochs[|epochs| - 1].Keys
  }

  /** The distinct values the dicts give `key`. */
  function ValuesOf(epochs: seq<StreamEpochDict>, key: string): set<string>
  {
    if epochs == [] then {}
    else
      var last := epochs[|epochs| - 1];
      ValuesOf(epochs[..|epochs| - 1], key) + (if key in last then {last[key]} else {})
  }

  lemma {:induction false} AllKeysIff(epochs: seq<StreamEpochDict>, key: string)
    ensures key in AllKeys(epochs) <==> exists i :: 0 <= i < |epochs| && key in epochs[i]
  {
    if epochs != [] {
      var init := epochs[..|epochs| - 1];
      AllKeysIff(init, key);
      if key in AllKeys(init) {
        var i :| 0 <= i < |init| && key in init[i];
        assert key in epochs[i];
      }
    }
  }

  lemma {:induction false} ValuesOfIff(epochs: seq<StreamEpochDict>, key: string, v: string)
    ensures v in ValuesOf(epochs, key) <==> exists i :: 0 <= i < |epochs| && key in epochs[i] && epochs[i][key] == v
  {
    if epochs != [] {
      var init := epochs[..|epochs| - 1];
      ValuesOfIff(init, key, v);
      if v in ValuesOf(init, key) {
        var i :| 0 <= i < |init| && key in init[i] && init[i][key] == v;
        assert epochs[i] == init[i];
      }
    }
  }

  /** A key no dict has has no values. */
  lemma {:induction false} ValuesOfAbsent(epochs: seq<StreamEpochDict>, key: string)
    requires key !in AllKeys(epochs)
    ensures ValuesOf(epochs, key) == {}
  {
    if epochs != [] {
      ValuesOfAbsent(epochs[..|epochs| - 1], key);
    }
  }

  /** A key that is present has at least one value. */
  lemma {:induction false} ValuesOfNonEmpty(epochs: seq<StreamEpochDict>, key: string)
    requires key in AllKeys(epochs)
    ensures ValuesOf(epochs, key) != {}
  {
    var init := epochs[..|epochs| - 1];
    if key !in epochs[|epochs| - 1] {
      ValuesOfNonEmpty(init, key);
    }
  }

  /** `order` lists every element of `values` exactly once. */
  ghost predicate Enumerates(order: seq<string>, values: set<string>)
  {
    && (forall i, j :: 0 <= i < j < |order| ==> order[i] != order[j])
    && (forall v :: v in order <==> v in values)
  }

  /** `text` is `','.join` of the values in some iteration order. */
  ghost predicate IsCommaJoinOf(text: string, values: set<string>)
  {
    exists order :: Enumerates(order, values) && text == Join(order, ',')
  }

  /** A temporal key whose dicts disagree. */
  predicate Conflicting(epochs: seq<StreamEpochDict>, key: string)
  {
    key in AllKeys(epochs) && |ValuesOf(epochs, key)| != 1
  }

  /**
   * A gathered key never has an empty set of values, so a temporal key
   * conflicts exactly when its dicts give it two or more distinct values.
   */
  lemma ConflictingIffSeveral(epochs: seq<StreamEpochDict>, key: string)
    ensures Conflicting(epochs, key) <==> |ValuesOf(epochs, key)| >= 2
  {
    if key in AllKeys(epochs) {
      ValuesOfNonEmpty(epochs, key);
    } else {
      ValuesOfAbsent(epochs, key);
    }
  }

  /** `','.join(values)` over a set, whose iteration order is unspecified. */
  method JoinSet(values: set<string>) returns (text: string)
    ensures IsCommaJoinOf(text, values)
  {
    var rest := values;
    ghost var order: seq<string> := [];
    text := "";
    var first := true;
    while rest != {}
      invariant rest <= values
      invariant first <==> order == []
      invariant forall i, j :: 0 <= i < j < |order| ==> order[i] != order[j]
      invariant forall v :: v in order <==> v in values - rest
      invariant text == Join(order, ',')
      decreases rest
    {
      var v :| v in rest;
      assert v !in order;
      JoinSnoc(order, v, ',');
      text := if first then v else text + [','] + v;
      first := false;
      order := order + [v];
      rest := rest - {v};
    }
    assert Enumerates(order, values);
  }

  /**
   * The first loop of `convert_scnl_dicts_to_query_params`: a
   * `defaultdict(set)` filled with every value of every key of every dict.
   */
  method GatherValues(epochs: seq<StreamEpochDict>) returns (gathered: map<string, set<string>>)
    ensures gathered.Keys == AllKeys(epochs)
    ensures forall k :: k in gathered ==> gathered[k] == ValuesOf(epochs, k)
  {
    gathered := map[];
    var i := 0;
    while i < |epochs|
      invariant 0 <= i <= |epochs|
      invariant gathered.Keys == AllKeys(epochs[..i])
      invariant forall k :: k in gathered ==> gathered[k] == ValuesOf(epochs[..i], k)
    {
      var epoch := epochs[i];
      var keys := epoch.Keys;
      while keys != {}
        invariant keys <= epoch.Keys
        invariant gathered.Keys == AllKeys(epochs[..i]) + (epoch.Keys - keys)
        invariant forall k :: k in gathered ==>
                    gathered[k] == ValuesOf(epochs[..i], k) + (if k in epoch.Keys - keys then {epoch[k]} else {})
        decreases keys
      {
        var k :| k in keys;
        if k !in gathered {
          ValuesOfAbsent(epochs[..i], k);
        }
        gathered := gathered[k := (if k in gathered then gathered[k] else {}) + {epoch[k]}];
        keys := keys - {k};
      }
      assert epochs[..i + 1][..i] == epochs[..i];
      i := i + 1;
    }
    assert epochs[..i] == epochs;
  }

  /**
   * What the second loop leaves for one key: the single temporal value
   * itself, or the comma-join of the values.
   */
  ghost predicate Flattened(key: string, values: set<string>, text: string)
  {
    if IsTemporalConstraint(key) then values == {text} else IsCommaJoinOf(text, values)
  }

  /** The second loop's body for one key. */
  method FlattenKey(key: string, values: set<string>) returns (r: Result<string, ConversionError>)
    ensures r.Failure? <==> IsTemporalConstraint(key) && |values| != 1
    ensures r.Success? ==> Flattened(key, values, r.value)
  {
    if IsTemporalConstraint(key) {
      if |values| != 1 {
        return Failure(MultipleTemporalConstraints);
      }
      var v :| v in values;
      assert |values - {v}| == 0;
      r := Success(v);
    } else {
      var text := JoinSet(values);
      r := Success(text);
    }
  }

  /** The second loop of `convert_scnl_dicts_to_query_params`, over the gathered sets. */
  method FlattenAll(gathered: map<string, set<string>>) returns (r: Result<map<string, string>, ConversionError>)
    ensures r.Failure? <==> exists k :: k in gathered && IsTemporalConstraint(k) && |gathered[k]| != 1
    ensures r.Success? ==> r.value.Keys == gathered.Keys
    ensures r.Success? ==> forall k :: k in r.value ==> Flattened(k, gathered[k], r.value[k])
  {
    var out: map<string, string> := map[];
    var pending := gathered.Keys;
    while pending != {}
      invariant pending <= gathered.Keys
      invariant out.Keys == gathered.Keys - pending
      invariant forall k :: k in out ==> Flattened(k, gathered[k], out[k])
      decreases pending
    {
      var k :| k in pending;
      var flat := FlattenKey(k, gathered[k]);
      if flat.Failure? {
        return Failure(flat.error);
      }
      out := out[k := flat.value];
      pending := pending - {k};
    }
    r := Success(out);
  }

  /**
   * `convert_scnl_dicts_to_query_params`: gather each key's distinct
   * values over all dicts; `starttime` and `endtime` must have exactly one
   * value, which is kept as it is; every other key gets the comma-join of
   * its values. None and the empty list give the empty result.
   */
  method ConvertScnlDictsToQueryParams(streamEpochs: Option<seq<StreamEpochDict>>)
    returns (r: Result<map<string, string>, ConversionError>)
    ensures var epochs := if streamEpochs.Some? then streamEpochs.value else [];
            && (epochs == [] ==> r == Success(map[]))
            && (r.Failure? <==> Conflicting(epochs, "starttime") || Conflicting(epochs, "endtime"))
            && (r.Success? ==> r.value.Keys == AllKeys(epochs))
            && (r.Success? ==> forall k :: k in r.value ==> Flattened(k, ValuesOf(epochs, k), r.value[k]))
  {
    var epochs := if streamEpochs.Some? then streamEpochs.value else [];
    var gathered := GatherValues(epochs);
    r := FlattenAll(gathered);
    if epochs == [] {
      assert r.Success? && r.value.Keys == {};
      assert r.value == map[];
    }
  }
}
