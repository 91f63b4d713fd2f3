# EIDA federator request translation, in Dafny

This project models the request-translation core of the EIDA
mediator/federator web services. It also covers the small helpers around
that core. The federator receives an FDSN web-service request (dataselect
here), translates its query parameters and POST body into the command-line
arguments of the `fdsnws_fetch` tool, runs the tool, and returns the output
file. When there is no output, it returns an FDSN error.

What is modelled, module by module:

- `GeneralRequest` (`general_request.dfy`): the translator `GeneralRequestTranslator`.
  - It is the class `RequestTranslator`, whose field `outParams` is the table of output slots keyed by flag.
  - The `-q` slot is the only list slot and it only grows. Every other slot holds one value, and a later `add` replaces it.
  - Construction is split in two:
    - the constructor sets `-q`, `-o` and `-u`;
    - the factory method `NewRequestTranslator` maps the query parameters through the fixed table, or returns the BadRequest the source raises.
  - `get_routing_url` looks up the routing server, falling back to the default node.
  - `getpar`, `getlist` and `serialize`.
  - The line splitter of `_process_post_args`: one `=` gives a `-q key=value` entry, no `=` gives a bulk line, and more `=` drop the line. An empty bulk body is rejected.
  - The decisions of `process_request` and `_process_request`.

  Each method is proved against a specification function:
  - `Added` for `add`;
  - `MapArgs` and `Translated` for construction;
  - `Flatten` and the per-flag view `ValuesFor` for `getlist`;
  - `Classify`, `Overrides` and `CleanedBody` for the POST splitter.
- `Dataselect` (`dataselect.dfy`): `DataselectRequestTranslator`, which adds `-y dataselect` and the GET sanity check. It also covers the order of steps in the GET and POST handlers.
- `HttpErrors` (`httperrors.dfy`): the FDSN error classes, with their codes and short descriptions; the `create` factory; the defaulting in the constructor; and the seven-slot message template of the FDSN Web Service Specifications 1.1.
- `Utils` (`utils.dfy`):
  - the date-time shape check of `from_fdsnws_datetime`, given as a scanner that is proved equivalent to the pattern's language (`ParseSound`, `ParseComplete`);
  - `convert_scnl_dicts_to_query_params`, whose two loops become methods. The unspecified order of a Python set becomes a nondeterministic choice.
- `StationliteMisc` (`misc.dfy`): `node_generator`, as the sequence it yields.
- `Settings`, `Strings` and `Wrappers` give the node registry as a value and the Python string operations the code uses (`split`, `join`, `strip`, `"%s" % n`). They also supply `Option` and `Result`.

Several things come from outside the code and are taken as parameters:
- the routing configuration and the node registry (`RoutingConfig`, `Registry`);
- the temp-file names;
- the POST body;
- what the fetch run and the file system report (`FetchRun`);
- the order in which the query parameters are iterated.

Notes where the code decides, not the surrounding prose:

- A POST line with two or more `=` is dropped, not passed through (`Classify`, `Illegal`).
- The dataselect GET check tests only that `-S`, `-C` and `-L` are all unset. Its last clause, which asks whether `-L` is unset or a wildcard, is always true at that point. So a wildcard station, channel or location passes, and the network plays no part. `GetCheckRejects` states this equivalence, and `GetCheckIff` lifts it to the query parameters.
- Python's `$` also matches just before a final newline. So a date-time followed by one `\n` has the shape, and `DateTimeText.finalNewline` records it.
- `federator/server/general_request.py` raises the errors of `federator.server.httperrors`, which is not part of this model. The model raises the error kinds of `RequestError`. `HttpErrors` models `eidangservices/utils/httperrors.py`. The federator's own error module is assumed to behave the same way; that assumption is not checked here.

## Model

| member | source | states |
|---|---|---|
| GeneralRequest.Added | federator/server/general_request.py:190-198 | `add` appends to a slot that already holds a list and otherwise sets the slot to the one value, replacing it; every other slot is unchanged; `-q` stays the only list slot |
| GeneralRequest.AddAllQuery | federator/server/general_request.py:190-194 | repeated `add` to `-q` appends the values in call order and changes no other slot |
| GeneralRequest.RequestTranslator.Add | federator/server/general_request.py:190-198 | the new table is the old one with `add` applied (`Added`) |
| GeneralRequest.Initial | federator/server/general_request.py:162-170 | before the parameters are mapped, the table holds exactly an empty `-q` list, `-o` with the output file and `-u` with the routing URL |
| GeneralRequest.RequestTranslator.constructor | federator/server/general_request.py:162-170 | a new translator holds the `Initial` table and is well-shaped |
| GeneralRequest.MapArgsFailsIff | federator/server/general_request.py:173-187 | mapping the parameters fails exactly when some parameter with a value has a name outside the table, and then with BadRequest; parameters without a value are skipped |
| GeneralRequest.MapArgsQuery | federator/server/general_request.py:175-182 | after mapping, `-q` holds the old entries followed by `name=value` for each parameter whose table entry is empty, in order; the shape is kept |
| GeneralRequest.MapArgsFlags | federator/server/general_request.py:175-177 | a slot other than `-q` exists after mapping exactly when it did before or some parameter maps to it, and a flag slot then holds the value of the last such parameter |
| GeneralRequest.MappedFlag | federator/server/general_request.py:34-59 | the table maps every name to one of `-s -e -N -S -L -C` or to the empty flag, never to `-q` |
| GeneralRequest.GetRoutingUrl | federator/server/general_request.py:253-263 | the URL is the configured node's routing server plus the routing path; it falls back to the default node when the configured node or its server is missing, and fails only when both lookups fail |
| GeneralRequest.TranslatedFailsIff | federator/server/general_request.py:160-187 | construction fails exactly when the routing lookup fails or a parameter is unknown; the routing failure comes first |
| GeneralRequest.TranslatedSlots | federator/server/general_request.py:160-187 | after construction `-o` and `-u` hold the output file and routing URL, `-q` lists the `name=value` entries in order, each flag slot exists exactly when a parameter mapped to it and holds the last such value, and there is no other slot |
| GeneralRequest.NewRequestTranslator | federator/server/general_request.py:160-187 | the loop over the parameters fails or succeeds exactly as `Translated` does, with the same error or the same table |
| GeneralRequest.RequestTranslator.GetPar | federator/server/general_request.py:202-203 | the slot is returned exactly when it exists, and then holds the slot's values; otherwise None |
| GeneralRequest.ExtendPairs | federator/server/general_request.py:213-214 | the inner loop appends one `[name, v]` pair per list element, in list order |
| GeneralRequest.FlattenValues | federator/server/general_request.py:206-218 | visiting distinct slots pairs each visited flag with exactly that slot's values in order, and an unvisited flag with none |
| GeneralRequest.FlattenArgList | federator/server/general_request.py:206-218 | visiting every slot once yields a flag/value list of the whole table, of length 2 × (single slots + `-q` elements) |
| GeneralRequest.RequestTranslator.GetList | federator/server/general_request.py:206-218 | whatever the slot order, the list pairs every flag with exactly its slot's values in order, and its length is 2 × (single slots + `-q` elements) |
| GeneralRequest.RequestTranslator.Serialize | federator/server/general_request.py:221-222 | the line is the space-join of a flag/value list of the table |
| GeneralRequest.Classify | federator/server/general_request.py:96-119 | a line is blank, an override, a bulk line or dropped exactly when it is empty or holds one, no, or two or more `=`; override keys and values hold no `=` |
| GeneralRequest.OverrideLine | federator/server/general_request.py:103-110 | a `key=value` line is classified as the override of the stripped key and value |
| GeneralRequest.OverrideEntry | federator/server/general_request.py:108-109 | the `-q` entry built from an override holds exactly one `=` |
| GeneralRequest.Overrides | federator/server/general_request.py:102-110 | each `-q` entry the POST lines add holds exactly one `=` |
| GeneralRequest.CleanedEmptyIff | federator/server/general_request.py:112-124 | the cleaned body is empty exactly when no line is a bulk line, whatever overrides there are |
| GeneralRequest.CleanedAllBulk | federator/server/general_request.py:112-115 | bulk lines are copied whole, in order, each followed by a newline |
| GeneralRequest.PlainBodyKept | federator/server/general_request.py:94-115 | a body of non-empty lines without `=` is written out as it came, plus a final newline |
| GeneralRequest.PostSlots | federator/server/general_request.py:86-110 | POST splitting sets `-p` to the POST file and appends the override entries to `-q` in line order; nothing else changes and the shape is kept |
| GeneralRequest.ProcessPostLine | federator/server/general_request.py:96-119 | one line adds its override entry, extends the cleaned body by a bulk line, or does neither |
| GeneralRequest.ProcessPostArgs | federator/server/general_request.py:80-129 | the table gains `-p` and the override entries; the call fails with BadRequest exactly when the cleaned body is empty, and otherwise returns the POST file and the cleaned body |
| GeneralRequest.ProcessRequest | federator/server/general_request.py:230-250 | the output file is returned exactly when `-o` is set, the run did not raise and the file exists, and it is the `-o` value |
| GeneralRequest.ProcessAndSend | federator/server/general_request.py:132-154 | NoData exactly when there is no result file or it is empty; otherwise the `-o` file is sent. With `-o` set, the outcome is `Fetched` of that file: NoData when the run raised, left no file or left an empty one |
| Dataselect.GetCheckRejects | federator/server/routes/dataselect.py:33-35 | the GET check as written rejects exactly when `-S`, `-C` and `-L` are all unset |
| Dataselect.FlagSources | federator/server/general_request.py:38-40 | only `station`, `channel` and `location` map to `-S`, `-C` and `-L` |
| Dataselect.FlagSlotIffGiven | federator/server/routes/dataselect.py:33-35 | after translation, the `-S`, `-C` or `-L` slot exists exactly when its parameter has a value |
| Dataselect.GetCheckIff | federator/server/routes/dataselect.py:31-37 | a GET fails with BadRequest exactly when none of station, channel and location has a value, wildcards and network aside; a POST is never checked |
| Dataselect.DataselectSlots | federator/server/routes/dataselect.py:29 | the dataselect table is the general one plus `-y` = `dataselect`, every other slot kept |
| Dataselect.NewDataselectTranslator | federator/server/routes/dataselect.py:25-37 | construction fails or succeeds exactly as `DataselectTranslated` does, with the same error or table |
| Dataselect.ParsedNamesKnown | federator/server/routes/dataselect.py:17-20 | every name the dataselect parser declares is in the table, so parsed parameters never raise BadRequest |
| Dataselect.ExtrasGoToQuery | federator/server/routes/dataselect.py:17-20 | `quality`, `minimumlength` and `longestonly` with a value become `name=value` entries of `-q` |
| Dataselect.HandleGet | federator/server/routes/dataselect.py:46-52 | a GET gives the construction error, or else the outcome of the fetch on the output file |
| Dataselect.HandlePost | federator/server/routes/dataselect.py:55-67 | a POST gives the construction error, or else BadRequest for an empty bulk body, or else the outcome of the fetch |
| HttpErrors.Create | eidangservices/utils/httperrors.py:98-115 | a no-content code gives NoDataError with that code, checked before any other branch; 400, 413, 414, 500 and 503 give their own codes; every other code gives 500; a templated error is built by the class constructor |
| HttpErrors.CreateClassCode | eidangservices/utils/httperrors.py:98-115 | asking for a class's own code builds that class, unless the code is configured as no-content |
| HttpErrors.NewNoDataError | eidangservices/utils/httperrors.py:138-142 | a no-data error has an empty description; its code is the given status code, or 204 when none is given |
| HttpErrors.ClassCode | eidangservices/utils/httperrors.py:147-169 | every class code is a 4xx or 5xx code; it is below 500 exactly for BadRequest, RequestTooLarge and RequestURITooLarge |
| HttpErrors.ShortDescription | eidangservices/utils/httperrors.py:147-169 | every class has a non-empty short description that starts with a capital letter |
| HttpErrors.ClassConstantsDistinct | eidangservices/utils/httperrors.py:147-169 | two different classes have different codes and different short descriptions |
| HttpErrors.ErrorMessage | eidangservices/utils/httperrors.py:69-77 | the message starts with the template's leading text, and each of the seven arguments appears unchanged at its slot |
| HttpErrors.NewError | eidangservices/utils/httperrors.py:119-131 | a templated error carries its class code; a missing or empty URI or version is replaced by the class default, and any other value is kept; the description is the message of the class code, the short description twice, the URI, the request URL, the request time and the version |
| HttpErrors.MessageArgs | eidangservices/utils/httperrors.py:74-77 | the template takes exactly seven arguments |
| HttpErrors.FormatField | eidangservices/utils/httperrors.py:69-77 | `%`-substitution puts each argument unchanged at its slot, after the leading text |
| HttpErrors.MessageFields | eidangservices/utils/httperrors.py:127-131 | the message holds, at the template's slots in order, the code, the short description twice, the URI, the request URL, the time and the version |
| HttpErrors.MessageCodeReadsBack | eidangservices/utils/httperrors.py:51-53 | a message starts with `\nError ` followed by the decimal code, which reads back as the error's code |
| Utils.ParseSound | eidangservices/utils/__init__.py:58-64 | every string the scanner accepts has the shape and is the text of its pieces |
| Utils.ParseComplete | eidangservices/utils/__init__.py:58-64 | every string of the shape is accepted and scanned back into its own pieces |
| Utils.ParseTailComplete | eidangservices/utils/__init__.py:61-63 | optional seconds, with an optional fraction of 1 to 12 digits, and an optional final newline are scanned back |
| Utils.CheckFdsnwsDatetime | eidangservices/utils/__init__.py:135-142 | a string of length 10 goes to the date parser; any other accepted string is the text of well-formed pieces |
| Utils.CheckRejectsIff | eidangservices/utils/__init__.py:135-142 | the check rejects exactly the strings of length other than 10 that have no well-formed reading |
| Utils.RenderAlphabet | eidangservices/utils/__init__.py:58-60 | text of the shape holds no `Z` or `+`, exactly two `-`, and at least 12 characters |
| Utils.TimezoneRejected | eidangservices/utils/__init__.py:62-63 | a well-formed date-time followed by `Z`, `+…` or `-…` is rejected |
| Utils.AllKeysIff | eidangservices/utils/__init__.py:176-179 | a key is gathered exactly when some dict has it |
| Utils.ValuesOfIff | eidangservices/utils/__init__.py:176-179 | a value is gathered for a key exactly when some dict gives the key that value |
| Utils.GatherValues | eidangservices/utils/__init__.py:175-179 | the first loop gathers exactly the keys of all dicts, each with the set of its values |
| Utils.JoinSet | eidangservices/utils/__init__.py:186 | the text is the comma-join of an enumeration of the set without repeats |
| Utils.ConflictingIffSeveral | eidangservices/utils/__init__.py:179-182 | a temporal key conflicts exactly when its dicts give it two or more distinct values, since a gathered key always has at least one |
| Utils.FlattenKey | eidangservices/utils/__init__.py:180-186 | a temporal key fails exactly when it does not have one value, and otherwise yields that value; other keys yield a comma-join |
| Utils.FlattenAll | eidangservices/utils/__init__.py:179-186 | the second loop fails exactly when some temporal key does not have one value; otherwise every key is flattened |
| Utils.ConvertScnlDictsToQueryParams | eidangservices/utils/__init__.py:159-188 | None or an empty list gives the empty dict; the call fails exactly when `starttime` or `endtime` has several values; otherwise the keys are the union of the dicts' keys, each flattened |
| StationliteMisc.Generate | eidangservices/stationlite/misc.py:65-71 | every yielded pair is a registry node outside `exclude`, with its own entry |
| StationliteMisc.NodeGenerator | eidangservices/stationlite/misc.py:65-71 | every yielded node is outside `exclude` and comes with its own registry entry |
| StationliteMisc.GenerateComplete | eidangservices/stationlite/misc.py:67-71 | every listed node outside `exclude` is yielded |
| StationliteMisc.GenerateOrdered | eidangservices/stationlite/misc.py:67-69 | pairs are yielded in the order of the registry's keys |
| StationliteMisc.NodeGeneratorFilters | eidangservices/stationlite/misc.py:65-71 | every registry node outside `exclude` is yielded, in key order, none twice |
| StationliteMisc.NodeGeneratorDefault | eidangservices/stationlite/misc.py:65 | with the default empty `exclude`, the whole registry is yielded, in key order |
| Strings.SplitJoin | federator/server/general_request.py:103 | splitting the join of `=`-free pieces gives the pieces back |
| Strings.JoinSplit | federator/server/general_request.py:94 | joining the lines of a body gives the body back |
| Strings.TrimmedInfix | federator/server/general_request.py:108-109 | trimming whitespace off the front and then the back leaves an infix with only whitespace before and after it |
| Strings.Strip | federator/server/general_request.py:108-109 | `strip` returns the string with only its leading and trailing whitespace removed: an infix with whitespace only around it and none at its own ends; a string without whitespace is kept |

## Left out

- The Flask and flask_restful plumbing is not modelled: `reqparse`, `request`, `g`, `flask.send_file`, `make_response` and `get_version_response`.
  - The query parameters are a sequence of names with optional values, in iteration order.
  - The POST body is a string.
  - The HTTP method is the `HttpMethod` argument.
- Temp-file creation, file writes and unlinks, `os.path.isfile` and `os.path.getsize` are file-system effects.
  - The temp-file names are parameters.
  - The file's existence and size are fields of `FetchRun`.
  - The written POST file is the text `ProcessPostArgs` returns.
  - A failure of `send_file`, which the source ignores, is not modelled.
- `fdsnws_fetch.main` is an external tool. It is only an input, `FetchRun.raises`. The argument list it receives is built (`GetList`) but not passed anywhere.
- `print` logging, including the `serialize` call in `process_request`, is not modelled.
- Datetime construction in `from_fdsnws_datetime` (marshmallow, dateutil, `strptime`) and `fdsnws_isoformat` are library calls. Only the shape check is modelled. The date-only branch stops at the length test.
- `get_version`, `realpath`, `real_file_path`, `real_dir_path` and `db_engine` are foreign calls, and are not modelled.
- The `type=int`, `type=float` and `type=bool` coercion of parameters is not modelled. Values are strings.
- The `settings` module is passed in as parameters: the registry, the default routing node, the routing path, the no-content code set and the documentation URI.
- The `federator.server.httperrors` module that general_request.py imports is not part of this model. Its errors are the kinds of `RequestError`.
- GeneralRequest.RequestTranslator.GetList: the slot order is not stated. It is Python 2 dict iteration order, which is unspecified. The contract is per flag plus the length.
- Utils.JoinSet: the order of the joined values is not stated. It is Python set iteration order. The contract says that some enumeration without repeats is joined.
- Utils: `\d` is the ASCII digits and `\s` in `strip` is ASCII whitespace. The model has no Unicode digits and no Unicode whitespace.
- Utils.ConvertScnlDictsToQueryParams: stream-epoch values are strings. The `defaultdict` object, as opposed to its contents, is not modelled.
- HttpErrors: the request URL and start time are an `ErrorContext` value, not Flask's `request` and `g`.
