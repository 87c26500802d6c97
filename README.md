# foreman-host-builder, modelled in Dafny

`foreman-host-builder.py` reads a configuration file and a YAML template of
hosts. It names every host job after its key in the template and queues the
jobs. Worker threads then take jobs from the queue and create each host in
Foreman, unless a host of that name already exists. This project models the
sequential logic inside that flow:

- `create_host` (module `HostBuilder`):
  - it reads the client options with their defaults (module `ClientConfig`);
  - it runs the existence search that short-circuits the call;
  - its `for key in host` loop builds the create payload:
    - `hostgroup`, `subnet` and `compute_profile` are resolved to
      `<field>_id`, or dropped with a warning when the id is false;
    - `host_parameters` is renamed to `host_parameters_attributes`;
    - every other field is copied;
  - the create call's `ForemanException` is swallowed.
- `HostWorker.run` / `terminate` (module `Workers`): one worker draining a
  FIFO queue until the queue is empty or its stop flag is set. An exception
  from `create_host` does not stop the loop.
- The loop in `main` that sets `name` to the key on each host mapping of the
  hosts map and enqueues that mapping (module `Workers`). The mapping is
  changed in place and queued by reference. Two keys can share one mapping
  (a YAML alias). That mapping then ends up named after the later key and is
  queued twice, so both calls to `create_host` see the later name.
- `config_parser` after the file is read (module `ConfigParser`):
  - every section's entries are flattened into one dict;
  - later sections overwrite earlier ones;
  - an empty value exits with status 1;
  - the password is stored base64-decoded.

Modelling choices:

- Python exceptions are `Result` values (`Err`), so "what leaves the
  function" is part of each contract.
- The Foreman API is a `Client` value with four given operations:
  - `construct`, whether the `Foreman(...)` constructor raises;
  - `search`, the results of `hosts.index`;
  - `show`, the `id` of a hostgroup, subnet or compute profile;
  - `create`.
- A Python dict iterated in a loop is a sequence of fields in iteration
  order. A dict filled by a loop is `Dict.Build` over the writes performed,
  where a later write wins. Every result holds for every iteration order.
- Each loop of the source is a Dafny method with loop invariants. Each is
  proved equal to a function that states what it computes:
  - `HostBuilder.BuildHostDict` equals `BuildPayload`;
  - `HostBuilder.CreateHost` equals `CreateHostSpec`;
  - `ConfigParser.ConfigParse` equals `ParseConfig`;
  - `Workers.HostWorker.Run` is stated through `Drained`, and each outcome
    it records is `CreateHostSpec` of the taken mapping's contents.
  The lemmas state the source's promises about those functions.
- A configured `use_cache` or `verify` is passed on to the client as the
  configuration string itself. In particular, `verify = False` in the file
  reaches the client as the non-empty, and therefore true, string `"False"`.
  `ClientConfig.OptionsOutcome` states this as it is.

## Model

| member | source | states |
|---|---|---|
| PyValues.Get | foreman-host-builder.py:91-93 | `cfg[key]` is the stored value when the key is present, and a KeyError naming the key otherwise |
| Jobs.Lookup | foreman-host-builder.py:63 | the lookup finds nothing exactly when no field has the key; a found value is the value of a field with that key |
| Jobs.FieldValue | foreman-host-builder.py:63 | `host['name']` succeeds exactly when the job has the key, and otherwise raises KeyError('name') |
| Jobs.SetFieldLookup | foreman-host-builder.py:230 | after `host[key] = value`, the key holds the value and every other key is unchanged; the mapping grows only when the key was new |
| Jobs.SetFieldDistinct | foreman-host-builder.py:230 | `host[key] = value` keeps the mapping's keys distinct |
| Jobs.SetFieldTwice | foreman-host-builder.py:230 | setting a key twice is setting it once to the second value, in the place the first write gave it |
| Dict.BuildStep | foreman-host-builder.py:116 | one more `d[k] = v` write updates the dict built so far at `k` only |
| Dict.BuildKeys | foreman-host-builder.py:100-138 | a key is in a dict filled by a sequence of writes exactly when some write stores under it |
| Dict.BuildLastWrite | foreman-host-builder.py:100-138 | the last write to a key decides its value |
| Dict.BuildValueIsLastWrite | foreman-host-builder.py:100-138 | every value in the dict comes from its key's last write |
| Common.MapAllOk | foreman-host-builder.py:111-138 | a loop whose body may raise completes exactly when no pass raises, and then it holds every pass's result in order |
| Common.MapAllFirstError | foreman-host-builder.py:111-138 | the first pass that raises decides the exception that leaves the loop |
| Common.MapAllAppend | foreman-host-builder.py:111-138 | running the loop over `p + q` is running it over `p` and then, if that completed, over `q` |
| Common.MapAllStep | foreman-host-builder.py:171-179 | one more pass either extends the results or its exception ends the whole loop, whatever follows |
| PyInt.ParseDecimal | foreman-host-builder.py:67 | `int(str(n)) == n` for every integer `n` |
| ClientConfig.IntSetting | foreman-host-builder.py:66-79 | an absent timeout is its default; a present one is `int()` of the text, or a ValueError carrying that text when it is no integer |
| ClientConfig.OptionDefaults | foreman-host-builder.py:66-89 | with none of the five options configured, the client gets 60, 600, 600, True and False |
| ClientConfig.OptionsOutcome | foreman-host-builder.py:66-89 | options are built exactly when every configured timeout is an integer; each option is then its configured value or its default; otherwise the error is the ValueError of the first of `timeout`, `timeout_post`, `timeout_delete`, in that order, that is configured and not an integer |
| ClientConfig.ConfiguredTimeouts | foreman-host-builder.py:66-79 | timeouts configured as decimal text reach the client as those numbers |
| ClientConfig.Connect | foreman-host-builder.py:91-99 | the `Foreman(...)` constructor gets the built options and `server`, `username`, `password` and `api_version` from the config; it fails exactly when the options fail or one of those four entries is missing |
| HostBuilder.RefKindOf | foreman-host-builder.py:112-134 | exactly `hostgroup`, `subnet` and `compute_profile` name a referenced Foreman object |
| HostBuilder.IdFieldNamesDiffer | foreman-host-builder.py:116-136 | the three `<field>_id` keys differ from each other, from `host_parameters_attributes` and from every special key |
| HostBuilder.ActionStep | foreman-host-builder.py:111-138 | one loop pass either stores its entry in `host_dict` or only adds its warning |
| HostBuilder.BuildHostDict | foreman-host-builder.py:100-138 | the in-place loop over the job returns exactly the payload and warnings of `BuildPayload`, or the exception of the first `show` that raises |
| HostBuilder.CreateHost | foreman-host-builder.py:60-148 | the straight-line `create_host` returns exactly the outcome or exception of `CreateHostSpec` |
| HostBuilder.WritesOfJob | foreman-host-builder.py:111-138 | the payload writes are the writes of the job's fields, position by position |
| HostBuilder.PayloadKeys | foreman-host-builder.py:100-138 | a key is in the payload exactly when some job field writes it |
| HostBuilder.PayloadLastWrite | foreman-host-builder.py:111-138 | the last field that writes a key decides its value in the payload |
| HostBuilder.SpecialKeysNeverSent | foreman-host-builder.py:111-136 | `hostgroup`, `subnet`, `compute_profile` and `host_parameters` never appear in the payload under their own names |
| HostBuilder.PayloadOnlyFromJob | foreman-host-builder.py:100-138 | nothing else is added: every payload key is what some job field is sent as: `<field>_id` for a reference, `host_parameters_attributes` for `host_parameters`, the field's own key otherwise |
| HostBuilder.ResolvedReferenceSent | foreman-host-builder.py:112-131 | a reference whose resolved id is true is sent as `<field>_id` with that id, and never under its own name |
| HostBuilder.UnmatchedReferenceOmitted | foreman-host-builder.py:112-134 | a reference whose id is false is left out of the payload under both names |
| HostBuilder.UnmatchedReferenceWarned | foreman-host-builder.py:117-134 | a reference whose id is false is warned about, naming its kind and the value it was looked up by |
| HostBuilder.WarningsOfActions | foreman-host-builder.py:117-134 | the logged warnings are exactly those of the fields that produced one |
| HostBuilder.HostParametersRenamed | foreman-host-builder.py:135-136 | `host_parameters` is sent unchanged as `host_parameters_attributes` and not under its own name |
| HostBuilder.OrdinaryFieldCopied | foreman-host-builder.py:137-138 | every other field, `name` included, is copied with its value unchanged, unless a later special field is sent under the same key |
| HostBuilder.BuildPayloadRaises | foreman-host-builder.py:111-134 | building the payload raises exactly when a `show` call on one of the job's references raises |
| HostBuilder.BuildPayloadFirstRaise | foreman-host-builder.py:111-134 | the exception that leaves the loop is the first raising `show` call's |
| HostBuilder.ExistingHostSkipped | foreman-host-builder.py:104-109 | a non-empty search result returns at once with the first hit; `show` and `create` make no difference |
| HostBuilder.CreateHostRaises | foreman-host-builder.py:63-148 | an exception leaves `create_host` exactly when `name` is missing, the options or connection entries fail, the `Foreman(...)` constructor raises, the search raises, or (for a new host) a `show` raises or `create` raises something other than ForemanException |
| HostBuilder.CreateFailureSwallowed | foreman-host-builder.py:142-148 | a ForemanException from `create` is swallowed, and the call returns normally with the payload it tried to send |
| HostBuilder.SubmittedPayloadNamed | foreman-host-builder.py:137-143 | a submitted payload is the one built from the job, and it carries the job's `name` |
| Workers.JobQueue.constructor | foreman-host-builder.py:227 | a new queue is empty |
| Workers.JobQueue.Put | foreman-host-builder.py:231 | `put` appends the mapping itself, not a copy, at the back |
| Workers.JobQueue.TryTake | foreman-host-builder.py:46-49 | `get_nowait` removes and returns exactly the front mapping, or reports an empty queue and changes nothing |
| Workers.Drained | foreman-host-builder.py:44-49 | a run hands at most the queued mappings to `create_host` |
| Workers.HostWorker.constructor | foreman-host-builder.py:36-41 | a new worker has its queue and configuration, its stop flag clear, and nothing processed |
| Workers.HostWorker.Terminate | foreman-host-builder.py:55-57 | `terminate` sets the stop flag and changes nothing else |
| Workers.HostWorker.ProcessNext | foreman-host-builder.py:45-53 | one pass of `run` takes the front mapping and records the outcome or exception of `create_host` on its current contents; on an empty queue it changes nothing; the stop flag is untouched |
| Workers.HostWorker.Run | foreman-host-builder.py:43-53 | the run takes `Drained` mappings from the front, in FIFO order, each exactly once: none when the flag was already set, all of them with no interrupt, else as many as were done when the interrupt came. It records for each the `create_host` outcome or exception on that mapping's contents, and an exception does not stop it. The flag ends set exactly when it was set or the interrupt came |
| Workers.NameMapping | foreman-host-builder.py:230 | `hosts[key]['name'] = key` changes the one mapping object, so every key sharing that mapping sees the new name and every other mapping is untouched |
| Workers.NameOfStep | foreman-host-builder.py:229-230 | one more pass of the naming loop renames only the mapping of its own key |
| Workers.RenameStep | foreman-host-builder.py:229-230 | after each pass every mapping is named after the last key seen so far that shares it, or unchanged if none does |
| Workers.NamedAll | foreman-host-builder.py:229-230 | after the last pass every mapping is named after the last key of the whole map that shares it |
| Workers.EnqueueOne | foreman-host-builder.py:229-231 | one pass names the key's mapping and puts that mapping at the back of the queue |
| Workers.EnqueueHosts | foreman-host-builder.py:229-231 | the queue gains every key's mapping, by reference, in the hosts map's order, after what it held; each mapping is named after the last key that shares it, and is otherwise unchanged |
| Workers.NameOfLastKey | foreman-host-builder.py:229-230 | a mapping gets a name exactly when some key holds it, and that name is the last such key |
| Workers.UnsharedNamedByOwnKey | foreman-host-builder.py:229-230 | when no mapping is shared, each host's `name` is its own key and its other fields are unchanged |
| Workers.SharedMappingMisnamed | foreman-host-builder.py:229-231 | a mapping shared by two keys is named after a later key, so the earlier key's host is never named after that key |
| Workers.RunBatch | foreman-host-builder.py:227-246 | with one worker and no interrupt, the queue ends empty, every key's mapping reaches `create_host` exactly once in the hosts map's order, and each outcome is `create_host` on the contents the naming loop left in that mapping |
| ConfigParser.AllEntriesSplit | foreman-host-builder.py:170-172 | flattening the sections is flattening any prefix of them, then the rest |
| ConfigParser.AllEntriesFront | foreman-host-builder.py:170-172 | flattening starts with the first section's entries |
| ConfigParser.EntryDecides | foreman-host-builder.py:171-179 | an entry reached with all earlier ones accepted either extends the dict or decides how `config_parser` ends |
| ConfigParser.ConfigParse | foreman-host-builder.py:170-180 | the nested loops filling `cfg_dict` end exactly as `ParseConfig` says |
| ConfigParser.ParsedWhenAllAccepted | foreman-host-builder.py:170-180 | a dict is returned exactly when every entry of every section is non-empty and the password decodes |
| ConfigParser.EmptyValueMeansNoConfig | foreman-host-builder.py:173-175 | an empty value in any section means no dict is returned |
| ConfigParser.FirstRejectedEntryDecides | foreman-host-builder.py:171-177 | the first entry not accepted decides the end: an empty value exits with status 1 naming that entry; a password that does not decode raises the decoder's exception |
| ConfigParser.ExitNamesEmptyEntry | foreman-host-builder.py:173-175 | every exit has status 1 and names an entry whose value is empty |
| ConfigParser.ParsedKeys | foreman-host-builder.py:170-180 | the returned dict's keys are exactly the names of all entries |
| ConfigParser.WrittenNames | foreman-host-builder.py:176-179 | a dict written once per entry has exactly the entries' names as keys |
| ConfigParser.ParsedLastEntry | foreman-host-builder.py:176-179 | the last entry with a name decides its value: the decoded password, or the value itself, so later sections override earlier ones |

## Left out

- The Foreman client library is a network API: the `Foreman(...)` constructor, `hosts.index`, `*.show` and `hosts.create`. It is the `Client` parameter. The constructor is modelled only as `construct`, which says whether it raises on the arguments `Connect` builds. The `['results']` and `['id']` projections of its replies are part of what `search` and `show` return.
- The search text `'name ~ %s.%%'` is not modelled: `search` receives the host's name value.
- HostBuilder.ExistingHostSkipped: the warning logged for an existing host reads `_results[0]['id']`. A first hit without an `id` would raise there; the model assumes the hit carries one.
- Workers.HostWorker.Run: models one sequential worker. The `threads` worker threads sharing the queue, `threading.Event`, daemon flags, `start`/`join`, and the `SignalHandler` that calls `terminate` and joins each worker (lines 23-32, 233-246) are concurrency. The interrupt is the `signalAfter` parameter: the number of jobs after which `terminate` is called.
- Workers.RunBatch: models `main` with one worker and no interrupt.
- Logging and wall-clock timing (`time.time()`, `%.2fs`) are I/O and floating point. Only the unmatched-reference warnings are recorded, as data.
- The following are I/O or third-party parsers and are not modelled:
  - YAML loading (`yaml_template_parser`);
  - option parsing (`parse_options`);
  - reading the configuration file;
  - creating the default configuration file, and its exit status 1 when that write fails (lines 155-168).
  `config_parser` starts from the parsed sections.
- Configuration sections are given as `(name, value)` entries as `cfg.items(section)` yields them. SafeConfigParser's `DEFAULT` section, its lower-casing of names and its `%(name)s` interpolation, including the errors interpolation raises, are not modelled.
- `base64.b64decode` is the `decode` parameter of `ConfigParser.ParseConfig`. Its outcome is given, not modelled, and so is `b64encode` in the default file.
- Python 2 dict iteration order is unspecified. Jobs, the hosts map and the sections are given as sequences, so every result holds for every order.
- YAML values: jobs are mappings with string keys, and values hold no floating-point numbers. A host entry that is not a mapping would make `main` raise while naming it; this is not modelled.
- Python 2's `int()` also accepts white space between the sign and the digits, and non-ASCII digits. `PyInt.ParseInt` accepts only optional outer white space, an optional sign and ASCII digits.
- HostBuilder.ResolvedReferenceSent: proved only when no later job field is itself named `<field>_id`. Such a field would overwrite the resolved id, which `PayloadLastWrite` states.
- HostBuilder.UnmatchedReferenceOmitted: proved only when no job field is itself named `<field>_id`. Such a field would be copied as an ordinary field.
- HostBuilder.HostParametersRenamed: proved only when no later job field is itself named `host_parameters_attributes`.
