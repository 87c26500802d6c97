/** `create_host`: the existence check, the create payload built field by
    field from a job, and the create call whose Foreman failure is logged and
    swallowed. The Foreman API is a value of type `Client` whose three
    operations are given, not modelled. */
module HostBuilder {
  import opened Common
  import opened PyValues
  import opened Jobs
  import opened ClientConfig
  import Dict

  /** The job fields that name a Foreman object and are sent as its id. */
  datatype RefKind = Hostgroup | Subnet | ComputeProfile {
    /** The job field holding the object's name. */
    function FieldName(): string
    {
      match this
      case Hostgroup => "hostgroup"
      case Subnet => "subnet"
      case ComputeProfile => "compute_profile"
    }

    /** The payload field that carries the resolved id. */
    function IdFieldName(): string
    {
      FieldName() + "_id"
    }
  }

  const HostParameters: string := "host_parameters"
  const HostParametersAttributes: string := "host_parameters_attributes"

  /** The Foreman API as `create_host` uses it, each call returning its
      answer or raising:
      - `construct(conn)`: the constructor `Foreman(url=..., auth=..., ...)`;
      - `search(conn, name)`: the `results` of `hosts.index(search='name ~ <name>.%')`;
      - `show(conn, kind, ident)`: the `id` of the `hostgroups`, `subnets` or
        `compute_profiles` record `ident`;
      - `create(conn, payload)`: `hosts.create(host=payload)`. */
  datatype Client = Client(
    construct: Connection -> Result<(), Exception>,
    search: (Connection, Value) -> Result<seq<Value>, Exception>,
    show: (Connection, RefKind, Value) -> Result<Value, Exception>,
    create: (Connection, map<string, Value>) -> Result<Value, Exception>)

  /** The warning logged for a reference whose resolved id is false. */
  datatype Warning = Unmatched(kind: RefKind, ident: Value)

  /** What one job field contributes: a payload entry, or only a warning. */
  datatype Action = Put(key: string, value: Value) | Warn(warning: Warning)

  /** The payload and the warnings logged while building it. */
  datatype Built = Built(payload: map<string, Value>, warnings: seq<Warning>)

  /** What `create_host` did when it returned (it always returns True). */
  datatype Outcome =
    | AlreadyExists(existing: Value)
    | Submitted(payload: map<string, Value>, warnings: seq<Warning>, reply: Result<Value, Exception>)

  /** The reference kind a job field names, if it names one. */
  function RefKindOf(key: string): (r: Option<RefKind>)
    ensures r.Some? ==> r.value.FieldName() == key
    ensures r.None? ==> forall kind: RefKind :: kind.FieldName() != key
  {
    if key == "hostgroup" then Some(Hostgroup)
    else if key == "subnet" then Some(Subnet)
    else if key == "compute_profile" then Some(ComputeProfile)
    else None
  }

  /** The four job fields that are never copied under their own name. */
  predicate IsSpecialKey(key: string)
  {
    RefKindOf(key).Some? || key == HostParameters
  }

  /** The four payload fields a special job field is written to. */
  predicate IsDerivedKey(key: string)
  {
    key == Hostgroup.IdFieldName() || key == Subnet.IdFieldName() ||
    key == ComputeProfile.IdFieldName() || key == HostParametersAttributes
  }

  /** The payload key a job field named `field` is sent as, if it is sent:
      its own name, `<field>_id`, or `host_parameters_attributes`. */
  predicate SendsAs(field: string, key: string)
  {
    match RefKindOf(field)
    case Some(kind) => key == kind.IdFieldName()
    case None => key == (if field == HostParameters then HostParametersAttributes else field)
  }

  /** One pass of the `for key in host` loop: a reference is resolved and sent
      as `<field>_id` when its id is true, else only warned about;
      `host_parameters` is renamed; anything else is copied. */
  function FieldAction(f: Field, client: Client, conn: Connection): Result<Action, Exception>
  {
    match RefKindOf(f.key)
    case Some(kind) =>
      var id :- client.show(conn, kind, f.value);
      if Truthy(id) then Ok(Put(kind.IdFieldName(), id)) else Ok(Warn(Unmatched(kind, f.value)))
    case None =>
      if f.key == HostParameters then Ok(Put(HostParametersAttributes, f.value))
      else Ok(Put(f.key, f.value))
  }

  function FieldActions(client: Client, conn: Connection): Field -> Result<Action, Exception>
  {
    f => FieldAction(f, client, conn)
  }

  /** The dict write an action performs. */
  function WriteOf(a: Action): Option<(string, Value)>
  {
    match a
    case Put(k, v) => Some((k, v))
    case Warn(_) => None
  }

  function PayloadWrites(actions: seq<Action>): (r: seq<Option<(string, Value)>>)
    ensures |r| == |actions| && forall i :: 0 <= i < |actions| ==> r[i] == WriteOf(actions[i])
  {
    seq(|actions|, i requires 0 <= i < |actions| => WriteOf(actions[i]))
  }

  function Warnings(actions: seq<Action>): seq<Warning>
  {
    if actions == [] then []
    else
      var last := actions[|actions| - 1];
      Warnings(actions[..|actions| - 1]) + if last.Warn? then [last.warning] else []
  }

  /** The `host_dict` that the loop over `job` builds, with the warnings it
      logs; a `show` call that raises ends the loop with its exception. */
  function BuildPayload(job: Job, client: Client, conn: Connection): Result<Built, Exception>
  {
    var actions :- MapAll(job, FieldActions(client, conn));
    Ok(Built(Dict.Build(PayloadWrites(actions)), Warnings(actions)))
  }

  /** `create_host(cfg, host)`, from the first use of `host['name']` to the
      final `return True`; an `Err` is the exception that leaves it. */
  function CreateHostSpec(cfg: map<string, string>, client: Client, job: Job): Result<Outcome, Exception>
  {
    var name :- FieldValue(job, "name");
    var conn :- Connect(cfg);
    var _ :- client.construct(conn);
    var found :- client.search(conn, name);
    if found != [] then Ok(AlreadyExists(found[0]))
    else
      var built :- BuildPayload(job, client, conn);
      var reply := client.create(conn, built.payload);
      if reply.Err? && !reply.error.ForemanException? then Err(reply.error)
      else Ok(Submitted(built.payload, built.warnings, reply))
  }

  /** Appending one action extends the dict by its write and the warnings
      by its warning. */
  lemma ActionStep(actions: seq<Action>, a: Action)
    ensures Dict.Build(PayloadWrites(actions + [a])) ==
      match a
      case Put(k, v) => Dict.Build(PayloadWrites(actions))[k := v]
      case Warn(_) => Dict.Build(PayloadWrites(actions))
    ensures Warnings(actions + [a]) == Warnings(actions) + if a.Warn? then [a.warning] else []
  {
    assert PayloadWrites(actions + [a])[..|actions|] == PayloadWrites(actions);
    assert (actions + [a])[..|actions|] == actions;
  }

  /** The `for key in host` loop of `create_host`, filling `host_dict` in
      place and logging a warning for each reference with a false id. */
  method BuildHostDict(job: Job, client: Client, conn: Connection) returns (r: Result<Built, Exception>)
    ensures r == BuildPayload(job, client, conn)
  {
    var step := FieldActions(client, conn);
    var hostDict: map<string, Value> := map[];
    var warnings: seq<Warning> := [];
    ghost var actions: seq<Action> := [];
    var i := 0;
    while i < |job|
      invariant 0 <= i <= |job|
      invariant MapAll(job[..i], step) == Ok(actions)
      invariant hostDict == Dict.Build(PayloadWrites(actions))
      invariant warnings == Warnings(actions)
    {
      var f := job[i];
      assert job[..i + 1] == job[..i] + [f] && job == job[..i] + [f] + job[i + 1..];
      MapAllStep(job[..i], f, job[i + 1..], step, actions);
      var kind := RefKindOf(f.key);
      if kind.Some? {
        var id := client.show(conn, kind.value, f.value);
        if id.Err? {
          return Err(id.error);
        }
        if Truthy(id.value) {
          hostDict := hostDict[kind.value.IdFieldName() := id.value];
        } else {
          warnings := warnings + [Unmatched(kind.value, f.value)];
        }
      } else if f.key == HostParameters {
        hostDict := hostDict[HostParametersAttributes := f.value];
      } else {
        hostDict := hostDict[f.key := f.value];
      }
      ActionStep(actions, step(f).value);
      actions := actions + [step(f).value];
      i := i + 1;
    }
    assert job[..i] == job;
    return Ok(Built(hostDict, warnings));
  }

  /** `create_host` as the source writes it: straight-line checks, the
      payload loop, then the create call whose ForemanException is logged
      and swallowed. */
  method CreateHost(cfg: map<string, string>, client: Client, job: Job) returns (r: Result<Outcome, Exception>)
    ensures r == CreateHostSpec(cfg, client, job)
  {
    var name := FieldValue(job, "name");
    if name.Err? {
      return Err(name.error);
    }
    var conn := Connect(cfg);
    if conn.Err? {
      return Err(conn.error);
    }
    var api := client.construct(conn.value);
    if api.Err? {
      return Err(api.error);
    }
    var found := client.search(conn.value, name.value);
    if found.Err? {
      return Err(found.error);
    }
    if found.value != [] {
      return Ok(AlreadyExists(found.value[0]));
    }
    var built := BuildHostDict(job, client, conn.value);
    if built.Err? {
      return Err(built.error);
    }
    var reply := client.create(conn.value, built.value.payload);
    if reply.Err? && !reply.error.ForemanException? {
      return Err(reply.error);
    }
    return Ok(Submitted(built.value.payload, built.value.warnings, reply));
  }

  // ---------------------------------------------------------------------
  // What the payload holds

  /** Field `f` makes the loop store something under `key`. */
  ghost predicate FieldWrites(f: Field, client: Client, conn: Connection, key: string)
  {
    var a := FieldAction(f, client, conn);
    a.Ok? && a.value.Put? && a.value.key == key
  }

  lemma IdFieldNamesDiffer(kind: RefKind, other: RefKind)
    ensures kind.IdFieldName() == other.IdFieldName() ==> kind == other
    ensures kind.IdFieldName() != HostParametersAttributes
    ensures !IsSpecialKey(kind.IdFieldName())
  {
    var id := kind.IdFieldName();
    assert id[|id| - 3..] == "_id";
  }

  /** The dict writes of a built job are the writes of its fields, position
      by position. */
  lemma {:induction false} WritesOfJob(job: Job, client: Client, conn: Connection, actions: seq<Action>)
    requires MapAll(job, FieldActions(client, conn)) == Ok(actions)
    ensures |actions| == |job|
    ensures forall i :: 0 <= i < |job| ==> FieldAction(job[i], client, conn) == Ok(actions[i])
    ensures forall i, k :: Dict.WritesAt(PayloadWrites(actions), i, k) <==> 0 <= i < |job| && FieldWrites(job[i], client, conn, k)
  {
    MapAllOk(job, FieldActions(client, conn));
  }

  /** A key is in the payload exactly when some job field writes it. */
  lemma PayloadKeys(job: Job, client: Client, conn: Connection, b: Built)
    requires BuildPayload(job, client, conn) == Ok(b)
    ensures forall k :: k in b.payload <==> exists i :: 0 <= i < |job| && FieldWrites(job[i], client, conn, k)
  {
    var actions := MapAll(job, FieldActions(client, conn)).value;
    WritesOfJob(job, client, conn, actions);
    Dict.BuildKeys(PayloadWrites(actions));
    forall k
      ensures k in b.payload <==> exists i :: 0 <= i < |job| && FieldWrites(job[i], client, conn, k)
    {
      if k in b.payload {
        var i :| Dict.WritesAt(PayloadWrites(actions), i, k);
      }
      if exists i :: 0 <= i < |job| && FieldWrites(job[i], client, conn, k) {
        var i :| 0 <= i < |job| && FieldWrites(job[i], client, conn, k);
        assert Dict.WritesAt(PayloadWrites(actions), i, k);
      }
    }
  }

  /** The last field that writes a key decides its value (later writes win). */
  lemma PayloadLastWrite(job: Job, client: Client, conn: Connection, b: Built, i: int, key: string, value: Value)
    requires BuildPayload(job, client, conn) == Ok(b)
    requires 0 <= i < |job| && FieldAction(job[i], client, conn) == Ok(Put(key, value))
    requires forall j :: i < j < |job| ==> !FieldWrites(job[j], client, conn, key)
    ensures key in b.payload && b.payload[key] == value
  {
    var actions := MapAll(job, FieldActions(client, conn)).value;
    WritesOfJob(job, client, conn, actions);
    var writes := PayloadWrites(actions);
    assert Dict.WritesAt(writes, i, key);
    forall j | i < j < |writes|
      ensures !Dict.WritesAt(writes, j, key)
    {
      assert !FieldWrites(job[j], client, conn, key);
    }
    Dict.BuildLastWrite(writes, i, key);
  }

  /** `hostgroup`, `subnet`, `compute_profile` and `host_parameters` never
      appear in the payload under their own names. */
  lemma SpecialKeysNeverSent(job: Job, client: Client, conn: Connection, b: Built, key: string)
    requires BuildPayload(job, client, conn) == Ok(b)
    requires IsSpecialKey(key)
    ensures key !in b.payload
  {
    PayloadKeys(job, client, conn, b);
    forall i | 0 <= i < |job|
      ensures !FieldWrites(job[i], client, conn, key)
    {
      match RefKindOf(job[i].key)
      case Some(kind) => IdFieldNamesDiffer(kind, kind);
      case None =>
    }
  }

  /** Nothing else is added: every payload key is an ordinary field of the
      job, or the key that one of the job's special fields is written to. */
  lemma PayloadOnlyFromJob(job: Job, client: Client, conn: Connection, b: Built, key: string)
    requires BuildPayload(job, client, conn) == Ok(b)
    requires key in b.payload
    ensures exists i :: 0 <= i < |job| && SendsAs(job[i].key, key)
  {
    PayloadKeys(job, client, conn, b);
    var i :| 0 <= i < |job| && FieldWrites(job[i], client, conn, key);
  }

  /** A reference whose id is true is sent as `<field>_id` with that id,
      unless a later job field writes the same key. */
  lemma ResolvedReferenceSent(job: Job, client: Client, conn: Connection, b: Built, i: int, kind: RefKind, id: Value)
    requires BuildPayload(job, client, conn) == Ok(b)
    requires DistinctKeys(job)
    requires 0 <= i < |job| && job[i].key == kind.FieldName()
    requires client.show(conn, kind, job[i].value) == Ok(id) && Truthy(id)
    requires forall j :: i < j < |job| ==> job[j].key != kind.IdFieldName()
    ensures kind.IdFieldName() in b.payload && b.payload[kind.IdFieldName()] == id
    ensures kind.FieldName() !in b.payload
  {
    forall j | i < j < |job|
      ensures !FieldWrites(job[j], client, conn, kind.IdFieldName())
    {
      IdFieldNamesDiffer(kind, kind);
      match RefKindOf(job[j].key)
      case Some(other) => IdFieldNamesDiffer(other, kind);
      case None =>
    }
    PayloadLastWrite(job, client, conn, b, i, kind.IdFieldName(), id);
    SpecialKeysNeverSent(job, client, conn, b, kind.FieldName());
  }

  /** A reference whose id is false is left out of the payload under both
      names (when no job field is itself named `<field>_id`). That it does
      not stop the build is `BuildPayloadRaises`. */
  lemma UnmatchedReferenceOmitted(job: Job, client: Client, conn: Connection, b: Built, i: int, kind: RefKind)
    requires BuildPayload(job, client, conn) == Ok(b)
    requires DistinctKeys(job)
    requires 0 <= i < |job| && job[i].key == kind.FieldName()
    requires client.show(conn, kind, job[i].value).Ok? && !Truthy(client.show(conn, kind, job[i].value).value)
    requires forall j :: 0 <= j < |job| ==> job[j].key != kind.IdFieldName()
    ensures kind.IdFieldName() !in b.payload && kind.FieldName() !in b.payload
  {
    PayloadKeys(job, client, conn, b);
    forall j | 0 <= j < |job|
      ensures !FieldWrites(job[j], client, conn, kind.IdFieldName())
    {
      if j != i {
        assert job[j].key != job[i].key;
      }
      IdFieldNamesDiffer(kind, kind);
      match RefKindOf(job[j].key)
      case Some(other) => IdFieldNamesDiffer(other, kind);
      case None =>
    }
    SpecialKeysNeverSent(job, client, conn, b, kind.FieldName());
  }

  /** ... and a warning naming the reference is logged. */
  lemma UnmatchedReferenceWarned(job: Job, client: Client, conn: Connection, b: Built, i: int, kind: RefKind)
    requires BuildPayload(job, client, conn) == Ok(b)
    requires 0 <= i < |job| && job[i].key == kind.FieldName()
    requires client.show(conn, kind, job[i].value).Ok? && !Truthy(client.show(conn, kind, job[i].value).value)
    ensures Unmatched(kind, job[i].value) in b.warnings
  {
    var actions := MapAll(job, FieldActions(client, conn)).value;
    MapAllOk(job, FieldActions(client, conn));
    assert FieldAction(job[i], client, conn) == Ok(actions[i]);
    WarningsOfActions(actions, Unmatched(kind, job[i].value));
  }

  /** The logged warnings are those of the fields that produced one. */
  lemma {:induction false} WarningsOfActions(actions: seq<Action>, w: Warning)
    ensures w in Warnings(actions) <==> exists i :: 0 <= i < |actions| && actions[i] == Warn(w)
  {
    if actions != [] {
      var p := actions[..|actions| - 1];
      WarningsOfActions(p, w);
      if exists i :: 0 <= i < |actions| && actions[i] == Warn(w) {
        var i :| 0 <= i < |actions| && actions[i] == Warn(w);
        if i < |p| {
          assert p[i] == Warn(w);
        }
      }
      if w in Warnings(p) {
        var i :| 0 <= i < |p| && p[i] == Warn(w);
        assert actions[i] == Warn(w);
      }
    }
  }

  /** `host_parameters` is sent unchanged as `host_parameters_attributes`,
      unless a later job field has that name. */
  lemma HostParametersRenamed(job: Job, client: Client, conn: Connection, b: Built, i: int)
    requires BuildPayload(job, client, conn) == Ok(b)
    requires DistinctKeys(job)
    requires 0 <= i < |job| && job[i].key == HostParameters
    requires forall j :: i < j < |job| ==> job[j].key != HostParametersAttributes
    ensures HostParametersAttributes in b.payload && b.payload[HostParametersAttributes] == job[i].value
    ensures HostParameters !in b.payload
  {
    forall j | i < j < |job|
      ensures !FieldWrites(job[j], client, conn, HostParametersAttributes)
    {
      assert job[j].key != job[i].key;
      match RefKindOf(job[j].key)
      case Some(other) => IdFieldNamesDiffer(other, other);
      case None =>
    }
    PayloadLastWrite(job, client, conn, b, i, HostParametersAttributes, job[i].value);
    SpecialKeysNeverSent(job, client, conn, b, HostParameters);
  }

  /** Every other field, `name` included, is copied with its value unchanged,
      unless a later special field writes the same key. */
  lemma OrdinaryFieldCopied(job: Job, client: Client, conn: Connection, b: Built, i: int)
    requires BuildPayload(job, client, conn) == Ok(b)
    requires 0 <= i < |job| && !IsSpecialKey(job[i].key)
    requires forall j :: i < j < |job| ==> !FieldWrites(job[j], client, conn, job[i].key)
    ensures job[i].key in b.payload && b.payload[job[i].key] == job[i].value
  {
    PayloadLastWrite(job, client, conn, b, i, job[i].key, job[i].value);
  }

  /** Building fails exactly when a `show` call on a reference raises; the
      first such exception is the one that leaves `create_host`. */
  lemma BuildPayloadRaises(job: Job, client: Client, conn: Connection)
    ensures BuildPayload(job, client, conn).Err? <==>
      exists i :: 0 <= i < |job| && RefKindOf(job[i].key).Some? &&
        client.show(conn, RefKindOf(job[i].key).value, job[i].value).Err?
  {
    MapAllOk(job, FieldActions(client, conn));
  }

  lemma BuildPayloadFirstRaise(job: Job, client: Client, conn: Connection, i: int, kind: RefKind)
    requires 0 <= i < |job| && job[i].key == kind.FieldName()
    requires client.show(conn, kind, job[i].value).Err?
    requires forall j :: 0 <= j < i ==> FieldAction(job[j], client, conn).Ok?
    ensures BuildPayload(job, client, conn) == Err(client.show(conn, kind, job[i].value).error)
  {
    MapAllFirstError(job, FieldActions(client, conn), i);
  }

  // ---------------------------------------------------------------------
  // What create_host does

  /** An existing host short-circuits: `create_host` returns at once, and
      what `show` and `create` would do makes no difference. */
  lemma ExistingHostSkipped(cfg: map<string, string>, client: Client, other: Client, job: Job, found: seq<Value>)
    requires Lookup(job, "name").Some? && Connect(cfg).Ok?
    requires client.construct(Connect(cfg).value).Ok? && other.construct(Connect(cfg).value).Ok?
    requires client.search(Connect(cfg).value, Lookup(job, "name").value) == Ok(found)
    requires other.search(Connect(cfg).value, Lookup(job, "name").value) == Ok(found)
    requires found != []
    ensures CreateHostSpec(cfg, client, job) == Ok(AlreadyExists(found[0]))
    ensures CreateHostSpec(cfg, other, job) == CreateHostSpec(cfg, client, job)
  {
  }

  /** Exceptions leave `create_host` only from a missing `name`, a bad
      timeout or missing connection entry, a raising constructor, a failed
      search, a raising `show`,
      or a create failure that is no ForemanException; on every other path
      past the existence check it returns True with the payload it sent. */
  lemma CreateHostRaises(cfg: map<string, string>, client: Client, job: Job)
    ensures CreateHostSpec(cfg, client, job).Err? <==>
      || Lookup(job, "name").None?
      || Connect(cfg).Err?
      || client.construct(Connect(cfg).value).Err?
      || client.search(Connect(cfg).value, Lookup(job, "name").value).Err?
      || (client.search(Connect(cfg).value, Lookup(job, "name").value) == Ok([]) &&
          (|| BuildPayload(job, client, Connect(cfg).value).Err?
           || (var reply := client.create(Connect(cfg).value, BuildPayload(job, client, Connect(cfg).value).value.payload);
               reply.Err? && !reply.error.ForemanException?)))
  {
  }

  /** A ForemanException from `create` is logged and swallowed: the call
      still returns True, with the payload it tried to send. */
  lemma CreateFailureSwallowed(cfg: map<string, string>, client: Client, job: Job, b: Built, message: string)
    requires Lookup(job, "name").Some? && Connect(cfg).Ok? && client.construct(Connect(cfg).value).Ok?
    requires client.search(Connect(cfg).value, Lookup(job, "name").value) == Ok([])
    requires BuildPayload(job, client, Connect(cfg).value) == Ok(b)
    requires client.create(Connect(cfg).value, b.payload) == Err(ForemanException(message))
    ensures CreateHostSpec(cfg, client, job) == Ok(Submitted(b.payload, b.warnings, Err(ForemanException(message))))
  {
  }

  /** A submitted payload is the one built from the job, and it carries the
      job's name. */
  lemma SubmittedPayloadNamed(cfg: map<string, string>, client: Client, job: Job)
    requires DistinctKeys(job)
    requires CreateHostSpec(cfg, client, job).Ok? && CreateHostSpec(cfg, client, job).value.Submitted?
    ensures BuildPayload(job, client, Connect(cfg).value) ==
      Ok(Built(CreateHostSpec(cfg, client, job).value.payload, CreateHostSpec(cfg, client, job).value.warnings))
    ensures "name" in CreateHostSpec(cfg, client, job).value.payload
    ensures CreateHostSpec(cfg, client, job).value.payload["name"] == Lookup(job, "name").value
  {
    var b := BuildPayload(job, client, Connect(cfg).value).value;
    var conn := Connect(cfg).value;
    var i :| 0 <= i < |job| && job[i] == Field("name", Lookup(job, "name").value);
    forall j | i < j < |job|
      ensures !FieldWrites(job[j], client, conn, "name")
    {
      assert job[j].key != job[i].key;
      match RefKindOf(job[j].key)
      case Some(kind) => IdFieldNamesDiffer(kind, kind);
      case None =>
    }
    OrdinaryFieldCopied(job, client, conn, b, i);
  }
}
