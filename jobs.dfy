/** A job: the field mapping of one host from the YAML template, as a
    sequence of (key, value) fields in the dict's iteration order. */
module Jobs {
  import opened Common
  import opened PyValues

  datatype Field = Field(key: string, value: Value)

  type Job = seq<Field>

  /** A Python dict never holds the same key twice. */
  ghost predicate DistinctKeys(job: Job)
  {
    forall i, j :: 0 <= i < j < |job| ==> job[i].key != job[j].key
  }

  /** The value stored under `key`, if any. */
  function Lookup(job: Job, key: string): (r: Option<Value>)
    ensures r.None? <==> forall i :: 0 <= i < |job| ==> job[i].key != key
    ensures r.Some? ==> exists i :: 0 <= i < |job| && job[i] == Field(key, r.value)
  {
    if job == [] then None
    else if job[0].key == key then Some(job[0].value)
    else
      var r := Lookup(job[1..], key);
      assert forall i :: 0 < i < |job| ==> job[i] == job[1..][i - 1];
      r
  }

  /** `host[key]`: the value, or the KeyError a missing key raises. */
  function FieldValue(job: Job, key: string): (r: Result<Value, Exception>)
    ensures r.Ok? <==> Lookup(job, key).Some?
    ensures r.Ok? ==> r.value == Lookup(job, key).value
    ensures r.Err? ==> r.error == KeyError(key)
  {
    match Lookup(job, key)
    case Some(v) => Ok(v)
    case None => Err(KeyError(key))
  }

  /** `host[key] = value`: an existing field keeps its place and takes the
      new value; a new key is added at the end. */
  function SetField(job: Job, key: string, value: Value): Job
  {
    if job == [] then [Field(key, value)]
    else if job[0].key == key then [Field(key, value)] + job[1..]
    else [job[0]] + SetField(job[1..], key, value)
  }

  /** After `host[key] = value` the key holds the new value, every other key
      what it held before, and the mapping grows only by a new key. */
  lemma {:induction false} SetFieldLookup(job: Job, key: string, value: Value)
    ensures Lookup(SetField(job, key, value), key) == Some(value)
    ensures forall k :: k != key ==> Lookup(SetField(job, key, value), k) == Lookup(job, k)
    ensures |SetField(job, key, value)| == if Lookup(job, key).Some? then |job| else |job| + 1
  {
    if job != [] && job[0].key != key {
      var r, rest := SetField(job, key, value), SetField(job[1..], key, value);
      SetFieldLookup(job[1..], key, value);
      assert r[1..] == rest;
      forall k | k != key
        ensures Lookup(r, k) == Lookup(job, k)
      {
        if job[0].key != k {
          assert Lookup(r, k) == Lookup(rest, k);
        }
      }
    }
  }

  /** `host[key] = value` keeps the keys of a mapping distinct. */
  lemma {:induction false} SetFieldDistinct(job: Job, key: string, value: Value)
    requires DistinctKeys(job)
    ensures DistinctKeys(SetField(job, key, value))
  {
    if job != [] && job[0].key != key {
      var r, rest := SetField(job, key, value), SetField(job[1..], key, value);
      assert DistinctKeys(job[1..]) by {
        forall i, j | 0 <= i < j < |job[1..]|
          ensures job[1..][i].key != job[1..][j].key
        {
          assert job[1..][i] == job[i + 1] && job[1..][j] == job[j + 1];
        }
      }
      SetFieldDistinct(job[1..], key, value);
      assert Lookup(job[1..], job[0].key).None? by {
        forall i | 0 <= i < |job[1..]|
          ensures job[1..][i].key != job[0].key
        {
          assert job[1..][i] == job[i + 1];
        }
      }
      SetFieldLookup(job[1..], key, value);
      assert r[1..] == rest;
      forall i, j | 0 <= i < j < |r|
        ensures r[i].key != r[j].key
      {
        if i == 0 {
          assert r[j] == rest[j - 1];
        } else {
          assert r[i] == rest[i - 1] && r[j] == rest[j - 1];
        }
      }
    }
  }

  /** Setting a key twice is setting it once to the second value: the field
      keeps the place the first write gave it. */
  lemma {:induction false} SetFieldTwice(job: Job, key: string, first: Value, second: Value)
    ensures SetField(SetField(job, key, first), key, second) == SetField(job, key, second)
  {
    if job != [] && job[0].key != key {
      SetFieldTwice(job[1..], key, first, second);
      assert SetField(job, key, first)[1..] == SetField(job[1..], key, first);
    }
  }
}
