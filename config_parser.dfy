/** `config_parser` once the file is read: the entries of every section are
    flattened into one dict, an empty value ends the program with exit
    status 1, and the password is stored base64-decoded. */
module ConfigParser {
  import opened Common
  import opened PyValues
  import Dict

  /** One `name = value` line of a section. */
  datatype Entry = Entry(name: string, value: string)

  /** One `[section]` of the configuration file, with its entries in order. */
  datatype Section = Section(name: string, entries: seq<Entry>)

  /** How `config_parser` ends. */
  datatype ConfigResult =
    | Parsed(cfg: map<string, string>)
    | Exit(status: int, emptyName: string)  // `sys.exit(1)` after logging the empty entry's name
    | Raised(error: Exception)              // the password did not decode

  /** Why the walk over the entries stops early. */
  datatype Stop = EmptyValue(name: string) | DecodeFailed(error: Exception)

  const EmptyValueStatus: int := 1
  const PasswordKey: string := "password"

  /** The entries of all sections, section after section. */
  function AllEntries(sections: seq<Section>): seq<Entry>
  {
    if sections == [] then []
    else AllEntries(sections[..|sections| - 1]) + sections[|sections| - 1].entries
  }

  /** One pass of the inner loop: an empty value stops everything; the
      password is decoded with `decode` (`base64.b64decode`); any other entry
      is stored as it is. */
  function EntryWrite(entry: Entry, decode: string -> Result<string, Exception>): Result<Option<(string, string)>, Stop>
  {
    if entry.value == "" then Err(EmptyValue(entry.name))
    else if entry.name == PasswordKey then
      match decode(entry.value)
      case Ok(plain) => Ok(Some((PasswordKey, plain)))
      case Err(e) => Err(DecodeFailed(e))
    else Ok(Some((entry.name, entry.value)))
  }

  function EntryWrites(decode: string -> Result<string, Exception>): Entry -> Result<Option<(string, string)>, Stop>
  {
    entry => EntryWrite(entry, decode)
  }

  /** What `config_parser` returns, or how it ends instead. */
  function ParseConfig(sections: seq<Section>, decode: string -> Result<string, Exception>): ConfigResult
  {
    match MapAll(AllEntries(sections), EntryWrites(decode))
    case Ok(writes) => Parsed(Dict.Build(writes))
    case Err(stop) =>
      match stop
      case EmptyValue(name) => Exit(EmptyValueStatus, name)
      case DecodeFailed(e) => Raised(e)
  }

  /** `config_parser`'s nested loops over the sections and their entries,
      filling `cfg_dict` in place. */
  method ConfigParse(sections: seq<Section>, decode: string -> Result<string, Exception>) returns (r: ConfigResult)
    ensures r == ParseConfig(sections, decode)
  {
    var cfgDict: map<string, string> := map[];
    ghost var seen: seq<Entry> := [];
    ghost var todo: seq<Entry> := AllEntries(sections);
    ghost var writes: seq<Option<(string, string)>> := [];
    assert sections[0..] == sections;
    var s := 0;
    while s < |sections|
      invariant 0 <= s <= |sections|
      invariant AllEntries(sections) == seen + todo
      invariant todo == AllEntries(sections[s..])
      invariant MapAll(seen, EntryWrites(decode)) == Ok(writes)
      invariant cfgDict == Dict.Build(writes)
    {
      var entries := sections[s].entries;
      AllEntriesFront(sections[s..]);
      assert sections[s..][1..] == sections[s + 1..];
      var i := 0;
      while i < |entries|
        invariant 0 <= i <= |entries|
        invariant AllEntries(sections) == seen + todo
        invariant todo == entries[i..] + AllEntries(sections[s + 1..])
        invariant MapAll(seen, EntryWrites(decode)) == Ok(writes)
        invariant cfgDict == Dict.Build(writes)
      {
        var name, value := entries[i].name, entries[i].value;
        assert todo[0] == entries[i] && todo[1..] == entries[i + 1..] + AllEntries(sections[s + 1..]);
        EntryDecides(sections, decode, seen, todo, writes);
        if value == "" {
          return Exit(EmptyValueStatus, name);
        }
        if name == PasswordKey {
          var plain := decode(value);
          if plain.Err? {
            return Raised(plain.error);
          }
          cfgDict := cfgDict[PasswordKey := plain.value];
        } else {
          cfgDict := cfgDict[name := value];
        }
        ghost var w := EntryWrite(entries[i], decode).value;
        Dict.BuildStep(writes, w);
        seen, todo := seen + [entries[i]], todo[1..];
        writes := writes + [w];
        i := i + 1;
      }
      s := s + 1;
    }
    assert seen + [] == seen;
    return Parsed(cfgDict);
  }

  /** The next entry, reached with every earlier entry accepted, either
      extends the walk or decides how `config_parser` ends. */
  lemma EntryDecides(sections: seq<Section>, decode: string -> Result<string, Exception>,
                     seen: seq<Entry>, todo: seq<Entry>, writes: seq<Option<(string, string)>>)
    requires AllEntries(sections) == seen + todo && todo != []
    requires MapAll(seen, EntryWrites(decode)) == Ok(writes)
    ensures seen + [todo[0]] + todo[1..] == seen + todo
    ensures EntryWrite(todo[0], decode).Ok? ==>
      MapAll(seen + [todo[0]], EntryWrites(decode)) == Ok(writes + [EntryWrite(todo[0], decode).value])
    ensures todo[0].value == "" ==> ParseConfig(sections, decode) == Exit(EmptyValueStatus, todo[0].name)
    ensures todo[0].value != "" && todo[0].name == PasswordKey && decode(todo[0].value).Err? ==>
      ParseConfig(sections, decode) == Raised(decode(todo[0].value).error)
  {
    assert seen + [todo[0]] + todo[1..] == seen + todo;
    MapAllStep(seen, todo[0], todo[1..], EntryWrites(decode), writes);
  }

  lemma AllEntriesFront(sections: seq<Section>)
    requires sections != []
    ensures AllEntries(sections) == sections[0].entries + AllEntries(sections[1..])
  {
    AllEntriesSplit(sections, 1);
    assert sections[..1][..0] == [];
  }

  lemma {:induction false} AllEntriesSplit(sections: seq<Section>, n: int)
    requires 0 <= n <= |sections|
    ensures AllEntries(sections) == AllEntries(sections[..n]) + AllEntries(sections[n..])
  {
    if n < |sections| {
      var p := sections[..|sections| - 1];
      AllEntriesSplit(p, n);
      assert p[..n] == sections[..n];
      assert sections[n..][..|sections[n..]| - 1] == p[n..];
    } else {
      assert sections[..n] == sections;
    }
  }

  // ---------------------------------------------------------------------
  // What config_parser promises

  /** An entry the inner loop gets past: a non-empty value, and for the
      password one that decodes. */
  predicate Accepted(e: Entry, decode: string -> Result<string, Exception>)
  {
    e.value != "" && (e.name == PasswordKey ==> decode(e.value).Ok?)
  }

  /** What an accepted entry stores: the decoded password, or the value. */
  function Stored(e: Entry, decode: string -> Result<string, Exception>): string
    requires Accepted(e, decode)
  {
    if e.name == PasswordKey then decode(e.value).value else e.value
  }

  /** A dict is returned exactly when every entry of every section is
      accepted. */
  lemma ParsedWhenAllAccepted(sections: seq<Section>, decode: string -> Result<string, Exception>)
    ensures ParseConfig(sections, decode).Parsed? <==>
      forall i :: 0 <= i < |AllEntries(sections)| ==> Accepted(AllEntries(sections)[i], decode)
  {
    var entries := AllEntries(sections);
    var f := EntryWrites(decode);
    MapAllOk(entries, f);
    assert ParseConfig(sections, decode).Parsed? <==> MapAll(entries, f).Ok? by {
      match MapAll(entries, f)
      case Ok(_) =>
      case Err(stop) =>
        match stop
        case EmptyValue(_) =>
        case DecodeFailed(_) =>
    }
    if ParseConfig(sections, decode).Parsed? {
      forall i | 0 <= i < |entries|
        ensures Accepted(entries[i], decode)
      {
        assert f(entries[i]).Ok?;
      }
    } else {
      var i :| 0 <= i < |entries| && f(entries[i]).Err?;
      assert !Accepted(AllEntries(sections)[i], decode);
    }
  }

  /** An empty value anywhere means no dict is returned. */
  lemma EmptyValueMeansNoConfig(sections: seq<Section>, decode: string -> Result<string, Exception>, k: int)
    requires 0 <= k < |AllEntries(sections)| && AllEntries(sections)[k].value == ""
    ensures !ParseConfig(sections, decode).Parsed?
  {
    ParsedWhenAllAccepted(sections, decode);
  }

  /** The first entry not accepted decides: an empty value exits with
      status 1 naming it, a password that does not decode raises. */
  lemma FirstRejectedEntryDecides(sections: seq<Section>, decode: string -> Result<string, Exception>, k: int)
    requires 0 <= k < |AllEntries(sections)| && !Accepted(AllEntries(sections)[k], decode)
    requires forall i :: 0 <= i < k ==> Accepted(AllEntries(sections)[i], decode)
    ensures var e := AllEntries(sections)[k];
      ParseConfig(sections, decode) ==
        if e.value == "" then Exit(1, e.name) else Raised(decode(e.value).error)
  {
    var entries := AllEntries(sections);
    assert forall i :: 0 <= i < k ==> EntryWrites(decode)(entries[i]).Ok?;
    MapAllFirstError(entries, EntryWrites(decode), k);
  }

  /** Every exit has status 1 and names an entry whose value is empty. */
  lemma ExitNamesEmptyEntry(sections: seq<Section>, decode: string -> Result<string, Exception>)
    requires ParseConfig(sections, decode).Exit?
    ensures ParseConfig(sections, decode).status == 1
    ensures Entry(ParseConfig(sections, decode).emptyName, "") in AllEntries(sections)
  {
    var entries := AllEntries(sections);
    var f := EntryWrites(decode);
    MapAllOk(entries, f);
    var k := FirstFailure(entries, f);
    MapAllFirstError(entries, f, k);
    assert entries[k] == Entry(ParseConfig(sections, decode).emptyName, "");
  }

  /** The position of the first failing step of a walk that fails. */
  ghost function FirstFailure<A, B, E>(xs: seq<A>, f: A -> Result<B, E>): (k: int)
    requires exists i :: 0 <= i < |xs| && f(xs[i]).Err?
    ensures 0 <= k < |xs| && f(xs[k]).Err?
    ensures forall i :: 0 <= i < k ==> f(xs[i]).Ok?
    decreases |xs|
  {
    if f(xs[0]).Err? then 0
    else
      var i :| 0 <= i < |xs| && f(xs[i]).Err?;
      assert f(xs[1..][i - 1]).Err?;
      var k := FirstFailure(xs[1..], f);
      assert forall j :: 1 <= j < k + 1 ==> xs[j] == xs[1..][j - 1];
      k + 1
  }

  /** The returned dict holds exactly the names of all entries; each name
      maps to what its last entry stores, so a later section overrides an
      earlier one. */
  lemma ParsedKeys(sections: seq<Section>, decode: string -> Result<string, Exception>)
    requires ParseConfig(sections, decode).Parsed?
    ensures ParseConfig(sections, decode).cfg.Keys == set e | e in AllEntries(sections) :: e.name
  {
    var entries := AllEntries(sections);
    MapAllOk(entries, EntryWrites(decode));
    var writes := MapAll(entries, EntryWrites(decode)).value;
    assert ParseConfig(sections, decode).cfg == Dict.Build(writes);
    WrittenNames(entries, writes);
  }

  /** Writes that name one entry each, in order, build a dict whose keys
      are exactly the entries' names. */
  lemma WrittenNames(entries: seq<Entry>, writes: seq<Option<(string, string)>>)
    requires |writes| == |entries|
    requires forall i :: 0 <= i < |writes| ==> writes[i].Some? && writes[i].value.0 == entries[i].name
    ensures Dict.Build(writes).Keys == set e | e in entries :: e.name
  {
    Dict.BuildKeys(writes);
    forall name | name in Dict.Build(writes)
      ensures name in set e | e in entries :: e.name
    {
      var i :| Dict.WritesAt(writes, i, name);
      assert entries[i].name == name;
    }
    forall name | name in set e | e in entries :: e.name
      ensures name in Dict.Build(writes)
    {
      var e :| e in entries && e.name == name;
      var i :| 0 <= i < |entries| && entries[i] == e;
      assert Dict.WritesAt(writes, i, name);
    }
  }

  /** The last entry with a given name decides its value: the decoded text
      for `password`, the value itself for any other name. */
  lemma ParsedLastEntry(sections: seq<Section>, decode: string -> Result<string, Exception>, k: int)
    requires ParseConfig(sections, decode).Parsed?
    requires 0 <= k < |AllEntries(sections)|
    requires forall j :: k < j < |AllEntries(sections)| ==> AllEntries(sections)[j].name != AllEntries(sections)[k].name
    ensures Accepted(AllEntries(sections)[k], decode)
    ensures var e := AllEntries(sections)[k];
      e.name in ParseConfig(sections, decode).cfg &&
      ParseConfig(sections, decode).cfg[e.name] == Stored(e, decode)
  {
    var entries := AllEntries(sections);
    ParsedWhenAllAccepted(sections, decode);
    MapAllOk(entries, EntryWrites(decode));
    var writes := MapAll(entries, EntryWrites(decode)).value;
    assert writes[k] == Some((entries[k].name, Stored(entries[k], decode)));
    forall j | k < j < |writes|
      ensures !Dict.WritesAt(writes, j, entries[k].name)
    {
      assert writes[j].value.0 == entries[j].name;
    }
    Dict.BuildLastWrite(writes, k, entries[k].name);
  }
}
