/** The read-modify-write step: the four telemetry fields are set to fresh
    identifiers and every other field of the configuration object is kept. */
module ConfigMutator {
  import opened JsonValues
  import opened Effects

  /** The telemetry keys, in the order they are refreshed. */
  const TelemetryKeys: seq<string> :=
    ["telemetry.machineId", "telemetry.macMachineId", "telemetry.devDeviceId", "telemetry.sqmId"]

  const TelemetryKeySet: set<string> := set k | k in TelemetryKeys

  /** No key occurs twice. */
  predicate Distinct(keys: seq<string>) {
    forall i, j :: 0 <= i < j < |keys| ==> keys[i] != keys[j]
  }

  /** The four keys are distinct. */
  lemma TelemetryKeysDistinct()
    ensures Distinct(TelemetryKeys)
    ensures |TelemetryKeySet| == |TelemetryKeys| == 4
  {
    assert TelemetryKeySet == {TelemetryKeys[0], TelemetryKeys[1], TelemetryKeys[2], TelemetryKeys[3]};
  }

  /** The dictionary built by inserting `keys[i] := values[i]` for each `i` in turn. */
  function ZipKeys(keys: seq<string>, values: seq<string>): (r: map<string, string>)
    requires |keys| == |values|
    ensures forall k :: k in r <==> k in keys
    ensures Distinct(keys) ==> forall i :: 0 <= i < |keys| ==> r[keys[i]] == values[i]
    decreases |keys|
  {
    if keys == [] then map[]
    else
      var n := |keys| - 1;
      assert keys == keys[..n] + [keys[n]];
      ZipKeys(keys[..n], values[..n])[keys[n] := values[n]]
  }

  /** The key-to-identifier mapping; `ids` are the generated identifiers, one
      per key in key order. */
  function GenerateNewIds(ids: seq<string>): (r: map<string, string>)
    requires |ids| == |TelemetryKeys|
    ensures forall k :: k in r <==> k in TelemetryKeys
    ensures forall i :: 0 <= i < |TelemetryKeys| ==> r[TelemetryKeys[i]] == ids[i]
  {
    TelemetryKeysDistinct();
    ZipKeys(TelemetryKeys, ids)
  }

  /** The configuration after `config[key] = newIds[key]` has been done for
      each key of `keys` in turn. */
  function Assign(config: map<string, Json>, keys: seq<string>, newIds: map<string, string>): map<string, Json>
    requires forall k :: k in keys ==> k in newIds
    decreases |keys|
  {
    if keys == [] then config
    else Assign(config, keys[..|keys| - 1], newIds)[keys[|keys| - 1] := JString(newIds[keys[|keys| - 1]])]
  }

  /** Assigning inserts or overwrites exactly the keys assigned: each gets its
      new value, every other entry is kept, and no key is removed. */
  lemma {:induction false} AssignSpec(config: map<string, Json>, keys: seq<string>, newIds: map<string, string>)
    requires forall k :: k in keys ==> k in newIds
    ensures var r := Assign(config, keys, newIds);
      && (forall k :: k in r <==> k in config || k in keys)
      && (forall k :: k in keys ==> r[k] == JString(newIds[k]))
      && (forall k :: k in config && k !in keys ==> r[k] == config[k])
    decreases |keys|
  {
    if keys != [] {
      var init, last := keys[..|keys| - 1], keys[|keys| - 1];
      assert keys == init + [last];
      AssignSpec(config, init, newIds);
    }
  }

  /** The mapping's key set is exactly the telemetry keys, so it has four entries. */
  lemma GenerateNewIdsKeys(ids: seq<string>)
    requires |ids| == |TelemetryKeys|
    ensures GenerateNewIds(ids).Keys == TelemetryKeySet
    ensures |GenerateNewIds(ids)| == 4
  {
    TelemetryKeysDistinct();
    assert GenerateNewIds(ids).Keys == TelemetryKeySet;
  }

  /** Assigning from the mapping built over the same distinct keys gives each
      key its own value. */
  lemma AssignZipped(config: map<string, Json>, keys: seq<string>, values: seq<string>)
    requires |keys| == |values| && Distinct(keys)
    ensures var r, ks := Assign(config, keys, ZipKeys(keys, values)), set k | k in keys;
      && r.Keys == config.Keys + ks
      && (forall i :: 0 <= i < |keys| ==> r[keys[i]] == JString(values[i]))
      && (forall k :: k in config && k !in ks ==> r[k] == config[k])
  {
    AssignSpec(config, keys, ZipKeys(keys, values));
    var r, ks := Assign(config, keys, ZipKeys(keys, values)), set k | k in keys;
    assert r.Keys == config.Keys + ks;
  }

  /** Assigning the same keys twice keeps only the second round of values. */
  lemma AssignLastWins(config: map<string, Json>, keys: seq<string>, first: map<string, string>, second: map<string, string>)
    requires forall k :: k in keys ==> k in first && k in second
    ensures Assign(Assign(config, keys, first), keys, second) == Assign(config, keys, second)
  {
    var once := Assign(config, keys, first);
    var twice, direct := Assign(once, keys, second), Assign(config, keys, second);
    AssignSpec(config, keys, first);
    AssignSpec(once, keys, second);
    AssignSpec(config, keys, second);
    assert twice.Keys == direct.Keys;
    forall k | k in twice
      ensures twice[k] == direct[k]
    {
    }
  }

  /** Assigning `keys` leaves every other entry as it was. */
  lemma AssignKeepsOthers(config: map<string, Json>, keys: seq<string>, newIds: map<string, string>)
    requires forall k :: k in keys ==> k in newIds
    ensures Assign(config, keys, newIds) - (set k | k in keys) == config - (set k | k in keys)
  {
    var r, ks := Assign(config, keys, newIds), set k | k in keys;
    AssignSpec(config, keys, newIds);
    assert (r - ks).Keys == (config - ks).Keys;
  }

  /** Only which keys are assigned matters, not their order or repetition, so
      the iteration order of the id mapping cannot change the result. */
  lemma AssignOrderFree(config: map<string, Json>, k1: seq<string>, k2: seq<string>, newIds: map<string, string>)
    requires forall k :: k in k1 ==> k in newIds
    requires forall k :: k in k1 <==> k in k2
    ensures Assign(config, k1, newIds) == Assign(config, k2, newIds)
  {
    var r1, r2 := Assign(config, k1, newIds), Assign(config, k2, newIds);
    AssignSpec(config, k1, newIds);
    AssignSpec(config, k2, newIds);
    assert r1.Keys == r2.Keys;
    forall k | k in r1
      ensures r1[k] == r2[k]
    {
    }
  }

  /** What the update step makes of a configuration object, given the
      identifiers generated for it. */
  function Refresh(config: map<string, Json>, ids: seq<string>): map<string, Json>
    requires |ids| == |TelemetryKeys|
  {
    Assign(config, TelemetryKeys, GenerateNewIds(ids))
  }

  /** After the update each telemetry key holds the identifier supplied for it,
      every other entry is kept, and no key is removed: the key set is the old
      one together with the four telemetry keys. */
  lemma RefreshFields(config: map<string, Json>, ids: seq<string>)
    requires |ids| == |TelemetryKeys|
    ensures var r := Refresh(config, ids);
      && r.Keys == config.Keys + TelemetryKeySet
      && (forall i :: 0 <= i < |TelemetryKeys| ==> r[TelemetryKeys[i]] == JString(ids[i]))
      && (forall k :: k in config && k !in TelemetryKeySet ==> r[k] == config[k])
  {
    TelemetryKeysDistinct();
    AssignZipped(config, TelemetryKeys, ids);
    assert GenerateNewIds(ids) == ZipKeys(TelemetryKeys, ids);
  }

  /** A second refresh overrides every telemetry field of the first and keeps
      everything else: only the latest identifiers matter. */
  lemma RefreshLastWins(config: map<string, Json>, first: seq<string>, second: seq<string>)
    requires |first| == |second| == |TelemetryKeys|
    ensures Refresh(Refresh(config, first), second) == Refresh(config, second)
  {
    AssignLastWins(config, TelemetryKeys, GenerateNewIds(first), GenerateNewIds(second));
  }

  /** Refreshing twice with the same identifiers is refreshing once. */
  lemma RefreshIdempotent(config: map<string, Json>, ids: seq<string>)
    requires |ids| == |TelemetryKeys|
    ensures Refresh(Refresh(config, ids), ids) == Refresh(config, ids)
  {
    RefreshLastWins(config, ids, ids);
  }

  /** Outside the telemetry fields, a refresh is the identity, whatever the identifiers. */
  lemma RefreshKeepsOtherFields(config: map<string, Json>, ids: seq<string>)
    requires |ids| == |TelemetryKeys|
    ensures Refresh(config, ids) - TelemetryKeySet == config - TelemetryKeySet
  {
    AssignKeepsOthers(config, TelemetryKeys, GenerateNewIds(ids));
  }

  /** The loop `for key, new_id in new_ids.items(): config[key] = new_id`,
      where `keys` is the order in which `newIds` yields its entries. */
  method SetFields(config: map<string, Json>, keys: seq<string>, newIds: map<string, string>)
    returns (r: map<string, Json>)
    requires forall k :: k in keys ==> k in newIds
    ensures r == Assign(config, keys, newIds)
  {
    r := config;
    var i := 0;
    while i < |keys|
      invariant 0 <= i <= |keys|
      invariant r == Assign(config, keys[..i], newIds)
    {
      var key := keys[i];
      r := r[key := JString(newIds[key])];
      assert keys[..i + 1][..i] == keys[..i];
      i := i + 1;
    }
    assert keys[..i] == keys;
  }

  /** Reads and parses the file (`parsed` is the parse result, None when the
      file cannot be opened or decoded), sets the four telemetry fields one by
      one, and writes the object back (`writeSucceeds` is whether that raises). */
  method UpdateConfigFile(path: string, parsed: Option<Json>, ids: seq<string>, writeSucceeds: bool)
    returns (status: Status, trace: seq<Event>)
    requires |ids| == |TelemetryKeys|
    ensures parsed.None? ==> status == Fail(ReadFailed(path)) && trace == [Read(path, false)]
    ensures parsed.Some? && !parsed.value.JObject? ==> status == Fail(NotAnObject(path)) && trace == [Read(path, true)]
    ensures parsed.Some? && parsed.value.JObject? ==>
      && trace == [Read(path, true), Write(path, JObject(Refresh(parsed.value.fields, ids)), writeSucceeds)]
      && status == if writeSucceeds then Ok else Fail(WriteFailed(path))
  {
    trace := [Read(path, parsed.Some?)];
    if parsed.None? {
      status := Fail(ReadFailed(path));
      return;
    }
    if !parsed.value.JObject? {
      status := Fail(NotAnObject(path));
      return;
    }
    var newIds := GenerateNewIds(ids);
    var config := SetFields(parsed.value.fields, TelemetryKeys, newIds);
    trace := trace + [Write(path, JObject(config), writeSucceeds)];
    if writeSucceeds {
      status := Ok;
    } else {
      status := Fail(WriteFailed(path));
    }
  }
}
