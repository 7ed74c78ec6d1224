/** Metadata entries between the Terraform state and the server: vcd/metadata.go, and the
    plain-map variant of vcd/structure.go and vcd/resource_vcd_catalog_item.go. */
module Metadata {
  import opened Options

  import LockMachine
  import LockScripts
  import MutexKv

  /** The attributes of one metadata_entry block: four texts and one flag. */
  datatype Attribute = Text(text: string) | Flag(flag: bool)

  datatype Entry = Entry(key: string, value: string, typ: string, userAccess: string, isSystem: bool)

  function Attributes(e: Entry): seq<Attribute> {
    [Text(e.key), Text(e.value), Text(e.typ), Text(e.userAccess), Flag(e.isSystem)]
  }

  /** A block written as `metadata_entry {}`. */
  predicate Blank(e: Entry) {
    e.key == "" && e.value == "" && e.typ == "" && e.userAccess == ""
  }

  predicate Filled(e: Entry) {
    e.key != "" && e.value != "" && e.typ != "" && e.userAccess != ""
  }

  /** Some texts are empty, but not all of them. */
  predicate Malformed(e: Entry) {
    !Blank(e) && !Filled(e)
  }

  const SYSTEM := "SYSTEM"
  const GENERAL := "GENERAL"
  const READ_WRITE := "READWRITE"

  /** A value as the SDK takes it, under its key. */
  datatype ApiValue = ApiValue(domain: string, visibility: string, typ: string, value: string)

  function ToApi(e: Entry): ApiValue {
    ApiValue(if e.isSystem then SYSTEM else GENERAL, e.userAccess, e.typ, e.value)
  }

  // ---------------------------------------------------------- the two scanners

  function EmptyTexts(attributes: seq<Attribute>): nat {
    if attributes == [] then 0
    else
      var n := |attributes| - 1;
      EmptyTexts(attributes[..n]) + if attributes[n] == Text("") then 1 else 0
  }

  /** The number of empty texts tells the three kinds of block apart: the flag, which
      Terraform cannot leave unset, never counts as empty. */
  method GetMetadataEmptySubAttributes(e: Entry) returns (n: nat)
    ensures n == |Attributes(e)| - 1 <==> Blank(e)
    ensures n == 0 <==> Filled(e)
    ensures n == (if e.key == "" then 1 else 0) + (if e.value == "" then 1 else 0)
                 + (if e.typ == "" then 1 else 0) + (if e.userAccess == "" then 1 else 0)
    ensures |Attributes(e)| == 5
  {
    n := 0;
    var attributes := Attributes(e);
    for i := 0 to |attributes|
      invariant n == EmptyTexts(attributes[..i])
    {
      assert attributes[..i + 1][..i] == attributes[..i];
      if attributes[i] == Text("") {
        n := n + 1;
      }
    }
    assert attributes[..|attributes|] == attributes;
    EmptyTextsOf(e);
  }

  lemma EmptyTextsOf(e: Entry)
    ensures EmptyTexts(Attributes(e)) == 4 <==> Blank(e)
    ensures EmptyTexts(Attributes(e)) == 0 <==> Filled(e)
    ensures EmptyTexts(Attributes(e))
            == (if e.key == "" then 1 else 0) + (if e.value == "" then 1 else 0)
               + (if e.typ == "" then 1 else 0) + (if e.userAccess == "" then 1 else 0)
  {
    var a := Attributes(e);
    assert a[..4][..3] == a[..3] && a[..3][..2] == a[..2] && a[..2][..1] == a[..1] && a[..1][..0] == [];
    assert EmptyTexts(a[..1]) == if e.key == "" then 1 else 0;
    assert EmptyTexts(a[..2]) == EmptyTexts(a[..1]) + if e.value == "" then 1 else 0;
    assert EmptyTexts(a[..3]) == EmptyTexts(a[..2]) + if e.typ == "" then 1 else 0;
    assert EmptyTexts(a[..4]) == EmptyTexts(a[..3]) + if e.userAccess == "" then 1 else 0;
  }

  /** Entries are taken in order, a later one replacing an earlier one of the same key;
      blank ones are skipped and a malformed one fails the whole conversion. */
  function Converted(entries: seq<Entry>): (r: Result<map<string, ApiValue>>) {
    if entries == [] then Ok(map[])
    else
      var last := entries[|entries| - 1];
      match Converted(entries[..|entries| - 1])
      case Err => Err
      case Ok(m) =>
        if Blank(last) then Ok(m)
        else if Malformed(last) then Err
        else Ok(m[last.key := ToApi(last)])
  }

  function KeyDomains(entries: seq<Entry>): (keys: map<string, bool>) {
    if entries == [] then map[]
    else
      var last := entries[|entries| - 1];
      var keys := KeyDomains(entries[..|entries| - 1]);
      if Blank(last) then keys else keys[last.key := last.isSystem]
  }

  method ConvertFromStateToMetadataValues(entries: seq<Entry>) returns (r: Result<map<string, ApiValue>>)
    ensures r == Converted(entries)
  {
    var values := map[];
    for i := 0 to |entries|
      invariant Converted(entries[..i]) == Ok(values)
    {
      var e := entries[i];
      assert entries[..i + 1][..i] == entries[..i];
      var empty := GetMetadataEmptySubAttributes(e);
      if |Attributes(e)| - 1 == empty {
        continue;
      }
      if empty > 0 {
        ConversionStaysFailed(entries, i + 1);
        return Err;
      }
      var domain := GENERAL;
      if e.isSystem {
        domain := SYSTEM;
      }
      values := values[e.key := ApiValue(domain, e.userAccess, e.typ, e.value)];
    }
    assert entries[..|entries|] == entries;
    return Ok(values);
  }

  lemma {:induction false} ConversionStaysFailed(entries: seq<Entry>, i: nat)
    requires i <= |entries| && Converted(entries[..i]).Err?
    ensures Converted(entries).Err?
    decreases |entries| - i
  {
    if i == |entries| {
      assert entries[..i] == entries;
    } else {
      assert entries[..i + 1][..i] == entries[..i];
      ConversionStaysFailed(entries, i + 1);
    }
  }

  method GetMetadataKeyWithDomainMap(entries: seq<Entry>) returns (keys: map<string, bool>)
    ensures keys == KeyDomains(entries)
  {
    keys := map[];
    for i := 0 to |entries|
      invariant keys == KeyDomains(entries[..i])
    {
      var e := entries[i];
      assert entries[..i + 1][..i] == entries[..i];
      var empty := GetMetadataEmptySubAttributes(e);
      if |Attributes(e)| - 1 == empty {
        continue;
      }
      var isSystem := false;
      if e.isSystem {
        isSystem := true;
      }
      keys := keys[e.key := isSystem];
    }
    assert entries[..|entries|] == entries;
  }

  /** The conversion fails exactly when some entry has one, two or three empty texts. */
  lemma {:induction false} ConversionFailsIff(entries: seq<Entry>)
    ensures Converted(entries).Err? <==> exists e :: e in entries && Malformed(e)
    ensures Converted(entries).Err?
            <==> exists e :: e in entries
                             && (e.key == "" || e.value == "" || e.typ == "" || e.userAccess == "")
                             && (e.key != "" || e.value != "" || e.typ != "" || e.userAccess != "")
  {
    if entries != [] {
      var before, last := entries[..|entries| - 1], entries[|entries| - 1];
      ConversionFailsIff(before);
      assert entries == before + [last];
    }
  }

  /** Both scanners see the same keys in the same domains. */
  lemma {:induction false} ScannersAgree(entries: seq<Entry>)
    requires Converted(entries).Ok?
    ensures Converted(entries).value.Keys == KeyDomains(entries).Keys
    ensures forall k :: k in KeyDomains(entries) ==>
              (KeyDomains(entries)[k] <==> Converted(entries).value[k].domain == SYSTEM)
              && (!KeyDomains(entries)[k] <==> Converted(entries).value[k].domain == GENERAL)
  {
    if entries != [] {
      ScannersAgree(entries[..|entries| - 1]);
    }
  }

  lemma {:induction false} KeysOfConversion(entries: seq<Entry>, key: string)
    requires Converted(entries).Ok?
    ensures key in Converted(entries).value <==> exists e :: e in entries && !Blank(e) && e.key == key
  {
    if entries != [] {
      var before, last := entries[..|entries| - 1], entries[|entries| - 1];
      KeysOfConversion(before, key);
      assert entries == before + [last];
    }
  }

  /** The last entry of a key decides its value. */
  lemma {:induction false} LastDuplicateWins(entries: seq<Entry>, i: nat)
    requires Converted(entries).Ok? && i < |entries| && !Blank(entries[i])
    requires forall j :: i < j < |entries| && !Blank(entries[j]) ==> entries[j].key != entries[i].key
    ensures entries[i].key in Converted(entries).value
    ensures Converted(entries).value[entries[i].key] == ToApi(entries[i])
  {
    var n := |entries| - 1;
    if i < n {
      LastDuplicateWins(entries[..n], i);
    }
  }

  /** What is sent for a key: the attributes of its last entry, and the domain it chose. */
  lemma SentAttributes(entries: seq<Entry>, i: nat)
    requires Converted(entries).Ok? && i < |entries| && !Blank(entries[i])
    requires forall j :: i < j < |entries| && !Blank(entries[j]) ==> entries[j].key != entries[i].key
    ensures var e := entries[i];
            && e.key in Converted(entries).value
            && Converted(entries).value[e.key]
               == ApiValue(if e.isSystem then "SYSTEM" else "GENERAL", e.userAccess, e.typ, e.value)
  {
    LastDuplicateWins(entries, i);
  }

  /** The keys and domains, of malformed entries too: those of the entries that have some
      text, the last entry of a key deciding. */
  lemma {:induction false} KeyDomainsIff(entries: seq<Entry>, key: string)
    ensures key in KeyDomains(entries)
            <==> exists e :: e in entries && e.key == key
                             && (e.key != "" || e.value != "" || e.typ != "" || e.userAccess != "")
  {
    if entries != [] {
      var before, last := entries[..|entries| - 1], entries[|entries| - 1];
      KeyDomainsIff(before, key);
      assert entries == before + [last];
    }
  }

  lemma {:induction false} LastDomainWins(entries: seq<Entry>, i: nat)
    requires i < |entries| && !Blank(entries[i])
    requires forall j :: i < j < |entries| && !Blank(entries[j]) ==> entries[j].key != entries[i].key
    ensures entries[i].key in KeyDomains(entries) && KeyDomains(entries)[entries[i].key] == entries[i].isSystem
  {
    var n := |entries| - 1;
    if i < n {
      LastDomainWins(entries[..n], i);
    }
  }

  // -------------------------------------------------- server, state and back

  /** An entry as the server returns it; value and domain may be missing. */
  datatype VcdEntry = VcdEntry(
    key: string,
    typedValue: Option<(string, string)>,   // type, value
    domain: Option<(string, string)>)       // domain, visibility

  function ToState(e: VcdEntry): Entry {
    Entry(e.key,
          if e.typedValue.Some? then e.typedValue.value.1 else "",
          if e.typedValue.Some? then e.typedValue.value.0 else "",
          if e.domain.Some? then e.domain.value.1 else READ_WRITE,
          e.domain.Some? && e.domain.value.0 == SYSTEM)
  }

  /** An empty answer leaves the state as it is. */
  method SetMetadataEntryInState(fromVcd: seq<VcdEntry>, current: seq<Entry>) returns (state: seq<Entry>)
    ensures state == Stored(fromVcd, current)
    ensures |fromVcd| == 0 ==> state == current
    ensures |fromVcd| > 0 ==> |state| == |fromVcd|
    ensures |fromVcd| > 0 ==>
              forall i :: 0 <= i < |fromVcd| ==>
                && state[i].key == fromVcd[i].key
                && (fromVcd[i].typedValue.None? ==> state[i].typ == "" && state[i].value == "")
                && (fromVcd[i].typedValue.Some? ==>
                      fromVcd[i].typedValue.value == (state[i].typ, state[i].value))
                && (fromVcd[i].domain.None? ==> !state[i].isSystem && state[i].userAccess == "READWRITE")
                && (fromVcd[i].domain.Some? ==>
                      (state[i].isSystem <==> fromVcd[i].domain.value.0 == "SYSTEM")
                      && state[i].userAccess == fromVcd[i].domain.value.1)
  {
    if |fromVcd| == 0 {
      return current;
    }
    state := [];
    for i := 0 to |fromVcd|
      invariant state == States(fromVcd)[..i]
    {
      var e := fromVcd[i];
      var entry := Entry(e.key, "", "", READ_WRITE, false);
      if e.typedValue.Some? {
        entry := entry.(typ := e.typedValue.value.0, value := e.typedValue.value.1);
      }
      if e.domain.Some? {
        entry := entry.(isSystem := e.domain.value.0 == SYSTEM, userAccess := e.domain.value.1);
      }
      state := state + [entry];
    }
  }

  /** What metadata_entry holds after an answer. */
  function Stored(fromVcd: seq<VcdEntry>, current: seq<Entry>): (state: seq<Entry>) {
    if fromVcd == [] then current else States(fromVcd)
  }

  function States(fromVcd: seq<VcdEntry>): (state: seq<Entry>) {
    seq(|fromVcd|, i requires 0 <= i < |fromVcd| => ToState(fromVcd[i]))
  }

  /** The deprecated map attribute: the values under their keys, a later entry replacing an
      earlier one. It is defined only if every entry has a value. */
  function PlainMap(fromVcd: seq<VcdEntry>): (plain: map<string, string>)
    requires forall e :: e in fromVcd ==> e.typedValue.Some?
  {
    if fromVcd == [] then map[]
    else
      var n := |fromVcd| - 1;
      PlainMap(fromVcd[..n])[fromVcd[n].key := fromVcd[n].typedValue.value.1]
  }

  /** Unlike SetMetadataEntryInState it reads every value without looking whether there is
      one: None is the crash on an entry without a value. */
  method GetMetadataStruct(fromVcd: seq<VcdEntry>) returns (plain: Option<map<string, string>>)
    ensures plain.Some? <==> forall e :: e in fromVcd ==> e.typedValue.Some?
    ensures plain.Some? ==> plain.value == PlainMap(fromVcd)
  {
    var values := map[];
    for i := 0 to |fromVcd|
      invariant forall e :: e in fromVcd[..i] ==> e.typedValue.Some?
      invariant values == PlainMap(fromVcd[..i])
    {
      assert fromVcd[..i + 1][..i] == fromVcd[..i];
      if fromVcd[i].typedValue.None? {
        return None;
      }
      values := values[fromVcd[i].key := fromVcd[i].typedValue.value.1];
    }
    assert fromVcd[..|fromVcd|] == fromVcd;
    return Some(values);
  }

  /** Both attributes tell the same about a key: the value of its last entry. */
  lemma {:induction false} PlainMapAgrees(fromVcd: seq<VcdEntry>, i: nat)
    requires forall e :: e in fromVcd ==> e.typedValue.Some?
    requires i < |fromVcd| && forall j :: i < j < |fromVcd| ==> fromVcd[j].key != fromVcd[i].key
    ensures fromVcd[i].key in PlainMap(fromVcd) && PlainMap(fromVcd)[fromVcd[i].key] == States(fromVcd)[i].value
  {
    var n := |fromVcd| - 1;
    if i < n {
      PlainMapAgrees(fromVcd[..n], i);
    }
  }

  /** Nothing is missing or empty, and the domain is one of the two there are. */
  predicate Complete(e: VcdEntry) {
    && e.key != ""
    && e.typedValue.Some? && e.typedValue.value.0 != "" && e.typedValue.value.1 != ""
    && e.domain.Some? && e.domain.value.0 in {SYSTEM, GENERAL} && e.domain.value.1 != ""
  }

  /** The value that goes back to the server is the one that came from it. */
  predicate SameValue(e: VcdEntry, v: ApiValue) {
    e.typedValue == Some((v.typ, v.value)) && e.domain == Some((v.domain, v.visibility))
  }

  /** Reading entries with distinct keys into the state and converting them back gives
      the same entries exactly when all of them are complete. */
  lemma RoundTripIff(fromVcd: seq<VcdEntry>)
    requires forall i, j :: 0 <= i < j < |fromVcd| ==> fromVcd[i].key != fromVcd[j].key
    ensures (Converted(States(fromVcd)).Ok? && forall i :: 0 <= i < |fromVcd| ==>
               fromVcd[i].key in Converted(States(fromVcd)).value
               && SameValue(fromVcd[i], Converted(States(fromVcd)).value[fromVcd[i].key]))
            <==> forall i :: 0 <= i < |fromVcd| ==> Complete(fromVcd[i])
  {
    var states := States(fromVcd);
    ConversionFailsIff(states);
    if Converted(states).Ok? {
      forall i | 0 <= i < |fromVcd|
        ensures Blank(states[i]) ==> fromVcd[i].key !in Converted(states).value
        ensures !Blank(states[i]) ==>
                  fromVcd[i].key in Converted(states).value
                  && Converted(states).value[fromVcd[i].key] == ToApi(states[i])
        ensures !Malformed(states[i])
      {
        assert states[i] in states;
        forall j | 0 <= j < |states| && j != i ensures states[j].key != states[i].key {}
        KeysOfConversion(states, fromVcd[i].key);
        if !Blank(states[i]) {
          LastDuplicateWins(states, i);
        }
      }
    } else {
      var e :| e in states && Malformed(e);
      var i :| 0 <= i < |states| && states[i] == e;
      assert !Complete(fromVcd[i]);
    }
  }

  /** An entry whose domain the server left out comes back as GENERAL and read-write. */
  lemma MissingDomainBecomesGeneral(e: VcdEntry)
    requires e.domain.None? && e.key != ""
    requires e.typedValue.Some? && e.typedValue.value.0 != "" && e.typedValue.value.1 != ""
    ensures Converted(States([e]))
            == Ok(map[e.key := ApiValue(GENERAL, READ_WRITE, e.typedValue.value.0, e.typedValue.value.1)])
  {
    var states := States([e]);
    assert states[..0] == [] && Converted(states[..0]) == Ok(map[]);
  }

  // ------------------------------------------------------------ reconciliation

  /** The server keeps entries by key and domain (true for SYSTEM). */
  type Entries = map<(string, bool), ApiValue>

  function ServerEntries(values: map<string, ApiValue>): (entries: Entries) {
    map k | k in values :: (k, values[k].domain == SYSTEM) := values[k]
  }

  /** What a merge sends after dropping the keys the client's filter ignores. */
  function Unignored(values: map<string, ApiValue>, ignored: set<string>): map<string, ApiValue> {
    map k | k in values && k !in ignored :: values[k]
  }

  /** The old entries whose key no new entry has. */
  function Outdated(oldKeys: map<string, bool>, newKeys: map<string, bool>): set<(string, bool)> {
    set k | k in oldKeys && k !in newKeys :: (k, oldKeys[k])
  }

  function Pairs(keys: map<string, bool>): set<(string, bool)> {
    set k | k in keys :: (k, keys[k])
  }

  datatype MergeOutcome = Merged | NothingLeft | MergeFailed

  class Resource {
    var entries: Entries             // the server's entries of this resource
    var plain: map<string, string>   // its entries as the deprecated calls see them
    var faults: nat                  // calls that failed so far

    constructor (entries: Entries, plain: map<string, string>)
      ensures this.entries == entries && this.plain == plain && faults == 0
    {
      this.entries, this.plain, this.faults := entries, plain, 0;
    }

    /** The server's part of a call. */
    method Call() returns (ok: bool)
      modifies this`faults
      ensures faults == if ok then old(faults) else old(faults) + 1
    {
      ok := *;
      if !ok {
        faults := faults + 1;
      }
    }

    method DeleteMetadataEntryWithDomain(key: string, isSystem: bool) returns (ok: bool)
      modifies this`entries, this`faults
      ensures ok ==> (key, isSystem) in old(entries) && entries == old(entries) - {(key, isSystem)}
      ensures ok ==> faults == old(faults)
      ensures !ok ==> entries == old(entries) && faults > old(faults)
    {
      ok := Call();
      if (key, isSystem) !in entries {
        ok, faults := false, faults + 1;
      }
      if ok {
        entries := entries - {(key, isSystem)};
      }
    }

    /** Overwrites per key and domain, all or nothing; "there is no metadata to merge"
        is an error of its own. `ignored` are the keys that the client's filter drops at that
        moment: none while another thread has swapped it out. */
    method MergeMetadataWithMetadataValues(values: map<string, ApiValue>, ignored: set<string>)
      returns (outcome: MergeOutcome)
      modifies this`entries, this`faults
      ensures outcome.MergeFailed? <==> faults > old(faults)
      ensures faults >= old(faults)
      ensures !outcome.MergeFailed? ==> entries == old(entries) + ServerEntries(Unignored(values, ignored))
      ensures outcome.NothingLeft? ==> entries == old(entries) && Unignored(values, ignored) == map[]
      ensures outcome.MergeFailed? ==> entries == old(entries)
    {
      var sent := Unignored(values, ignored);
      if sent == map[] {
        NothingSent(entries);
        return NothingLeft;
      }
      var ok := Call();
      if !ok {
        return MergeFailed;
      }
      entries := entries + ServerEntries(sent);
      return Merged;
    }

    /** Deletes the outdated entries, visiting the old keys in no particular order. */
    method DeleteOutdated(oldKeys: map<string, bool>, newKeys: map<string, bool>) returns (err: bool)
      modifies this`entries, this`faults
      ensures faults >= old(faults) && (err <==> faults > old(faults))
      ensures !err ==> entries == old(entries) - Outdated(oldKeys, newKeys)
      ensures exists gone :: gone <= Outdated(oldKeys, newKeys) && entries == old(entries) - gone
    {
      var remaining := oldKeys.Keys;
      assert entries == entries - Outdated(oldKeys - remaining, newKeys);
      while remaining != {}
        invariant remaining <= oldKeys.Keys && faults == old(faults)
        invariant entries == old(entries) - Outdated(oldKeys - remaining, newKeys)
        decreases remaining
      {
        var k :| k in remaining;
        OutdatedGrows(oldKeys, newKeys, remaining, k);
        if k !in newKeys {
          var ok := DeleteMetadataEntryWithDomain(k, oldKeys[k]);
          if !ok {
            return true;
          }
        }
        remaining := remaining - {k};
      }
      assert oldKeys - remaining == oldKeys;
      err := false;
    }

    /** The reconciler. On success the server is Reconciled; on error the only change is
        that some outdated entries are gone: a malformed new entry never leaves part of a
        merge behind. */
    method CreateOrUpdateMetadataEntryInVcd(hasChange: bool, oldMetadata: seq<Entry>, newMetadata: seq<Entry>,
                                            ignored: set<string>)
      returns (err: bool)
      modifies this`entries, this`faults
      ensures faults >= old(faults)
      ensures err <==> faults > old(faults) || (hasChange && Converted(newMetadata).Err?)
      ensures !hasChange ==> !err && entries == old(entries)
      ensures hasChange && !err ==>
                Converted(newMetadata).Ok? && entries == Reconciled(old(entries), ignored, oldMetadata, newMetadata)
      ensures err ==> exists gone :: gone <= Outdated(KeyDomains(oldMetadata), KeyDomains(newMetadata))
                                     && entries == old(entries) - gone
    {
      if !hasChange {
        return false;
      }
      var oldKeys := GetMetadataKeyWithDomainMap(oldMetadata);
      var newKeys := GetMetadataKeyWithDomainMap(newMetadata);
      err := DeleteOutdated(oldKeys, newKeys);
      if err {
        return;
      }
      err := MergeNew(newMetadata, ignored);
    }

    /** Converts and merges; a malformed entry stops it before anything is sent. */
    method MergeNew(newMetadata: seq<Entry>, ignored: set<string>) returns (err: bool)
      modifies this`entries, this`faults
      ensures faults >= old(faults) && (err <==> faults > old(faults) || Converted(newMetadata).Err?)
      ensures !err ==> Converted(newMetadata).Ok?
                       && entries == old(entries) + ServerEntries(Unignored(Converted(newMetadata).value, ignored))
      ensures err ==> entries == old(entries)
    {
      NothingSent(entries);
      assert Unignored(map[], ignored) == map[];
      hide Unignored, ServerEntries;
      if |newMetadata| == 0 {
        return false;
      }
      var converted := ConvertFromStateToMetadataValues(newMetadata);
      if converted.Err? {
        return true;
      }
      if |converted.value| == 0 {
        assert converted.value == map[];
        return false;
      }
      var outcome := MergeMetadataWithMetadataValues(converted.value, ignored);
      err := outcome.MergeFailed?;
    }

    method DeleteMetadataEntry(key: string) returns (ok: bool)
      modifies this`plain, this`faults
      ensures faults == if ok then old(faults) else old(faults) + 1
      ensures plain == if ok then old(plain) - {key} else old(plain)
    {
      ok := Call();
      if ok {
        plain := plain - {key};
      }
    }

    method MergeMetadata(values: map<string, string>) returns (ok: bool)
      modifies this`plain, this`faults
      ensures faults == if ok then old(faults) else old(faults) + 1
      ensures plain == if ok then old(plain) + values else old(plain)
    {
      ok := Call();
      if ok {
        plain := plain + values;
      }
    }

    /** Deletes the given keys in turn. */
    method DeleteAll(keys: seq<string>) returns (err: bool)
      modifies this`plain, this`faults
      ensures faults >= old(faults) && (err <==> faults > old(faults))
      ensures !err ==> plain == old(plain) - Elements(keys)
      ensures exists gone :: gone <= Elements(keys) && plain == old(plain) - gone
    {
      assert plain == plain - Elements(keys[..0]);
      for i := 0 to |keys|
        invariant plain == old(plain) - Elements(keys[..i]) && faults == old(faults)
      {
        assert Elements(keys[..i]) <= Elements(keys);
        var ok := DeleteMetadataEntry(keys[i]);
        if !ok {
          return true;
        }
        assert keys[..i + 1] == keys[..i] + [keys[i]];
      }
      assert keys[..|keys|] == keys;
      err := false;
    }

    /** The deprecated map attribute: the removed keys are collected first, then deleted,
        and then the new map is merged. On success the server has the new map and what
        was unrelated to the old one, whatever it held before. */
    method UpdatePlainMetadata(oldMetadata: map<string, string>, newMetadata: map<string, string>) returns (err: bool)
      modifies this`plain, this`faults
      ensures faults >= old(faults) && (err <==> faults > old(faults))
      ensures !err ==> plain == (old(plain) - oldMetadata.Keys) + newMetadata
      ensures err ==> exists gone :: gone <= oldMetadata.Keys - newMetadata.Keys && plain == old(plain) - gone
    {
      var toBeRemoved := CollectRemoved(oldMetadata, newMetadata);
      err := DeleteAll(toBeRemoved);
      if err {
        return;
      }
      KeptOverwritten(old(plain), oldMetadata.Keys, newMetadata);
      if |newMetadata| > 0 {
        var ok := MergeMetadata(newMetadata);
        err := !ok;
      }
    }

    /** Both attributes: the blocks are reconciled first, and the map is looked at only when
        they have not changed. So at most one of the two acts. */
    method CreateOrUpdateMetadata(entriesChanged: bool, oldEntries: seq<Entry>, newEntries: seq<Entry>,
                                  ignored: set<string>, metadataChanged: bool,
                                  oldMetadata: map<string, string>, newMetadata: map<string, string>)
      returns (err: bool)
      modifies this`entries, this`plain, this`faults
      ensures err <==> faults > old(faults) || (entriesChanged && Converted(newEntries).Err?)
      ensures entriesChanged && !err ==> entries == Reconciled(old(entries), ignored, oldEntries, newEntries)
      ensures entriesChanged && err ==>
                exists gone :: gone <= Outdated(KeyDomains(oldEntries), KeyDomains(newEntries))
                               && entries == old(entries) - gone
      ensures !entriesChanged ==> entries == old(entries)
      ensures !entriesChanged && metadataChanged && !err ==> plain == (old(plain) - oldMetadata.Keys) + newMetadata
      ensures !entriesChanged && metadataChanged && err ==>
                exists gone :: gone <= oldMetadata.Keys - newMetadata.Keys && plain == old(plain) - gone
      ensures entriesChanged || !metadataChanged ==> plain == old(plain)
    {
      err := CreateOrUpdateMetadataEntryInVcd(entriesChanged, oldEntries, newEntries, ignored);
      if err {
        return;
      }
      if metadataChanged && !entriesChanged {
        err := UpdatePlainMetadata(oldMetadata, newMetadata);
      }
    }
  }

  /** Keys that stay need no deletion: the merge overwrites them. */
  lemma KeptOverwritten(plain: map<string, string>, oldKeys: set<string>, newMetadata: map<string, string>)
    ensures (plain - (oldKeys - newMetadata.Keys)) + newMetadata == (plain - oldKeys) + newMetadata
    ensures |newMetadata| == 0 ==> plain - (oldKeys - newMetadata.Keys) == (plain - oldKeys) + newMetadata
  {}

  /** The keys of the old map that the new one lacks, in no particular order. */
  method CollectRemoved(oldMetadata: map<string, string>, newMetadata: map<string, string>)
    returns (toBeRemoved: seq<string>)
    ensures Elements(toBeRemoved) == oldMetadata.Keys - newMetadata.Keys
  {
    toBeRemoved := [];
    var remaining := oldMetadata.Keys;
    while remaining != {}
      invariant remaining <= oldMetadata.Keys
      invariant Elements(toBeRemoved) == (oldMetadata.Keys - newMetadata.Keys) - remaining
      decreases remaining
    {
      var k :| k in remaining;
      ghost var before := toBeRemoved;
      if k !in newMetadata {
        toBeRemoved := toBeRemoved + [k];
        assert Elements(toBeRemoved) == Elements(before) + {k};
      }
      remaining := remaining - {k};
    }
  }

  /** The server after a reconciliation that met no error. */
  function Reconciled(entries: Entries, ignored: set<string>, oldMetadata: seq<Entry>,
                      newMetadata: seq<Entry>): (after: Entries)
    requires Converted(newMetadata).Ok?
  {
    (entries - Outdated(KeyDomains(oldMetadata), KeyDomains(newMetadata)))
    + ServerEntries(Unignored(Converted(newMetadata).value, ignored))
  }

  lemma OutdatedGrows(oldKeys: map<string, bool>, newKeys: map<string, bool>, remaining: set<string>, k: string)
    requires k in remaining && remaining <= oldKeys.Keys
    ensures Outdated(oldKeys - (remaining - {k}), newKeys)
            == Outdated(oldKeys - remaining, newKeys) + (if k in newKeys then {} else {(k, oldKeys[k])})
    ensures Outdated(oldKeys - remaining, newKeys) <= Outdated(oldKeys, newKeys)
  {
    var before, after := oldKeys - remaining, oldKeys - (remaining - {k});
    assert after.Keys == before.Keys + {k};
  }

  lemma NothingSent(entries: Entries)
    ensures entries + ServerEntries(map[]) == entries
  {
    assert ServerEntries(map[]) == map[];
  }

  lemma SentPairs(newMetadata: seq<Entry>, ignored: set<string>)
    requires Converted(newMetadata).Ok?
    ensures var sent := ServerEntries(Unignored(Converted(newMetadata).value, ignored));
            var newKeys := KeyDomains(newMetadata);
            forall k, d :: (k, d) in sent <==> k in newKeys && k !in ignored && d == newKeys[k]
  {
    var values, newKeys := Converted(newMetadata).value, KeyDomains(newMetadata);
    var sent := ServerEntries(Unignored(values, ignored));
    ScannersAgree(newMetadata);
    forall k, d ensures (k, d) in sent <==> k in newKeys && k !in ignored && d == newKeys[k] {
      if k in newKeys && k !in ignored {
        assert k in Unignored(values, ignored);
        assert (k, values[k].domain == SYSTEM) in sent;
      }
    }
  }

  /** Entry by entry: a key and domain is on the server afterwards if it is that of a new
      entry that is not ignored, with the new value; or if it was there, with the value it
      had, unless it is that of an old entry whose key no new entry has. */
  lemma ReconciledAt(entries: Entries, ignored: set<string>, oldMetadata: seq<Entry>, newMetadata: seq<Entry>,
                     key: string, isSystem: bool)
    requires Converted(newMetadata).Ok?
    ensures KeyDomains(newMetadata).Keys == Converted(newMetadata).value.Keys
    ensures var after := Reconciled(entries, ignored, oldMetadata, newMetadata);
            var (oldKeys, newKeys) := (KeyDomains(oldMetadata), KeyDomains(newMetadata));
            var sent := key in newKeys && key !in ignored && isSystem == newKeys[key];
            var outdated := key in oldKeys && isSystem == oldKeys[key] && key !in newKeys;
            && ((key, isSystem) in after <==> sent || ((key, isSystem) in entries && !outdated))
            && (sent ==> after[(key, isSystem)] == Converted(newMetadata).value[key])
            && (!sent && (key, isSystem) in after ==> after[(key, isSystem)] == entries[(key, isSystem)])
  {
    ScannersAgree(newMetadata);
    SentPairs(newMetadata, ignored);
    hide Converted, KeyDomains;
  }

  /** The reconciliation converges to the unrelated entries plus the merged new ones
      exactly when every key that stays keeps its domain and is not ignored. Otherwise
      the old entry of such a key is left behind. */
  lemma ConvergesIff(entries: Entries, ignored: set<string>, oldMetadata: seq<Entry>, newMetadata: seq<Entry>)
    requires Converted(newMetadata).Ok?
    requires Pairs(KeyDomains(oldMetadata)) <= entries.Keys
    ensures var oldKeys, newKeys := KeyDomains(oldMetadata), KeyDomains(newMetadata);
            var sent := ServerEntries(Unignored(Converted(newMetadata).value, ignored));
            Reconciled(entries, ignored, oldMetadata, newMetadata) == (entries - Pairs(oldKeys)) + sent
            <==> forall k :: k in oldKeys && k in newKeys ==> oldKeys[k] == newKeys[k] && k !in ignored
  {
    var oldKeys, newKeys := KeyDomains(oldMetadata), KeyDomains(newMetadata);
    var sent := ServerEntries(Unignored(Converted(newMetadata).value, ignored));
    SentPairs(newMetadata, ignored);
    ConvergesWhenSent(entries, oldKeys, newKeys, sent, ignored);
  }

  lemma ConvergesWhenSent(entries: Entries, oldKeys: map<string, bool>, newKeys: map<string, bool>, sent: Entries,
                          ignored: set<string>)
    requires Pairs(oldKeys) <= entries.Keys
    requires forall k, d :: (k, d) in sent <==> k in newKeys && k !in ignored && d == newKeys[k]
    ensures (entries - Outdated(oldKeys, newKeys)) + sent == (entries - Pairs(oldKeys)) + sent
            <==> forall k :: k in oldKeys && k in newKeys ==> oldKeys[k] == newKeys[k] && k !in ignored
  {
    LeftoversIff(entries, oldKeys, newKeys, sent);
    hide Outdated, Pairs;
    forall k | k in oldKeys && k in newKeys
      ensures (k, oldKeys[k]) in sent <==> oldKeys[k] == newKeys[k] && k !in ignored
    {
    }
  }

  lemma LeftoversIff(entries: Entries, oldKeys: map<string, bool>, newKeys: map<string, bool>, sent: Entries)
    requires Pairs(oldKeys) <= entries.Keys
    ensures (entries - Outdated(oldKeys, newKeys)) + sent == (entries - Pairs(oldKeys)) + sent
            <==> forall k :: k in oldKeys && k in newKeys ==> (k, oldKeys[k]) in sent
  {
    var actual, expected := (entries - Outdated(oldKeys, newKeys)) + sent, (entries - Pairs(oldKeys)) + sent;
    if k :| k in oldKeys && k in newKeys && (k, oldKeys[k]) !in sent {
      assert (k, oldKeys[k]) in Pairs(oldKeys) && (k, oldKeys[k]) !in Outdated(oldKeys, newKeys);
      assert (k, oldKeys[k]) in actual && (k, oldKeys[k]) !in expected;
    } else {
      forall p | p in entries && p !in sent
        ensures p in Outdated(oldKeys, newKeys) <==> p in Pairs(oldKeys)
      {
      }
      assert actual.Keys == expected.Keys;
      assert actual == expected;
    }
  }

  // ----------------------------------------------- the filter that a merge sees

  /** In every reachable state of any number of tasks, a thread outside the swap section that
      merges there sees one of two filters: the configured one when no other thread is inside
      the section, and otherwise nil, which drops nothing. `drops` gives the keys that a
      filter drops. */
  lemma MergeSeesEitherFilter(tasks: seq<LockScripts.Task>, configured: LockMachine.Filter, schedule: seq<nat>,
                              t: nat, drops: LockMachine.Filter -> set<string>,
                              entries: Entries, oldMetadata: seq<Entry>, newMetadata: seq<Entry>)
    requires MutexKv.FineLegal(MutexKv.FineInit(LockScripts.Scripts(tasks), configured), schedule)
    requires var c := MutexKv.FineRun(MutexKv.FineInit(LockScripts.Scripts(tasks), configured), schedule);
             t < |c.threads| && !LockMachine.InSection(c.threads[t].todo)
    requires drops([]) == {} && Converted(newMetadata).Ok?
    ensures var c := MutexKv.FineRun(MutexKv.FineInit(LockScripts.Scripts(tasks), configured), schedule);
            Reconciled(entries, drops(c.filter), oldMetadata, newMetadata)
            == Reconciled(entries, if LockScripts.AloneOutside(c.threads, t) then drops(configured) else {},
                          oldMetadata, newMetadata)
  {
    LockScripts.FilterSeenOutside(tasks, configured, schedule, t);
  }

  /** What a nil filter does to a reconciliation: the result is the same exactly when the
      server already has what the ignored entries say. Otherwise entries that should be
      ignored are sent. */
  lemma NilFilterHarmlessIff(entries: Entries, ignored: set<string>, oldMetadata: seq<Entry>,
                             newMetadata: seq<Entry>)
    requires Converted(newMetadata).Ok?
    ensures KeyDomains(newMetadata).Keys == Converted(newMetadata).value.Keys
    ensures Reconciled(entries, {}, oldMetadata, newMetadata)
            == Reconciled(entries, ignored, oldMetadata, newMetadata)
            <==> forall k :: k in KeyDomains(newMetadata) && k in ignored ==>
                   SentInVain(entries, k, KeyDomains(newMetadata)[k], Converted(newMetadata).value[k])
  {
    var oldKeys, newKeys := KeyDomains(oldMetadata), KeyDomains(newMetadata);
    var values := Converted(newMetadata).value;
    var all, sent := ServerEntries(Unignored(values, {})), ServerEntries(Unignored(values, ignored));
    ScannersAgree(newMetadata);
    SentPairs(newMetadata, {});
    SentPairs(newMetadata, ignored);
    hide Converted, KeyDomains;
    MoreSentIff(entries - Outdated(oldKeys, newKeys), all, sent);
    forall k | k in newKeys && k in ignored
      ensures (k, newKeys[k]) in all && (k, newKeys[k]) !in sent && all[(k, newKeys[k])] == values[k]
      ensures (k, newKeys[k]) !in Outdated(oldKeys, newKeys)
    {
    }
    forall p | p in all && p !in sent ensures p.0 in newKeys && p.0 in ignored && p.1 == newKeys[p.0] {
      assert (p.0, p.1) in all;
    }
  }

  /** The server has the value under the key and domain already. */
  predicate SentInVain(entries: Entries, key: string, isSystem: bool, value: ApiValue) {
    (key, isSystem) in entries && entries[(key, isSystem)] == value
  }

  lemma MoreSentIff(kept: Entries, all: Entries, sent: Entries)
    requires forall p :: p in sent ==> p in all && sent[p] == all[p]
    ensures kept + all == kept + sent <==> forall p :: p in all && p !in sent ==> p in kept && kept[p] == all[p]
  {
    if kept + all == kept + sent {
      forall p | p in all && p !in sent ensures p in kept && kept[p] == all[p] {
        assert p in kept + all && (kept + all)[p] == all[p];
      }
    }
  }
}
