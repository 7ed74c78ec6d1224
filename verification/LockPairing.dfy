/** The lock helpers that re-read the resource data when they release, and operations built
    on them: vcd/config.go, vcd/nsxv_nat.go, vcd/resource_vcd_edgegateway.go,
    vcd/resource_vcd_network_isolated_v2.go and vcd/resource_vcd_network_routed_v2.go. */
module LockPairing {
  import opened LockMachine
  import opened LockScripts
  import opened Options
  import Text

  /** The helper pairs. A pair computes its key the same way when it locks and when it
      unlocks, each time from the resource data of that moment. */
  datatype Helper =
    | Vapp                       // lockVapp
    | EdgeGatewayItself          // lockEdgeGateway
    | ParentVappWithName(vappName: string)
    | ParentVapp
    | ParentVm
    | ById(id: string)
    | ParentVdcGroup
    | ParentExternalNetwork
    | OwnerIfVdcGroup
    | ParentEdgeGtw
    | ParentOrgNetwork

  type Fields = map<string, string>

  /** `NoKey` is the conditional helper that has nothing to lock. */
  datatype Found = Key(key: string) | NoKey | Panic

  function Get(fields: Fields, name: string): string {
    if name in fields then fields[name] else ""
  }

  function NonEmpty(key: string): Found {
    if key == "" then Panic else Key(key)
  }

  function OrDefault(value: string, default_: string): string {
    if value == "" then default_ else value
  }

  /** The edge gateway's id when it is given, otherwise the id its name is looked up to. */
  function ParentEdgeKey(id: string, name: string, lookup: Option<string>): Found {
    if id == "" && name == "" then Panic
    else if id != "" then Key(id)
    else if lookup.None? then Panic
    else NonEmpty(lookup.value)
  }

  datatype Outcome = Succeeded | Failed | Panicked

  function LockOps(found: Found): seq<Op> {
    if found.Key? then [Op.Lock(found.key)] else []
  }

  function UnlockOps(found: Found): seq<Op> {
    if found.Key? then [Op.Unlock(found.key)] else []
  }

  /** What an operation does to the locks: acquire, perhaps read metadata, and release under
      what the helper finds at the end. A panic in the acquisition ends it. */
  function PairOps(acquired: Found, read: Option<nat>, released: Found): seq<Op> {
    if acquired.Panic? then [] else LockOps(acquired) + OptionalRead(read) + UnlockOps(released)
  }

  predicate Paired(acquired: Found, released: Found) {
    match acquired
    case Key(k) => released == acquired
    case NoKey => !released.Key?
    case Panic => true
  }

  lemma NothingLeftToDo(held: set<string>)
    ensures Disciplined([], held) <==> held == {}
    ensures !InSection([])
  {}

  lemma ReleaseIs(released: Found, held: set<string>)
    ensures !InSection(UnlockOps(released))
    ensures Disciplined(UnlockOps(released), held)
            <==> if released.Key? then released.key in held && held - {released.key} == {} else held == {}
  {
    NothingLeftToDo(held);
    if released.Key? {
      NothingLeftToDo(held - {released.key});
      UnlockCons(released.key, [], held);
      assert UnlockOps(released) == [Op.Unlock(released.key)] + [];
    }
  }

  /** The pair keeps the lock discipline of the whole provider, and so its freedom from
      deadlock, exactly when the release finds the key that was acquired. (Reading metadata
      under the metadata key itself never gets as far as the release.) */
  lemma PairedIff(acquired: Found, read: Option<nat>, released: Found)
    ensures Disciplined(PairOps(acquired, read, released), {})
            <==> Paired(acquired, released) || (acquired == Key(METADATA_KEY) && read.Some?)
  {
    hide Disciplined, InSection, OptionalRead;
    var close := UnlockOps(released);
    NothingLeftToDo({});
    if acquired.Key? {
      var held := {acquired.key};
      assert {} + held == held && held - held == {};
      assert acquired.key in held;
      assert PairOps(acquired, read, released) == [Op.Lock(acquired.key)] + (OptionalRead(read) + close);
      ReleaseIs(released, held);
      OptionalReadSegment(read, close, held);
      LockCons(acquired.key, OptionalRead(read) + close, {});
    } else if acquired.NoKey? {
      assert PairOps(acquired, read, released) == OptionalRead(read) + close;
      ReleaseIs(released, {});
      OptionalReadSegment(read, close, {});
    }
  }

  /** A paired operation is one of the tasks that LockScripts interleaves. */
  lemma PairedIsTask(acquired: Found, read: Option<nat>, released: Found)
    requires Paired(acquired, released)
    ensures PairOps(acquired, read, released)
            == match acquired
               case Key(k) => Script(UnderKey(k, read))
               case NoKey => OptionalRead(read)
               case Panic => []
  {
    assert acquired.NoKey? ==> [] + OptionalRead(read) + [] == OptionalRead(read);
  }

  lemma BarSplits(prefix: string, a: string, b: string, x: string, y: string)
    requires '|' !in prefix && '|' !in a && '|' !in b && prefix + a + "|" + x == prefix + b + "|" + y
    ensures a == b && x == y
  {
    Text.CountAbsent(prefix + a, '|');
    Text.CountAbsent(prefix + b, '|');
    Text.SameCountSamePrefix(prefix + a, prefix + b, x, y, '|');
    assert a == (prefix + a)[|prefix|..] && b == (prefix + b)[|prefix|..];
  }

  lemma VappKeyRegrouped(o: string, v: string, vapp: string)
    ensures "org:" + o + "|vdc:" + v + "|vapp:" + vapp
            == "org:" + o + "|" + ("vdc:" + v + "|" + ("vapp:" + vapp))
  {
    assert "|vdc:" == "|" + "vdc:" && "|vapp:" == "|" + "vapp:";
  }

  /** The key of a vApp tells organisation, VDC and name apart, as long as organisation and
      VDC have no '|'. */
  lemma VappKeysDiffer(o: string, v: string, vapp: string, o': string, v': string, vapp': string)
    requires forall t :: t in {o, v, o', v'} ==> '|' !in t
    ensures "org:" + o + "|vdc:" + v + "|vapp:" + vapp == "org:" + o' + "|vdc:" + v' + "|vapp:" + vapp'
            <==> o == o' && v == v' && vapp == vapp'
  {
    VappKeyRegrouped(o, v, vapp);
    VappKeyRegrouped(o', v', vapp');
    if "org:" + o + "|vdc:" + v + "|vapp:" + vapp == "org:" + o' + "|vdc:" + v' + "|vapp:" + vapp' {
      BarSplits("org:", o, o', "vdc:" + v + "|" + ("vapp:" + vapp), "vdc:" + v' + "|" + ("vapp:" + vapp'));
      BarSplits("vdc:", v, v', "vapp:" + vapp, "vapp:" + vapp');
      assert vapp == ("vapp:" + vapp)[5..] && vapp' == ("vapp:" + vapp')[5..];
    }
  }

  lemma AppendedSuffix(a: seq<Op>, b: seq<Op>, c: seq<Op>)
    requires a <= b <= c
    ensures c[|a|..] == b[|a|..] + c[|b|..]
  {}

  // ------------------------------------------------------------ the client

  class ResourceData {
    var id: string
    var fields: Fields

    constructor (id: string, fields: Fields)
      ensures this.id == id && this.fields == fields
    {
      this.id, this.fields := id, fields;
    }
  }

  class Client {
    const org: string
    const vdc: string
    const isVdcGroup: string -> bool
    /** The keyed-lock operations so far. */
    var log: seq<Op>

    constructor (org: string, vdc: string, isVdcGroup: string -> bool)
      ensures log == [] && this.org == org && this.vdc == vdc && this.isVdcGroup == isVdcGroup
    {
      this.org, this.vdc, this.isVdcGroup := org, vdc, isVdcGroup;
      log := [];
    }

    function VappKey(fields: Fields, vappName: string): string {
      "org:" + OrDefault(Get(fields, "org"), org) + "|vdc:" + OrDefault(Get(fields, "vdc"), vdc) + "|vapp:" + vappName
    }

    /** `lookup` is the id the server finds now for the edge gateway's name. */
    function Find(h: Helper, id: string, fields: Fields, lookup: Option<string>): Found {
      match h
      case Vapp => FindVapp(fields, Get(fields, "name"))
      case EdgeGatewayItself => NonEmpty(id)
      case ParentVappWithName(vappName) => FindVapp(fields, vappName)
      case ParentVapp => FindVapp(fields, Get(fields, "vapp_name"))
      case ParentVm =>
        var vappName, vmName := Get(fields, "vapp_name"), Get(fields, "vm_name");
        if vappName == "" || vmName == "" then Panic else Key(VappKey(fields, vappName) + "|vm:" + vmName)
      case ById(lockId) => Key(lockId)
      case ParentVdcGroup => NonEmpty(Get(fields, "vdc_group_id"))
      case ParentExternalNetwork => NonEmpty(Get(fields, "external_network_id"))
      case OwnerIfVdcGroup =>
        var owner := Get(fields, "owner_id");
        if isVdcGroup(owner) then Key(owner) else NoKey
      case ParentEdgeGtw => ParentEdgeKey(Get(fields, "edge_gateway_id"), Get(fields, "edge_gateway"), lookup)
      case ParentOrgNetwork => Key(Get(fields, "org_network_id"))
    }

    function FindVapp(fields: Fields, vappName: string): Found {
      if vappName == "" then Panic else Key(VappKey(fields, vappName))
    }

    /** The fields a helper re-reads. */
    function Reread(h: Helper): set<string> {
      match h
      case Vapp => {"org", "vdc", "name"}
      case EdgeGatewayItself => {}
      case ParentVappWithName(vappName) => {"org", "vdc"}
      case ParentVapp => {"org", "vdc", "vapp_name"}
      case ParentVm => {"org", "vdc", "vapp_name", "vm_name"}
      case ById(lockId) => {}
      case ParentVdcGroup => {"vdc_group_id"}
      case ParentExternalNetwork => {"external_network_id"}
      case OwnerIfVdcGroup => {"owner_id"}
      case ParentEdgeGtw => {"edge_gateway_id", "edge_gateway"}
      case ParentOrgNetwork => {"org_network_id"}
    }

    /** As long as what a helper re-reads is unchanged, the release finds the key that was
        acquired, whatever else the operation wrote and however it ended. */
    lemma UnchangedFieldsPair(h: Helper, id: string, fields: Fields, lookup: Option<string>,
                              id': string, fields': Fields, lookup': Option<string>)
      requires forall name :: name in Reread(h) ==> Get(fields', name) == Get(fields, name)
      requires h.EdgeGatewayItself? ==> id' == id
      requires h.ParentEdgeGtw? && Get(fields, "edge_gateway_id") == "" ==> lookup' == lookup
      ensures Find(h, id, fields, lookup) == Find(h, id', fields', lookup')
      ensures Disciplined(PairOps(Find(h, id, fields, lookup), None, Find(h, id', fields', lookup')), {})
    {
      match h {
        case ParentVm =>
          assert "vapp_name" in Reread(h) && "vm_name" in Reread(h) && "org" in Reread(h) && "vdc" in Reread(h);
        case ParentVapp => assert "vapp_name" in Reread(h) && "org" in Reread(h) && "vdc" in Reread(h);
        case Vapp => assert "name" in Reread(h) && "org" in Reread(h) && "vdc" in Reread(h);
        case ParentVappWithName(vappName) => assert "org" in Reread(h) && "vdc" in Reread(h);
        case ParentEdgeGtw => assert "edge_gateway_id" in Reread(h) && "edge_gateway" in Reread(h);
        case ParentVdcGroup => assert "vdc_group_id" in Reread(h);
        case ParentExternalNetwork => assert "external_network_id" in Reread(h);
        case OwnerIfVdcGroup => assert "owner_id" in Reread(h);
        case ParentOrgNetwork => assert "org_network_id" in Reread(h);
        case EdgeGatewayItself =>
        case ById(lockId) =>
      }
      PairedIff(Find(h, id, fields, lookup), None, Find(h, id', fields', lookup'));
    }

    /** The organisation, or the VDC, of a resource: its own field when it sets one, and
        otherwise that of the client. */
    predicate Names(fields: Fields, name: string, default_: string, value: string) {
      if name in fields && fields[name] != "" then value == fields[name] else value == default_
    }

    /** The three vApp helpers take one key for one vApp: the helper of the vApp itself, which
        reads `name`, and the two of the resources in it, which read `vapp_name` or are told
        the name. They panic exactly for an empty name. */
    lemma VappHelpersAgree(o: string, v: string, vapp: string, itself: Fields, child: Fields, other: Fields,
                           id: string, lookup: Option<string>)
      requires Names(itself, "org", org, o) && Names(child, "org", org, o) && Names(other, "org", org, o)
      requires Names(itself, "vdc", vdc, v) && Names(child, "vdc", vdc, v) && Names(other, "vdc", vdc, v)
      requires "name" in itself && itself["name"] == vapp && "vapp_name" in child && child["vapp_name"] == vapp
      ensures Find(Vapp, id, itself, lookup) == Find(ParentVapp, id, child, lookup)
              == Find(ParentVappWithName(vapp), id, other, lookup)
              == if vapp == "" then Panic else Key("org:" + o + "|vdc:" + v + "|vapp:" + vapp)
    {}

    /** A missing name counts as an empty one. */
    lemma VappHelpersNeedName(fields: Fields, id: string, lookup: Option<string>)
      ensures "name" !in fields ==> Find(Vapp, id, fields, lookup) == Panic
      ensures "vapp_name" !in fields ==>
                Find(ParentVapp, id, fields, lookup) == Panic && Find(ParentVm, id, fields, lookup) == Panic
      ensures "vm_name" !in fields ==> Find(ParentVm, id, fields, lookup) == Panic
    {}

    lemma VmKeyIs(o: string, v: string, fields: Fields, id: string, lookup: Option<string>)
      requires Names(fields, "org", org, o) && Names(fields, "vdc", vdc, v)
      requires "vapp_name" in fields && "vm_name" in fields
      ensures var vapp, vm := fields["vapp_name"], fields["vm_name"];
              Find(ParentVm, id, fields, lookup)
              == if vapp == "" || vm == "" then Panic
                 else Key("org:" + o + "|vdc:" + v + "|vapp:" + vapp + "|vm:" + vm)
    {}

    /** The other helpers take the id they read as their key; only those that read a field
        of the parent panic when it is empty. */
    lemma IdHelpersTakeTheId(id: string, fields: Fields, lookup: Option<string>, given: string)
      ensures Find(ById(given), id, fields, lookup) == Key(given)
      ensures Find(EdgeGatewayItself, id, fields, lookup) == if id == "" then Panic else Key(id)
      ensures "vdc_group_id" in fields ==>
                Find(ParentVdcGroup, id, fields, lookup)
                == if fields["vdc_group_id"] == "" then Panic else Key(fields["vdc_group_id"])
      ensures "external_network_id" in fields ==>
                Find(ParentExternalNetwork, id, fields, lookup)
                == if fields["external_network_id"] == "" then Panic else Key(fields["external_network_id"])
      ensures "vdc_group_id" !in fields ==> Find(ParentVdcGroup, id, fields, lookup) == Panic
      ensures "external_network_id" !in fields ==> Find(ParentExternalNetwork, id, fields, lookup) == Panic
      ensures "org_network_id" in fields ==>
                Find(ParentOrgNetwork, id, fields, lookup) == Key(fields["org_network_id"])
      ensures "org_network_id" !in fields ==> Find(ParentOrgNetwork, id, fields, lookup) == Key("")
      ensures "owner_id" in fields ==>
                Find(OwnerIfVdcGroup, id, fields, lookup)
                == if isVdcGroup(fields["owner_id"]) then Key(fields["owner_id"]) else NoKey
    {}

    /** The parent edge gateway: its id when it is given, and otherwise the id that its name
        is found under; a panic when there is neither, or the name finds nothing. */
    lemma EdgeHelperTakesTheId(id: string, fields: Fields, lookup: Option<string>)
      ensures "edge_gateway_id" in fields && fields["edge_gateway_id"] != "" ==>
                Find(ParentEdgeGtw, id, fields, lookup) == Key(fields["edge_gateway_id"])
      ensures ("edge_gateway_id" !in fields || fields["edge_gateway_id"] == "")
              && "edge_gateway" in fields && fields["edge_gateway"] != "" ==>
                Find(ParentEdgeGtw, id, fields, lookup)
                == if lookup.None? || lookup.value == "" then Panic else Key(lookup.value)
      ensures ("edge_gateway_id" !in fields || fields["edge_gateway_id"] == "")
              && ("edge_gateway" !in fields || fields["edge_gateway"] == "") ==>
                Find(ParentEdgeGtw, id, fields, lookup) == Panic
    {}

    method Lock(h: Helper, d: ResourceData, lookup: Option<string>) returns (ok: bool)
      modifies this`log
      ensures log == old(log) + LockOps(Find(h, d.id, d.fields, lookup))
      ensures ok <==> !Find(h, d.id, d.fields, lookup).Panic?
      ensures forall k :: Find(h, d.id, d.fields, lookup) == Key(k) ==> log == old(log) + [Op.Lock(k)]
      ensures !Find(h, d.id, d.fields, lookup).Key? ==> log == old(log)
    {
      var found := Find(h, d.id, d.fields, lookup);
      if found.Key? {
        log := log + [Op.Lock(found.key)];
      }
      ok := !found.Panic?;
    }

    method Unlock(h: Helper, d: ResourceData, lookup: Option<string>) returns (ok: bool)
      modifies this`log
      ensures log == old(log) + UnlockOps(Find(h, d.id, d.fields, lookup))
      ensures ok <==> !Find(h, d.id, d.fields, lookup).Panic?
      ensures forall k :: Find(h, d.id, d.fields, lookup) == Key(k) ==> log == old(log) + [Op.Unlock(k)]
      ensures !Find(h, d.id, d.fields, lookup).Key? ==> log == old(log)
    {
      var found := Find(h, d.id, d.fields, lookup);
      if found.Key? {
        log := log + [Op.Unlock(found.key)];
      }
      ok := !found.Panic?;
    }

    // ------------------------------------------------------------- NAT rules

    /** What both data setters write never includes the fields of the lock. */
    ghost predicate NatFields(written: Fields) {
      "edge_gateway" !in written && "edge_gateway_id" !in written
    }

    /** The NAT operations keep the discipline unless the gateway's name finds another id,
        or none, by the time they release. */
    predicate NatPaired(before: Fields, atLock: Option<string>, atUnlock: Option<string>) {
      || ParentEdgeKey(Get(before, "edge_gateway_id"), Get(before, "edge_gateway"), atLock).Panic?
      || Get(before, "edge_gateway_id") != ""
      || atUnlock == atLock
    }

    method NatRuleRead(d: ResourceData, written: Fields) returns (o: Outcome)
      requires NatFields(written)
      modifies d
      ensures o != Panicked
      ensures d.fields == old(d.fields) || d.fields == old(d.fields) + written
    {
      var gatewayFound: bool := *;
      if !gatewayFound {
        return Failed;
      }
      var rule: Option<string> := *;
      if !rule.Some? {
        d.id := "";
        return Failed;
      }
      var rightType: bool := *;
      if !rightType {
        return Failed;
      }
      d.id := rule.value;
      var dataSet: bool := *;
      if dataSet {
        d.fields := d.fields + written;
        return Succeeded;
      }
      return Failed;
    }

    method NatRuleCreateLocked(d: ResourceData, written: Fields) returns (o: Outcome)
      requires NatFields(written)
      modifies d
      ensures o != Panicked
      ensures Get(d.fields, "edge_gateway") == old(Get(d.fields, "edge_gateway"))
      ensures Get(d.fields, "edge_gateway_id") == old(Get(d.fields, "edge_gateway_id"))
    {
      var created: Option<string> := *;
      if !created.Some? {
        return Failed;
      }
      d.id := created.value;
      o := NatRuleRead(d, written);
    }

    method NatRuleUpdateLocked(d: ResourceData, updated: Fields, written: Fields) returns (o: Outcome)
      requires NatFields(updated) && NatFields(written)
      modifies d
      ensures o != Panicked
      ensures Get(d.fields, "edge_gateway") == old(Get(d.fields, "edge_gateway"))
      ensures Get(d.fields, "edge_gateway_id") == old(Get(d.fields, "edge_gateway_id"))
    {
      var ok: bool := *;
      if !ok {
        return Failed;
      }
      d.fields := d.fields + updated;
      o := NatRuleRead(d, written);
    }

    method NatRuleDeleteLocked(d: ResourceData) returns (o: Outcome)
      modifies d
      ensures o != Panicked && d.fields == old(d.fields)
      ensures d.id == if o == Succeeded then "" else old(d.id)
    {
      var deleted: bool := *;
      if !deleted {
        return Failed;
      }
      d.id := "";
      return Succeeded;
    }

    /** The deferred release, run on every way out. */
    method NatRelease(d: ResourceData, before: Fields, atLock: Option<string>, atUnlock: Option<string>, o: Outcome)
      returns (end: Outcome)
      requires Get(d.fields, "edge_gateway") == Get(before, "edge_gateway")
      requires Get(d.fields, "edge_gateway_id") == Get(before, "edge_gateway_id")
      requires Find(ParentEdgeGtw, d.id, before, atLock).Key? && o != Panicked
      modifies this`log
      ensures log == old(log) + UnlockOps(Find(ParentEdgeGtw, d.id, d.fields, atUnlock))
      ensures Disciplined(LockOps(Find(ParentEdgeGtw, d.id, before, atLock)) + log[|old(log)|..], {})
              <==> NatPaired(before, atLock, atUnlock)
      ensures end == Panicked || end == o
      ensures NatPaired(before, atLock, atUnlock) ==> end == o
    {
      var ok := Unlock(ParentEdgeGtw, d, atUnlock);
      var acquired := Find(ParentEdgeGtw, d.id, before, atLock);
      var released := Find(ParentEdgeGtw, d.id, d.fields, atUnlock);
      PairedIff(acquired, None, released);
      assert PairOps(acquired, None, released) == LockOps(acquired) + UnlockOps(released);
      end := if ok then o else Panicked;
    }

    method NatRuleCreate(d: ResourceData, written: Fields, atLock: Option<string>, atUnlock: Option<string>)
      returns (o: Outcome)
      requires NatFields(written)
      modifies this`log, d
      ensures old(log) <= log
      ensures Disciplined(log[|old(log)|..], {}) <==> NatPaired(old(d.fields), atLock, atUnlock)
      ensures log == old(log) + PairOps(old(Find(ParentEdgeGtw, d.id, d.fields, atLock)), None,
                                        Find(ParentEdgeGtw, d.id, d.fields, atUnlock))
      ensures NatPaired(old(d.fields), atLock, atUnlock) ==>
                (o == Panicked <==> old(Find(ParentEdgeGtw, d.id, d.fields, atLock).Panic?))
    {
      hide Disciplined, ReadOps, Get;
      var before := d.fields;
      var ok := Lock(ParentEdgeGtw, d, atLock);
      if !ok {
        PairedIff(Panic, None, Panic);
        assert log[|old(log)|..] == PairOps(Panic, None, Panic);
        return Panicked;
      }
      ghost var locked := log;
      o := NatRuleCreateLocked(d, written);
      o := NatRelease(d, before, atLock, atUnlock, o);
      AppendedSuffix(old(log), locked, log);
    }

    method NatRuleUpdate(d: ResourceData, updated: Fields, written: Fields,
                         atLock: Option<string>, atUnlock: Option<string>)
      returns (o: Outcome)
      requires NatFields(updated) && NatFields(written)
      modifies this`log, d
      ensures old(log) <= log
      ensures Disciplined(log[|old(log)|..], {}) <==> NatPaired(old(d.fields), atLock, atUnlock)
      ensures log == old(log) + PairOps(old(Find(ParentEdgeGtw, d.id, d.fields, atLock)), None,
                                        Find(ParentEdgeGtw, d.id, d.fields, atUnlock))
      ensures NatPaired(old(d.fields), atLock, atUnlock) ==>
                (o == Panicked <==> old(Find(ParentEdgeGtw, d.id, d.fields, atLock).Panic?))
    {
      hide Disciplined, ReadOps, Get;
      var before := d.fields;
      var ok := Lock(ParentEdgeGtw, d, atLock);
      if !ok {
        PairedIff(Panic, None, Panic);
        assert log[|old(log)|..] == PairOps(Panic, None, Panic);
        return Panicked;
      }
      ghost var locked := log;
      o := NatRuleUpdateLocked(d, updated, written);
      o := NatRelease(d, before, atLock, atUnlock, o);
      AppendedSuffix(old(log), locked, log);
    }

    /** The release does not depend on the id the deletion has cleared. */
    method NatRuleDelete(d: ResourceData, atLock: Option<string>, atUnlock: Option<string>) returns (o: Outcome)
      modifies this`log, d
      ensures old(log) <= log
      ensures Disciplined(log[|old(log)|..], {}) <==> NatPaired(old(d.fields), atLock, atUnlock)
      ensures log == old(log) + PairOps(old(Find(ParentEdgeGtw, d.id, d.fields, atLock)), None,
                                        Find(ParentEdgeGtw, d.id, d.fields, atUnlock))
      ensures NatPaired(old(d.fields), atLock, atUnlock) ==>
                (o == Panicked <==> old(Find(ParentEdgeGtw, d.id, d.fields, atLock).Panic?))
      ensures o == Succeeded ==> d.id == ""
    {
      hide Disciplined, ReadOps, Get;
      var before := d.fields;
      var ok := Lock(ParentEdgeGtw, d, atLock);
      if !ok {
        PairedIff(Panic, None, Panic);
        assert log[|old(log)|..] == PairOps(Panic, None, Panic);
        return Panicked;
      }
      ghost var locked := log;
      o := NatRuleDeleteLocked(d);
      o := NatRelease(d, before, atLock, atUnlock, o);
      AppendedSuffix(old(log), locked, log);
    }

    // ---------------------------------------------------------- edge gateways

    /** genericVcdEdgeGatewayRead for a resource that has an id. The new id is stored before
        any of the values that may fail. */
    method EdgeGatewayRead(d: ResourceData, reachable: bool, current: Option<string>, written: Fields)
      returns (o: Outcome)
      modifies d
      ensures o != Panicked
      ensures d.id == if !reachable then old(d.id) else if current.None? then "" else current.value
      ensures reachable && current.None? ==> o == Succeeded
    {
      if !reachable {
        return Failed;
      }
      if current.None? {
        d.id := "";
        return Succeeded;
      }
      d.id := current.value;
      d.fields := d.fields + written;
      var valuesSet: bool := *;
      if !valuesSet {
        return Failed;
      }
      d.id := current.value;
      return Succeeded;
    }

    /** `found`, `updated` and `reachable` say how far the update gets; `current` is the
        gateway the final read finds. The key is released unless that read changes the id:
        when it clears it, the release panics with the key still locked. Nothing recovers
        from that panic, so it ends the process. */
    method EdgeGatewayUpdate(d: ResourceData, found: bool, updated: bool, reachable: bool,
                             current: Option<string>, written: Fields)
      returns (o: Outcome)
      modifies this`log, d
      ensures log == old(log) + PairOps(NonEmpty(old(d.id)), None, NonEmpty(d.id))
      ensures o == Panicked <==> old(d.id) == "" || d.id == ""
      ensures Disciplined(log[|old(log)|..], {})
              <==> old(d.id) == "" || !(found && updated && reachable) || current == Some(old(d.id))
      ensures old(d.id) != "" && found && updated && reachable && current.None? ==>
                o == Panicked && log == old(log) + [Op.Lock(old(d.id))]
    {
      var before := d.id;
      var ok := Lock(EdgeGatewayItself, d, None);
      if !ok {
        return Panicked;
      }
      if !found {
        o := Succeeded;
      } else if !updated {
        o := Failed;
      } else {
        o := EdgeGatewayRead(d, reachable, current, written);
      }
      ok := Unlock(EdgeGatewayItself, d, None);
      PairedIff(Key(before), None, NonEmpty(d.id));
      assert log[|old(log)|..] == PairOps(Key(before), None, NonEmpty(d.id));
      if !ok {
        o := Panicked;
      }
    }

    /** The deletion never touches the id, so it always pairs. */
    method EdgeGatewayDelete(d: ResourceData, found: bool, deleted: bool) returns (o: Outcome)
      modifies this`log
      ensures old(log) <= log && Disciplined(log[|old(log)|..], {})
      ensures d.id != "" ==>
                (o == Succeeded <==> found && deleted) && log == old(log) + [Op.Lock(d.id), Op.Unlock(d.id)]
    {
      var ok := Lock(EdgeGatewayItself, d, None);
      if !ok {
        return Panicked;
      }
      o := if found && deleted then Succeeded else Failed;
      ok := Unlock(EdgeGatewayItself, d, None);
      PairedIff(Key(d.id), None, Key(d.id));
      assert log[|old(log)|..] == PairOps(Key(d.id), None, Key(d.id));
    }

    // --------------------------------------------------------------- networks

    /** The fields of a network other than those its lock depends on. */
    ghost predicate NetworkFields(written: Fields) {
      "owner_id" !in written && "edge_gateway" !in written && "edge_gateway_id" !in written
    }

    /** updateMetadataInState, reduced to its lock and filter operations: the swap section
        and then a filtered read for every metadata_entry block looked at, and one more. */
    method ReadMetadata(entries: nat) returns (ok: bool, filtered: nat)
      modifies this`log
      ensures log == old(log) + ReadOps(1, filtered)
      ensures filtered <= entries + 1 && (ok ==> filtered > 0)
    {
      filtered :| 0 <= filtered <= entries + 1;
      log := log + ReadOps(1, filtered);
      ok := *;
      ok := ok && filtered > 0;
    }

    /** Metadata is read only for a network outside every VDC group. */
    method NetworkRead(d: ResourceData, orgFound: bool, fetch: Fetch, entries: nat, written: Fields)
      returns (o: Outcome, read: Option<nat>)
      requires NetworkFields(written)
      modifies this`log, d
      ensures o != Panicked
      ensures log == old(log) + OptionalRead(read)
      ensures read.Some? ==> orgFound && fetch.Network? && !isVdcGroup(fetch.owner) && read.value <= entries + 1
      ensures o == Succeeded && orgFound && fetch.Network? && !isVdcGroup(fetch.owner) ==> read.Some?
      ensures Get(d.fields, "owner_id")
              == if orgFound && fetch.Network? then fetch.owner else old(Get(d.fields, "owner_id"))
      ensures Get(d.fields, "edge_gateway_id")
              == if orgFound && fetch.Network? && fetch.router.Some? then fetch.router.value
                 else old(Get(d.fields, "edge_gateway_id"))
      ensures Get(d.fields, "edge_gateway") == old(Get(d.fields, "edge_gateway"))
    {
      read := None;
      if !orgFound {
        return Failed, None;
      }
      match fetch {
        case Missing =>
          d.id := "";
          return Succeeded, None;
        case Unreachable =>
          return Failed, None;
        case Network(id, owner, router) =>
          d.fields := (d.fields + written)["owner_id" := owner];
          if router.Some? {
            d.fields := d.fields["edge_gateway_id" := router.value];
          }
          var poolsSet: bool := *;
          if !poolsSet {
            return Failed, None;
          }
          d.id := id;
          var ok: bool;
          if !isVdcGroup(owner) {
            var filtered;
            ok, filtered := ReadMetadata(entries);
            read := Some(filtered);
          } else {
            ok := *;
          }
          o := if ok then Succeeded else Failed;
      }
    }

    method NetworkUpdateLocked(d: ResourceData, steps: NetworkSteps, written: Fields)
      returns (o: Outcome, read: Option<nat>)
      requires NetworkFields(written)
      modifies this`log, d
      ensures o != Panicked
      ensures log == old(log) + OptionalRead(read)
      ensures read.Some? ==> steps.Reads() && !isVdcGroup(steps.second.owner) && read.value <= steps.entries + 1
      ensures o == Succeeded && steps.Reads() && !isVdcGroup(steps.second.owner) ==> read.Some?
      ensures Get(d.fields, "owner_id") == if steps.Reads() then steps.second.owner else old(Get(d.fields, "owner_id"))
      ensures Get(d.fields, "edge_gateway_id")
              == if steps.Reads() && steps.second.router.Some? then steps.second.router.value
                 else old(Get(d.fields, "edge_gateway_id"))
      ensures Get(d.fields, "edge_gateway") == old(Get(d.fields, "edge_gateway"))
    {
      if !steps.orgFound {
        return Failed, None;
      }
      match steps.first {
        case Missing =>
          d.id := "";
          return Succeeded, None;
        case Unreachable =>
          return Failed, None;
        case Network(_, _, _) =>
      }
      if !steps.updated {
        return Failed, None;
      }
      o, read := NetworkRead(d, steps.readOrgFound, steps.second, steps.entries, written);
    }

    /** The owner the final read stores decides which key is released. When the keys agree
        the update is one task: under the group's key, or without a key. */
    method IsolatedNetworkUpdate(d: ResourceData, vdcChangeAllowed: bool, steps: NetworkSteps, written: Fields)
      returns (o: Outcome, read: Option<nat>)
      requires NetworkFields(written)
      modifies this`log, d
      ensures log == old(log) + if !vdcChangeAllowed then []
                                else PairOps(old(Find(OwnerIfVdcGroup, d.id, d.fields, None)), read,
                                             Find(OwnerIfVdcGroup, d.id, d.fields, None))
      ensures read.Some? ==> steps.Reads() && !isVdcGroup(steps.second.owner) && read.value <= steps.entries + 1
      ensures var owner := old(Get(d.fields, "owner_id"));
              vdcChangeAllowed && (steps.Reads() ==> steps.second.owner == owner) ==>
                log == old(log) + if isVdcGroup(owner) then Script(UnderKey(owner, read)) else OptionalRead(read)
      ensures var owner := old(Get(d.fields, "owner_id"));
              Disciplined(log[|old(log)|..], {})
              <==> !vdcChangeAllowed || !steps.Reads() || steps.second.owner == owner
                   || !(isVdcGroup(owner) || isVdcGroup(steps.second.owner))
                   || (isVdcGroup(owner) && owner == METADATA_KEY && read.Some?)
    {
      if !vdcChangeAllowed {
        return Failed, None;
      }
      var acquired := Find(OwnerIfVdcGroup, d.id, d.fields, None);
      var ok := Lock(OwnerIfVdcGroup, d, None);
      o, read := NetworkUpdateLocked(d, steps, written);
      var released := Find(OwnerIfVdcGroup, d.id, d.fields, None);
      ok := Unlock(OwnerIfVdcGroup, d, None);
      PairEnds(old(log), log, acquired, read, released);
    }

    /** lockParentVdcGroupOrEdgeGateway: the unlock function it returns remembers a VDC
        group's id, but looks an edge gateway up again. */
    method LockParentVdcGroupOrEdgeGateway(d: ResourceData, owner: Option<string>, lookup: Option<string>)
      returns (unlock: Option<Helper>, o: Outcome)
      modifies this`log
      ensures unlock.Some? <==> o == Succeeded
      ensures owner.None? ==> o == Failed
      ensures owner.Some? && isVdcGroup(owner.value) ==> unlock == Some(ById(owner.value))
      ensures owner.Some? && !isVdcGroup(owner.value) ==>
                unlock == if Find(ParentEdgeGtw, d.id, d.fields, lookup).Panic? then None else Some(ParentEdgeGtw)
      ensures log == old(log) + if unlock.Some? then LockOps(Find(unlock.value, d.id, d.fields, lookup)) else []
    {
      if owner.None? {
        return None, Failed;
      }
      if isVdcGroup(owner.value) {
        var ok := Lock(ById(owner.value), d, None);
        return Some(ById(owner.value)), Succeeded;
      }
      var ok := Lock(ParentEdgeGtw, d, lookup);
      if !ok {
        return None, Panicked;
      }
      return Some(ParentEdgeGtw), Succeeded;
    }

    /** In a VDC group the key is always released; otherwise unless the final read stores
        another edge gateway. When the keys agree the update is one task under that key. The
        resource has no `edge_gateway` field. */
    method RoutedNetworkUpdate(d: ResourceData, owner: Option<string>, steps: NetworkSteps, written: Fields)
      returns (o: Outcome, read: Option<nat>)
      requires NetworkFields(written) && "edge_gateway" !in d.fields
      modifies this`log, d
      ensures log == old(log) + if owner.None? then []
                                else if isVdcGroup(owner.value) then Script(UnderKey(owner.value, read))
                                else PairOps(old(Find(ParentEdgeGtw, d.id, d.fields, None)), read,
                                             Find(ParentEdgeGtw, d.id, d.fields, None))
      ensures read.Some? ==> steps.Reads() && !isVdcGroup(steps.second.owner) && read.value <= steps.entries + 1
      ensures var gateway := old(Get(d.fields, "edge_gateway_id"));
              owner.Some? && !isVdcGroup(owner.value) && gateway != ""
              && (steps.Reads() && steps.second.router.Some? ==> steps.second.router.value == gateway) ==>
                log == old(log) + Script(UnderKey(gateway, read))
      ensures var gateway := old(Get(d.fields, "edge_gateway_id"));
              Disciplined(log[|old(log)|..], {})
              <==> owner.None? || isVdcGroup(owner.value) || gateway == ""
                   || !steps.Reads() || steps.second.router.None? || steps.second.router == Some(gateway)
                   || (gateway == METADATA_KEY && read.Some?)
    {
      var unlock, locked := LockParentVdcGroupOrEdgeGateway(d, owner, None);
      if unlock.None? {
        return locked, None;
      }
      var acquired := Find(unlock.value, d.id, d.fields, None);
      o, read := NetworkUpdateLocked(d, steps, written);
      var released := Find(unlock.value, d.id, d.fields, None);
      var ok := Unlock(unlock.value, d, None);
      PairEnds(old(log), log, acquired, read, released);
      if !ok {
        o := Panicked;
      }
    }
  }

  lemma PairEnds(before: seq<Op>, after: seq<Op>, acquired: Found, read: Option<nat>, released: Found)
    requires !acquired.Panic?
    requires after == before + LockOps(acquired) + OptionalRead(read) + UnlockOps(released)
    ensures after == before + PairOps(acquired, read, released)
    ensures after[|before|..] == PairOps(acquired, read, released)
    ensures Disciplined(PairOps(acquired, read, released), {})
            <==> Paired(acquired, released) || (acquired == Key(METADATA_KEY) && read.Some?)
    ensures Paired(acquired, released) ==>
              PairOps(acquired, read, released)
              == if acquired.Key? then Script(UnderKey(acquired.key, read)) else OptionalRead(read)
  {
    AppendThree(before, LockOps(acquired), OptionalRead(read), UnlockOps(released));
    PairedIff(acquired, read, released);
    if Paired(acquired, released) {
      PairedIsTask(acquired, read, released);
    }
  }

  lemma AppendThree(before: seq<Op>, a: seq<Op>, b: seq<Op>, c: seq<Op>)
    ensures before + a + b + c == before + (a + b + c)
    ensures (before + a + b + c)[|before|..] == a + b + c
  {}

  datatype Fetch = Missing | Unreachable | Network(id: string, owner: string, router: Option<string>)

  /** How the steps of a network update end: the organisation, the network before the
      update, the update with its metadata, and the final read of a network with so many metadata_entry
      blocks. */
  datatype NetworkSteps = NetworkSteps(
    orgFound: bool, first: Fetch, updated: bool, readOrgFound: bool, second: Fetch, entries: nat)
  {
    predicate Reads() {
      orgFound && first.Network? && updated && readOrgFound && second.Network?
    }
  }

  // ------------------------------------------- what pairing means for whole runs

  /** How much oftener the operations lock the key than unlock it. */
  function Balance(ops: seq<Op>, key: string): int {
    if ops == [] then 0
    else
      (match ops[0]
       case Lock(k) => if k == key then 1 else 0
       case Unlock(k) => if k == key then -1 else 0
       case _ => 0)
      + Balance(ops[1..], key)
  }

  function TotalBalance(threads: seq<Thread>, key: string): int {
    if threads == [] then 0 else Balance(threads[0].todo, key) + TotalBalance(threads[1..], key)
  }

  lemma {:induction false} TotalBalanceUpdate(threads: seq<Thread>, t: nat, th: Thread, key: string)
    requires t < |threads|
    ensures TotalBalance(threads[t := th], key)
            == TotalBalance(threads, key) - Balance(threads[t].todo, key) + Balance(th.todo, key)
  {
    if t > 0 {
      assert threads[t := th][1..] == threads[1..][t - 1 := th];
      TotalBalanceUpdate(threads[1..], t - 1, th, key);
    }
  }

  function Held(s: State, key: string): int {
    if key in s.holder then 1 else 0
  }

  lemma StepKeepsBalance(s: State, t: nat, key: string)
    requires Enabled(s, t)
    ensures Held(Next(s, t), key) + TotalBalance(Next(s, t).threads, key) == Held(s, key) + TotalBalance(s.threads, key)
  {
    var s' := Next(s, t);
    assert s'.threads == s.threads[t := s'.threads[t]];
    TotalBalanceUpdate(s.threads, t, s'.threads[t], key);
  }

  lemma {:induction false} RunKeepsBalance(s: State, schedule: seq<nat>, key: string)
    requires Legal(s, schedule)
    ensures var s' := Run(s, schedule);
            Held(s', key) + TotalBalance(s'.threads, key) == Held(s, key) + TotalBalance(s.threads, key)
    decreases |schedule|
  {
    if schedule != [] {
      StepKeepsBalance(s, schedule[0], key);
      RunKeepsBalance(Next(s, schedule[0]), schedule[1..], key);
    }
  }

  lemma {:induction false} NothingLeft(threads: seq<Thread>, key: string)
    requires forall t :: 0 <= t < |threads| ==> threads[t].todo == []
    ensures TotalBalance(threads, key) == 0
  {
    if threads != [] {
      NothingLeft(threads[1..], key);
    }
  }

  /** For any operations, disciplined or not, in any order: a finished run holds a key
      exactly when it was locked once more than it was unlocked. */
  lemma FinishedHolds(scripts: seq<seq<Op>>, configured: Filter, schedule: seq<nat>, key: string)
    requires Legal(Init(scripts, configured), schedule) && Finished(Run(Init(scripts, configured), schedule))
    ensures Held(Run(Init(scripts, configured), schedule), key) == TotalBalance(Init(scripts, configured).threads, key)
  {
    RunKeepsBalance(Init(scripts, configured), schedule, key);
    NothingLeft(Run(Init(scripts, configured), schedule).threads, key);
  }

  /** An operation under a helper lock: the key it acquired, whether it read metadata, and
      what its release found. */
  datatype Pairing = Pairing(acquired: Found, read: Option<nat>, released: Found)

  function PairScripts(pairings: seq<Pairing>): (scripts: seq<seq<Op>>)
    ensures |scripts| == |pairings|
  {
    seq(|pairings|, i requires 0 <= i < |pairings| =>
      PairOps(pairings[i].acquired, pairings[i].read, pairings[i].released))
  }

  /** The operation leaves the key locked. */
  predicate Leaks(p: Pairing, key: string) {
    p.acquired == Key(key) && p.released != Key(key)
  }

  function LeakCount(pairings: seq<Pairing>, key: string): nat {
    if pairings == [] then 0 else (if Leaks(pairings[0], key) then 1 else 0) + LeakCount(pairings[1..], key)
  }

  /** A release that finds a key finds the operation's own. */
  predicate NeverStrays(p: Pairing) {
    p.released.Key? ==> p.acquired.Panic? || p.released == p.acquired
  }

  lemma {:induction false} BalanceAppend(a: seq<Op>, b: seq<Op>, key: string)
    ensures Balance(a + b, key) == Balance(a, key) + Balance(b, key)
  {
    if a == [] {
      assert a + b == b;
    } else {
      assert (a + b)[1..] == a[1..] + b;
      BalanceAppend(a[1..], b, key);
    }
  }

  lemma {:induction false} BalanceRepeat(op: Op, n: nat, key: string)
    requires !op.Lock? && !op.Unlock?
    ensures Balance(Repeat(op, n), key) == 0
  {
    if n > 0 {
      assert Repeat(op, n)[1..] == Repeat(op, n - 1);
      BalanceRepeat(op, n - 1, key);
    }
  }

  /** Reading metadata gives back what it takes. */
  lemma ReadIsBalanced(read: Option<nat>, key: string)
    ensures Balance(OptionalRead(read), key) == 0
  {
    if read.Some? {
      var open, close := [Op.Lock(METADATA_KEY), Hide], [Restore, Op.Unlock(METADATA_KEY)];
      var all, filtered := Repeat(ReadAll, 1), Repeat(ReadFiltered, read.value);
      assert ReadOps(1, read.value) == open + all + close + filtered;
      BalanceRepeat(ReadAll, 1, key);
      BalanceRepeat(ReadFiltered, read.value, key);
      BalanceAppend(open + all + close, filtered, key);
      BalanceAppend(open + all, close, key);
      BalanceAppend(open, all, key);
      assert open[1..] == [Hide] && close[1..] == [Op.Unlock(METADATA_KEY)];
      assert [Hide][1..] == [] && [Op.Unlock(METADATA_KEY)][1..] == [];
    }
  }

  lemma PairBalance(p: Pairing, key: string)
    requires NeverStrays(p)
    ensures Balance(PairOps(p.acquired, p.read, p.released), key) == if Leaks(p, key) then 1 else 0
  {
    var open, close := LockOps(p.acquired), UnlockOps(p.released);
    if !p.acquired.Panic? {
      BalanceAppend(open + OptionalRead(p.read), close, key);
      BalanceAppend(open, OptionalRead(p.read), key);
      ReadIsBalanced(p.read, key);
      assert (open != [] ==> open[1..] == []) && (close != [] ==> close[1..] == []);
    }
  }

  lemma {:induction false} PairsBalance(pairings: seq<Pairing>, configured: Filter, key: string)
    requires forall p :: p in pairings ==> NeverStrays(p)
    ensures TotalBalance(Init(PairScripts(pairings), configured).threads, key) == LeakCount(pairings, key)
  {
    if pairings != [] {
      var rest := pairings[1..];
      PairsBalance(rest, configured, key);
      PairBalance(pairings[0], key);
      assert Init(PairScripts(pairings), configured).threads[1..] == Init(PairScripts(rest), configured).threads;
    }
  }

  lemma {:induction false} LeakCountPositive(pairings: seq<Pairing>, key: string)
    ensures LeakCount(pairings, key) > 0 <==> exists p :: p in pairings && Leaks(p, key)
  {
    if pairings != [] {
      LeakCountPositive(pairings[1..], key);
      assert pairings == [pairings[0]] + pairings[1..];
    }
  }

  /** Any operations whose releases never find another operation's key: a finished run holds
      exactly the keys that leaked, so none if and only if every operation was paired. */
  lemma FinishedHoldsLeaks(pairings: seq<Pairing>, configured: Filter, schedule: seq<nat>)
    requires forall p :: p in pairings ==> NeverStrays(p)
    requires Legal(Init(PairScripts(pairings), configured), schedule)
    requires Finished(Run(Init(PairScripts(pairings), configured), schedule))
    ensures var s := Run(Init(PairScripts(pairings), configured), schedule);
            && (forall key :: key in s.holder <==> exists p :: p in pairings && Leaks(p, key))
            && (s.holder == map[] <==> forall p :: p in pairings ==> Paired(p.acquired, p.released))
  {
    var s := Run(Init(PairScripts(pairings), configured), schedule);
    forall key ensures key in s.holder <==> exists p :: p in pairings && Leaks(p, key) {
      FinishedHolds(PairScripts(pairings), configured, schedule, key);
      PairsBalance(pairings, configured, key);
      LeakCountPositive(pairings, key);
    }
    if p :| p in pairings && !Paired(p.acquired, p.released) {
      assert Leaks(p, p.acquired.key);
      assert p.acquired.key in s.holder;
    } else {
      forall key, p | p in pairings ensures Paired(p.acquired, p.released) ==> !Leaks(p, key) {}
      assert forall key :: key !in s.holder;
    }
  }

  /** A key that leaks twice blocks somebody for ever: no run finishes. */
  lemma TwoLeaksNeverFinish(pairings: seq<Pairing>, configured: Filter, schedule: seq<nat>, key: string)
    requires forall p :: p in pairings ==> NeverStrays(p)
    requires LeakCount(pairings, key) > 1
    requires Legal(Init(PairScripts(pairings), configured), schedule)
    ensures !Finished(Run(Init(PairScripts(pairings), configured), schedule))
  {
    if Finished(Run(Init(PairScripts(pairings), configured), schedule)) {
      FinishedHolds(PairScripts(pairings), configured, schedule, key);
      PairsBalance(pairings, configured, key);
    }
  }

  // ------------------------------------------------ what a broken pair leads to

  /** Each operation unlocks only keys that it holds at that point, in whatever order it
      takes them; asking for a key it holds ends it. */
  predicate OwnUnlocks(ops: seq<Op>, held: set<string>) {
    ops != [] ==>
      || (ops[0].Lock? && ops[0].key in held)
      || ((ops[0].Unlock? ==> ops[0].key in held) && OwnUnlocks(ops[1..], HeldAfter(ops[0], held)))
  }

  function HeldAfter(op: Op, held: set<string>): set<string> {
    match op
    case Lock(k) => held + {k}
    case Unlock(k) => held - {k}
    case _ => held
  }

  ghost predicate AllUnlockOwn(s: State) {
    forall t: nat :: t < |s.threads| ==> OwnUnlocks(s.threads[t].todo, HeldBy(s.holder, t))
  }

  /** Whether thread t will have the key when it has finished. */
  function HeldInTheEnd(s: State, t: nat, key: string): int
    requires t < |s.threads|
  {
    (if key in HeldBy(s.holder, t) then 1 else 0) + Balance(s.threads[t].todo, key)
  }

  /** A step leaves the holdings of the other threads alone. */
  lemma StepHoldsOwn(s: State, t: nat)
    requires AllUnlockOwn(s) && Enabled(s, t)
    ensures forall u: nat :: u != t ==> HeldBy(Next(s, t).holder, u) == HeldBy(s.holder, u)
    ensures AllUnlockOwn(Next(s, t))
  {
    var s' := Next(s, t);
    assert OwnUnlocks(s.threads[t].todo, HeldBy(s.holder, t));
    forall u: nat | u != t ensures HeldBy(s'.holder, u) == HeldBy(s.holder, u) {}
    match s.threads[t].todo[0] {
      case Lock(k) => assert HeldBy(s'.holder, t) == HeldBy(s.holder, t) + {k};
      case Unlock(k) => assert HeldBy(s'.holder, t) == HeldBy(s.holder, t) - {k};
      case _ =>
    }
    forall u: nat | u < |s'.threads| ensures OwnUnlocks(s'.threads[u].todo, HeldBy(s'.holder, u)) {
      if u != t {
        assert s'.threads[u] == s.threads[u];
      }
    }
  }

  lemma StepKeepsEnd(s: State, t: nat, u: nat, key: string)
    requires AllUnlockOwn(s) && Enabled(s, t) && u < |s.threads|
    ensures HeldInTheEnd(Next(s, t), u, key) == HeldInTheEnd(s, u, key)
  {
    StepHoldsOwn(s, t);
    if u == t {
      assert OwnUnlocks(s.threads[t].todo, HeldBy(s.holder, t));
      assert forall k :: k in HeldBy(Next(s, t).holder, t) <==> k in Next(s, t).holder && Next(s, t).holder[k] == t;
    }
  }

  lemma {:induction false} RunKeepsEnd(s: State, schedule: seq<nat>, u: nat, key: string)
    requires AllUnlockOwn(s) && Legal(s, schedule) && u < |s.threads|
    ensures AllUnlockOwn(Run(s, schedule)) && |Run(s, schedule).threads| == |s.threads|
    ensures HeldInTheEnd(Run(s, schedule), u, key) == HeldInTheEnd(s, u, key)
    decreases |schedule|
  {
    if schedule != [] {
      StepHoldsOwn(s, schedule[0]);
      StepKeepsEnd(s, schedule[0], u, key);
      RunKeepsEnd(Next(s, schedule[0]), schedule[1..], u, key);
    }
  }

  /** A finished thread keeps its keys, and whoever waits for one of them never moves. */
  lemma {:induction false} StuckForEver(s: State, more: seq<nat>, t: nat, u: nat, key: string)
    requires AllUnlockOwn(s) && Legal(s, more) && t < |s.threads| && u < |s.threads|
    requires s.threads[t].todo == [] && key in HeldBy(s.holder, t)
    requires s.threads[u].todo != [] && s.threads[u].todo[0] == Op.Lock(key)
    ensures |Run(s, more).threads| == |s.threads| && Run(s, more).threads[u] == s.threads[u]
    ensures key in HeldBy(Run(s, more).holder, t)
    decreases |more|
  {
    if more != [] {
      assert more[0] != t && more[0] != u;
      StepHoldsOwn(s, more[0]);
      StuckForEver(Next(s, more[0]), more[1..], t, u, key);
    }
  }

  lemma {:induction false} RepeatUnlocksOwn(op: Op, n: nat, rest: seq<Op>, held: set<string>)
    requires !op.Lock? && !op.Unlock?
    ensures OwnUnlocks(Repeat(op, n) + rest, held) <==> OwnUnlocks(rest, held)
  {
    if n == 0 {
      assert Repeat(op, n) + rest == rest;
    } else {
      assert (Repeat(op, n) + rest)[1..] == Repeat(op, n - 1) + rest;
      RepeatUnlocksOwn(op, n - 1, rest, held);
    }
  }

  lemma UnlocksOwnCons(op: Op, rest: seq<Op>, held: set<string>)
    requires op.Lock? || (op.Unlock? ==> op.key in held)
    requires (op.Lock? && op.key in held) || OwnUnlocks(rest, HeldAfter(op, held))
    ensures OwnUnlocks([op] + rest, held)
  {
    assert ([op] + rest)[1..] == rest;
  }

  lemma ReadRegrouped(all: seq<Op>, filtered: seq<Op>, rest: seq<Op>)
    ensures [Op.Lock(METADATA_KEY), Hide] + all + [Restore, Op.Unlock(METADATA_KEY)] + filtered + rest
            == [Op.Lock(METADATA_KEY)]
               + ([Hide] + (all + ([Restore] + ([Op.Unlock(METADATA_KEY)] + (filtered + rest)))))
  {}

  lemma ReadUnlocksOwn(read: Option<nat>, rest: seq<Op>, held: set<string>)
    requires OwnUnlocks(rest, held)
    ensures OwnUnlocks(OptionalRead(read) + rest, held)
  {
    hide OwnUnlocks, Repeat;
    if read.Some? {
      var inner := held + {METADATA_KEY};
      var tail := Repeat(ReadFiltered, read.value) + rest;
      var close := [Restore] + ([Op.Unlock(METADATA_KEY)] + tail);
      var body := [Hide] + (Repeat(ReadAll, 1) + close);
      ReadRegrouped(Repeat(ReadAll, 1), Repeat(ReadFiltered, read.value), rest);
      if METADATA_KEY !in held {
        assert inner - {METADATA_KEY} == held;
        RepeatUnlocksOwn(ReadFiltered, read.value, rest, held);
        UnlocksOwnCons(Op.Unlock(METADATA_KEY), tail, inner);
        UnlocksOwnCons(Restore, [Op.Unlock(METADATA_KEY)] + tail, inner);
        RepeatUnlocksOwn(ReadAll, 1, close, inner);
        UnlocksOwnCons(Hide, Repeat(ReadAll, 1) + close, inner);
      }
      UnlocksOwnCons(Op.Lock(METADATA_KEY), body, held);
    } else {
      assert OptionalRead(read) + rest == rest;
    }
  }

  lemma PairUnlocksOwn(p: Pairing)
    requires NeverStrays(p)
    ensures OwnUnlocks(PairOps(p.acquired, p.read, p.released), {})
  {
    if !p.acquired.Panic? {
      var held := if p.acquired.Key? then {p.acquired.key} else {};
      var close := UnlockOps(p.released);
      assert close != [] ==> close[1..] == [];
      ReadUnlocksOwn(p.read, close, held);
      var ops := PairOps(p.acquired, p.read, p.released);
      if p.acquired.Key? {
        assert {} + held == held;
        assert ops == [Op.Lock(p.acquired.key)] + (OptionalRead(p.read) + close);
        assert ops[1..] == OptionalRead(p.read) + close;
      } else {
        assert ops == OptionalRead(p.read) + close;
      }
    }
  }

  lemma StartUnlocksOwn(pairings: seq<Pairing>, configured: Filter)
    requires forall p :: p in pairings ==> NeverStrays(p)
    ensures AllUnlockOwn(Init(PairScripts(pairings), configured))
  {
    var start := Init(PairScripts(pairings), configured);
    forall v: nat | v < |start.threads| ensures OwnUnlocks(start.threads[v].todo, HeldBy(start.holder, v)) {
      PairUnlocksOwn(pairings[v]);
      assert HeldBy(start.holder, v) == {};
    }
  }

  // ------------------------------------------------------- mutual exclusion

  lemma {:induction false} OtherKeysBalance(ops: seq<Op>, key: string)
    requires forall op :: op in ops && (op.Lock? || op.Unlock?) ==> op.key != key
    ensures Balance(ops, key) == 0
  {
    if ops != [] {
      assert ops[0] in ops;
      OtherKeysBalance(ops[1..], key);
    }
  }

  lemma ReadTouchesMetadataKey(read: Option<nat>)
    ensures forall op :: op in OptionalRead(read) && (op.Lock? || op.Unlock?) ==> op.key == METADATA_KEY
  {
    if read.Some? {
      RepeatIs(ReadAll, 1);
      RepeatIs(ReadFiltered, read.value);
    }
  }

  predicate IsSuffix(rest: seq<Op>, all: seq<Op>) {
    |rest| <= |all| && rest == all[|all| - |rest|..]
  }

  lemma SuffixOfTail(rest: seq<Op>, all: seq<Op>)
    requires all != [] && IsSuffix(rest, all[1..])
    ensures IsSuffix(rest, all)
  {}

  /** A thread runs down its own list. */
  lemma {:induction false} RunLeavesSuffix(s: State, schedule: seq<nat>, u: nat)
    requires Legal(s, schedule) && u < |s.threads|
    ensures |Run(s, schedule).threads| == |s.threads|
    ensures IsSuffix(Run(s, schedule).threads[u].todo, s.threads[u].todo)
    decreases |schedule|
  {
    if schedule != [] {
      hide IsSuffix;
      RunLeavesSuffix(Next(s, schedule[0]), schedule[1..], u);
      if schedule[0] == u {
        SuffixOfTail(Run(s, schedule).threads[u].todo, s.threads[u].todo);
      }
    }
  }

  lemma SliceOfThree(first: Op, body: seq<Op>, last: Op, i: nat)
    requires 0 < i < |body| + 2
    ensures ([first] + body + [last])[i..] == body[i - 1..] + [last]
  {}

  /** What is left of an operation under way includes its unlock. */
  lemma RestUnlocks(key: string, body: seq<Op>, i: nat)
    requires forall op :: op in body && (op.Lock? || op.Unlock?) ==> op.key != key
    requires 0 < i < |body| + 2
    ensures Balance(([Op.Lock(key)] + body + [Op.Unlock(key)])[i..], key) == -1
  {
    var rest, close := body[i - 1..], [Op.Unlock(key)];
    SliceOfThree(Op.Lock(key), body, Op.Unlock(key), i);
    OtherKeysBalance(rest, key);
    BalanceAppend(rest, close, key);
    assert close[1..] == [];
  }

  lemma UnderWayUnlocks(key: string, read: Option<nat>, i: nat)
    requires key != METADATA_KEY || read.None?
    requires 0 < i < |PairOps(Key(key), read, Key(key))|
    ensures Balance(PairOps(Key(key), read, Key(key))[i..], key) == -1
  {
    ReadTouchesMetadataKey(read);
    hide Balance, ReadOps;
    RestUnlocks(key, OptionalRead(read), i);
  }

  /** An operation has its first step behind it and its last one before it. */
  predicate UnderWay(s: State, t: nat, p: Pairing) {
    t < |s.threads| && 0 < |s.threads[t].todo| < |PairOps(p.acquired, p.read, p.released)|
  }

  /** What the helpers are for: over all runs of operations that release no key but their
      own, two operations that find the same key are never under way at once. (The key of
      the metadata section is no exception, unless metadata is read under it.) */
  lemma SameKeyExcludes(pairings: seq<Pairing>, configured: Filter, schedule: seq<nat>, t: nat, u: nat, key: string)
    requires forall p :: p in pairings ==> NeverStrays(p)
    requires Legal(Init(PairScripts(pairings), configured), schedule)
    requires t < |pairings| && u < |pairings| && t != u
    requires forall p :: p in {pairings[t], pairings[u]} ==>
               p.acquired == p.released == Key(key) && (key != METADATA_KEY || p.read.None?)
    ensures var s := Run(Init(PairScripts(pairings), configured), schedule);
            !UnderWay(s, t, pairings[t]) || !UnderWay(s, u, pairings[u])
  {
    var s := Run(Init(PairScripts(pairings), configured), schedule);
    if UnderWay(s, t, pairings[t]) && UnderWay(s, u, pairings[u]) {
      UnderWayHolds(pairings, configured, schedule, t, key);
      UnderWayHolds(pairings, configured, schedule, u, key);
    }
  }

  lemma UnderWayHolds(pairings: seq<Pairing>, configured: Filter, schedule: seq<nat>, t: nat, key: string)
    requires forall p :: p in pairings ==> NeverStrays(p)
    requires Legal(Init(PairScripts(pairings), configured), schedule) && t < |pairings|
    requires pairings[t].acquired == pairings[t].released == Key(key)
    requires key != METADATA_KEY || pairings[t].read.None?
    requires UnderWay(Run(Init(PairScripts(pairings), configured), schedule), t, pairings[t])
    ensures key in HeldBy(Run(Init(PairScripts(pairings), configured), schedule).holder, t)
  {
    var start := Init(PairScripts(pairings), configured);
    var p := pairings[t];
    StartUnlocksOwn(pairings, configured);
    RunKeepsEnd(start, schedule, t, key);
    RunLeavesSuffix(start, schedule, t);
    PairBalance(p, key);
    hide PairOps, Legal, Run, Balance, AllUnlockOwn, NeverStrays;
    var ops := PairOps(p.acquired, p.read, p.released);
    UnderWayUnlocks(key, p.read, |ops| - |Run(start, schedule).threads[t].todo|);
  }

  /** A leaked key stays locked: in every run of operations that release no key but their
      own, once an operation that leaks a key has finished, it keeps the key, and however
      the run goes on, an operation that waits for the key never takes another step. */
  lemma LeakedKeyStaysLocked(pairings: seq<Pairing>, configured: Filter, schedule: seq<nat>, more: seq<nat>,
                             t: nat, u: nat, key: string)
    requires forall p :: p in pairings ==> NeverStrays(p)
    requires Legal(Init(PairScripts(pairings), configured), schedule) && t < |pairings| && u < |pairings|
    requires Leaks(pairings[t], key)
    requires var s := Run(Init(PairScripts(pairings), configured), schedule);
             t < |s.threads| && s.threads[t].todo == [] && Legal(s, more)
    ensures var s := Run(Init(PairScripts(pairings), configured), schedule);
            && key in HeldBy(s.holder, t) && |s.threads| == |pairings|
            && (s.threads[u].todo != [] && s.threads[u].todo[0] == Op.Lock(key) ==>
                  |Run(s, more).threads| == |s.threads| && Run(s, more).threads[u] == s.threads[u])
  {
    var start := Init(PairScripts(pairings), configured);
    var s := Run(start, schedule);
    StartUnlocksOwn(pairings, configured);
    PairBalance(pairings[t], key);
    RunKeepsEnd(start, schedule, t, key);
    assert HeldInTheEnd(s, t, key) == 1;
    if s.threads[u].todo != [] && s.threads[u].todo[0] == Op.Lock(key) {
      StuckForEver(s, more, t, u, key);
    }
  }

  /** For example an isolated network that has left its VDC group when the final read stores
      its owner: the group's key stays locked, without a panic, and blocks the next operation
      on the group. */
  lemma LeakedKeyBlocks(group: string, configured: Filter)
    ensures var scripts := [PairOps(Key(group), None, NoKey), PairOps(Key(group), None, Key(group))];
            Legal(Init(scripts, configured), [0]) && Deadlocked(Run(Init(scripts, configured), [0]))
  {
    var scripts := [PairOps(Key(group), None, NoKey), PairOps(Key(group), None, Key(group))];
    var s := Init(scripts, configured);
    assert s.threads[0].todo == [Op.Lock(group)] && s.threads[1].todo == [Op.Lock(group), Op.Unlock(group)];
    var s' := Next(s, 0);
    assert s'.threads[0].todo == [] && s'.threads[1] == s.threads[1] && group in s'.holder;
    assert [0 as nat][1..] == [];
    assert Legal(s', []) && Run(s, [0]) == s';
  }

  lemma RunStep(s: State, schedule: seq<nat>)
    requires schedule != [] && Enabled(s, schedule[0])
    ensures Legal(s, schedule) <==> Legal(Next(s, schedule[0]), schedule[1..])
    ensures Legal(s, schedule) ==> Run(s, schedule) == Run(Next(s, schedule[0]), schedule[1..])
  {}

  lemma RunNone(s: State)
    ensures Legal(s, []) && Run(s, []) == s
  {}

  /** Releasing another key than the one acquired lets a third operation in while the
      holder of that key is still working under it. */
  lemma WrongKeyBreaksExclusion(a: string, b: string, configured: Filter)
    requires a != b
    ensures var wrong, right := PairOps(Key(a), None, Key(b)), PairOps(Key(b), None, Key(b));
            var scripts := [wrong, right, right];
            var s := Init(scripts, configured);
            && Legal(s, [1, 0, 0, 2])
            && Run(s, [1, 0, 0, 2]).threads[1].todo == [Op.Unlock(b)]
            && Run(s, [1, 0, 0, 2]).threads[2].todo == [Op.Unlock(b)]
  {
    hide Legal, Run;
    var use, wrong := [Op.Lock(b), Op.Unlock(b)], [Op.Lock(a), Op.Unlock(b)];
    assert wrong == PairOps(Key(a), None, Key(b)) && use == PairOps(Key(b), None, Key(b));
    var s := Init([wrong, use, use], configured);
    assert s == State([Thread(wrong, []), Thread(use, []), Thread(use, [])], map[], configured);
    hide PairOps, Init;
    var s1 := Next(s, 1);
    var s2 := Next(s1, 0);
    var s3 := Next(s2, 0);
    var s4 := Next(s3, 2);
    RunStep(s, [1, 0, 0, 2]);
    assert [1 as nat, 0, 0, 2][1..] == [0, 0, 2] && [0 as nat, 0, 2][1..] == [0, 2] && [0 as nat, 2][1..] == [2];
    RunStep(s1, [0, 0, 2]);
    RunStep(s2, [0, 2]);
    RunStep(s3, [2]);
    assert [2 as nat][1..] == [];
    RunNone(s4);
  }
}
