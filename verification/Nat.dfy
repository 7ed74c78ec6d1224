/** The translation between a NAT rule's network and the edge gateway's vNIC index:
    vcd/nsxv_nat.go. The table of vNICs is the server's; the two lookups in it stand for
    the SDK's. */
module Nat {

  datatype Vnic = Vnic(index: int, name: string, kind: string)

  const UPLINK := "uplink"
  const INTERNAL := "internal"
  const SUBINTERFACE := "subinterface"
  const TRUNK := "trunk"

  datatype Lookup<T> = Found(value: T) | NotFound | Failed

  // ------------------------------------------------------------- the SDK's part

  function Named(table: seq<Vnic>, name: string, kind: string): (hits: seq<Vnic>) {
    if table == [] then []
    else (if table[0].name == name && table[0].kind == kind then [table[0]] else []) + Named(table[1..], name, kind)
  }

  /** GetVnicIndexByNetworkNameAndType: exactly one vNIC of the name and type. */
  function VnicIndexByName(table: seq<Vnic>, name: string, kind: string): Lookup<int> {
    if kind !in {UPLINK, INTERNAL, SUBINTERFACE, TRUNK} then Failed
    else
      var hits := Named(table, name, kind);
      if hits == [] then NotFound else if |hits| > 1 then Failed else Found(hits[0].index)
  }

  /** GetNetworkNameAndTypeByVnicIndex. */
  function NameByVnicIndex(table: seq<Vnic>, index: int): Lookup<Vnic> {
    if table == [] then NotFound
    else if table[0].index == index then Found(table[0]) else NameByVnicIndex(table[1..], index)
  }

  predicate DistinctIndices(table: seq<Vnic>) {
    forall i, j :: 0 <= i < j < |table| ==> table[i].index != table[j].index
  }

  lemma DistinctIndicesMeans(table: seq<Vnic>, v: Vnic)
    ensures DistinctIndices([])
    ensures DistinctIndices(table + [v])
            <==> DistinctIndices(table) && forall w :: w in table ==> w.index != v.index
  {
    var all := table + [v];
    assert forall i :: 0 <= i < |table| ==> all[i] == table[i];
    assert all[|table|] == v;
    if DistinctIndices(all) {
      forall w | w in table ensures w.index != v.index {
        var i :| 0 <= i < |table| && table[i] == w;
        assert all[i].index != all[|table|].index;
      }
    }
  }

  lemma {:induction false} NamedIsSound(table: seq<Vnic>, name: string, kind: string)
    ensures forall v :: v in Named(table, name, kind) <==> v in table && v.name == name && v.kind == kind
    ensures |Named(table, name, kind)| <= |table|
  {
    if table != [] {
      NamedIsSound(table[1..], name, kind);
      assert table == [table[0]] + table[1..];
    }
  }

  lemma {:induction false} NamedIsDistinct(table: seq<Vnic>, name: string, kind: string)
    requires DistinctIndices(table)
    ensures DistinctIndices(Named(table, name, kind))
  {
    if table != [] {
      var rest := Named(table[1..], name, kind);
      NamedIsDistinct(table[1..], name, kind);
      NamedIsSound(table[1..], name, kind);
      forall j | 0 <= j < |rest| ensures table[0].index != rest[j].index {
        assert rest[j] in table[1..];
      }
    }
  }

  lemma {:induction false} NameByIndexFinds(table: seq<Vnic>, v: Vnic)
    requires DistinctIndices(table) && v in table
    ensures NameByVnicIndex(table, v.index) == Found(v)
  {
    if table[0] != v {
      var i :| 0 < i < |table| && table[i] == v;
      assert v == table[1..][i - 1];
      NameByIndexFinds(table[1..], v);
    }
  }

  /** No other vNIC of the kind bears the name. */
  predicate UniqueIn(table: seq<Vnic>, v: Vnic, kind: string) {
    forall w :: w in table && w.name == v.name && w.kind == kind ==> w == v
  }

  lemma IndexByNameIff(table: seq<Vnic>, v: Vnic)
    requires DistinctIndices(table) && v in table && v.kind in {UPLINK, INTERNAL, SUBINTERFACE}
    ensures VnicIndexByName(table, v.name, v.kind) == Found(v.index) <==> UniqueIn(table, v, v.kind)
    ensures VnicIndexByName(table, v.name, v.kind) != NotFound
  {
    var hits := Named(table, v.name, v.kind);
    NamedIsSound(table, v.name, v.kind);
    NamedIsDistinct(table, v.name, v.kind);
    assert v in hits;
    if |hits| > 1 {
      var w := if hits[0] == v then hits[1] else hits[0];
      assert w in hits && w != v;
    } else {
      assert hits == [v];
    }
  }

  lemma AbsentByNameIff(table: seq<Vnic>, name: string)
    ensures VnicIndexByName(table, name, INTERNAL) == NotFound
            <==> forall w :: w in table && w.name == name ==> w.kind != INTERNAL
  {
    NamedIsSound(table, name, INTERNAL);
    if VnicIndexByName(table, name, INTERNAL) != NotFound {
      assert Named(table, name, INTERNAL)[0] in Named(table, name, INTERNAL);
    }
  }

  // ---------------------------------------------------------- the translations

  /** getvNicIndexFromNetworkNameType; None is the error. */
  function VnicIndexFromNetwork(table: seq<Vnic>, name: string, networkType: string): Lookup<int> {
    var kind := match networkType case "ext" => UPLINK case "org" => INTERNAL case _ => "";
    var first := VnicIndexByName(table, name, kind);
    var r := if networkType == "org" && first.NotFound? then VnicIndexByName(table, name, SUBINTERFACE) else first;
    if r.Found? then r else Failed
  }

  function NetworkType(kind: string): string {
    match kind case "uplink" => "ext" case "internal" => "org" case "subinterface" => "org" case _ => ""
  }

  /** getNetworkNameTypeFromVnicIndex. */
  function NetworkFromVnicIndex(table: seq<Vnic>, index: int): Lookup<(string, string)> {
    match NameByVnicIndex(table, index)
    case Found(v) => Found((v.name, NetworkType(v.kind)))
    case _ => Failed
  }

  function ThereAndBack(table: seq<Vnic>, index: int): Lookup<int> {
    match NetworkFromVnicIndex(table, index)
    case Found(network) => VnicIndexFromNetwork(table, network.0, network.1)
    case _ => Failed
  }

  /** What a network is looked up to: an external network is the one uplink of its name; an
      organisation network the one internal vNIC, or, when there is none, the one
      subinterface; no other type is found. */
  lemma IndexOfNetworkIff(table: seq<Vnic>, v: Vnic, networkType: string)
    requires DistinctIndices(table) && v in table
    ensures VnicIndexFromNetwork(table, v.name, networkType) == Found(v.index)
            <==> && (forall w :: w in table && w.name == v.name && w.kind == v.kind ==> w == v)
                 && ((networkType == "ext" && v.kind == "uplink")
                     || (networkType == "org" && v.kind == "internal")
                     || (networkType == "org" && v.kind == "subinterface"
                         && forall w :: w in table && w.name == v.name ==> w.kind != "internal"))
  {
    if v.kind in {UPLINK, INTERNAL, SUBINTERFACE} {
      IndexByNameIff(table, v);
    }
    AbsentByNameIff(table, v.name);
    forall kind, w | w in Named(table, v.name, kind) && w.index == v.index ensures w == v {
      NamedIsSound(table, v.name, kind);
    }
    forall kind | VnicIndexByName(table, v.name, kind) == Found(v.index) ensures kind == v.kind {
      NamedIsSound(table, v.name, kind);
      assert Named(table, v.name, kind)[0] in Named(table, v.name, kind);
    }
  }

  /** And what a vNIC's index is looked up to: its name, and the type by its kind. */
  lemma NetworkOfIndex(table: seq<Vnic>, v: Vnic, index: int)
    requires DistinctIndices(table)
    ensures v in table ==>
              NetworkFromVnicIndex(table, v.index)
              == Found((v.name, if v.kind == "uplink" then "ext"
                                else if v.kind == "internal" || v.kind == "subinterface" then "org" else ""))
    ensures (forall w :: w in table ==> w.index != index) ==> NetworkFromVnicIndex(table, index) == Failed
  {
    if v in table {
      NameByIndexFinds(table, v);
    }
    if forall w :: w in table ==> w.index != index {
      NameByIndexMisses(table, index);
    }
  }

  lemma {:induction false} NameByIndexMisses(table: seq<Vnic>, index: int)
    requires forall w :: w in table ==> w.index != index
    ensures NameByVnicIndex(table, index) == NotFound
  {
    if table != [] {
      NameByIndexMisses(table[1..], index);
    }
  }

  /** The name tells the vNIC apart where the second lookup looks for it. */
  predicate Recognisable(table: seq<Vnic>, v: Vnic) {
    && v.kind in {UPLINK, INTERNAL, SUBINTERFACE}
    && UniqueIn(table, v, v.kind)
    && (v.kind == SUBINTERFACE ==> forall w :: w in table && w.name == v.name ==> w.kind != INTERNAL)
  }

  /** Index to network to index is the identity exactly for the recognisable vNICs: an
      internal network hides a subinterface of the same name, not the other way round. */
  lemma IndexRoundTripIff(table: seq<Vnic>, v: Vnic)
    requires DistinctIndices(table) && v in table
    ensures ThereAndBack(table, v.index) == Found(v.index) <==> Recognisable(table, v)
  {
    NameByIndexFinds(table, v);
    if v.kind in {UPLINK, INTERNAL, SUBINTERFACE} {
      IndexByNameIff(table, v);
      AbsentByNameIff(table, v.name);
      if v.kind == SUBINTERFACE {
        if w :| w in table && w.name == v.name && w.kind == INTERNAL {
          HiddenByInternal(table, v, w);
        }
      }
    }
  }

  lemma HiddenByInternal(table: seq<Vnic>, v: Vnic, w: Vnic)
    requires DistinctIndices(table) && v in table && w in table
    requires v.kind == SUBINTERFACE && w.kind == INTERNAL && w.name == v.name
    ensures VnicIndexByName(table, v.name, INTERNAL) != Found(v.index)
    ensures VnicIndexByName(table, v.name, INTERNAL) != NotFound
  {
    IndexByNameIff(table, w);
    NamedIsSound(table, v.name, INTERNAL);
    var hits := Named(table, v.name, INTERNAL);
    assert w in hits;
    if |hits| == 1 {
      NameByIndexFinds(table, v);
      NameByIndexFinds(table, w);
    }
  }

  /** Names unique within the uplinks and within the organisation networks suffice. */
  lemma UniqueNamesRoundTrip(table: seq<Vnic>, v: Vnic)
    requires DistinctIndices(table) && v in table
    requires forall w :: w in table ==> w.kind in {UPLINK, INTERNAL, SUBINTERFACE}
    requires forall w, x ::
               (w in table && x in table && w.name == x.name && NetworkType(w.kind) == NetworkType(x.kind)) ==> w == x
    ensures ThereAndBack(table, v.index) == Found(v.index)
  {
    IndexRoundTripIff(table, v);
  }

  /** The other way there is no condition: a network that is found comes back. */
  lemma NetworkRoundTrip(table: seq<Vnic>, name: string, networkType: string)
    requires DistinctIndices(table) && VnicIndexFromNetwork(table, name, networkType).Found?
    ensures NetworkFromVnicIndex(table, VnicIndexFromNetwork(table, name, networkType).value)
            == Found((name, networkType))
  {
    var kind := match networkType case "ext" => UPLINK case _ => INTERNAL;
    var found := if VnicIndexByName(table, name, kind).Found? then kind else SUBINTERFACE;
    NamedIsSound(table, name, found);
    var v := Named(table, name, found)[0];
    assert v in Named(table, name, found);
    NameByIndexFinds(table, v);
  }
}
