/** vcd/resource_vcd_ip_space_custom_quota.go: quotas kept as text in the state and as
    64-bit integers by the API, with the conversion error ignored. */
module Quota {
  import opened Decimal
  import opened Options

  // ---------------------------------------------------------- state and API

  /** The resource's fields; the prefix quotas in the order the set lists them. */
  datatype State = State(ipRangeQuota: string, prefixQuotas: seq<PrefixQuota>)
  datatype PrefixQuota = PrefixQuota(prefixLength: string, quota: string)

  datatype ApiPrefixQuota = ApiPrefixQuota(prefixLength: int, quota: int)
  datatype Quotas = Quotas(floatingIps: Option<int>, prefixQuotas: seq<ApiPrefixQuota>)

  datatype Assignment = Assignment(
    id: string, ipSpaceType: string, ipSpaceId: string, orgId: string, quotas: Option<Quotas>)

  function ToApi(p: PrefixQuota): ApiPrefixQuota {
    ApiPrefixQuota(Atoi(p.prefixLength).0, Atoi(p.quota).0)
  }

  function ToState(p: ApiPrefixQuota): PrefixQuota {
    PrefixQuota(Itoa(p.prefixLength), Itoa(p.quota))
  }

  /** What the update sends. */
  method GetIpSpaceOrgAssignmentType(d: State, ipSpaceId: string, orgId: string, id: string, ipSpaceType: string)
    returns (a: Assignment)
    ensures a.id == id && a.ipSpaceType == ipSpaceType && a.ipSpaceId == ipSpaceId && a.orgId == orgId
    ensures a.quotas.Some?
    ensures a.quotas.value.floatingIps == if d.ipRangeQuota == "" then None else Some(Atoi(d.ipRangeQuota).0)
    ensures |a.quotas.value.prefixQuotas| == |d.prefixQuotas|
    ensures forall i :: 0 <= i < |d.prefixQuotas| ==> a.quotas.value.prefixQuotas[i] == ToApi(d.prefixQuotas[i])
    ensures forall i :: 0 <= i < |d.prefixQuotas| ==>
              && a.quotas.value.prefixQuotas[i].prefixLength == Atoi(d.prefixQuotas[i].prefixLength).0
              && a.quotas.value.prefixQuotas[i].quota == Atoi(d.prefixQuotas[i].quota).0
  {
    var quotas := Quotas(None, []);
    if d.ipRangeQuota != "" {
      var (floatingIps, _) := Atoi(d.ipRangeQuota);
      quotas := quotas.(floatingIps := Some(floatingIps));
    }
    if |d.prefixQuotas| > 0 {
      var prefixQuotas: seq<ApiPrefixQuota> := [];
      for i := 0 to |d.prefixQuotas|
        invariant |prefixQuotas| == i
        invariant forall j :: 0 <= j < i ==> prefixQuotas[j] == ToApi(d.prefixQuotas[j])
      {
        var (quota, _) := Atoi(d.prefixQuotas[i].quota);
        var (prefixLength, _) := Atoi(d.prefixQuotas[i].prefixLength);
        prefixQuotas := prefixQuotas + [ApiPrefixQuota(prefixLength, quota)];
      }
      quotas := quotas.(prefixQuotas := prefixQuotas);
    }
    a := Assignment(id, ipSpaceType, ipSpaceId, orgId, Some(quotas));
  }

  /** What the read stores over the `current` state: everything is cleared first. `clears`
      and `stores` say whether the state takes an empty and a filled set of prefixes; an
      error leaves what was stored until then. */
  method SetIpSpaceOrgAssignmentData(a: Assignment, current: State, clears: bool, stores: bool)
    returns (d: State, err: bool)
    ensures var range :=
              if clears && a.quotas.Some? && a.quotas.value.floatingIps.Some?
              then Itoa(a.quotas.value.floatingIps.value) else "";
            d.ipRangeQuota == range
    ensures err <==> !clears || (a.quotas.Some? && a.quotas.value.prefixQuotas != [] && !stores)
    ensures !clears ==> d.prefixQuotas == current.prefixQuotas
    ensures clears && (err || a.quotas.None?) ==> d.prefixQuotas == []
    ensures !err && a.quotas.Some? ==> |d.prefixQuotas| == |a.quotas.value.prefixQuotas|
    ensures !err && a.quotas.Some? ==>
              forall i :: 0 <= i < |d.prefixQuotas| ==> d.prefixQuotas[i] == ToState(a.quotas.value.prefixQuotas[i])
    ensures !err && a.quotas.Some? ==>
              forall i :: 0 <= i < |d.prefixQuotas| ==>
                && d.prefixQuotas[i].prefixLength == Itoa(a.quotas.value.prefixQuotas[i].prefixLength)
                && d.prefixQuotas[i].quota == Itoa(a.quotas.value.prefixQuotas[i].quota)
  {
    d := current.(ipRangeQuota := "");
    if !clears {
      return d, true;
    }
    d := d.(prefixQuotas := []);
    err := false;
    if a.quotas.Some? {
      if a.quotas.value.floatingIps.Some? {
        d := d.(ipRangeQuota := Itoa(a.quotas.value.floatingIps.value));
      } else {
        d := d.(ipRangeQuota := "");
      }
      var api := a.quotas.value.prefixQuotas;
      if |api| > 0 {
        var prefixQuotas: seq<PrefixQuota> := [];
        for i := 0 to |api|
          invariant |prefixQuotas| == i
          invariant forall j :: 0 <= j < i ==> prefixQuotas[j] == ToState(api[j])
        {
          prefixQuotas := prefixQuotas + [PrefixQuota(Itoa(api[i].prefixLength), Itoa(api[i].quota))];
        }
        if !stores {
          return d, true;
        }
        d := d.(prefixQuotas := prefixQuotas);
      }
    }
  }

  predicate RepresentableState(d: State) {
    && (d.ipRangeQuota == "" || Representable(d.ipRangeQuota))
    && forall i :: 0 <= i < |d.prefixQuotas| ==>
         Representable(d.prefixQuotas[i].prefixLength) && Representable(d.prefixQuotas[i].quota)
  }

  /** Writing a state and reading it back reproduces it exactly when every number in it
      is a canonical numeral of the signed 64-bit range; no quota, "0" and "-1" reach the
      API as three different values. */
  method WriteThenRead(d: State, ipSpaceId: string, orgId: string, id: string, ipSpaceType: string)
    returns (back: State, sent: Assignment)
    ensures back == d <==> RepresentableState(d)
    ensures sent.quotas.Some?
    ensures d.ipRangeQuota == "" <==> sent.quotas.value.floatingIps == None
    ensures d.ipRangeQuota == "0" ==> sent.quotas.value.floatingIps == Some(0)
    ensures d.ipRangeQuota == "-1" ==> sent.quotas.value.floatingIps == Some(-1)
  {
    sent := GetIpSpaceOrgAssignmentType(d, ipSpaceId, orgId, id, ipSpaceType);
    var err;
    back, err := SetIpSpaceOrgAssignmentData(sent, d, true, true);
    ZeroAndMinusOne();
    RangeQuotaRoundTrips(d.ipRangeQuota);
    forall i | 0 <= i < |d.prefixQuotas|
      ensures back.prefixQuotas[i] == d.prefixQuotas[i]
              <==> Representable(d.prefixQuotas[i].prefixLength) && Representable(d.prefixQuotas[i].quota)
    {
      PrefixQuotaRoundTrips(d.prefixQuotas[i]);
    }
    assert back.prefixQuotas == d.prefixQuotas
           <==> forall i :: 0 <= i < |d.prefixQuotas| ==> back.prefixQuotas[i] == d.prefixQuotas[i];
  }

  lemma ZeroAndMinusOne()
    ensures Atoi("0").0 == 0 && Atoi("-1").0 == -1
  {
    AtoiUndoesItoa(0);
    AtoiUndoesItoa(-1);
    assert Itoa(0) == "0" && Itoa(-1) == "-1";
  }

  lemma PrefixQuotaRoundTrips(p: PrefixQuota)
    ensures ToState(ToApi(p)) == p <==> Representable(p.prefixLength) && Representable(p.quota)
  {
    ItoaUndoesAtoiIff(p.prefixLength);
    ItoaUndoesAtoiIff(p.quota);
  }

  lemma RangeQuotaRoundTrips(s: string)
    ensures (if s == "" then "" else Itoa(Atoi(s).0)) == s <==> s == "" || Representable(s)
  {
    ItoaUndoesAtoiIff(s);
  }

  /** IsIntAndAtLeast, the schema's check. */
  predicate Validated(s: string, min: int) {
    !Atoi(s).1 && Atoi(s).0 >= min
  }

  /** It accepts a number's own numeral exactly from the minimum on, and no text that is not
      a number. */
  lemma ValidatedIff(n: int, min: int)
    requires MIN_INT <= n <= MAX_INT
    ensures Validated(Itoa(n), min) <==> n >= min
    ensures !Validated("", min) && !Validated("x", min)
  {
    AtoiUndoesItoa(n);
    AtoiOfNoNumber("x");
  }

  /** The schema's check rules out clamping but not every loss: "007" passes and comes
      back as "7". */
  lemma ValidatedButNotCanonical()
    ensures Validated("007", -1) && Itoa(Atoi("007").0) == "7"
  {
    var s := "007";
    assert s[1..] == "07" && "07"[1..] == "7" && "7"[1..] == "";
    assert ScanFrom("7", 0) == ScanFrom("", 7);
    assert ScanFrom("07", 0) == ScanFrom("7", 0);
    assert ScanFrom(s, 0) == ScanFrom("07", 0);
  }
}
