/** The names handed to the tool that removes test leftovers: the resource loop of
    scripts/get_test_resource_names.go. */
module TestNames {
  import opened Options
  import opened Text
  import Decimal

  const TOKEN := "${count.index}"

  /** One match of the resource pattern: its type, the name in its body ("" when there is
      none) and the text of its count. A type is made of word characters, so it has no '#'. */
  datatype Resource = Resource(kind: string, name: string, countText: Option<string>)

  datatype Entity = Entity(kind: string, name: string, index: nat)

  type Pair = (string, string)

  predicate NoHash(s: string) {
    forall i :: 0 <= i < |s| ==> s[i] != '#'
  }

  function Id(p: Pair): string {
    p.0 + "#" + p.1
  }

  function Ids(pairs: set<Pair>): set<string> {
    set p | p in pairs :: Id(p)
  }

  /** Types without '#' make the id tell the pair. */
  lemma IdIsInjective(p: Pair, q: Pair)
    requires NoHash(p.0) && NoHash(q.0)
    ensures Id(p) == Id(q) <==> p == q
  {
    if Id(p) == Id(q) {
      SameLength(p, q);
      SameLength(q, p);
      assert p.0 == Id(p)[..|p.0|] && q.0 == Id(q)[..|q.0|];
      assert p.1 == Id(p)[|p.0| + 1..] && q.1 == Id(q)[|q.0| + 1..];
    }
  }

  lemma SameLength(p: Pair, q: Pair)
    requires NoHash(q.0) && Id(p) == Id(q)
    ensures |p.0| >= |q.0|
  {
    assert Id(p)[|p.0|] == '#';
    assert forall i :: 0 <= i < |q.0| ==> Id(q)[i] == q.0[i];
  }

  // ------------------------------------------------------- what one item offers

  /** The type the removal tool knows; "" when it does not handle the type. */
  function Kind(r: Resource, replacements: map<string, string>): string {
    if r.kind in replacements then replacements[r.kind] else r.kind
  }

  predicate Eligible(r: Resource, replacements: map<string, string>) {
    !StartsWith(r.name, "Test") && !StartsWith(r.name, "test") && Kind(r, replacements) != ""
  }

  function Key(r: Resource, replacements: map<string, string>): Pair {
    (Kind(r, replacements), r.name)
  }

  predicate Template(name: string) {
    Contains(name, TOKEN)
  }

  /** Only the first token is replaced. */
  function Instance(name: string, c: nat): string {
    ReplaceFirst(name, TOKEN, Decimal.Itoa(c))
  }

  /** How many instances the count text asks for; none when it is missing or too large. */
  function Times(r: Resource): nat {
    if r.countText.None? then 0
    else
      var (count, err) := Decimal.Atoi(r.countText.value);
      if err || count < 0 then 0 else count
  }

  function Instances(kind: string, name: string, count: nat): set<Pair> {
    set c: nat | c < count :: (kind, Instance(name, c))
  }

  /** The pairs an item would emit if nothing had been seen before. */
  function Offered(r: Resource, replacements: map<string, string>): set<Pair> {
    if r.name == "" then {}
    else if Template(r.name) then Instances(Kind(r, replacements), r.name, Times(r))
    else {Key(r, replacements)}
  }

  /** Which resources take part: those with a supported type whose name does not say that it
      is a test's. */
  lemma EligibleIff(r: Resource, replacements: map<string, string>)
    ensures Eligible(r, replacements)
            <==> && (|r.name| >= 4 ==> r.name[..4] != "Test" && r.name[..4] != "test")
                 && (if r.kind in replacements then replacements[r.kind] else r.kind) != ""
    ensures Key(r, replacements) == (if r.kind in replacements then replacements[r.kind] else r.kind, r.name)
  {}

  /** And what one offers: its name, or the first `count` instances of a template. */
  lemma OfferedIff(r: Resource, replacements: map<string, string>, p: Pair)
    ensures p in Offered(r, replacements)
            <==> && r.name != "" && p.0 == (if r.kind in replacements then replacements[r.kind] else r.kind)
                 && if Contains(r.name, "${count.index}")
                    then exists c: nat ::
                           && r.countText.Some? && !Decimal.Atoi(r.countText.value).1
                           && c < Decimal.Atoi(r.countText.value).0
                           && p.1 == ReplaceFirst(r.name, "${count.index}", Decimal.Itoa(c))
                    else p.1 == r.name
  {
    if Template(r.name) && p in Offered(r, replacements) {
      var c: nat :| c < Times(r) && p == (Kind(r, replacements), Instance(r.name, c));
      assert p.1 == ReplaceFirst(r.name, "${count.index}", Decimal.Itoa(c));
    }
    if Template(r.name) && r.name != "" {
      forall c: nat | c < Times(r)
        ensures (Kind(r, replacements), Instance(r.name, c)) in Offered(r, replacements)
        ensures Instance(r.name, c) == ReplaceFirst(r.name, "${count.index}", Decimal.Itoa(c))
      {
      }
    }
  }

  lemma ItoaIsDigits(c: nat)
    ensures Decimal.Itoa(c) != "" && forall i :: 0 <= i < |Decimal.Itoa(c)| ==> Decimal.IsDigit(Decimal.Itoa(c)[i])
  {
    Decimal.DigitsAreCanonical(c);
  }

  lemma TokenHasNoDigit()
    ensures TOKEN != "" && forall i :: 0 <= i < |TOKEN| ==> !Decimal.IsDigit(TOKEN[i])
  {}

  /** An instance is a proper name, and never the template itself. */
  lemma InstanceDiffers(name: string, c: nat)
    requires Template(name)
    ensures Instance(name, c) != name && Instance(name, c) != ""
  {
    ContainsIff(name, TOKEN);
    ItoaIsDigits(c);
    TokenHasNoDigit();
    var k := Index(name, TOKEN);
    assert Instance(name, c)[k] == Decimal.Itoa(c)[0];
    assert name[k] == name[k..k + |TOKEN|][0];
  }

  /** Different numbers give different names. */
  lemma InstancesAreDistinct(name: string, c: nat, d: nat)
    requires Template(name)
    ensures Instance(name, c) == Instance(name, d) <==> c == d
  {
    ContainsIff(name, TOKEN);
    if Instance(name, c) == Instance(name, d) {
      var a, b, k := Instance(name, c), Instance(name, d), Index(name, TOKEN);
      assert |Decimal.Itoa(c)| == |Decimal.Itoa(d)|;
      assert a[k..k + |Decimal.Itoa(c)|] == Decimal.Itoa(c) && b[k..k + |Decimal.Itoa(d)|] == Decimal.Itoa(d);
      Decimal.DigitsAreCanonical(c);
      Decimal.DigitsAreCanonical(d);
    }
  }

  /** So a template offers exactly as many names as its count says. */
  lemma {:induction false} InstancesCount(kind: string, name: string, count: nat)
    requires Template(name)
    ensures |Instances(kind, name, count)| == count
  {
    if count == 0 {
      assert Instances(kind, name, count) == {};
    } else {
      InstancesCount(kind, name, count - 1);
      InstancesSnoc(kind, name, count - 1);
      LastInstanceIsNew(kind, name, count - 1);
    }
  }

  lemma InstancesSnoc(kind: string, name: string, count: nat)
    ensures Instances(kind, name, count + 1) == Instances(kind, name, count) + {(kind, Instance(name, count))}
  {}

  lemma LastInstanceIsNew(kind: string, name: string, count: nat)
    requires Template(name)
    ensures (kind, Instance(name, count)) !in Instances(kind, name, count)
  {
    forall c: nat | c < count ensures Instance(name, c) != Instance(name, count) {
      InstancesAreDistinct(name, c, count);
    }
  }

  /** An instance is a template itself exactly when its template has a second token. */
  lemma InstanceIsTemplateIff(name: string, c: nat)
    requires Template(name)
    ensures Template(Instance(name, c)) <==> Template(After(name, TOKEN))
  {
    ItoaIsDigits(c);
    TokenHasNoDigit();
    ReplacedContainsIff(name, TOKEN, Decimal.Itoa(c));
  }

  // ------------------------------------------------------ what a list of items emits

  predicate IsNew(r: Resource, replacements: map<string, string>, before: set<Pair>) {
    Eligible(r, replacements) && Key(r, replacements) !in before
  }

  /** The pairs whose ids are recorded after the items. */
  function Used(items: seq<Resource>, replacements: map<string, string>): (used: set<Pair>) {
    if items == [] then {}
    else
      var before, r := Used(items[..|items| - 1], replacements), items[|items| - 1];
      if IsNew(r, replacements, before) then before + {Key(r, replacements)} + Offered(r, replacements) else before
  }

  /** The pairs emitted: what each newly recorded item offers and was not recorded. */
  function Emitted(items: seq<Resource>, replacements: map<string, string>): (pairs: set<Pair>) {
    if items == [] then {}
    else
      var front, r := items[..|items| - 1], items[|items| - 1];
      if IsNew(r, replacements, Used(front, replacements))
      then Emitted(front, replacements) + (Offered(r, replacements) - Used(front, replacements))
      else Emitted(front, replacements)
  }

  lemma {:induction false} EmittedIsUsed(items: seq<Resource>, replacements: map<string, string>)
    ensures Emitted(items, replacements) <= Used(items, replacements)
    ensures forall p :: p in Emitted(items, replacements) ==> p.0 != "" && p.1 != ""
  {
    if items != [] {
      EmittedIsUsed(items[..|items| - 1], replacements);
      OfferedIsNamed(items[|items| - 1], replacements);
    }
  }

  lemma OfferedIsNamed(r: Resource, replacements: map<string, string>)
    ensures forall p :: p in Offered(r, replacements) ==> p.0 == Kind(r, replacements) && p.1 != ""
    ensures Template(r.name) ==> Key(r, replacements) !in Offered(r, replacements)
  {
    if Template(r.name) {
      forall c: nat ensures Instance(r.name, c) != r.name && Instance(r.name, c) != "" {
        InstanceDiffers(r.name, c);
      }
    }
  }

  predicate PlainTypes(items: seq<Resource>, replacements: map<string, string>) {
    && (forall r :: r in items ==> NoHash(r.kind))
    && (forall t :: t in replacements ==> NoHash(replacements[t]))
  }

  lemma {:induction false} UsedHasPlainTypes(items: seq<Resource>, replacements: map<string, string>)
    requires PlainTypes(items, replacements)
    ensures forall p :: p in Used(items, replacements) ==> NoHash(p.0)
  {
    if items != [] {
      UsedHasPlainTypes(items[..|items| - 1], replacements);
      OfferedIsNamed(items[|items| - 1], replacements);
    }
  }

  lemma SeenIff(pairs: set<Pair>, p: Pair)
    requires NoHash(p.0) && forall q :: q in pairs ==> NoHash(q.0)
    ensures Id(p) in Ids(pairs) <==> p in pairs
  {
    forall q | q in pairs ensures Id(q) == Id(p) <==> q == p {
      IdIsInjective(q, p);
    }
  }

  // -------------------------------------------------------------------- the loop

  function PairsOf(found: seq<Entity>): set<Pair> {
    set e | e in found :: (e.kind, e.name)
  }

  lemma PairsOfSnoc(found: seq<Entity>, e: Entity)
    ensures PairsOf(found + [e]) == PairsOf(found) + {(e.kind, e.name)}
  {
    assert forall x :: x in found + [e] <==> x in found || x == e;
  }

  lemma IdsSnoc(pairs: set<Pair>, p: Pair)
    ensures Ids(pairs + {p}) == Ids(pairs) + {Id(p)}
  {}

  /** No pair twice, and numbered in order. */
  predicate WellFormed(found: seq<Entity>, index: nat) {
    && (forall i, j :: 0 <= i < j < |found| ==> (found[i].kind, found[i].name) != (found[j].kind, found[j].name))
    && (forall i, j :: 0 <= i < j < |found| ==> found[i].index < found[j].index)
    && (forall i :: 0 <= i < |found| ==> 0 < found[i].index <= index)
  }

  lemma WellFormedSnoc(found: seq<Entity>, index: nat, e: Entity)
    requires WellFormed(found, index) && index < e.index && (e.kind, e.name) !in PairsOf(found)
    ensures WellFormed(found + [e], e.index)
  {
    forall i | 0 <= i < |found| ensures (found[i].kind, found[i].name) in PairsOf(found) {
      assert found[i] in found;
    }
  }

  /** Nothing is emitted twice, every emitted type and name is proper, and what is emitted
      is `Emitted`. */
  method CollectNames(items: seq<Resource>, replacements: map<string, string>)
    returns (found: seq<Entity>, resourceIndex: nat)
    requires PlainTypes(items, replacements)
    ensures WellFormed(found, resourceIndex)
    ensures PairsOf(found) == Emitted(items, replacements)
    ensures forall e :: e in found ==> e.kind != "" && e.name != ""
    ensures forall i, j :: 0 <= i < j < |found| ==>
              && (found[i].kind != found[j].kind || found[i].name != found[j].name)
              && 0 < found[i].index < found[j].index <= resourceIndex
  {
    var used: set<string> := {};
    found, resourceIndex := [], 0;
    for k := 0 to |items|
      invariant used == Ids(Used(items[..k], replacements))
      invariant WellFormed(found, resourceIndex)
      invariant PairsOf(found) == Emitted(items[..k], replacements)
    {
      assert items[..k + 1][..k] == items[..k];
      UsedHasPlainTypes(items[..k], replacements);
      EmittedIsUsed(items[..k], replacements);
      found, resourceIndex, used := CollectItem(items[k], replacements, found, resourceIndex, used,
                                                Used(items[..k], replacements), Emitted(items[..k], replacements));
    }
    assert items[..|items|] == items;
    EmittedIsUsed(items, replacements);
    assert forall e :: e in found ==> (e.kind, e.name) in PairsOf(found);
  }

  /** One turn of the loop over the resources. */
  method CollectItem(r: Resource, replacements: map<string, string>,
                     found0: seq<Entity>, index0: nat, used0: set<string>,
                     ghost recorded: set<Pair>, ghost emitted: set<Pair>)
    returns (found: seq<Entity>, resourceIndex: nat, used: set<string>)
    requires PlainTypes([r], replacements) && forall p :: p in recorded ==> NoHash(p.0)
    requires used0 == Ids(recorded) && emitted <= recorded && PairsOf(found0) == emitted
    requires WellFormed(found0, index0)
    ensures WellFormed(found, resourceIndex)
    ensures PairsOf(found) == if IsNew(r, replacements, recorded) then emitted + (Offered(r, replacements) - recorded)
                              else emitted
    ensures used == if IsNew(r, replacements, recorded)
                    then Ids(recorded + {Key(r, replacements)} + Offered(r, replacements)) else used0
  {
    found, resourceIndex, used := found0, index0, used0;
    if StartsWith(r.name, "Test") || StartsWith(r.name, "test") {
      return;
    }
    var kind := if r.kind in replacements then replacements[r.kind] else r.kind;
    assert NoHash(kind) by { assert r in [r]; }
    if kind == "" {
      return;
    }
    var id := kind + "#" + r.name;
    ghost var key := (kind, r.name);
    SeenIff(recorded, key);
    if id in used {
      return;
    }
    used := used + {id};
    IdsSnoc(recorded, key);
    assert recorded + {key} + {} == recorded + {key};
    if r.name == "" {
      return;
    }
    if Template(r.name) {
      if r.countText.Some? {
        var (count, err) := Decimal.Atoi(r.countText.value);
        if err {
          return;
        }
        found, resourceIndex, used := Unroll(kind, r.name, count, found, resourceIndex, used, recorded, emitted);
      }
    } else {
      resourceIndex := resourceIndex + 1;
      var e := Entity(kind, r.name, resourceIndex);
      PairsOfSnoc(found, e);
      WellFormedSnoc(found, resourceIndex - 1, e);
      found := found + [e];
      assert recorded + {key} + {key} == recorded + {key};
    }
  }

  /** The inner loop over the instances of one template. */
  method Unroll(kind: string, name: string, count: int, found0: seq<Entity>, index0: nat, used0: set<string>,
                ghost recorded: set<Pair>, ghost emitted: set<Pair>)
    returns (found: seq<Entity>, resourceIndex: nat, used: set<string>)
    requires Template(name) && NoHash(kind) && forall p :: p in recorded ==> NoHash(p.0)
    requires used0 == Ids(recorded + {(kind, name)}) && emitted <= recorded && PairsOf(found0) == emitted
    requires WellFormed(found0, index0)
    ensures var offered := Instances(kind, name, if count < 0 then 0 else count);
            && WellFormed(found, resourceIndex)
            && PairsOf(found) == emitted + (offered - recorded)
            && used == Ids(recorded + {(kind, name)} + offered)
  {
    found, resourceIndex, used := found0, index0, used0;
    var c := 0;
    assert Instances(kind, name, 0) == {};
    while c < count
      invariant 0 <= c && (count >= 0 ==> c <= count) && (count < 0 ==> c == 0)
      invariant WellFormed(found, resourceIndex)
      invariant PairsOf(found) == emitted + (Instances(kind, name, c) - recorded)
      invariant used == Ids(recorded + {(kind, name)} + Instances(kind, name, c))
    {
      resourceIndex := resourceIndex + 1;
      var instance := Instance(name, c);
      var id := kind + "#" + instance;
      ghost var known := recorded + {(kind, name)} + Instances(kind, name, c);
      SeenIff(known, (kind, instance));
      InstanceDiffers(name, c);
      InstancesSnoc(kind, name, c);
      IdsSnoc(known, (kind, instance));
      assert known + {(kind, instance)} == recorded + {(kind, name)} + Instances(kind, name, c + 1);
      c := c + 1;
      if id in used {
        continue;
      }
      used := used + {id};
      var e := Entity(kind, instance, resourceIndex);
      PairsOfSnoc(found, e);
      WellFormedSnoc(found, resourceIndex - 1, e);
      found := found + [e];
    }
  }

  // ---------------------------------------------------------- what Emitted means

  predicate OfferedBy(r: Resource, replacements: map<string, string>, p: Pair) {
    Eligible(r, replacements) && p in Offered(r, replacements)
  }

  /** Only eligible items emit, and only what they offer. */
  lemma {:induction false} EmittedIsOffered(items: seq<Resource>, replacements: map<string, string>, p: Pair)
    requires p in Emitted(items, replacements)
    ensures exists k :: 0 <= k < |items| && OfferedBy(items[k], replacements, p)
    ensures exists k :: 0 <= k < |items| && Eligible(items[k], replacements) && p in Offered(items[k], replacements)
  {
    var front := items[..|items| - 1];
    if p in Emitted(front, replacements) {
      EmittedIsOffered(front, replacements, p);
    } else {
      assert OfferedBy(items[|items| - 1], replacements, p);
    }
  }

  lemma {:induction false} EligibleIsUsed(items: seq<Resource>, replacements: map<string, string>, k: nat)
    requires k < |items| && Eligible(items[k], replacements)
    ensures Key(items[k], replacements) in Used(items, replacements)
  {
    if k < |items| - 1 {
      EligibleIsUsed(items[..|items| - 1], replacements, k);
    }
  }

  /** A recorded name without a token has been emitted. */
  lemma {:induction false} UsedPlainIsEmitted(items: seq<Resource>, replacements: map<string, string>, p: Pair)
    requires p in Used(items, replacements) && p.1 != "" && !Template(p.1)
    ensures p in Emitted(items, replacements)
  {
    var front := items[..|items| - 1];
    if p in Used(front, replacements) {
      UsedPlainIsEmitted(front, replacements, p);
    }
  }

  /** Every eligible plain name is emitted; with the distinctness above, exactly once. */
  lemma PlainNameAppears(items: seq<Resource>, replacements: map<string, string>, k: nat)
    requires k < |items| && Eligible(items[k], replacements)
    requires items[k].name != "" && !Template(items[k].name)
    ensures Key(items[k], replacements) in Emitted(items, replacements)
  {
    EligibleIsUsed(items, replacements, k);
    UsedPlainIsEmitted(items, replacements, Key(items[k], replacements));
  }

  /** The first eligible item with its type and name. */
  predicate First(items: seq<Resource>, replacements: map<string, string>, k: nat)
    requires k < |items|
  {
    && Eligible(items[k], replacements)
    && forall j :: 0 <= j < k && Eligible(items[j], replacements) ==>
                     Key(items[j], replacements) != Key(items[k], replacements)
  }

  /** A recorded template is an item's own, or an instance that was emitted. */
  lemma {:induction false} UsedTemplate(items: seq<Resource>, replacements: map<string, string>, p: Pair)
    requires p in Used(items, replacements)
    ensures p in Emitted(items, replacements)
            || exists k :: 0 <= k < |items| && Eligible(items[k], replacements) && Key(items[k], replacements) == p
  {
    var n := |items| - 1;
    var front := items[..n];
    if p in Used(front, replacements) {
      UsedTemplate(front, replacements, p);
      if k :| 0 <= k < |front| && Eligible(front[k], replacements) && Key(front[k], replacements) == p {
        assert Key(items[k], replacements) == p;
      }
    } else {
      assert p == Key(items[n], replacements) || p in Emitted(items, replacements);
    }
  }

  /** What one more item adds: nothing when it is not the first with its type and name;
      otherwise all it offers that is new, unless its own text has already been emitted as
      an instance of another template. */
  lemma OneMoreItem(items: seq<Resource>, replacements: map<string, string>, k: nat)
    requires k < |items|
    ensures Emitted(items[..k + 1], replacements)
            == Emitted(items[..k], replacements)
               + (if First(items, replacements, k) && Key(items[k], replacements) !in Emitted(items[..k], replacements)
                  then Offered(items[k], replacements) - Used(items[..k], replacements) else {})
  {
    var front, r := items[..k], items[k];
    assert items[..k + 1][..k] == front;
    if Eligible(r, replacements) {
      var key := Key(r, replacements);
      if j :| 0 <= j < k && Eligible(items[j], replacements) && Key(items[j], replacements) == key {
        assert front[j] == items[j];
        EligibleIsUsed(front, replacements, j);
      } else if key in Used(front, replacements) {
        UsedTemplate(front, replacements, key);
      } else {
        EmittedIsUsed(front, replacements);
      }
    }
  }

  // ----------------------------------------- first occurrences and what they emit

  lemma FirstInFront(items: seq<Resource>, replacements: map<string, string>, n: nat)
    requires n <= |items|
    ensures forall k :: 0 <= k < n ==> (First(items[..n], replacements, k) <==> First(items, replacements, k))
  {
    forall k | 0 <= k < n ensures First(items[..n], replacements, k) <==> First(items, replacements, k) {
      var front := items[..n];
      assert forall j :: 0 <= j <= k ==> front[j] == items[j];
    }
  }

  /** Every eligible type and name has a first occurrence. */
  lemma {:induction false} FirstOf(items: seq<Resource>, replacements: map<string, string>, m: nat) returns (f: nat)
    requires m < |items| && Eligible(items[m], replacements)
    ensures f <= m && First(items, replacements, f) && Key(items[f], replacements) == Key(items[m], replacements)
  {
    if j: nat :| j < m && Eligible(items[j], replacements)
                 && Key(items[j], replacements) == Key(items[m], replacements)
    {
      f := FirstOf(items, replacements, j);
    } else {
      f := m;
    }
  }

  /** Some item, the first with its type and name, offers the pair. */
  predicate FirstOffers(items: seq<Resource>, replacements: map<string, string>, p: Pair) {
    exists k :: 0 <= k < |items| && First(items, replacements, k) && p in Offered(items[k], replacements)
  }

  /** A first occurrence is processed, unless its own text has been emitted before. */
  predicate Processed(items: seq<Resource>, replacements: map<string, string>, k: nat)
    requires k < |items|
  {
    First(items, replacements, k) && Key(items[k], replacements) !in Emitted(items[..k], replacements)
  }

  lemma {:induction false} EmittedGrows(items: seq<Resource>, replacements: map<string, string>, k: nat)
    requires k <= |items|
    ensures Emitted(items[..k], replacements) <= Emitted(items, replacements)
    ensures Used(items[..k], replacements) <= Used(items, replacements)
    decreases |items| - k
  {
    if k == |items| {
      assert items[..k] == items;
    } else {
      assert items[..k + 1][..k] == items[..k];
      EmittedGrows(items, replacements, k + 1);
    }
  }

  /** Whatever is emitted is offered by an item that is processed. */
  lemma {:induction false} EmitterOf(items: seq<Resource>, replacements: map<string, string>, p: Pair) returns (k: nat)
    requires p in Emitted(items, replacements)
    ensures k < |items| && Processed(items, replacements, k) && p in Offered(items[k], replacements)
  {
    var n := |items| - 1;
    assert items[..n + 1] == items;
    OneMoreItem(items, replacements, n);
    if p in Emitted(items[..n], replacements) {
      k := EmitterOf(items[..n], replacements, p);
      FirstInFront(items, replacements, n);
      assert items[..n][..k] == items[..k];
    } else {
      k := n;
    }
  }

  /** What a processed item offers is emitted, unless it is another item's template. */
  lemma ProcessedEmits(items: seq<Resource>, replacements: map<string, string>, k: nat, p: Pair)
    requires k < |items| && Processed(items, replacements, k) && p in Offered(items[k], replacements)
    ensures p in Emitted(items, replacements)
            || exists m :: 0 <= m < k && First(items, replacements, m) && Template(items[m].name)
                           && Key(items[m], replacements) == p
  {
    OneMoreItem(items, replacements, k);
    EmittedGrows(items, replacements, k);
    EmittedGrows(items, replacements, k + 1);
    OfferedIsNamed(items[k], replacements);
    if p in Used(items[..k], replacements) {
      if !Template(p.1) {
        UsedPlainIsEmitted(items[..k], replacements, p);
      } else {
        UsedTemplate(items[..k], replacements, p);
        if m :| 0 <= m < k && Eligible(items[..k][m], replacements) && Key(items[..k][m], replacements) == p {
          var f := FirstOf(items, replacements, m);
          assert Key(items[f], replacements) == p;
        }
      }
    }
  }

  /** No first occurrence of a template is itself an instance that a first occurrence
      offers. */
  predicate NoTemplateOffered(items: seq<Resource>, replacements: map<string, string>) {
    forall j, k ::
      (0 <= j < |items| && 0 <= k < |items| && First(items, replacements, j) && First(items, replacements, k)
       && Template(items[k].name)) ==>
        Key(items[k], replacements) !in Offered(items[j], replacements)
  }

  /** Then what is emitted is exactly what the first occurrences offer: a template's first
      occurrence fixes its instances, and later ones, whatever their count, change nothing. */
  lemma EmittedIff(items: seq<Resource>, replacements: map<string, string>, p: Pair)
    requires NoTemplateOffered(items, replacements)
    ensures p in Emitted(items, replacements) <==> FirstOffers(items, replacements, p)
  {
    if p in Emitted(items, replacements) {
      var k := EmitterOf(items, replacements, p);
    }
    if k :| 0 <= k < |items| && First(items, replacements, k) && p in Offered(items[k], replacements) {
      if Processed(items, replacements, k) {
        ProcessedEmits(items, replacements, k, p);
      } else {
        var key := Key(items[k], replacements);
        var j := EmitterOf(items[..k], replacements, key);
        FirstInFront(items, replacements, k);
        assert key in Offered(items[j], replacements);
        EmittedGrows(items, replacements, k);
      }
    }
  }

  /** A template that is recorded before it is emitted is never emitted. */
  lemma {:induction false} RecordedStaysUnemitted(items: seq<Resource>, replacements: map<string, string>, k: nat)
    requires k < |items| && Processed(items, replacements, k) && Template(items[k].name)
    ensures Key(items[k], replacements) !in Emitted(items, replacements)
    decreases |items|
  {
    var n := |items| - 1;
    assert items[..n + 1] == items;
    OneMoreItem(items, replacements, n);
    OfferedIsNamed(items[k], replacements);
    if k < n {
      FirstInFront(items, replacements, n);
      assert items[..n][..k] == items[..k];
      RecordedStaysUnemitted(items[..n], replacements, k);
      EligibleIsUsed(items[..n], replacements, k);
    }
  }

  /** A pair that only items with this item's type and name offer. */
  predicate OwnPair(items: seq<Resource>, replacements: map<string, string>, k: nat, q: Pair)
    requires k < |items|
  {
    && q in Offered(items[k], replacements)
    && forall m ::
         (0 <= m < |items| && Eligible(items[m], replacements)
          && Key(items[m], replacements) != Key(items[k], replacements)) ==>
           q !in Offered(items[m], replacements)
  }

  /** A template that some first occurrence offers, and that has an instance of its own,
      breaks the rule: either its text or that instance is offered and never emitted. */
  lemma OfferedTemplateLosesOne(items: seq<Resource>, replacements: map<string, string>, j: nat, k: nat, q: Pair)
    requires j < |items| && k < |items| && First(items, replacements, j) && First(items, replacements, k)
    requires Template(items[k].name) && Key(items[k], replacements) in Offered(items[j], replacements)
    requires OwnPair(items, replacements, k, q)
    ensures FirstOffers(items, replacements, Key(items[k], replacements)) && FirstOffers(items, replacements, q)
    ensures Key(items[k], replacements) !in Emitted(items, replacements) || q !in Emitted(items, replacements)
  {
    if q in Emitted(items, replacements) {
      var m := EmitterOf(items, replacements, q);
      assert Key(items[m], replacements) == Key(items[k], replacements);
      assert m == k;
      RecordedStaysUnemitted(items, replacements, k);
    }
  }

  /** So when every offered template has an instance of its own, the condition is exact. */
  lemma FirstOccurrencesFixEmittedIff(items: seq<Resource>, replacements: map<string, string>)
    requires forall j, k ::
               (0 <= j < |items| && 0 <= k < |items| && First(items, replacements, j) && First(items, replacements, k)
                && Template(items[k].name) && Key(items[k], replacements) in Offered(items[j], replacements)) ==>
                 exists q :: OwnPair(items, replacements, k, q)
    ensures (forall p :: p in Emitted(items, replacements) <==> FirstOffers(items, replacements, p))
            <==> NoTemplateOffered(items, replacements)
  {
    if NoTemplateOffered(items, replacements) {
      forall p ensures p in Emitted(items, replacements) <==> FirstOffers(items, replacements, p) {
        EmittedIff(items, replacements, p);
      }
    } else {
      var j, k :| 0 <= j < |items| && 0 <= k < |items| && First(items, replacements, j) && First(items, replacements, k)
                  && Template(items[k].name) && Key(items[k], replacements) in Offered(items[j], replacements);
      var q :| OwnPair(items, replacements, k, q);
      OfferedTemplateLosesOne(items, replacements, j, k, q);
    }
  }

  /** Names with at most one token meet the condition: no instance is a template. */
  lemma SingleTokensSuffice(items: seq<Resource>, replacements: map<string, string>)
    requires forall k :: 0 <= k < |items| ==> !Template(After(items[k].name, TOKEN))
    ensures NoTemplateOffered(items, replacements)
  {
    forall j, k | 0 <= j < |items| && 0 <= k < |items| && First(items, replacements, j) && First(items, replacements, k)
                  && Template(items[k].name)
      ensures Key(items[k], replacements) !in Offered(items[j], replacements)
    {
      if Template(items[j].name) {
        forall c: nat ensures !Template(Instance(items[j].name, c)) {
          InstanceIsTemplateIff(items[j].name, c);
        }
      }
    }
  }

  lemma OneInstance(r: Resource)
    requires Template(r.name) && r.countText == Some("1")
    ensures Offered(r, map[]) == {(r.kind, Instance(r.name, 0))}
  {
    var one := "1";
    assert one[1..] == "";
    assert Decimal.ScanFrom(one, 0) == Decimal.ScanFrom(one[1..], 1);
    assert Times(r) == 1;
  }

  lemma ReplaceAtStart(t: string, put: string, rest: string)
    requires t != ""
    ensures ReplaceFirst(t + rest, t, put) == put + rest && Contains(t + rest, t)
  {
    assert (t + rest)[..|t|] == t && (t + rest)[0..] == t + rest && (t + rest)[|t|..] == rest;
    assert StartsWith((t + rest)[0..], t);
  }

  lemma ReplaceAtOne(c: char, t: string, put: string)
    requires t != "" && t[0] != c
    ensures ReplaceFirst([c] + t, t, put) == [c] + put && Contains([c] + t, t)
  {
    var s := [c] + t;
    assert s[1..] == t && t[..|t|] == t;
    assert !StartsWith(s, t) by { assert s[..|t|][0] == c; }
    assert StartsWith(s[1..], t);
    assert Index(t, t) == 0;
    assert s[1 + |t|..] == "";
  }

  lemma FirstOfTwo(r: Resource, s: Resource)
    requires Eligible(r, map[]) && Eligible(s, map[]) && r.name != s.name
    requires Key(s, map[]) in Offered(r, map[])
    ensures First([r, s], map[], 1) && Emitted([r, s], map[]) == Offered(r, map[])
  {
    var items := [r, s];
    assert items[..0] == [] && items[..1] == [r] && items[..2] == items;
    OneMoreItem(items, map[], 0);
    OneMoreItem(items, map[], 1);
  }

  lemma TokensOffer()
    ensures Offered(Resource("vcd_org", TOKEN + TOKEN, Some("1")), map[]) == {("vcd_org", "0" + TOKEN)}
    ensures Offered(Resource("vcd_org", ['0'] + TOKEN, Some("1")), map[]) == {("vcd_org", "00")}
  {
    var hiding, hidden := Resource("vcd_org", TOKEN + TOKEN, Some("1")), Resource("vcd_org", ['0'] + TOKEN, Some("1"));
    ReplaceAtStart(TOKEN, "0", TOKEN);
    ReplaceAtOne('0', TOKEN, "0");
    OneInstance(hiding);
    OneInstance(hidden);
    assert ['0'] + "0" == "00";
  }

  /** The second item of that list does have an instance of its own. */
  lemma HiddenHasItsOwn()
    ensures var hiding := Resource("vcd_org", TOKEN + TOKEN, Some("1"));
            var hidden := Resource("vcd_org", ['0'] + TOKEN, Some("1"));
            OwnPair([hiding, hidden], map[], 1, ("vcd_org", "00"))
  {
    TokensOffer();
    assert |"0" + TOKEN| > |"00"|;
    hide Offered;
  }

  /** With a second token it can fail: the instance of one template hides another. */
  lemma SecondTokenHidesTemplate()
    ensures var hiding := Resource("vcd_org", TOKEN + TOKEN, Some("1"));
            var hidden := Resource("vcd_org", ['0'] + TOKEN, Some("1"));
            && First([hiding, hidden], map[], 1)
            && ("vcd_org", "00") in Offered(hidden, map[])
            && ("vcd_org", "00") !in Emitted([hiding, hidden], map[])
  {
    var hiding := Resource("vcd_org", TOKEN + TOKEN, Some("1"));
    var hidden := Resource("vcd_org", ['0'] + TOKEN, Some("1"));
    TokensOffer();
    assert hiding.name[0] == '$' && hidden.name[0] == '0';
    assert "0" + TOKEN == ['0'] + TOKEN;
    assert |"0" + TOKEN| > |"00"|;
    NotATest(hiding);
    NotATest(hidden);
    FirstOfTwo(hiding, hidden);
  }

  lemma NotATest(r: Resource)
    requires r.name != "" && r.name[0] != 'T' && r.name[0] != 't' && r.kind != ""
    ensures Eligible(r, map[])
  {
    assert |r.name| >= 4 ==> r.name[..4][0] == r.name[0];
  }
}
