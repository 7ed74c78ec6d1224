/** The ignore_metadata_changes rules: how the provider builds them with their conflict
    actions (vcd/provider.go, getIgnoredMetadata) and how a resource checks its entries
    against them (checkIgnoredMetadataConflicts in vcd/metadata.go). */
module IgnoreRules {
  import opened ConnectionCache
  import opened Options

  /** An ignore_metadata_changes block of the provider configuration. */
  datatype Block = Block(
    resourceType: string, resourceName: string, keyRegex: string, valueRegex: string,
    conflictAction: string)

  /** What the provider takes from libraries: whether a pattern compiles, whether it
      matches, how a rule prints, and the table from resource types to API objects. */
  datatype Sdk = Sdk(
    compiles: string -> bool,
    matches: (string, string) -> bool,
    text: Rule -> string,
    apiObjects: map<string, string>)

  const ACTIONS: set<string> := {"error", "warn", "none"}

  /** A lookup in a Go map of strings: "" when the key is missing. */
  function Lookup(m: map<string, string>, key: string): string {
    if key in m then m[key] else ""
  }

  // ------------------------------------------------------ building the rules

  function PatternOf(s: string): Option<string> {
    if s == "" then None else Some(s)
  }

  predicate BadBlock(sdk: Sdk, b: Block) {
    || (b.keyRegex != "" && !sdk.compiles(b.keyRegex))
    || (b.valueRegex != "" && !sdk.compiles(b.valueRegex))
    || (b.keyRegex == "" && b.valueRegex == "")
  }

  function RuleOf(sdk: Sdk, b: Block): Rule {
    Rule(if b.resourceType != "" then Some(Lookup(sdk.apiObjects, b.resourceType)) else None,
         PatternOf(b.resourceName), PatternOf(b.keyRegex), PatternOf(b.valueRegex))
  }

  method GetIgnoredMetadata(sdk: Sdk, blocks: seq<Block>) returns (r: Result<seq<(Rule, string)>>)
    ensures r.Err? <==> exists b :: b in blocks && BadBlock(sdk, b)
    ensures r.Ok? ==> |r.value| == |blocks|
                      && forall i :: 0 <= i < |blocks| ==>
                           r.value[i] == (RuleOf(sdk, blocks[i]), blocks[i].conflictAction)
    ensures r.Err? <==> exists i :: 0 <= i < |blocks|
                                    && ((blocks[i].keyRegex == "" && blocks[i].valueRegex == "")
                                        || (blocks[i].keyRegex != "" && !sdk.compiles(blocks[i].keyRegex))
                                        || (blocks[i].valueRegex != "" && !sdk.compiles(blocks[i].valueRegex)))
  {
    var result: seq<(Rule, string)> := [];
    for i := 0 to |blocks|
      invariant |result| == i
      invariant forall j :: 0 <= j < i ==> !BadBlock(sdk, blocks[j])
                                           && result[j] == (RuleOf(sdk, blocks[j]), blocks[j].conflictAction)
    {
      var b := blocks[i];
      assert b in blocks;
      var rule := Rule(None, None, None, None);
      if b.keyRegex != "" {
        if !sdk.compiles(b.keyRegex) {
          return Err;
        }
        rule := rule.(keyRegex := Some(b.keyRegex));
      }
      if b.valueRegex != "" {
        if !sdk.compiles(b.valueRegex) {
          return Err;
        }
        rule := rule.(valueRegex := Some(b.valueRegex));
      }
      if rule.keyRegex.None? && rule.valueRegex.None? {
        return Err;
      }
      if b.resourceName != "" {
        rule := rule.(objectName := Some(b.resourceName));
      }
      if b.resourceType != "" {
        rule := rule.(objectType := Some(Lookup(sdk.apiObjects, b.resourceType)));
      }
      result := result + [(rule, b.conflictAction)];
    }
    return Ok(result);
  }

  /** The two things the provider derives from the blocks: the rules for the client and
      the global table of actions. Of rules that print alike, the last one's action counts. */
  method ConfigureIgnoredMetadata(sdk: Sdk, blocks: seq<Block>)
    returns (r: Result<(seq<Rule>, map<string, string>)>)
    ensures r.Err? <==> exists b :: b in blocks && BadBlock(sdk, b)
    ensures r.Ok? ==> |r.value.0| == |blocks|
                      && forall i :: 0 <= i < |blocks| ==> r.value.0[i] == RuleOf(sdk, blocks[i])
    ensures r.Ok? ==> r.value.1 == ActionTable(sdk, blocks)
  {
    var ignored := GetIgnoredMetadata(sdk, blocks);
    if ignored.Err? {
      return Err;
    }
    var rules: seq<Rule>, actions := [], map[];
    for i := 0 to |blocks|
      invariant |rules| == i && forall j :: 0 <= j < i ==> rules[j] == RuleOf(sdk, blocks[j])
      invariant actions == ActionTable(sdk, blocks[..i])
    {
      assert blocks[..i + 1][..i] == blocks[..i];
      rules := rules + [ignored.value[i].0];
      actions := actions[sdk.text(ignored.value[i].0) := ignored.value[i].1];
    }
    assert blocks[..|blocks|] == blocks;
    return Ok((rules, actions));
  }

  function ActionTable(sdk: Sdk, blocks: seq<Block>): (actions: map<string, string>) {
    if blocks == [] then map[]
    else
      var n := |blocks| - 1;
      ActionTable(sdk, blocks[..n])[sdk.text(RuleOf(sdk, blocks[n])) := blocks[n].conflictAction]
  }

  /** A rule has what its block sets, and nothing for what the block leaves empty. */
  lemma RuleHasWhatIsSet(sdk: Sdk, b: Block)
    ensures var r := RuleOf(sdk, b);
            && r.keyRegex == (if b.keyRegex == "" then None else Some(b.keyRegex))
            && r.valueRegex == (if b.valueRegex == "" then None else Some(b.valueRegex))
            && r.objectName == (if b.resourceName == "" then None else Some(b.resourceName))
            && r.objectType == (if b.resourceType == "" then None
                                else if b.resourceType in sdk.apiObjects then Some(sdk.apiObjects[b.resourceType])
                                else Some(""))
  {}

  /** The action of a printed rule is that of the last block that prints like it. */
  lemma {:induction false} LastBlockDecides(sdk: Sdk, blocks: seq<Block>, i: nat)
    requires i < |blocks|
    requires forall j :: i < j < |blocks| ==> sdk.text(RuleOf(sdk, blocks[j])) != sdk.text(RuleOf(sdk, blocks[i]))
    ensures sdk.text(RuleOf(sdk, blocks[i])) in ActionTable(sdk, blocks)
    ensures ActionTable(sdk, blocks)[sdk.text(RuleOf(sdk, blocks[i]))] == blocks[i].conflictAction
  {
    var n := |blocks| - 1;
    if i < n {
      LastBlockDecides(sdk, blocks[..n], i);
    }
  }

  /** Every rule of a configuration has an action, and it is one of the three the schema
      allows. */
  lemma {:induction false} EveryRuleHasAction(sdk: Sdk, blocks: seq<Block>, i: nat)
    requires forall b :: b in blocks ==> b.conflictAction in ACTIONS
    requires i < |blocks|
    ensures Lookup(ActionTable(sdk, blocks), sdk.text(RuleOf(sdk, blocks[i]))) in ACTIONS
  {
    var n := |blocks| - 1;
    if i < n {
      EveryRuleHasAction(sdk, blocks[..n], i);
    }
  }

  // ------------------------------------------------------------- checking entries

  datatype Entry = Entry(key: string, value: string)

  /** What the resource brings to the check: its type and its name. */
  datatype Target = Target(resourceType: string, name: string)

  predicate IsSpace(c: char) {
    c in {'\t', '\n', '\U{000B}', '\U{000C}', '\r', ' ', '\U{0085}', '\U{00A0}', '\U{1680}',
          '\U{2028}', '\U{2029}', '\U{202F}', '\U{205F}', '\U{3000}'}
    || '\U{2000}' <= c <= '\U{200A}'
  }

  /** strings.TrimSpace(s) is empty. */
  predicate IsBlank(s: string) {
    forall i :: 0 <= i < |s| ==> IsSpace(s[i])
  }

  predicate Conflicts(sdk: Sdk, target: Target, e: Entry, r: Rule) {
    && (r.objectType.None? || IsBlank(r.objectType.value)
        || r.objectType.value == Lookup(sdk.apiObjects, target.resourceType))
    && (r.objectName.None? || IsBlank(r.objectName.value) || IsBlank(target.name)
        || r.objectName.value == target.name)
    && (r.keyRegex.None? || sdk.matches(r.keyRegex.value, e.key))
    && (r.valueRegex.None? || sdk.matches(r.valueRegex.value, e.value))
  }

  /** When an entry conflicts with a block, in terms of what the configuration says: each of
      the four criteria is left out, or met. */
  lemma ConflictOfBlockIff(sdk: Sdk, target: Target, e: Entry, b: Block)
    ensures Conflicts(sdk, target, e, RuleOf(sdk, b))
            <==> var wanted := if b.resourceType in sdk.apiObjects then sdk.apiObjects[b.resourceType] else "";
                 var own := target.resourceType;
                 var actual := if own in sdk.apiObjects then sdk.apiObjects[own] else "";
                 && (b.resourceType == "" || IsBlank(wanted) || wanted == actual)
                 && (IsBlank(b.resourceName) || IsBlank(target.name) || b.resourceName == target.name)
                 && (b.keyRegex == "" || sdk.matches(b.keyRegex, e.key))
                 && (b.valueRegex == "" || sdk.matches(b.valueRegex, e.value))
  {}

  lemma BlankIff(s: string)
    ensures s == "" ==> IsBlank(s)
    ensures (forall i :: 0 <= i < |s| ==> s[i] in {' ', '\t', '\n', '\r'}) ==> IsBlank(s)
    ensures (exists i :: 0 <= i < |s| && '!' <= s[i] <= '~') ==> !IsBlank(s)
  {}

  /** The code points with the property White_Space. */
  lemma SpaceIff(c: char)
    ensures IsSpace(c) <==> c as int in {9, 10, 11, 12, 13, 32, 0x85, 0xA0, 0x1680, 0x2000, 0x2001, 0x2002, 0x2003,
                                         0x2004, 0x2005, 0x2006, 0x2007, 0x2008, 0x2009, 0x200A, 0x2028, 0x2029,
                                         0x202F, 0x205F, 0x3000}
  {}

  datatype Diagnosis =
    | Silent
    | ErrorFor(entry: Entry, rule: Rule)
    | WarningFor(entry: Entry, rule: Rule)
    | UnknownAction(action: string)

  function Diagnose(sdk: Sdk, actions: map<string, string>, e: Entry, r: Rule): Diagnosis {
    match Lookup(actions, sdk.text(r))
    case "error" => ErrorFor(e, r)
    case "warn" => WarningFor(e, r)
    case "none" => Silent
    case action => UnknownAction(action)
  }

  /** What the check gets to see of the client's rules: they are read again for each entry,
      and while another thread has the filter swapped out the read finds none. */
  ghost predicate Sees(seen: seq<seq<Rule>>, rules: seq<Rule>) {
    forall k :: 0 <= k < |seen| ==> seen[k] == rules || seen[k] == []
  }

  /** The pair is the first conflict, entries before rules. */
  ghost predicate FirstConflict(sdk: Sdk, target: Target, entries: seq<Entry>, seen: seq<seq<Rule>>, i: nat, j: nat) {
    && i < |entries| == |seen| && j < |seen[i]| && Conflicts(sdk, target, entries[i], seen[i][j])
    && (forall k, l :: 0 <= k < i && 0 <= l < |seen[k]| ==> !Conflicts(sdk, target, entries[k], seen[k][l]))
    && (forall l :: 0 <= l < j ==> !Conflicts(sdk, target, entries[i], seen[i][l]))
  }

  ghost predicate NoConflict(sdk: Sdk, target: Target, entries: seq<Entry>, seen: seq<seq<Rule>>)
    requires |seen| == |entries|
  {
    forall k, l :: 0 <= k < |entries| && 0 <= l < |seen[k]| ==> !Conflicts(sdk, target, entries[k], seen[k][l])
  }

  /** The first conflicting pair alone decides the outcome, even when its action is
      "none": later conflicts are then not reported either. `seen[i]` is what the client's
      rules are when entry i is looked at. */
  method CheckIgnoredMetadataConflicts(sdk: Sdk, target: Target, entries: seq<Entry>, seen: seq<seq<Rule>>,
                                       actions: map<string, string>)
    returns (d: Diagnosis)
    requires |seen| == |entries|
    ensures NoConflict(sdk, target, entries, seen) ==> d == Silent
    ensures forall i: nat, j: nat :: FirstConflict(sdk, target, entries, seen, i, j) ==>
              d == Diagnose(sdk, actions, entries[i], seen[i][j])
    ensures NoConflict(sdk, target, entries, seen)
            || exists i: nat, j: nat :: FirstConflict(sdk, target, entries, seen, i, j)
    ensures (forall i, j :: 0 <= i < |entries| && 0 <= j < |seen[i]| ==>
               !Conflicts(sdk, target, entries[i], seen[i][j])) ==>
              d == Silent
    ensures forall i, j ::
              (0 <= i < |entries| && 0 <= j < |seen[i]| && Conflicts(sdk, target, entries[i], seen[i][j])
               && (forall k, l :: 0 <= k < i && 0 <= l < |seen[k]| ==>
                     !Conflicts(sdk, target, entries[k], seen[k][l]))
               && (forall l :: 0 <= l < j ==> !Conflicts(sdk, target, entries[i], seen[i][l]))) ==>
                var text := sdk.text(seen[i][j]);
                var action := if text in actions then actions[text] else "";
                && (d == ErrorFor(entries[i], seen[i][j]) <==> action == "error")
                && (d == WarningFor(entries[i], seen[i][j]) <==> action == "warn")
                && (d == Silent <==> action == "none")
                && (d == UnknownAction(action) <==> action !in {"error", "warn", "none"})
  {
    if |entries| == 0 {
      return Silent;
    }
    for i := 0 to |entries|
      invariant forall k, l :: 0 <= k < i && 0 <= l < |seen[k]| ==> !Conflicts(sdk, target, entries[k], seen[k][l])
    {
      var rules := seen[i];
      for j := 0 to |rules|
        invariant forall l :: 0 <= l < j ==> !Conflicts(sdk, target, entries[i], rules[l])
      {
        if !Conflicts(sdk, target, entries[i], rules[j]) {
          continue;
        }
        assert FirstConflict(sdk, target, entries, seen, i, j);
        FirstConflictIsUnique(sdk, target, entries, seen, i, j);
        var action := Lookup(actions, sdk.text(rules[j]));
        match action {
          case "error" => return ErrorFor(entries[i], rules[j]);
          case "warn" => return WarningFor(entries[i], rules[j]);
          case "none" => return Silent;
          case _ => return UnknownAction(action);
        }
      }
    }
    return Silent;
  }

  lemma FirstConflictIsUnique(sdk: Sdk, target: Target, entries: seq<Entry>, seen: seq<seq<Rule>>, i: nat, j: nat)
    requires FirstConflict(sdk, target, entries, seen, i, j)
    ensures forall k: nat, l: nat :: FirstConflict(sdk, target, entries, seen, k, l) ==> k == i && l == j
  {}

  /** A client that carries the rules of the configuration whose actions are installed
      never meets an unknown action. */
  lemma FreshClientHasNoUnknownAction(sdk: Sdk, blocks: seq<Block>, target: Target, entries: seq<Entry>,
                                      seen: seq<seq<Rule>>, i: nat, j: nat)
    requires forall b :: b in blocks ==> b.conflictAction in ACTIONS
    requires Sees(seen, RulesOf(sdk, blocks))
    requires FirstConflict(sdk, target, entries, seen, i, j)
    ensures !Diagnose(sdk, ActionTable(sdk, blocks), entries[i], seen[i][j]).UnknownAction?
  {
    EveryRuleHasAction(sdk, blocks, j);
  }

  /** A client keeps the rules it was built with, while the actions installed are those of
      the latest configuration: the unknown action is met exactly when the first conflicting
      rule prints like none of the blocks of that configuration. */
  lemma StaleClientUnknownActionIff(sdk: Sdk, blocks: seq<Block>, target: Target, entries: seq<Entry>,
                                    seen: seq<seq<Rule>>, i: nat, j: nat)
    requires forall b :: b in blocks ==> b.conflictAction in ACTIONS
    requires FirstConflict(sdk, target, entries, seen, i, j)
    ensures Diagnose(sdk, ActionTable(sdk, blocks), entries[i], seen[i][j]).UnknownAction?
            <==> PrintsLikeNone(sdk, blocks, seen[i][j])
  {
    if b :| b in blocks && sdk.text(RuleOf(sdk, b)) == sdk.text(seen[i][j]) {
      var k :| 0 <= k < |blocks| && blocks[k] == b;
      EveryRuleHasAction(sdk, blocks, k);
    } else {
      TextsOfTable(sdk, blocks);
    }
  }

  predicate PrintsLikeNone(sdk: Sdk, blocks: seq<Block>, r: Rule) {
    forall b :: b in blocks ==> sdk.text(RuleOf(sdk, b)) != sdk.text(r)
  }

  lemma {:induction false} TextsOfTable(sdk: Sdk, blocks: seq<Block>)
    ensures forall t :: t in ActionTable(sdk, blocks) ==> exists b :: b in blocks && sdk.text(RuleOf(sdk, b)) == t
  {
    if blocks != [] {
      var n := |blocks| - 1;
      TextsOfTable(sdk, blocks[..n]);
      assert blocks[n] in blocks;
    }
  }

  function RulesOf(sdk: Sdk, blocks: seq<Block>): (rules: seq<Rule>) {
    seq(|blocks|, i requires 0 <= i < |blocks| => RuleOf(sdk, blocks[i]))
  }

  /** The first entry and block that conflict, of the entries that are not hidden. */
  ghost predicate FirstBlock(sdk: Sdk, target: Target, entries: seq<Entry>, blocks: seq<Block>, hidden: seq<bool>,
                             i: nat, j: nat)
    requires |hidden| == |entries|
  {
    && i < |entries| && !hidden[i] && j < |blocks| && Conflicts(sdk, target, entries[i], RuleOf(sdk, blocks[j]))
    && (forall k, l :: 0 <= k < i && !hidden[k] && 0 <= l < |blocks| ==>
          !Conflicts(sdk, target, entries[k], RuleOf(sdk, blocks[l])))
    && (forall l :: 0 <= l < j ==> !Conflicts(sdk, target, entries[i], RuleOf(sdk, blocks[l])))
  }

  /** There is one whenever anything conflicts. */
  lemma FirstBlockExists(sdk: Sdk, target: Target, entries: seq<Entry>, blocks: seq<Block>, hidden: seq<bool>,
                         k: nat, l: nat)
    requires |hidden| == |entries| && k < |entries| && !hidden[k] && l < |blocks|
    requires Conflicts(sdk, target, entries[k], RuleOf(sdk, blocks[l]))
    ensures exists i: nat, j: nat :: FirstBlock(sdk, target, entries, blocks, hidden, i, j)
    decreases k, l
  {
    if i: nat, j: nat :| i < k && !hidden[i] && j < |blocks|
                         && Conflicts(sdk, target, entries[i], RuleOf(sdk, blocks[j]))
    {
      FirstBlockExists(sdk, target, entries, blocks, hidden, i, j);
    } else if j: nat :| j < l && Conflicts(sdk, target, entries[k], RuleOf(sdk, blocks[j])) {
      FirstBlockExists(sdk, target, entries, blocks, hidden, k, j);
    } else {
      assert FirstBlock(sdk, target, entries, blocks, hidden, k, l);
    }
  }

  /** What the check sees of the rules: nothing for a hidden entry. */
  function SeenRules(rules: seq<Rule>, hidden: seq<bool>): (seen: seq<seq<Rule>>) {
    seq(|hidden|, i requires 0 <= i < |hidden| => if hidden[i] then [] else rules)
  }

  lemma FirstBlockIsFirst(sdk: Sdk, target: Target, entries: seq<Entry>, blocks: seq<Block>, hidden: seq<bool>,
                          i: nat, j: nat)
    requires |hidden| == |entries| && FirstBlock(sdk, target, entries, blocks, hidden, i, j)
    ensures var seen := SeenRules(RulesOf(sdk, blocks), hidden);
            FirstConflict(sdk, target, entries, seen, i, j) && seen[i][j] == RuleOf(sdk, blocks[j])
  {}

  /** The last block that prints like block j. */
  ghost predicate LastAlike(sdk: Sdk, blocks: seq<Block>, j: nat, m: nat) {
    && j < |blocks| && m < |blocks| && sdk.text(RuleOf(sdk, blocks[m])) == sdk.text(RuleOf(sdk, blocks[j]))
    && forall l :: m < l < |blocks| ==> sdk.text(RuleOf(sdk, blocks[l])) != sdk.text(RuleOf(sdk, blocks[m]))
  }

  lemma {:induction false} LastAlikeExists(sdk: Sdk, blocks: seq<Block>, j: nat, k: nat) returns (m: nat)
    requires j < |blocks| && k < |blocks| && sdk.text(RuleOf(sdk, blocks[k])) == sdk.text(RuleOf(sdk, blocks[j]))
    ensures LastAlike(sdk, blocks, j, m)
    decreases |blocks| - k
  {
    if l :| k < l < |blocks| && sdk.text(RuleOf(sdk, blocks[l])) == sdk.text(RuleOf(sdk, blocks[k])) {
      m := LastAlikeExists(sdk, blocks, j, l);
    } else {
      m := k;
    }
  }

  /** What is reported for an entry and a rule is what the action says. */
  predicate Follows(d: Diagnosis, e: Entry, r: Rule, action: string) {
    && (d == ErrorFor(e, r) <==> action == "error")
    && (d == WarningFor(e, r) <==> action == "warn")
    && (d == Silent <==> action == "none")
  }

  lemma FollowsMeans(d: Diagnosis, e: Entry, r: Rule, action: string)
    requires Follows(d, e, r, action)
    ensures (d == ErrorFor(e, r) <==> action == "error") && (d == WarningFor(e, r) <==> action == "warn")
    ensures d == Silent <==> action == "none"
  {}

  /** The provider is configured with the blocks and then checks a resource with its own
      client; `hidden` says for which entries another thread has the filter swapped out. Of
      the first entry and block that conflict, the last block that prints like that one says
      what happens: its action "error" gives an error, "warn" a warning and "none" nothing. */
  method ConfigureThenCheck(sdk: Sdk, blocks: seq<Block>, target: Target, entries: seq<Entry>, hidden: seq<bool>)
    returns (r: Result<Diagnosis>)
    requires |hidden| == |entries|
    ensures r.Err? <==> exists b :: b in blocks && BadBlock(sdk, b)
    ensures r.Ok? && (forall i, j :: 0 <= i < |entries| && !hidden[i] && 0 <= j < |blocks| ==>
                        !Conflicts(sdk, target, entries[i], RuleOf(sdk, blocks[j]))) ==>
              r.value == Silent
    ensures r.Ok? ==>
              forall i: nat, j: nat, m: nat ::
                FirstBlock(sdk, target, entries, blocks, hidden, i, j) && LastAlike(sdk, blocks, j, m) ==>
                  Follows(r.value, entries[i], RuleOf(sdk, blocks[j]), blocks[m].conflictAction)
  {
    var configured := ConfigureIgnoredMetadata(sdk, blocks);
    if configured.Err? {
      return Err;
    }
    var (rules, actions) := configured.value;
    assert rules == RulesOf(sdk, blocks);
    var d := CheckIgnoredMetadataConflicts(sdk, target, entries, SeenRules(rules, hidden), actions);
    hide Conflicts, RuleOf, FirstConflict, FirstBlock, LastAlike, NoConflict, ActionTable, SeenRules, Diagnose, Follows;
    forall i: nat, j: nat, m: nat |
      FirstBlock(sdk, target, entries, blocks, hidden, i, j) && LastAlike(sdk, blocks, j, m)
      ensures Follows(d, entries[i], RuleOf(sdk, blocks[j]), blocks[m].conflictAction)
    {
      FirstBlockIsFirst(sdk, target, entries, blocks, hidden, i, j);
      LastAlikeDecides(sdk, blocks, entries[i], j, m);
    }
    NothingSeenConflicts(sdk, target, entries, blocks, hidden);
    return Ok(d);
  }

  lemma NothingSeenConflicts(sdk: Sdk, target: Target, entries: seq<Entry>, blocks: seq<Block>, hidden: seq<bool>)
    requires |hidden| == |entries|
    ensures NoConflict(sdk, target, entries, SeenRules(RulesOf(sdk, blocks), hidden))
            <==> forall i, j :: 0 <= i < |entries| && !hidden[i] && 0 <= j < |blocks| ==>
                   !Conflicts(sdk, target, entries[i], RuleOf(sdk, blocks[j]))
  {
    var seen := SeenRules(RulesOf(sdk, blocks), hidden);
    hide Conflicts, RuleOf;
    forall i, j | 0 <= i < |entries| && !hidden[i] && 0 <= j < |blocks|
      ensures j < |seen[i]| && seen[i][j] == RuleOf(sdk, blocks[j])
    {
    }
  }

  lemma LastAlikeDecides(sdk: Sdk, blocks: seq<Block>, e: Entry, j: nat, m: nat)
    requires LastAlike(sdk, blocks, j, m)
    ensures var d := Diagnose(sdk, ActionTable(sdk, blocks), e, RuleOf(sdk, blocks[j]));
            && (d == ErrorFor(e, RuleOf(sdk, blocks[j])) <==> blocks[m].conflictAction == "error")
            && (d == WarningFor(e, RuleOf(sdk, blocks[j])) <==> blocks[m].conflictAction == "warn")
            && (d == Silent <==> blocks[m].conflictAction == "none")
            && Follows(d, e, RuleOf(sdk, blocks[j]), blocks[m].conflictAction)
  {
    LastBlockDecides(sdk, blocks, m);
  }

  // --------------------------------------------- clients, tables and the cache

  /** Each caller's configuration carries the rules of its blocks, which are valid. */
  predicate Configured(sdk: Sdk, configs: seq<Config>, blocks: seq<seq<Block>>) {
    && |configs| == |blocks|
    && forall t :: 0 <= t < |configs| ==>
         configs[t].ignoredMetadata == RulesOf(sdk, blocks[t])
         && forall b :: b in blocks[t] ==> b.conflictAction in ACTIONS
  }

  /** A step of the process: a configuration replaces the table of actions, which all
      clients share, by its own, or the cache takes a step. */
  datatype Step = Install(caller: nat) | Cache(action: Action)

  /** What the cache does in a run. */
  function CacheActions(steps: seq<Step>): (actions: seq<Action>) {
    if steps == [] then []
    else (if steps[0].Cache? then [steps[0].action] else []) + CacheActions(steps[1..])
  }

  /** The configuration whose table is installed after the run. */
  function Installed(steps: seq<Step>): Option<nat> {
    if steps == [] then None
    else
      var last := steps[|steps| - 1];
      if last.Install? then Some(last.caller) else Installed(steps[..|steps| - 1])
  }

  /** Every caller installs its table once, before its call of Client begins. */
  ghost predicate InstallsFirst(steps: seq<Step>, callers: nat) {
    && (forall k :: 0 <= k < |steps| && steps[k].Install? ==> steps[k].caller < callers)
    && (forall k, l :: 0 <= k < l < |steps| && steps[k].Install? ==> steps[l] != steps[k])
    && (forall k :: 0 <= k < |steps| && steps[k].Cache? && steps[k].action.Go? ==>
          exists l :: 0 <= l < k && steps[l] == Install(steps[k].action.call))
  }

  ghost predicate ProcessRun(env: Env, configs: seq<Config>, steps: seq<Step>) {
    InstallsFirst(steps, |configs|) && LegalRun(env, Start(configs), CacheActions(steps))
  }

  /** The client a finished call has returned. */
  function ClientOf(phase: Phase): Option<Connection> {
    match phase
    case Served(_, e, _) => Some(e.connection)
    case Fresh(_, connection) => Some(connection)
    case _ => None
  }

  /** After the run a resource is checked with the client of call t while the table of
      caller u is installed, and the first conflict has an unknown action. */
  ghost predicate UnknownActionAfter(env: Env, sdk: Sdk, configs: seq<Config>, blocks: seq<seq<Block>>,
                                     steps: seq<Step>, t: nat, u: nat, target: Target, entries: seq<Entry>,
                                     seen: seq<seq<Rule>>, i: nat, j: nat)
    requires |configs| == |blocks|
  {
    && t < |configs| && u < |configs| && ProcessRun(env, configs, steps) && Installed(steps) == Some(u)
    && var client := ClientOf(Perform(env, Start(configs), CacheActions(steps)).calls[t].phase);
       && client.Some? && Sees(seen, client.value.config.ignoredMetadata)
       && FirstConflict(sdk, target, entries, seen, i, j)
       && Diagnose(sdk, ActionTable(sdk, blocks[u]), entries[i], seen[i][j]).UnknownAction?
  }

  /** Caller t can have a client built for caller o: its own, or one from the cache. */
  ghost predicate CanHaveClientOf(env: Env, configs: seq<Config>, o: nat, t: nat) {
    && o < |configs| && t < |configs|
    && (o == t || (env.cacheEnabled && env.maxValidity >= 0
                   && Checksum(env, configs[o]) == Checksum(env, configs[t])))
  }

  /** Some resource has its first conflict with a rule of a client that t can have, and
      the rule prints like no block of u. */
  ghost predicate OrphanedRule(env: Env, sdk: Sdk, configs: seq<Config>, blocks: seq<seq<Block>>,
                               o: nat, t: nat, u: nat, target: Target, entries: seq<Entry>,
                               seen: seq<seq<Rule>>, i: nat, j: nat)
    requires |configs| == |blocks|
  {
    && CanHaveClientOf(env, configs, o, t) && u < |configs|
    && Sees(seen, RulesOf(sdk, blocks[o])) && FirstConflict(sdk, target, entries, seen, i, j)
    && PrintsLikeNone(sdk, blocks[u], seen[i][j])
  }

  /** An unknown action is met on a rule of a client that the caller can have, when the
      table installed does not know the rule. */
  lemma UnknownActionIsOrphaned(env: Env, sdk: Sdk, configs: seq<Config>, blocks: seq<seq<Block>>,
                                steps: seq<Step>, t: nat, u: nat, target: Target, entries: seq<Entry>,
                                seen: seq<seq<Rule>>, i: nat, j: nat) returns (o: nat)
    requires Configured(sdk, configs, blocks)
    requires UnknownActionAfter(env, sdk, configs, blocks, steps, t, u, target, entries, seen, i, j)
    ensures OrphanedRule(env, sdk, configs, blocks, o, t, u, target, entries, seen, i, j)
  {
    var actions := CacheActions(steps);
    var phase := Perform(env, Start(configs), actions).calls[t].phase;
    StaleClientUnknownActionIff(sdk, blocks[u], target, entries, seen, i, j);
    CacheIsSafe(env, configs, actions, t);
    if phase.Served? {
      ServedConnectionIsACallers(env, configs, actions, t);
      o :| 0 <= o < |configs| && configs[o] == phase.entry.connection.config;
    } else {
      o := t;
    }
  }

  /** Under the caller's own table an unknown action is met only through the cache: by a
      client that was built for another caller with the same checksum. */
  lemma UnknownActionComesFromCache(env: Env, sdk: Sdk, configs: seq<Config>, blocks: seq<seq<Block>>,
                                    steps: seq<Step>, t: nat, target: Target, entries: seq<Entry>,
                                    seen: seq<seq<Rule>>, i: nat, j: nat) returns (o: nat)
    requires Configured(sdk, configs, blocks)
    requires UnknownActionAfter(env, sdk, configs, blocks, steps, t, t, target, entries, seen, i, j)
    ensures env.cacheEnabled && env.maxValidity >= 0 && o != t
    ensures OrphanedRule(env, sdk, configs, blocks, o, t, t, target, entries, seen, i, j)
  {
    o := UnknownActionIsOrphaned(env, sdk, configs, blocks, steps, t, t, target, entries, seen, i, j);
    OrphanIsAnothers(env, sdk, configs, blocks, o, t, t, target, entries, seen, i, j);
  }

  /** A rule of o is never orphaned under the table of o. */
  lemma OrphanIsAnothers(env: Env, sdk: Sdk, configs: seq<Config>, blocks: seq<seq<Block>>,
                         o: nat, t: nat, u: nat, target: Target, entries: seq<Entry>,
                         seen: seq<seq<Rule>>, i: nat, j: nat)
    requires |configs| == |blocks|
    requires OrphanedRule(env, sdk, configs, blocks, o, t, u, target, entries, seen, i, j)
    ensures o != u
  {
    assert blocks[o][j] in blocks[o] && seen[i][j] == RuleOf(sdk, blocks[o][j]);
  }

  // ------------------------------------------------------- runs of the process

  function AsSteps(actions: seq<Action>): (steps: seq<Step>) {
    seq(|actions|, k requires 0 <= k < |actions| => Cache(actions[k]))
  }

  lemma {:induction false} CacheActionsOfSteps(installs: seq<Step>, actions: seq<Action>, last: seq<Step>)
    requires forall k :: 0 <= k < |installs| ==> installs[k].Install?
    requires |last| <= 1 && forall k :: 0 <= k < |last| ==> last[k].Install?
    ensures CacheActions(installs + AsSteps(actions) + last) == actions
    decreases |installs| + |actions|
  {
    var steps := installs + AsSteps(actions) + last;
    if installs != [] {
      assert steps[1..] == installs[1..] + AsSteps(actions) + last;
      CacheActionsOfSteps(installs[1..], actions, last);
    } else if actions != [] {
      assert steps[1..] == installs + AsSteps(actions[1..]) + last;
      CacheActionsOfSteps(installs, actions[1..], last);
    } else {
      assert steps == last;
      assert last != [] ==> last[1..] == [];
    }
  }

  lemma {:induction false} CallsInstallNothing(installs: seq<Step>, actions: seq<Action>)
    ensures Installed(installs + AsSteps(actions)) == Installed(installs)
    decreases |actions|
  {
    var steps := installs + AsSteps(actions);
    if actions == [] {
      assert steps == installs;
    } else {
      var n := |actions| - 1;
      assert steps[..|steps| - 1] == installs + AsSteps(actions[..n]);
      CallsInstallNothing(installs, actions[..n]);
    }
  }

  /** Callers i and j install their tables, make their calls, and the table of u is the last
      one installed. */
  function WholeRun(i: nat, j: nat, u: nat, actions: seq<Action>): (steps: seq<Step>) {
    (if i == j then [Install(i)] else [Install(i), Install(j)]) + AsSteps(actions)
    + (if u == j then [] else [Install(u)])
  }

  lemma WholeRunProjects(i: nat, j: nat, u: nat, actions: seq<Action>)
    ensures CacheActions(WholeRun(i, j, u, actions)) == actions
    ensures Installed(WholeRun(i, j, u, actions)) == Some(u)
  {
    var installs := if i == j then [Install(i)] else [Install(i), Install(j)];
    var last := if u == j then [] else [Install(u)];
    var steps := WholeRun(i, j, u, actions);
    CacheActionsOfSteps(installs, actions, last);
    CallsInstallNothing(installs, actions);
    assert Installed(installs) == Some(j);
    if u != j {
      assert steps[..|steps| - 1] == installs + AsSteps(actions);
    } else {
      assert steps == installs + AsSteps(actions);
    }
  }

  lemma WholeRunInstallsFirst(callers: nat, i: nat, j: nat, u: nat, actions: seq<Action>)
    requires i < callers && j < callers && u < callers && u != i
    requires forall a :: a in actions ==> a == Go(i) || a == Go(j)
    ensures InstallsFirst(WholeRun(i, j, u, actions), callers)
  {
    var installs := if i == j then [Install(i)] else [Install(i), Install(j)];
    var steps := WholeRun(i, j, u, actions);
    assert steps[0] == Install(i) && (i != j ==> steps[1] == Install(j));
    forall k | |installs| <= k < |installs| + |actions|
      ensures steps[k] == Cache(Go(i)) || steps[k] == Cache(Go(j))
    {
      assert steps[k].action == actions[k - |installs|] && actions[k - |installs|] in actions;
    }
  }

  /** Any client that t can have meets the table of any caller other than the one it was
      built for. */
  lemma ClientMeetsTable(env: Env, configs: seq<Config>, o: nat, t: nat, u: nat) returns (steps: seq<Step>)
    requires CanHaveClientOf(env, configs, o, t) && u < |configs| && u != o
    ensures ProcessRun(env, configs, steps) && Installed(steps) == Some(u)
    ensures var client := ClientOf(Perform(env, Start(configs), CacheActions(steps)).calls[t].phase);
            client.Some? && client.value.config == configs[o]
  {
    var actions;
    if o == t {
      actions := ColdCall(env, Start(configs), t);
    } else {
      actions := ShareConnection(env, configs, o, t);
    }
    steps := WholeRun(o, t, u, actions);
    WholeRunProjects(o, t, u, actions);
    WholeRunInstallsFirst(|configs|, o, t, u, actions);
  }

  /** Every orphaned rule is met in some run. */
  lemma OrphanedRuleIsMet(env: Env, sdk: Sdk, configs: seq<Config>, blocks: seq<seq<Block>>,
                          o: nat, t: nat, u: nat, target: Target, entries: seq<Entry>,
                          seen: seq<seq<Rule>>, i: nat, j: nat)
    returns (steps: seq<Step>)
    requires Configured(sdk, configs, blocks)
    requires OrphanedRule(env, sdk, configs, blocks, o, t, u, target, entries, seen, i, j)
    ensures UnknownActionAfter(env, sdk, configs, blocks, steps, t, u, target, entries, seen, i, j)
  {
    OrphanIsAnothers(env, sdk, configs, blocks, o, t, u, target, entries, seen, i, j);
    steps := ClientMeetsTable(env, configs, o, t, u);
    StaleClientUnknownActionIff(sdk, blocks[u], target, entries, seen, i, j);
  }

  /** The unknown-action branch is reachable, for the client of call t under the table of u,
      exactly when a conflicting rule of a client that t can have prints like no block of u.
      There are two ways in: the table was replaced after the client was built (u is not t),
      or the client comes from the cache and was built for another caller. */
  lemma UnknownActionReachableIff(env: Env, sdk: Sdk, configs: seq<Config>, blocks: seq<seq<Block>>,
                                  t: nat, u: nat, target: Target, entries: seq<Entry>,
                                  seen: seq<seq<Rule>>, i: nat, j: nat)
    requires Configured(sdk, configs, blocks)
    ensures (exists steps ::
               UnknownActionAfter(env, sdk, configs, blocks, steps, t, u, target, entries, seen, i, j))
            <==> exists o: nat :: OrphanedRule(env, sdk, configs, blocks, o, t, u, target, entries, seen, i, j)
  {
    if steps :| UnknownActionAfter(env, sdk, configs, blocks, steps, t, u, target, entries, seen, i, j) {
      var o := UnknownActionIsOrphaned(env, sdk, configs, blocks, steps, t, u, target, entries, seen, i, j);
    }
    if o: nat :| OrphanedRule(env, sdk, configs, blocks, o, t, u, target, entries, seen, i, j) {
      var steps := OrphanedRuleIsMet(env, sdk, configs, blocks, o, t, u, target, entries, seen, i, j);
    }
  }

  /** A second configuration that differs from the first in its rules only is served the
      client that has the first ones. */
  lemma CachedClientKeepsOldRules(env: Env, c: Config, rules: seq<Rule>) returns (actions: seq<Action>)
    requires env.cacheEnabled && env.maxValidity >= 0 && rules != c.ignoredMetadata
    ensures LegalRun(env, Start([c, c.(ignoredMetadata := rules)]), actions)
    ensures var call := Perform(env, Start([c, c.(ignoredMetadata := rules)]), actions).calls[1];
            && call.phase.Served? && call.config.ignoredMetadata == rules
            && call.phase.entry.connection.config.ignoredMetadata == c.ignoredMetadata
  {
    actions := SameKeySharesConnection(env, c, c.(ignoredMetadata := rules));
    CacheIsSafe(env, [c, c.(ignoredMetadata := rules)], actions, 1);
  }

  /** An SDK in which a pattern matches its own text and a rule prints as its key pattern. */
  const LITERAL_SDK := Sdk(
    p => true, (p, s) => p == s, (r: Rule) => if r.keyRegex.Some? then r.keyRegex.value else "", map[])

  function PatternBlock(pattern: string): Block {
    Block("", "", pattern, "", "warn")
  }

  function WithPattern(c: Config, pattern: string): Config {
    c.(ignoredMetadata := RulesOf(LITERAL_SDK, [PatternBlock(pattern)]))
  }

  /** For example: the key pattern "a" is replaced by "b", and a resource has an entry "a".
      The first caller's own client meets the unknown action under the second one's table,
      cache or not; with the cache so does the second caller's client under its own table. */
  lemma ReplacedPatternMeetsUnknownAction(env: Env, c: Config, t: nat) returns (steps: seq<Step>)
    requires t == 0 || (t == 1 && env.cacheEnabled && env.maxValidity >= 0)
    ensures var blocks := [[PatternBlock("a")], [PatternBlock("b")]];
            UnknownActionAfter(env, LITERAL_SDK, [WithPattern(c, "a"), WithPattern(c, "b")], blocks, steps, t, 1,
                               Target("vcd_vm", "vm"), [Entry.Entry("a", "1")],
                               [RulesOf(LITERAL_SDK, blocks[0])], 0, 0)
  {
    var blocks := [[PatternBlock("a")], [PatternBlock("b")]];
    var configs := [WithPattern(c, "a"), WithPattern(c, "b")];
    var target, entries, seen := Target("vcd_vm", "vm"), [Entry.Entry("a", "1")], [RulesOf(LITERAL_SDK, blocks[0])];
    assert seen[0][0] == Rule(None, None, Some("a"), None);
    assert FirstConflict(LITERAL_SDK, target, entries, seen, 0, 0);
    assert OrphanedRule(env, LITERAL_SDK, configs, blocks, 0, t, 1, target, entries, seen, 0, 0);
    steps := OrphanedRuleIsMet(env, LITERAL_SDK, configs, blocks, 0, t, 1, target, entries, seen, 0, 0);
  }
}
