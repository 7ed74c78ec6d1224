/** Config.Client and cacheStorage.reset (vcd/config.go): the cache of authenticated
    connections, with every critical section of every call as a separate step. */
module ConnectionCache {
  import opened Options
  import opened Text

  /** A rule of the client's metadata filter; a pattern is kept as the text it was compiled
      from. */
  datatype Rule = Rule(
    objectType: Option<string>, objectName: Option<string>,
    keyRegex: Option<string>, valueRegex: Option<string>)

  /** The first nine fields make up the cache key; the others do not take part in it. */
  datatype Config = Config(
    user: string, password: string, token: string, apiToken: string, apiTokenFile: string,
    serviceAccountTokenFile: string, sysOrg: string, vdc: string, href: string,
    org: string, insecureFlag: bool, maxRetryTimeout: int, useSamlAdfs: bool,
    customAdfsRptId: string, ignoredMetadata: seq<Rule>)

  /** An authenticated client: the configuration it was built from, and its number. */
  datatype Connection = Connection(config: Config, number: nat)

  /** A cached connection. The last three fields are history: the checksum it was stored
      under and how many resets had happened when it was stored and authenticated. */
  datatype Entry = Entry(
    initTime: int, connection: Connection,
    storedUnder: string, storedEpoch: nat, authEpoch: nat)

  /** Where a call of Client stands; `since` is the number of resets before it began. */
  datatype Phase =
    | NotCalled
    | Begun(since: nat)
    | Found(since: nat, entry: Entry)
    | Counted(since: nat, entry: Entry)
    | Stale(since: nat)
    | Connecting(since: nat)
    | Authenticated(since: nat, connection: Connection, authEpoch: nat)
    | Served(since: nat, entry: Entry, checkedAt: int)   // returned from the cache
    | Fresh(since: nat, connection: Connection)          // returned a new connection
    | Failed                                             // returned an error

  datatype Call = Call(config: Config, phase: Phase)

  datatype State = State(
    conMap: map<string, Entry>,
    servedCount: nat,
    clock: int,
    epoch: nat,      // resets so far
    made: nat,       // connections so far
    calls: seq<Call>)

  datatype Env = Env(hash: string -> string, cacheEnabled: bool, maxValidity: int)

  datatype Action =
    | Go(call: nat)       // the next step of a call
    | Fail(call: nat)     // its URL does not parse, or it cannot authenticate
    | Reset
    | Tick(elapsed: nat)

  function KeyFields(c: Config): (fields: seq<string>) {
    [c.user, c.password, c.token, c.apiToken, c.apiTokenFile,
     c.serviceAccountTokenFile, c.sysOrg, c.vdc, c.href]
  }

  function RawData(c: Config): string {
    Join(KeyFields(c), "#")
  }

  function Checksum(env: Env, c: Config): string {
    env.hash(RawData(c))
  }

  predicate Legal(s: State, a: Action) {
    match a
    case Go(t) => t < |s.calls| && !(s.calls[t].phase.Served? || s.calls[t].phase.Fresh? || s.calls[t].phase.Failed?)
    case Fail(t) => t < |s.calls| && s.calls[t].phase.Connecting?
    case _ => true
  }

  function InPhase(s: State, t: nat, phase: Phase): State
    requires t < |s.calls|
  {
    s.(calls := s.calls[t := s.calls[t].(phase := phase)])
  }

  function Do(env: Env, s: State, a: Action): (s': State)
    requires Legal(s, a)
    ensures |s'.calls| == |s.calls|
  {
    match a
    case Reset => s.(conMap := map[], servedCount := 0, epoch := s.epoch + 1)
    case Tick(d) => s.(clock := s.clock + d)
    case Fail(t) => InPhase(s, t, Failed)
    case Go(t) =>
      var key := Checksum(env, s.calls[t].config);
      match s.calls[t].phase
      case NotCalled => InPhase(s, t, Begun(s.epoch))
      case Begun(since) =>
        if key in s.conMap && env.cacheEnabled then InPhase(s, t, Found(since, s.conMap[key]))
        else InPhase(s, t, Connecting(since))
      case Found(since, entry) =>
        InPhase(s, t, Counted(since, entry)).(servedCount := s.servedCount + 1)
      case Counted(since, entry) =>
        if s.clock - entry.initTime > env.maxValidity then InPhase(s, t, Stale(since))
        else InPhase(s, t, Served(since, entry, s.clock))
      case Stale(since) => InPhase(s, t, Connecting(since)).(conMap := s.conMap - {key})
      case Connecting(since) =>
        InPhase(s, t, Authenticated(since, Connection(s.calls[t].config, s.made), s.epoch)).(made := s.made + 1)
      case Authenticated(since, connection, authEpoch) =>
        InPhase(s, t, Fresh(since, connection)).(
          conMap := s.conMap[key := Entry(s.clock, connection, key, s.epoch, authEpoch)])
      case _ => s
  }

  predicate LegalRun(env: Env, s: State, actions: seq<Action>)
    decreases |actions|
  {
    actions == [] || (Legal(s, actions[0]) && LegalRun(env, Do(env, s, actions[0]), actions[1..]))
  }

  function Perform(env: Env, s: State, actions: seq<Action>): (s': State)
    requires LegalRun(env, s, actions)
    ensures |s'.calls| == |s.calls|
    decreases |actions|
  {
    if actions == [] then s else Perform(env, Do(env, s, actions[0]), actions[1..])
  }

  function Start(configs: seq<Config>): State {
    State(map[], 0, 0, 0, 0, seq(|configs|, i requires 0 <= i < |configs| => Call(configs[i], NotCalled)))
  }

  // -------------------------------------------------------------- invariant

  /** An entry as it may sit in the map, or in a call that has just looked it up. */
  predicate GoodEntry(env: Env, s: State, key: string, e: Entry) {
    && e.storedUnder == key == Checksum(env, e.connection.config)
    && e.initTime <= s.clock
    && e.authEpoch <= e.storedEpoch <= s.epoch
    && e.connection.number < s.made
  }

  predicate GoodCall(env: Env, s: State, c: Call) {
    var key := Checksum(env, c.config);
    match c.phase
    case Begun(since) => since <= s.epoch
    case Found(since, e) => GoodEntry(env, s, key, e) && since <= e.storedEpoch
    case Counted(since, e) => GoodEntry(env, s, key, e) && since <= e.storedEpoch
    case Served(since, e, at) =>
      GoodEntry(env, s, key, e) && since <= e.storedEpoch && 0 <= at - e.initTime <= env.maxValidity
    case Authenticated(since, connection, authEpoch) =>
      connection.config == c.config && connection.number < s.made && since <= authEpoch <= s.epoch
    case Fresh(since, connection) => connection.config == c.config && connection.number < s.made
    case Stale(since) => since <= s.epoch
    case Connecting(since) => since <= s.epoch
    case _ => true
  }

  predicate Inv(env: Env, s: State) {
    && (forall k :: k in s.conMap ==> GoodEntry(env, s, k, s.conMap[k]) && s.conMap[k].storedEpoch == s.epoch)
    && (forall t :: 0 <= t < |s.calls| ==> GoodCall(env, s, s.calls[t]))
  }

  lemma GoodCallPersists(env: Env, s: State, s': State, c: Call)
    requires GoodCall(env, s, c)
    requires s.clock <= s'.clock && s.epoch <= s'.epoch && s.made <= s'.made
    ensures GoodCall(env, s', c)
  {}

  lemma MovingCallIsGood(env: Env, s: State, t: nat)
    requires Inv(env, s) && Legal(s, Go(t))
    ensures GoodCall(env, Do(env, s, Go(t)), Do(env, s, Go(t)).calls[t])
  {
    assert GoodCall(env, s, s.calls[t]);
  }

  lemma MapStaysGood(env: Env, s: State, a: Action)
    requires Inv(env, s) && Legal(s, a)
    ensures var s' := Do(env, s, a);
            forall k :: k in s'.conMap ==> GoodEntry(env, s', k, s'.conMap[k]) && s'.conMap[k].storedEpoch == s'.epoch
  {
    if a.Go? {
      assert GoodCall(env, s, s.calls[a.call]);
    }
  }

  lemma DoKeepsInv(env: Env, s: State, a: Action)
    requires Inv(env, s) && Legal(s, a)
    ensures Inv(env, Do(env, s, a))
    ensures forall t :: 0 <= t < |s.calls| ==> Do(env, s, a).calls[t].config == s.calls[t].config
  {
    var s' := Do(env, s, a);
    MapStaysGood(env, s, a);
    CountersGrow(env, s, a);
    if a.Go? {
      MovingCallIsGood(env, s, a.call);
    }
    hide Do, GoodEntry, GoodCall;
    forall t | 0 <= t < |s'.calls| ensures GoodCall(env, s', s'.calls[t]) {
      if a != Go(t) && a != Fail(t) {
        GoodCallPersists(env, s, s', s.calls[t]);
      }
    }
  }

  /** Time, resets and connections only grow, and only the call that moves changes. */
  lemma CountersGrow(env: Env, s: State, a: Action)
    requires Legal(s, a)
    ensures var s' := Do(env, s, a);
            && s.clock <= s'.clock && s.epoch <= s'.epoch && s.made <= s'.made
            && (forall t :: 0 <= t < |s.calls| ==> s'.calls[t].config == s.calls[t].config)
            && (forall t :: 0 <= t < |s.calls| && a != Go(t) && a != Fail(t) ==> s'.calls[t] == s.calls[t])
            && (a.Fail? ==> GoodCall(env, s', s'.calls[a.call]))
  {}

  lemma {:induction false} PerformKeepsInv(env: Env, s: State, actions: seq<Action>)
    requires Inv(env, s) && LegalRun(env, s, actions)
    ensures Inv(env, Perform(env, s, actions))
    ensures forall t :: 0 <= t < |s.calls| ==> Perform(env, s, actions).calls[t].config == s.calls[t].config
    decreases |actions|
  {
    if actions != [] {
      DoKeepsInv(env, s, actions[0]);
      PerformKeepsInv(env, Do(env, s, actions[0]), actions[1..]);
    }
  }

  // ------------------------------------------------------------ main results

  /** Cache safety over all interleavings of any number of calls, resets and clock
      ticks: a connection served from the cache was stored under the caller's checksum,
      was not too old when checked, and was stored after every reset that preceded the
      call; a connection that was not served from the cache is the caller's own. */
  lemma CacheIsSafe(env: Env, configs: seq<Config>, actions: seq<Action>, t: nat)
    requires t < |configs| && LegalRun(env, Start(configs), actions)
    ensures var call := Perform(env, Start(configs), actions).calls[t];
            && call.config == configs[t]
            && (call.phase.Served? ==>
                  var e := call.phase.entry;
                  && e.storedUnder == Checksum(env, configs[t])
                  && Checksum(env, e.connection.config) == Checksum(env, configs[t])
                  && 0 <= call.phase.checkedAt - e.initTime <= env.maxValidity
                  && call.phase.since <= e.storedEpoch)
            && (call.phase.Fresh? ==> call.phase.connection.config == configs[t])
  {
    PerformKeepsInv(env, Start(configs), actions);
    var s := Perform(env, Start(configs), actions);
    assert GoodCall(env, s, s.calls[t]);
  }

  // ------------------------------------------------- where a connection comes from

  function EntryOf(phase: Phase): Option<Entry> {
    match phase
    case Found(_, e) => Some(e)
    case Counted(_, e) => Some(e)
    case Served(_, e, _) => Some(e)
    case _ => None
  }

  predicate TracedCall(env: Env, configs: seq<Config>, c: Call) {
    && (EntryOf(c.phase).Some? ==> env.cacheEnabled && EntryOf(c.phase).value.connection.config in configs)
    && (c.phase.Authenticated? ==> c.phase.connection.config in configs)
  }

  /** Every connection was built for one of the callers. */
  predicate Traced(env: Env, configs: seq<Config>, s: State) {
    && |s.calls| == |configs|
    && (forall k :: k in s.conMap ==> s.conMap[k].connection.config in configs)
    && (forall t :: 0 <= t < |s.calls| ==> s.calls[t].config == configs[t] && TracedCall(env, configs, s.calls[t]))
  }

  lemma MovingCallIsTraced(env: Env, configs: seq<Config>, s: State, t: nat)
    requires Traced(env, configs, s) && Legal(s, Go(t))
    ensures var s' := Do(env, s, Go(t));
            && TracedCall(env, configs, s'.calls[t]) && s'.calls[t].config == configs[t]
            && forall k :: k in s'.conMap ==> s'.conMap[k].connection.config in configs
  {
    assert TracedCall(env, configs, s.calls[t]);
    assert configs[t] in configs;
  }

  lemma DoKeepsTraced(env: Env, configs: seq<Config>, s: State, a: Action)
    requires Traced(env, configs, s) && Legal(s, a)
    ensures Traced(env, configs, Do(env, s, a))
  {
    if a.Go? {
      MovingCallIsTraced(env, configs, s, a.call);
      forall t | 0 <= t < |s.calls| && t != a.call ensures Do(env, s, a).calls[t] == s.calls[t] {}
    }
  }

  lemma {:induction false} PerformKeepsTraced(env: Env, configs: seq<Config>, s: State, actions: seq<Action>)
    requires Traced(env, configs, s) && LegalRun(env, s, actions)
    ensures Traced(env, configs, Perform(env, s, actions))
    decreases |actions|
  {
    if actions != [] {
      DoKeepsTraced(env, configs, s, actions[0]);
      PerformKeepsTraced(env, configs, Do(env, s, actions[0]), actions[1..]);
    }
  }

  /** A served connection was built for a caller with the same checksum, in a process that
      has the cache switched on. */
  lemma ServedConnectionIsACallers(env: Env, configs: seq<Config>, actions: seq<Action>, t: nat)
    requires t < |configs| && LegalRun(env, Start(configs), actions)
    requires Perform(env, Start(configs), actions).calls[t].phase.Served?
    ensures env.cacheEnabled && env.maxValidity >= 0
    ensures var other := Perform(env, Start(configs), actions).calls[t].phase.entry.connection.config;
            other in configs && Checksum(env, other) == Checksum(env, configs[t])
  {
    PerformKeepsTraced(env, configs, Start(configs), actions);
    CacheIsSafe(env, configs, actions, t);
  }

  /** One served connection, caller by caller: it has the caller's nine keyed fields exactly
      when the caller it was built for has equally many '#' in each of them. */
  lemma ServedAgreesIff(env: Env, configs: seq<Config>, actions: seq<Action>, t: nat)
    requires forall x, y :: env.hash(x) == env.hash(y) ==> x == y
    requires t < |configs| && LegalRun(env, Start(configs), actions)
    requires Perform(env, Start(configs), actions).calls[t].phase.Served?
    ensures var other := Perform(env, Start(configs), actions).calls[t].phase.entry.connection.config;
            && other in configs
            && (KeyFields(other) == KeyFields(configs[t])
                <==> forall i :: 0 <= i < 9 ==>
                       Count(KeyFields(other)[i], '#') == Count(KeyFields(configs[t])[i], '#'))
  {
    ServedConnectionIsACallers(env, configs, actions, t);
    var other := Perform(env, Start(configs), actions).calls[t].phase.entry.connection.config;
    JoinInjectiveIff(KeyFields(other), KeyFields(configs[t]), '#');
  }

  /** Whatever runs, a call that is served gets a connection that agrees with its own
      configuration on `view`. */
  ghost predicate AllServedAgree<T(!new)>(env: Env, configs: seq<Config>, view: Config -> T) {
    forall actions: seq<Action>, t: nat ::
      t < |configs| && LegalRun(env, Start(configs), actions)
      && Perform(env, Start(configs), actions).calls[t].phase.Served? ==>
        view(Perform(env, Start(configs), actions).calls[t].phase.entry.connection.config) == view(configs[t])
  }

  /** Callers with the same checksum agree on `view`. */
  predicate ChecksumFixes<T(==)>(env: Env, configs: seq<Config>, view: Config -> T) {
    forall i, j :: 0 <= i < |configs| && 0 <= j < |configs| ==>
      Checksum(env, configs[i]) == Checksum(env, configs[j]) ==> view(configs[i]) == view(configs[j])
  }

  /** Two callers with one checksum: a run in which the second gets the first's connection. */
  lemma ShareConnection(env: Env, configs: seq<Config>, i: nat, j: nat) returns (actions: seq<Action>)
    requires env.cacheEnabled && env.maxValidity >= 0 && i < |configs| && j < |configs| && i != j
    requires Checksum(env, configs[i]) == Checksum(env, configs[j])
    ensures LegalRun(env, Start(configs), actions)
    ensures var phase := Perform(env, Start(configs), actions).calls[j].phase;
            phase.Served? && phase.entry.connection.config == configs[i]
    ensures forall a :: a in actions ==> a == Go(i) || a == Go(j)
  {
    var s := Start(configs);
    var cold := ColdCall(env, s, i);
    var warm := WarmCall(env, Perform(env, s, cold), j);
    RunConcat(env, s, cold, warm);
    actions := cold + warm;
  }

  /** Cache transparency, for any part of the configuration: over all runs every served
      connection agrees with the caller's own configuration on it if and only if nothing is
      ever served, or callers with the same checksum agree on it. */
  lemma ServedAgreeIff<T(!new)>(env: Env, configs: seq<Config>, view: Config -> T)
    ensures AllServedAgree(env, configs, view)
            <==> !env.cacheEnabled || env.maxValidity < 0 || ChecksumFixes(env, configs, view)
  {
    if env.cacheEnabled && env.maxValidity >= 0 && AllServedAgree(env, configs, view) {
      forall i: nat, j: nat | i < |configs| && j < |configs| && Checksum(env, configs[i]) == Checksum(env, configs[j])
        ensures view(configs[i]) == view(configs[j])
      {
        if i != j {
          var actions := ShareConnection(env, configs, i, j);
        }
      }
    }
    if !env.cacheEnabled || env.maxValidity < 0 || ChecksumFixes(env, configs, view) {
      forall actions: seq<Action>, t: nat |
        t < |configs| && LegalRun(env, Start(configs), actions)
        && Perform(env, Start(configs), actions).calls[t].phase.Served?
        ensures view(Perform(env, Start(configs), actions).calls[t].phase.entry.connection.config) == view(configs[t])
      {
        ServedConnectionIsACallers(env, configs, actions, t);
        var other := Perform(env, Start(configs), actions).calls[t].phase.entry.connection.config;
        var i :| 0 <= i < |configs| && configs[i] == other;
      }
    }
  }

  /** Under a collision-free hash a served client is always the caller's own in every
      respect exactly when callers with the same key text have the same configuration: the
      fields the key leaves out must not differ, and the joined ones must not collide. */
  lemma TransparentIff(env: Env, configs: seq<Config>)
    requires forall x, y :: env.hash(x) == env.hash(y) ==> x == y
    requires env.cacheEnabled && env.maxValidity >= 0
    ensures AllServedAgree(env, configs, (c: Config) => c)
            <==> forall i, j :: 0 <= i < |configs| && 0 <= j < |configs| ==>
                   RawData(configs[i]) == RawData(configs[j]) ==> configs[i] == configs[j]
  {
    ServedAgreeIff(env, configs, (c: Config) => c);
  }

  /** The default organization in particular, which decides where a client's operations go. */
  lemma OrgAgreesIff(env: Env, configs: seq<Config>)
    requires forall x, y :: env.hash(x) == env.hash(y) ==> x == y
    requires env.cacheEnabled && env.maxValidity >= 0
    ensures AllServedAgree(env, configs, (c: Config) => c.org)
            <==> forall i, j :: 0 <= i < |configs| && 0 <= j < |configs| ==>
                   RawData(configs[i]) == RawData(configs[j]) ==> configs[i].org == configs[j].org
  {
    ServedAgreeIff(env, configs, (c: Config) => c.org);
  }

  /** The nine keyed fields agree exactly when callers with the same key text have equally
      many '#' in each of them. */
  lemma KeyedFieldsAgreeIff(env: Env, configs: seq<Config>)
    requires forall x, y :: env.hash(x) == env.hash(y) ==> x == y
    requires env.cacheEnabled && env.maxValidity >= 0
    ensures AllServedAgree(env, configs, KeyFields)
            <==> forall i, j, f :: 0 <= i < |configs| && 0 <= j < |configs| && 0 <= f < 9 ==>
                   RawData(configs[i]) == RawData(configs[j]) ==>
                     Count(KeyFields(configs[i])[f], '#') == Count(KeyFields(configs[j])[f], '#')
  {
    ServedAgreeIff(env, configs, KeyFields);
    forall i, j | 0 <= i < |configs| && 0 <= j < |configs| && RawData(configs[i]) == RawData(configs[j])
      ensures KeyFields(configs[i]) == KeyFields(configs[j])
              <==> forall f :: 0 <= f < 9 ==>
                     Count(KeyFields(configs[i])[f], '#') == Count(KeyFields(configs[j])[f], '#')
    {
      JoinInjectiveIff(KeyFields(configs[i]), KeyFields(configs[j]), '#');
    }
  }

  /** So they always agree when no caller has a '#' in a keyed field. */
  lemma KeyedFieldsAgree(env: Env, configs: seq<Config>)
    requires forall x, y :: env.hash(x) == env.hash(y) ==> x == y
    requires forall i, f :: 0 <= i < |configs| && 0 <= f < 9 ==> '#' !in KeyFields(configs[i])[f]
    ensures AllServedAgree(env, configs, KeyFields)
  {
    forall i, f | 0 <= i < |configs| && 0 <= f < 9 ensures Count(KeyFields(configs[i])[f], '#') == 0 {
      CountAbsent(KeyFields(configs[i])[f], '#');
    }
    if env.cacheEnabled && env.maxValidity >= 0 {
      KeyedFieldsAgreeIff(env, configs);
    } else {
      ServedAgreeIff(env, configs, KeyFields);
    }
  }

  // ------------------------------------------- the same law, field by field

  /** The caller has no '#' in any of the fields that identify a connection. */
  predicate NoSeparator(c: Config) {
    && '#' !in c.user && '#' !in c.password && '#' !in c.token
    && '#' !in c.apiToken && '#' !in c.apiTokenFile && '#' !in c.serviceAccountTokenFile
    && '#' !in c.sysOrg && '#' !in c.vdc && '#' !in c.href
  }

  lemma KeyFieldsWithoutSeparator(c: Config)
    requires NoSeparator(c)
    ensures forall f :: 0 <= f < 9 ==> '#' !in KeyFields(c)[f]
  {}

  /** A connection from the cache has the caller's own credentials, system organization, VDC
      and server, over all runs, when no caller has a '#' in them. */
  lemma ServedToItsOwner(env: Env, configs: seq<Config>, actions: seq<Action>, t: nat)
    requires forall x, y :: env.hash(x) == env.hash(y) ==> x == y
    requires forall i :: 0 <= i < |configs| ==> NoSeparator(configs[i])
    requires t < |configs| && LegalRun(env, Start(configs), actions)
    requires Perform(env, Start(configs), actions).calls[t].phase.Served?
    ensures var other := Perform(env, Start(configs), actions).calls[t].phase.entry.connection.config;
            && other.user == configs[t].user
            && other.password == configs[t].password
            && other.token == configs[t].token
            && other.apiToken == configs[t].apiToken
            && other.apiTokenFile == configs[t].apiTokenFile
            && other.serviceAccountTokenFile == configs[t].serviceAccountTokenFile
            && other.sysOrg == configs[t].sysOrg
            && other.vdc == configs[t].vdc
            && other.href == configs[t].href
  {
    var other := Perform(env, Start(configs), actions).calls[t].phase.entry.connection.config;
    forall i, f | 0 <= i < |configs| && 0 <= f < 9 ensures '#' !in KeyFields(configs[i])[f] {
      KeyFieldsWithoutSeparator(configs[i]);
    }
    KeyedFieldsAgree(env, configs);
    assert KeyFields(other) == KeyFields(configs[t]);
    var mine, theirs := KeyFields(configs[t]), KeyFields(other);
    assert forall f :: 0 <= f < 9 ==> mine[f] == theirs[f];
    assert mine[0] == theirs[0] && mine[1] == theirs[1] && mine[2] == theirs[2];
    assert mine[3] == theirs[3] && mine[4] == theirs[4] && mine[5] == theirs[5];
    assert mine[6] == theirs[6] && mine[7] == theirs[7] && mine[8] == theirs[8];
  }

  /** And those fields are all that counts: a caller that agrees on them gets the first
      one's connection in some run, whatever its organization, its TLS, SAML and timeout
      settings and its rules are. */
  lemma OtherFieldsAreIgnored(env: Env, first: Config, second: Config) returns (actions: seq<Action>)
    requires env.cacheEnabled && env.maxValidity >= 0
    requires first.user == second.user && first.password == second.password && first.token == second.token
    requires first.apiToken == second.apiToken && first.apiTokenFile == second.apiTokenFile
    requires first.serviceAccountTokenFile == second.serviceAccountTokenFile && first.sysOrg == second.sysOrg
    requires first.vdc == second.vdc && first.href == second.href
    ensures LegalRun(env, Start([first, second]), actions)
    ensures var phase := Perform(env, Start([first, second]), actions).calls[1].phase;
            phase.Served? && phase.entry.connection.config == first
  {
    assert KeyFields(first) == KeyFields(second);
    actions := SameKeySharesConnection(env, first, second);
  }

  /** What a step leaves of the cache: an outdated connection is evicted under the caller's
      own checksum, a new one is stored there with the time of day, a reset empties the
      cache and its counter, and a failed call leaves the cache alone. */
  lemma StepsOnTheCache(env: Env, s: State, t: nat)
    requires t < |s.calls|
    ensures var key := Checksum(env, s.calls[t].config);
            && (s.calls[t].phase.Stale? ==>
                  Legal(s, Go(t)) && key !in Do(env, s, Go(t)).conMap
                  && forall k :: k in s.conMap && k != key ==> k in Do(env, s, Go(t)).conMap)
            && (s.calls[t].phase.Authenticated? ==>
                  && Legal(s, Go(t)) && key in Do(env, s, Go(t)).conMap
                  && Do(env, s, Go(t)).conMap[key].initTime == s.clock
                  && Do(env, s, Go(t)).conMap[key].connection == s.calls[t].phase.connection)
            && (s.calls[t].phase.Connecting? ==>
                  Legal(s, Fail(t)) && Do(env, s, Fail(t)).conMap == s.conMap
                  && Do(env, s, Fail(t)).calls[t].phase == Failed)
            && (s.calls[t].phase.Found? ==>
                  Legal(s, Go(t)) && Do(env, s, Go(t)).servedCount == s.servedCount + 1)
    ensures Do(env, s, Reset).conMap == map[] && Do(env, s, Reset).servedCount == 0
    ensures Start([]).conMap == map[] && Start([]).servedCount == 0
  {}

  // -------------------------------------------------- authentication and resets

  /** No reset falls between the authentication of a call and the storing of its
      connection. */
  predicate StoresUndisturbed(env: Env, s: State, actions: seq<Action>)
    requires LegalRun(env, s, actions)
    decreases |actions|
  {
    actions == [] || (
      && (actions[0].Reset? ==> forall t :: 0 <= t < |s.calls| ==> !s.calls[t].phase.Authenticated?)
      && StoresUndisturbed(env, Do(env, s, actions[0]), actions[1..]))
  }

  /** What is stored, or about to be, was authenticated since the last reset. */
  predicate FreshlyAuthenticated(s: State) {
    && (forall k :: k in s.conMap ==> s.conMap[k].authEpoch == s.conMap[k].storedEpoch)
    && (forall t :: 0 <= t < |s.calls| ==>
          && (EntryOf(s.calls[t].phase).Some? ==>
                EntryOf(s.calls[t].phase).value.authEpoch == EntryOf(s.calls[t].phase).value.storedEpoch)
          && (s.calls[t].phase.Authenticated? ==> s.calls[t].phase.authEpoch == s.epoch))
  }

  lemma DoKeepsFresh(env: Env, s: State, a: Action)
    requires FreshlyAuthenticated(s) && Legal(s, a)
    requires a.Reset? ==> forall t :: 0 <= t < |s.calls| ==> !s.calls[t].phase.Authenticated?
    ensures FreshlyAuthenticated(Do(env, s, a))
  {}

  lemma {:induction false} PerformKeepsFresh(env: Env, s: State, actions: seq<Action>)
    requires FreshlyAuthenticated(s) && LegalRun(env, s, actions) && StoresUndisturbed(env, s, actions)
    ensures FreshlyAuthenticated(Perform(env, s, actions))
    decreases |actions|
  {
    if actions != [] {
      DoKeepsFresh(env, s, actions[0]);
      PerformKeepsFresh(env, Do(env, s, actions[0]), actions[1..]);
    }
  }

  /** When no reset disturbs a store, every served connection was authenticated after every
      reset that preceded the call. */
  lemma ServedIsAuthenticatedSince(env: Env, configs: seq<Config>, actions: seq<Action>, t: nat)
    requires t < |configs| && LegalRun(env, Start(configs), actions)
    requires StoresUndisturbed(env, Start(configs), actions)
    ensures var phase := Perform(env, Start(configs), actions).calls[t].phase;
            phase.Served? ==> phase.since <= phase.entry.authEpoch == phase.entry.storedEpoch
  {
    PerformKeepsFresh(env, Start(configs), actions);
    CacheIsSafe(env, configs, actions, t);
  }

  /** And only then: from any state in which a reset has overtaken a call that is about to
      store, a caller with the same checksum that begins now can be served that connection,
      authenticated before the reset. */
  lemma OvertakenStoreIsServed(env: Env, s: State, t: nat, u: nat) returns (actions: seq<Action>)
    requires env.cacheEnabled && env.maxValidity >= 0
    requires t < |s.calls| && s.calls[t].phase.Authenticated? && s.calls[t].phase.authEpoch < s.epoch
    requires u < |s.calls| && s.calls[u].phase.NotCalled?
    requires Checksum(env, s.calls[u].config) == Checksum(env, s.calls[t].config)
    ensures LegalRun(env, s, actions)
    ensures var phase := Perform(env, s, actions).calls[u].phase;
            && phase.Served? && phase.entry.connection == s.calls[t].phase.connection
            && phase.entry.authEpoch < phase.since
  {
    var stored := Do(env, s, Go(t));
    var warm := WarmCall(env, stored, u);
    RunCons(env, s, Go(t), warm);
    actions := [Go(t)] + warm;
  }

  // --------------------------------------------------------------- witnesses

  lemma RunCons(env: Env, s: State, a: Action, rest: seq<Action>)
    requires Legal(s, a) && LegalRun(env, Do(env, s, a), rest)
    ensures LegalRun(env, s, [a] + rest) && Perform(env, s, [a] + rest) == Perform(env, Do(env, s, a), rest)
  {
    assert ([a] + rest)[1..] == rest;
  }

  lemma {:induction false} RunConcat(env: Env, s: State, first: seq<Action>, second: seq<Action>)
    requires LegalRun(env, s, first) && LegalRun(env, Perform(env, s, first), second)
    ensures LegalRun(env, s, first + second)
    ensures Perform(env, s, first + second) == Perform(env, Perform(env, s, first), second)
    decreases |first|
  {
    if first == [] {
      assert first + second == second;
    } else {
      assert (first + second)[1..] == first[1..] + second;
      RunConcat(env, Do(env, s, first[0]), first[1..], second);
    }
  }

  /** A call that finds nothing in the cache connects and stores, undisturbed. */
  lemma ColdCall(env: Env, s: State, t: nat) returns (actions: seq<Action>)
    requires t < |s.calls| && s.calls[t].phase.NotCalled? && Checksum(env, s.calls[t].config) !in s.conMap
    ensures LegalRun(env, s, actions) && forall a :: a in actions ==> a == Go(t)
    ensures var key, connection := Checksum(env, s.calls[t].config), Connection(s.calls[t].config, s.made);
            Perform(env, s, actions)
            == InPhase(s, t, Fresh(s.epoch, connection)).(
                 made := s.made + 1,
                 conMap := s.conMap[key := Entry(s.clock, connection, key, s.epoch, s.epoch)])
  {
    var go := Go(t);
    var s1 := Do(env, s, go);
    var s2 := Do(env, s1, go);
    var s3 := Do(env, s2, go);
    RunCons(env, s3, go, []);
    RunCons(env, s2, go, [go]);
    RunCons(env, s1, go, [go, go]);
    RunCons(env, s, go, [go, go, go]);
    actions := [go] + [go, go, go];
  }

  /** A call whose checksum is in the cache is served, undisturbed. */
  lemma WarmCall(env: Env, s: State, t: nat) returns (actions: seq<Action>)
    requires t < |s.calls| && s.calls[t].phase.NotCalled? && env.cacheEnabled
    requires var key := Checksum(env, s.calls[t].config);
             key in s.conMap && s.clock - s.conMap[key].initTime <= env.maxValidity
    ensures LegalRun(env, s, actions) && forall a :: a in actions ==> a == Go(t)
    ensures Perform(env, s, actions)
            == InPhase(s, t, Served(s.epoch, s.conMap[Checksum(env, s.calls[t].config)], s.clock)).(
                 servedCount := s.servedCount + 1)
  {
    var go := Go(t);
    var s1 := Do(env, s, go);
    var s2 := Do(env, s1, go);
    var s3 := Do(env, s2, go);
    RunCons(env, s3, go, []);
    RunCons(env, s2, go, [go]);
    RunCons(env, s1, go, [go, go]);
    RunCons(env, s, go, [go, go, go]);
    actions := [go] + [go, go, go];
  }

  /** Any two configurations with the same key: the second caller gets the first one's
      connection. */
  lemma SameKeySharesConnection(env: Env, first: Config, second: Config) returns (actions: seq<Action>)
    requires env.cacheEnabled && env.maxValidity >= 0 && RawData(first) == RawData(second)
    ensures LegalRun(env, Start([first, second]), actions)
    ensures var phase := Perform(env, Start([first, second]), actions).calls[1].phase;
            phase.Served? && phase.entry.connection.config == first
  {
    actions := ShareConnection(env, [first, second], 0, 1);
  }

  /** The default organization is not part of the key: a caller can be served a client
      whose operations go to another organization. */
  lemma ServedOrgCanDiffer(env: Env, c: Config, org: string) returns (actions: seq<Action>)
    requires env.cacheEnabled && env.maxValidity >= 0 && org != c.org
    ensures LegalRun(env, Start([c, c.(org := org)]), actions)
    ensures var call := Perform(env, Start([c, c.(org := org)]), actions).calls[1];
            call.phase.Served? && call.phase.entry.connection.config.org != call.config.org
  {
    actions := SameKeySharesConnection(env, c, c.(org := org));
    CacheIsSafe(env, [c, c.(org := org)], actions, 1);
  }

  lemma JoinTwo(x: string, y: string, rest: seq<string>)
    requires rest != []
    ensures Join([x, y] + rest, "#") == x + "#" + y + "#" + Join(rest, "#")
  {
    var parts, tail := [x, y] + rest, [y] + rest;
    assert parts[1..] == tail && tail[1..] == rest;
    assert Join(parts, "#") == x + "#" + Join(tail, "#");
  }

  /** Fields that contain '#' can collide: different user and password, same key. */
  lemma HashInFieldsCollides(c: Config)
    ensures var first, second := c.(user := "a#b", password := "c"), c.(user := "a", password := "b#c");
            RawData(first) == RawData(second) && KeyFields(first) != KeyFields(second)
  {
    var rest := Join(KeyFields(c)[2..], "#");
    RawDataOf(c, "a#b", "c");
    RawDataOf(c, "a", "b#c");
    assert "a#b" + "#" + "c" + "#" + rest == "a" + "#" + "b#c" + "#" + rest;
    assert "a#b" != "a";
  }

  lemma RawDataOf(c: Config, user: string, password: string)
    ensures var c' := c.(user := user, password := password);
            && RawData(c') == user + "#" + password + "#" + Join(KeyFields(c)[2..], "#")
            && KeyFields(c')[0] == user
  {
    var rest := KeyFields(c)[2..];
    JoinTwo(user, password, rest);
    assert KeyFields(c.(user := user, password := password)) == [user, password] + rest;
  }

  /** A call in flight across a reset stores its connection afterwards, so a later call
      can be served a connection that was authenticated before the reset. */
  lemma ResetCanBeOutrun(env: Env, c: Config) returns (actions: seq<Action>)
    requires env.cacheEnabled && env.maxValidity >= 0
    ensures LegalRun(env, Start([c, c]), actions)
    ensures var phase := Perform(env, Start([c, c]), actions).calls[1].phase;
            phase.Served? && phase.entry.authEpoch < phase.since
  {
    var go, s := Go(0), Start([c, c]);
    var s1 := Do(env, s, go);
    var s2 := Do(env, s1, go);
    var s3 := Do(env, s2, go);
    var s4 := Do(env, s3, Reset);
    RunCons(env, s3, Reset, []);
    RunCons(env, s2, go, [Reset]);
    RunCons(env, s1, go, [go, Reset]);
    RunCons(env, s, go, [go, go, Reset]);
    var first := [go] + [go, go, Reset];
    var rest := OvertakenStoreIsServed(env, s4, 0, 1);
    RunConcat(env, s, first, rest);
    actions := first + rest;
  }
}
