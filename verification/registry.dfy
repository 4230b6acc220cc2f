/** The provider registry: the configured backend instances in declaration
    order, their health, the round-robin cursor and the routing settings.
    Every operation is a pure state transition; the clock reading `now`
    (milliseconds) is an explicit argument. */
module Registry {
  import opened Wrappers
  import opened Seqs
  import opened Types

  /** The reserved model identifier that selects round-robin routing. */
  const VirtualModel: string := "multirouter-auto"
  const VirtualModelOwner: string := "multirouter"

  datatype Instance = Instance(config: ProviderInstanceConfig, status: InstanceStatus,
                               lastErrorAt: Option<int>, errorCount: nat)

  /** `instances` is in insertion order (the order a JavaScript `Map`
      iterates in), keyed by `config.id`. */
  datatype ProviderRegistry = ProviderRegistry(instances: seq<Instance>, routing: RoutingConfig, cursor: nat)

  /** A selection result together with the registry state it leaves behind:
      every selection first runs recovery, which is itself a state change. */
  datatype Query<T> = Query(value: T, registry: ProviderRegistry)

  datatype Selection = Selection(instance: Instance, model: string)

  datatype ModelEntry = ModelEntry(id: string, ownedBy: string)

  // ── Identity ─────────────────────────────────────

  function Ids(xs: seq<Instance>): (r: seq<string>)
    ensures |r| == |xs| && forall i :: 0 <= i < |xs| ==> r[i] == xs[i].config.id
  {
    seq(|xs|, i requires 0 <= i < |xs| => xs[i].config.id)
  }

  ghost predicate UniqueIds(xs: seq<Instance>)
  {
    forall i, j :: 0 <= i < j < |xs| ==> xs[i].config.id != xs[j].config.id
  }

  /** Position of the instance stored under `id` (`Map.get`). */
  function IndexOfId(xs: seq<Instance>, id: string): (r: Option<nat>)
    ensures r.Some? ==> r.value < |xs| && xs[r.value].config.id == id
    ensures r.Some? ==> forall j :: 0 <= j < r.value ==> xs[j].config.id != id
    ensures r.None? <==> id !in Ids(xs)
    decreases |xs|
  {
    if xs == [] then None
    else if xs[0].config.id == id then Some(0)
    else
      match IndexOfId(xs[1..], id)
      case None =>
        assert forall i :: 0 <= i < |xs| ==> i == 0 || xs[i] == xs[1..][i - 1];
        None
      case Some(k) => Some(k + 1)
  }

  // ── Construction ─────────────────────────────────

  /** `createChatFunction`: dispatch on the backend kind. Success stands for
      the adapter that was built; an unknown kind throws. */
  function CreateChatFunction(config: ProviderInstanceConfig): (r: Result<ProviderType, string>)
    ensures r.Success? <==> (exists t :: ProviderTypeName(t) == config.providerType)
    ensures r.Success? ==> ProviderTypeName(r.value) == config.providerType
    ensures r.Failure? ==> r.error == "Unknown provider type: " + config.providerType
  {
    match ParseProviderType(config.providerType)
    case Some(t) => Success(t)
    case None => Failure("Unknown provider type: " + config.providerType)
  }

  predicate Handled(config: ProviderInstanceConfig)
  {
    CreateChatFunction(config).Success?
  }

  function NewInstance(config: ProviderInstanceConfig): Instance
  {
    Instance(config, Active, None, 0)
  }

  predicate IsFresh(x: Instance)
  {
    x.status == Active && x.lastErrorAt.None? && x.errorCount == 0
  }

  /** `Map.set`: a new id is appended; an existing id keeps its position
      and gets the new record. */
  function SetInstance(xs: seq<Instance>, x: Instance): (r: seq<Instance>)
    requires UniqueIds(xs)
    ensures UniqueIds(r)
    ensures x.config.id in Ids(xs) ==> |r| == |xs| && Ids(r) == Ids(xs)
    ensures x.config.id !in Ids(xs) ==> r == xs + [x]
    ensures x in r && forall y :: y in r ==> y == x || y in xs
    ensures forall id :: id in Ids(r) <==> id in Ids(xs) || id == x.config.id
  {
    match IndexOfId(xs, x.config.id)
    case Some(k) =>
      var r := xs[k := x];
      assert Ids(r) == Ids(xs);
      assert x.config.id in Ids(xs);
      r
    case None =>
      assert Ids(xs + [x]) == Ids(xs) + [x.config.id];
      xs + [x]
  }

  /** The constructor's loop over the configuration, as a left fold. */
  function RegisterAll(configs: seq<ProviderInstanceConfig>): (r: seq<Instance>)
    ensures UniqueIds(r)
    ensures forall x :: x in r ==> IsFresh(x) && x.config in configs && Handled(x.config)
    ensures forall c :: c in configs && Handled(c) ==> c.id in Ids(r)
    decreases |configs|
  {
    if configs == [] then []
    else
      var init := configs[..|configs| - 1];
      var c := configs[|configs| - 1];
      var prev := RegisterAll(init);
      assert forall d :: d in configs ==> d in init || d == c;
      assert forall d :: d in init ==> d in configs;
      if Handled(c) then SetInstance(prev, NewInstance(c)) else prev
  }

  /** The `ProviderRegistry` constructor. A configuration whose kind falls
      to the dispatch's default branch is left out; construction never
      fails, and may produce an empty registry. */
  function NewRegistry(config: ProvidersConfig): (r: ProviderRegistry)
    ensures r.routing == config.routing && r.cursor == 0
    ensures UniqueIds(r.instances)
    ensures forall x :: x in r.instances ==> IsFresh(x) && x.config in config.providers && Handled(x.config)
    ensures forall c :: c in config.providers && Handled(c) ==> c.id in Ids(r.instances)
  {
    ProviderRegistry(RegisterAll(config.providers), config.routing, 0)
  }

  /** With distinct configuration ids the registry holds exactly one fresh
      instance per handled configuration, in configuration order. */
  lemma {:induction false} RegisterAllDistinct(configs: seq<ProviderInstanceConfig>)
    requires forall i, j :: 0 <= i < j < |configs| ==> configs[i].id != configs[j].id
    ensures RegisterAll(configs) == FreshAll(Filter(configs, Handled))
    decreases |configs|
  {
    if configs != [] {
      var init := configs[..|configs| - 1];
      var c := configs[|configs| - 1];
      assert configs == init + [c];
      assert forall i, j :: 0 <= i < j < |init| ==> init[i].id != init[j].id by {
        forall i, j | 0 <= i < j < |init|
          ensures init[i].id != init[j].id
        {
          assert init[i] == configs[i] && init[j] == configs[j];
        }
      }
      assert forall j :: 0 <= j < |init| ==> init[j].id != c.id by {
        forall j | 0 <= j < |init|
          ensures init[j].id != c.id
        {
          assert init[j] == configs[j];
        }
      }
      RegisterAllDistinct(init);
      DistinctStep(init, c);
    }
  }

  /** One step of `RegisterAllDistinct`: a configuration with a new id
      extends both sides alike. */
  lemma {:induction false} DistinctStep(init: seq<ProviderInstanceConfig>, c: ProviderInstanceConfig)
    requires forall j :: 0 <= j < |init| ==> init[j].id != c.id
    requires RegisterAll(init) == FreshAll(Filter(init, Handled))
    ensures RegisterAll(init + [c]) == FreshAll(Filter(init + [c], Handled))
  {
    FilterAppend(init, [c], Handled);
    if Handled(c) {
      RegisterFreshId(init, c);
      assert Filter([c], Handled) == [c];
      FreshAllAppend(Filter(init, Handled), [c]);
    } else {
      var configs := init + [c];
      assert configs[..|configs| - 1] == init && configs[|configs| - 1] == c;
      assert Filter([c], Handled) == [];
      assert Filter(init + [c], Handled) == Filter(init, Handled);
    }
  }

  /** Registering a configuration whose id no earlier configuration has
      appends a fresh instance. */
  lemma {:induction false} RegisterFreshId(init: seq<ProviderInstanceConfig>, c: ProviderInstanceConfig)
    requires forall j :: 0 <= j < |init| ==> init[j].id != c.id
    requires Handled(c)
    ensures RegisterAll(init + [c]) == RegisterAll(init) + [NewInstance(c)]
  {
    var prev := RegisterAll(init);
    assert c.id !in Ids(prev) by {
      forall x | x in prev
        ensures x.config.id != c.id
      {
        assert x.config in init;
      }
    }
    RegisterStep(init, c);
  }

  /** One more handled configuration is one more `Map.set`. */
  lemma {:induction false} RegisterStep(init: seq<ProviderInstanceConfig>, c: ProviderInstanceConfig)
    requires Handled(c)
    ensures RegisterAll(init + [c]) == SetInstance(RegisterAll(init), NewInstance(c))
  {
    var configs := init + [c];
    assert configs[..|configs| - 1] == init && configs[|configs| - 1] == c;
  }

  function FreshAll(configs: seq<ProviderInstanceConfig>): seq<Instance>
  {
    seq(|configs|, i requires 0 <= i < |configs| => NewInstance(configs[i]))
  }

  lemma {:induction false} FreshAllAppend(a: seq<ProviderInstanceConfig>, b: seq<ProviderInstanceConfig>)
    ensures FreshAll(a + b) == FreshAll(a) + FreshAll(b)
  {
  }

  // ── Recovery ─────────────────────────────────────

  function RetryWindowMs(routing: RoutingConfig): real
  {
    routing.retryAfterSeconds * 1000.0
  }

  /** Whether an instance's retry window has elapsed at `now`. */
  predicate Expired(x: Instance, now: int, routing: RoutingConfig)
  {
    && x.status != Active
    && x.lastErrorAt.Some?
    && (now - x.lastErrorAt.value) as real >= RetryWindowMs(routing)
  }

  function Recovered(x: Instance): Instance
  {
    x.(status := Active, errorCount := 0, lastErrorAt := None)
  }

  /** `recoverExpired`: lazy, time-based return to service. */
  function RecoverExpired(reg: ProviderRegistry, now: int): (r: ProviderRegistry)
    ensures r.routing == reg.routing && r.cursor == reg.cursor
    ensures |r.instances| == |reg.instances|
    ensures forall i :: 0 <= i < |reg.instances| && Expired(reg.instances[i], now, reg.routing) ==>
      r.instances[i] == reg.instances[i].(status := Active, errorCount := 0, lastErrorAt := None)
    ensures forall i :: 0 <= i < |reg.instances| && !Expired(reg.instances[i], now, reg.routing) ==>
      r.instances[i] == reg.instances[i]
  {
    var xs := reg.instances;
    reg.(instances := seq(|xs|, i requires 0 <= i < |xs| =>
                            if Expired(xs[i], now, reg.routing) then Recovered(xs[i]) else xs[i]))
  }

  /** Recovery never changes which instance is which. */
  lemma {:induction false} RecoverKeepsConfigs(reg: ProviderRegistry, now: int)
    ensures forall i :: 0 <= i < |reg.instances| ==>
      RecoverExpired(reg, now).instances[i].config == reg.instances[i].config
    ensures Ids(RecoverExpired(reg, now).instances) == Ids(reg.instances)
  {
  }

  /** A second recovery at the same instant changes nothing. */
  lemma {:induction false} RecoverIdempotent(reg: ProviderRegistry, now: int)
    ensures RecoverExpired(RecoverExpired(reg, now), now) == RecoverExpired(reg, now)
  {
  }

  /** Recovery only ever re-activates, and what recovers at one instant has
      also recovered at any later one. */
  lemma {:induction false} RecoverMonotone(reg: ProviderRegistry, now: int, later: int, i: nat)
    requires now <= later && i < |reg.instances|
    ensures reg.instances[i].status == Active ==> RecoverExpired(reg, now).instances[i].status == Active
    ensures RecoverExpired(reg, now).instances[i].status == Active ==>
      RecoverExpired(reg, later).instances[i].status == Active
  {
  }

  // ── Selection ────────────────────────────────────

  predicate IsActive(x: Instance)
  {
    x.status == Active
  }

  function ActiveInstances(xs: seq<Instance>): seq<Instance>
  {
    Filter(xs, IsActive)
  }

  function ServesModel(model: string): Instance -> bool
  {
    (x: Instance) => x.status == Active && model in x.config.models
  }

  /** `getActiveForModel`: the exhaust priority list. */
  function GetActiveForModel(reg: ProviderRegistry, model: string, now: int): (q: Query<seq<Instance>>)
    ensures q.registry == RecoverExpired(reg, now)
    ensures forall x :: x in q.value <==>
      x in q.registry.instances && x.status == Active && model in x.config.models
    ensures IsSubsequence(q.value, q.registry.instances)
  {
    var rec := RecoverExpired(reg, now);
    var list := Filter(rec.instances, ServesModel(model));
    FilterMembershipAll(rec.instances, ServesModel(model));
    FilterIsSubsequence(rec.instances, ServesModel(model));
    Query(list, rec)
  }

  /** An ordered selection from instances with unique ids has unique ids. */
  lemma {:induction false} SubsequenceUniqueIds(sub: seq<Instance>, xs: seq<Instance>)
    requires IsSubsequence(sub, xs) && UniqueIds(xs)
    ensures UniqueIds(sub)
    decreases |xs|
  {
    if sub != [] {
      assert UniqueIds(xs[1..]) by {
        forall i, j | 0 <= i < j < |xs[1..]|
          ensures xs[1..][i].config.id != xs[1..][j].config.id
        {
          assert xs[1..][i] == xs[i + 1] && xs[1..][j] == xs[j + 1];
        }
      }
      if sub[0] == xs[0] {
        SubsequenceUniqueIds(sub[1..], xs[1..]);
        SubsequenceMembers(sub[1..], xs[1..]);
        forall j | 0 < j < |sub|
          ensures sub[0].config.id != sub[j].config.id
        {
          assert sub[j] == sub[1..][j - 1];
          assert sub[j] in xs[1..];
          var k :| 0 <= k < |xs[1..]| && xs[1..][k] == sub[j];
          assert xs[k + 1] == sub[j];
        }
        forall i, j | 0 < i < j < |sub|
          ensures sub[i].config.id != sub[j].config.id
        {
          assert sub[i] == sub[1..][i - 1] && sub[j] == sub[1..][j - 1];
        }
      } else {
        SubsequenceUniqueIds(sub, xs[1..]);
      }
    }
  }

  /** The exhaust priority list names each instance at most once. */
  lemma {:induction false} ActiveForModelUniqueIds(reg: ProviderRegistry, model: string, now: int)
    requires UniqueIds(reg.instances)
    ensures UniqueIds(GetActiveForModel(reg, model, now).value)
  {
    var q := GetActiveForModel(reg, model, now);
    RecoverKeepsConfigs(reg, now);
    assert UniqueIds(q.registry.instances) by {
      forall i, j | 0 <= i < j < |q.registry.instances|
        ensures q.registry.instances[i].config.id != q.registry.instances[j].config.id
      {
        assert q.registry.instances[i].config == reg.instances[i].config;
        assert q.registry.instances[j].config == reg.instances[j].config;
      }
    }
    SubsequenceUniqueIds(q.value, q.registry.instances);
  }

  /** The first configured model is an instance's round-robin model; an
      empty first model name reads as missing (`if (!model)`). */
  predicate HasRoundRobinModel(x: Instance)
  {
    |x.config.models| > 0 && x.config.models[0] != ""
  }

  /** `getNextRoundRobin`: rotates over the instances active at call time,
      regardless of model. */
  function GetNextRoundRobin(reg: ProviderRegistry, now: int): (q: Query<Option<Selection>>)
    ensures var rec := RecoverExpired(reg, now);
      && q.registry.instances == rec.instances && q.registry.routing == reg.routing
      && var active := ActiveInstances(rec.instances);
      && (|active| == 0 ==> q.value.None? && q.registry == rec)
      && (|active| > 0 ==>
            && q.registry.cursor < |active|
            && q.registry.cursor == (reg.cursor + 1) % |active|
            && (q.value.None? <==> !HasRoundRobinModel(active[reg.cursor % |active|]))
            && (q.value.Some? ==> q.value.value.instance == active[reg.cursor % |active|]))
    ensures q.value.Some? ==>
      && q.value.value.instance in q.registry.instances
      && q.value.value.instance.status == Active
      && q.value.value.model == q.value.value.instance.config.models[0]
  {
    var rec := RecoverExpired(reg, now);
    var active := ActiveInstances(rec.instances);
    if |active| == 0 then Query(None, rec)
    else
      var x := active[rec.cursor % |active|];
      var next := rec.(cursor := (rec.cursor + 1) % |active|);
      assert x in active;
      if HasRoundRobinModel(x) then Query(Some(Selection(x, x.config.models[0])), next)
      else Query(None, next)
  }

  /** The selections of `k` consecutive round-robin calls at one instant. */
  function RoundRobinRun(reg: ProviderRegistry, now: int, k: nat): (run: seq<Option<Selection>>)
    ensures |run| == k
    decreases k
  {
    if k == 0 then []
    else
      var q := GetNextRoundRobin(reg, now);
      [q.value] + RoundRobinRun(q.registry, now, k - 1)
  }

  /** One round-robin call with the cursor inside the active set picks the
      instance at the cursor, advances the cursor by one place (wrapping),
      and leaves an active set that a call at the same instant sees again. */
  lemma {:induction false} RoundRobinStep(reg: ProviderRegistry, now: int)
    requires reg.cursor < |ActiveInstances(RecoverExpired(reg, now).instances)|
    requires forall x :: x in ActiveInstances(RecoverExpired(reg, now).instances) ==> HasRoundRobinModel(x)
    ensures var active := ActiveInstances(RecoverExpired(reg, now).instances);
      var q := GetNextRoundRobin(reg, now);
      && q.value.Some? && q.value.value.instance == active[reg.cursor]
      && q.registry.cursor == (if reg.cursor + 1 < |active| then reg.cursor + 1 else 0)
      && ActiveInstances(RecoverExpired(q.registry, now).instances) == active
  {
    var active := ActiveInstances(RecoverExpired(reg, now).instances);
    var n := |active|;
    ModBelow(reg.cursor, n);
    assert active[reg.cursor] in active;
    RecoverIdempotent(reg, now);
    var q := GetNextRoundRobin(reg, now);
    assert RecoverExpired(q.registry, now).instances == q.registry.instances;
    if reg.cursor + 1 == n {
      ModSelf(n);
    } else {
      ModBelow(reg.cursor + 1, n);
    }
  }

  /** With the same active set throughout and the cursor inside it, call
      `i` of a run picks the active instance `i` places after the cursor. */
  lemma {:induction false} RoundRobinRunPicks(reg: ProviderRegistry, now: int, k: nat, active: seq<Instance>)
    requires active == ActiveInstances(RecoverExpired(reg, now).instances)
    requires reg.cursor < |active|
    requires forall x :: x in active ==> HasRoundRobinModel(x)
    ensures forall i :: 0 <= i < k ==>
      RoundRobinRun(reg, now, k)[i].Some? &&
      RoundRobinRun(reg, now, k)[i].value.instance == active[Advance(reg.cursor, i, |active|)]
    decreases k
  {
    if k > 0 {
      var n := |active|;
      var c := reg.cursor;
      var q := GetNextRoundRobin(reg, now);
      assert && q.value.Some? && q.value.value.instance == active[c]
             && q.registry.cursor == NextCursor(c, n)
             && active == ActiveInstances(RecoverExpired(q.registry, now).instances) by {
        RoundRobinStep(reg, now);
      }
      var rest := RoundRobinRun(q.registry, now, k - 1);
      RoundRobinRunPicks(q.registry, now, k - 1, active);
      var run := RoundRobinRun(reg, now, k);
      assert run == [q.value] + rest;
      forall i | 0 <= i < k
        ensures run[i].Some? && run[i].value.instance == active[Advance(c, i, n)]
      {
        if i > 0 {
          assert run[i] == rest[i - 1];
        }
      }
    }
  }

  /** N consecutive round-robin calls over N active instances, starting with
      the cursor inside the active set, return each of them exactly once, in
      declaration order starting at the cursor. */
  lemma {:induction false} RoundRobinVisitsEachOnce(reg: ProviderRegistry, now: int)
    requires reg.cursor < |ActiveInstances(RecoverExpired(reg, now).instances)|
    requires forall x :: x in ActiveInstances(RecoverExpired(reg, now).instances) ==> HasRoundRobinModel(x)
    ensures var active := ActiveInstances(RecoverExpired(reg, now).instances);
      var run := RoundRobinRun(reg, now, |active|);
      && (forall i :: 0 <= i < |active| ==> run[i].Some?)
      && (forall i :: 0 <= i < |active| ==> run[i].value.instance == Rotate(active, reg.cursor)[i])
      && multiset(Rotate(active, reg.cursor)) == multiset(active)
  {
    var active := ActiveInstances(RecoverExpired(reg, now).instances);
    RoundRobinRunPicks(reg, now, |active|, active);
    forall i | 0 <= i < |active|
      ensures Advance(reg.cursor, i, |active|) == (reg.cursor + i) % |active|
    {
      AdvanceIsModular(reg.cursor, i, |active|);
    }
    RotateIsPermutation(active, reg.cursor);
  }

  // ── State management ─────────────────────────────

  /** `markFailed`: the instance stored under `id` becomes rate-limited,
      stamped with `now`, one more error counted. Unknown ids are ignored. */
  function MarkFailed(reg: ProviderRegistry, id: string, now: int): (r: ProviderRegistry)
    ensures r.routing == reg.routing && r.cursor == reg.cursor && |r.instances| == |reg.instances|
    ensures id !in Ids(reg.instances) ==> r == reg
    ensures id in Ids(reg.instances) ==>
      var k := IndexOfId(reg.instances, id).value;
      && r.instances == reg.instances[k := r.instances[k]]
      && r.instances[k].config == reg.instances[k].config
      && r.instances[k].status == RateLimited
      && r.instances[k].lastErrorAt == Some(now)
      && r.instances[k].errorCount == reg.instances[k].errorCount + 1
  {
    match IndexOfId(reg.instances, id)
    case None => reg
    case Some(k) =>
      var x := reg.instances[k];
      reg.(instances := reg.instances[k := x.(status := RateLimited, lastErrorAt := Some(now),
                                              errorCount := x.errorCount + 1)])
  }

  /** After `markFailed(id)` the instance is left out of every selection
      until its retry window has elapsed... */
  lemma {:induction false} MarkedInstanceExcludedDuringWindow(reg: ProviderRegistry, id: string, now: int, t: int, model: string)
    requires UniqueIds(reg.instances) && id in Ids(reg.instances)
    requires ((t - now) as real) < RetryWindowMs(reg.routing)
    ensures id !in Ids(GetActiveForModel(MarkFailed(reg, id, now), model, t).value)
    ensures var q := GetNextRoundRobin(MarkFailed(reg, id, now), t);
      q.value.Some? ==> q.value.value.instance.config.id != id
  {
    var m := MarkFailed(reg, id, now);
    var k := IndexOfId(reg.instances, id).value;
    var rec := RecoverExpired(m, t);
    assert !Expired(m.instances[k], t, m.routing);
    assert rec.instances[k].status == RateLimited;
    forall x | x in rec.instances && x.config.id == id
      ensures x.status != Active
    {
      var j :| 0 <= j < |rec.instances| && rec.instances[j] == x;
      assert reg.instances[j].config.id == id == reg.instances[k].config.id;
      assert j == k;
    }
    var list := GetActiveForModel(m, model, t).value;
    assert forall x :: x in list ==> x.config.id != id;
    var q := GetNextRoundRobin(m, t);
    if q.value.Some? {
      assert q.value.value.instance in rec.instances;
    }
  }

  /** ...and once the window has elapsed it is active again with its error
      count reset. */
  lemma {:induction false} MarkedInstanceRecoversAfterWindow(reg: ProviderRegistry, id: string, now: int, t: int)
    requires id in Ids(reg.instances)
    requires ((t - now) as real) >= RetryWindowMs(reg.routing)
    ensures var k := IndexOfId(reg.instances, id).value;
      var x := RecoverExpired(MarkFailed(reg, id, now), t).instances[k];
      x.config.id == id && x.status == Active && x.errorCount == 0 && x.lastErrorAt.None?
  {
  }

  // ── Queries ──────────────────────────────────────

  /** `hasModel`: declared by some instance, whatever its status. */
  predicate HasModel(reg: ProviderRegistry, model: string)
  {
    exists i :: 0 <= i < |reg.instances| && model in reg.instances[i].config.models
  }

  /** An instance that serves a model declares it. */
  lemma {:induction false} ActiveForModelImpliesHasModel(reg: ProviderRegistry, model: string, now: int)
    requires GetActiveForModel(reg, model, now).value != []
    ensures HasModel(reg, model)
  {
    var q := GetActiveForModel(reg, model, now);
    var x := q.value[0];
    assert x in q.value;
    var i :| 0 <= i < |q.registry.instances| && q.registry.instances[i] == x;
    assert model in reg.instances[i].config.models;
  }

  /** Health changes never change which models exist. */
  lemma {:induction false} HasModelIgnoresHealth(reg: ProviderRegistry, model: string, id: string, now: int)
    ensures HasModel(RecoverExpired(reg, now), model) <==> HasModel(reg, model)
    ensures HasModel(MarkFailed(reg, id, now), model) <==> HasModel(reg, model)
    ensures HasModel(GetNextRoundRobin(reg, now).registry, model) <==> HasModel(reg, model)
  {
    var m := MarkFailed(reg, id, now);
    assert forall i :: 0 <= i < |reg.instances| ==> m.instances[i].config == reg.instances[i].config;
  }

  /** Every model an instance declares, attributed to its backend kind, in
      declaration order. */
  function Declarations(xs: seq<Instance>): seq<ModelEntry>
    decreases |xs|
  {
    if xs == [] then []
    else Declarations(xs[..|xs| - 1]) + DeclarationsOf(xs[|xs| - 1])
  }

  function DeclarationsOf(x: Instance): (r: seq<ModelEntry>)
    ensures |r| == |x.config.models|
  {
    seq(|x.config.models|, j requires 0 <= j < |x.config.models| =>
          ModelEntry(x.config.models[j], x.config.providerType))
  }

  ghost predicate IsFirstOccurrence(ds: seq<ModelEntry>, k: nat)
    requires k < |ds|
  {
    forall j :: 0 <= j < k ==> ds[j].id != ds[k].id
  }

  /** First-seen de-duplication by model id: an entry is kept iff no
      earlier entry has its id. */
  ghost function FirstSeen(ds: seq<ModelEntry>): seq<ModelEntry>
    decreases |ds|
  {
    if ds == [] then []
    else if IsFirstOccurrence(ds, |ds| - 1) then FirstSeen(ds[..|ds| - 1]) + [ds[|ds| - 1]]
    else FirstSeen(ds[..|ds| - 1])
  }

  function EntryIds(es: seq<ModelEntry>): set<string>
  {
    set e | e in es :: e.id
  }

  /** The de-duplicated list keeps the id set, has no id twice, and each
      entry is the first declaration of its id. */
  lemma {:induction false} FirstSeenFacts(ds: seq<ModelEntry>)
    ensures EntryIds(FirstSeen(ds)) == EntryIds(ds)
    ensures forall i, j :: 0 <= i < j < |FirstSeen(ds)| ==> FirstSeen(ds)[i].id != FirstSeen(ds)[j].id
    ensures forall e :: e in FirstSeen(ds) ==>
      exists k :: 0 <= k < |ds| && ds[k] == e && IsFirstOccurrence(ds, k)
    ensures IsSubsequence(FirstSeen(ds), ds)
  {
    FirstSeenIds(ds);
    FirstSeenAreFirst(ds);
    FirstSeenIsSubsequence(ds);
  }

  lemma {:induction false} FirstSeenIds(ds: seq<ModelEntry>)
    ensures EntryIds(FirstSeen(ds)) == EntryIds(ds)
    ensures forall i, j :: 0 <= i < j < |FirstSeen(ds)| ==> FirstSeen(ds)[i].id != FirstSeen(ds)[j].id
    decreases |ds|
  {
    if ds != [] {
      var init := ds[..|ds| - 1];
      var d := ds[|ds| - 1];
      FirstSeenIds(init);
      assert ds == init + [d];
      assert EntryIds(ds) == EntryIds(init) + {d.id};
      if IsFirstOccurrence(ds, |ds| - 1) {
        assert d.id !in EntryIds(init);
      } else {
        var j :| 0 <= j < |ds| - 1 && ds[j].id == d.id;
        assert init[j] in init;
      }
    }
  }

  lemma {:induction false} FirstSeenAreFirst(ds: seq<ModelEntry>)
    ensures forall e :: e in FirstSeen(ds) ==>
      exists k :: 0 <= k < |ds| && ds[k] == e && IsFirstOccurrence(ds, k)
    decreases |ds|
  {
    if ds != [] {
      var init := ds[..|ds| - 1];
      FirstSeenAreFirst(init);
      forall e | e in FirstSeen(init)
        ensures exists k :: 0 <= k < |ds| && ds[k] == e && IsFirstOccurrence(ds, k)
      {
        var k :| 0 <= k < |init| && init[k] == e && IsFirstOccurrence(init, k);
        assert ds[k] == e && IsFirstOccurrence(ds, k);
      }
    }
  }

  lemma {:induction false} FirstSeenIsSubsequence(ds: seq<ModelEntry>)
    ensures IsSubsequence(FirstSeen(ds), ds)
    decreases |ds|
  {
    if ds != [] {
      var init := ds[..|ds| - 1];
      var d := ds[|ds| - 1];
      FirstSeenIsSubsequence(init);
      assert ds == init + [d];
      if IsFirstOccurrence(ds, |ds| - 1) {
        SubsequenceAppend(FirstSeen(init), init, d);
      } else {
        SubsequenceExtend(FirstSeen(init), init, d);
      }
    }
  }

  lemma {:induction false} SubsequenceAppend<T>(sub: seq<T>, xs: seq<T>, x: T)
    requires IsSubsequence(sub, xs)
    ensures IsSubsequence(sub + [x], xs + [x])
    decreases |xs|
  {
    if sub == [] {
      assert sub + [x] == [x];
      SubsequenceSingleton(xs, x);
    } else if sub[0] == xs[0] {
      assert (sub + [x])[1..] == sub[1..] + [x];
      assert (xs + [x])[1..] == xs[1..] + [x];
      SubsequenceAppend(sub[1..], xs[1..], x);
    } else {
      assert (xs + [x])[1..] == xs[1..] + [x];
      SubsequenceAppend(sub, xs[1..], x);
    }
  }

  lemma {:induction false} SubsequenceSingleton<T>(xs: seq<T>, x: T)
    ensures IsSubsequence([x], xs + [x])
    decreases |xs|
  {
    if xs != [] {
      assert (xs + [x])[1..] == xs[1..] + [x];
      SubsequenceSingleton(xs[1..], x);
      if x == xs[0] {
        assert IsSubsequence([x][1..], (xs + [x])[1..]);
      }
    }
  }

  lemma {:induction false} SubsequenceExtend<T>(sub: seq<T>, xs: seq<T>, x: T)
    requires IsSubsequence(sub, xs)
    ensures IsSubsequence(sub, xs + [x])
    decreases |xs|
  {
    if sub != [] {
      assert (xs + [x])[1..] == xs[1..] + [x];
      if sub[0] == xs[0] {
        SubsequenceExtend(sub[1..], xs[1..], x);
      } else {
        SubsequenceExtend(sub, xs[1..], x);
      }
    }
  }

  /** Feeding one more declaration to the de-duplication appends it iff its
      id has not been seen. */
  lemma {:induction false} FirstSeenStep(ds: seq<ModelEntry>, d: ModelEntry)
    ensures FirstSeen(ds + [d]) ==
      if d.id in EntryIds(FirstSeen(ds)) then FirstSeen(ds) else FirstSeen(ds) + [d]
  {
    var ext := ds + [d];
    assert ext[..|ds|] == ds;
    FirstSeenFacts(ds);
    if d.id in EntryIds(ds) {
      var e :| e in ds && e.id == d.id;
      var k :| 0 <= k < |ds| && ds[k] == e;
      assert ext[k].id == ext[|ds|].id;
    } else {
      forall k | 0 <= k < |ds|
        ensures ext[k].id != ext[|ds|].id
      {
        assert ds[k] in ds;
      }
    }
  }

  lemma {:induction false} DeclarationsPrefixStep(before: seq<ModelEntry>, x: Instance, j: nat)
    requires j < |x.config.models|
    ensures before + DeclarationsOf(x)[..j + 1] ==
      (before + DeclarationsOf(x)[..j]) + [ModelEntry(x.config.models[j], x.config.providerType)]
  {
    assert DeclarationsOf(x)[..j + 1] == DeclarationsOf(x)[..j] + [DeclarationsOf(x)[j]];
  }

  lemma {:induction false} EntryIdsAppend(es: seq<ModelEntry>, e: ModelEntry)
    ensures EntryIds(es + [e]) == EntryIds(es) + {e.id}
  {
  }

  /** `getAllModels`, following its loops: the virtual model first, then
      every declared model once, attributed to the first instance's kind. */
  method GetAllModels(reg: ProviderRegistry) returns (models: seq<ModelEntry>)
    ensures |models| >= 1 && models[0] == ModelEntry(VirtualModel, VirtualModelOwner)
    ensures models[1..] == FirstSeen(Declarations(reg.instances))
  {
    var xs := reg.instances;
    var seen: seq<ModelEntry> := [];
    var seenIds: set<string> := {};
    var i := 0;
    while i < |xs|
      invariant 0 <= i <= |xs|
      invariant seen == FirstSeen(Declarations(xs[..i]))
      invariant seenIds == EntryIds(seen)
    {
      ghost var before := Declarations(xs[..i]);
      seen, seenIds := AddInstanceModels(before, seen, seenIds, xs[i]);
      assert xs[..i + 1][..i] == xs[..i];
      assert Declarations(xs[..i + 1]) == before + DeclarationsOf(xs[i]);
      i := i + 1;
    }
    assert xs[..i] == xs;
    models := [ModelEntry(VirtualModel, VirtualModelOwner)] + seen;
  }

  /** The inner loop of `getAllModels`: feeds one instance's declarations
      to the de-duplication. */
  method AddInstanceModels(ghost before: seq<ModelEntry>, seen0: seq<ModelEntry>, seenIds0: set<string>, x: Instance)
    returns (seen: seq<ModelEntry>, seenIds: set<string>)
    requires seen0 == FirstSeen(before) && seenIds0 == EntryIds(seen0)
    ensures seen == FirstSeen(before + DeclarationsOf(x)) && seenIds == EntryIds(seen)
  {
    seen, seenIds := seen0, seenIds0;
    var j := 0;
    assert before + DeclarationsOf(x)[..0] == before;
    while j < |x.config.models|
      invariant 0 <= j <= |x.config.models|
      invariant seen == FirstSeen(before + DeclarationsOf(x)[..j])
      invariant seenIds == EntryIds(seen)
    {
      var m := x.config.models[j];
      var d := ModelEntry(m, x.config.providerType);
      DeclarationsPrefixStep(before, x, j);
      FirstSeenStep(before + DeclarationsOf(x)[..j], d);
      if m !in seenIds {
        EntryIdsAppend(seen, d);
        seen := seen + [d];
        seenIds := seenIds + {m};
      }
      j := j + 1;
    }
    assert DeclarationsOf(x)[..j] == DeclarationsOf(x);
  }

  /** A model is listed iff it is declared somewhere: the listing and
      `hasModel` agree. */
  lemma {:induction false} DeclarationsCoverModels(xs: seq<Instance>, model: string)
    ensures model in EntryIds(Declarations(xs)) <==>
      exists i :: 0 <= i < |xs| && model in xs[i].config.models
    decreases |xs|
  {
    if xs != [] {
      var init := xs[..|xs| - 1];
      var x := xs[|xs| - 1];
      DeclarationsCoverModels(init, model);
      var ds := Declarations(xs);
      assert ds == Declarations(init) + DeclarationsOf(x);
      assert EntryIds(ds) == EntryIds(Declarations(init)) + EntryIds(DeclarationsOf(x));
      assert model in EntryIds(DeclarationsOf(x)) <==> model in x.config.models by {
        if model in x.config.models {
          var j :| 0 <= j < |x.config.models| && x.config.models[j] == model;
          assert DeclarationsOf(x)[j] in DeclarationsOf(x);
        }
      }
      if model in x.config.models {
        assert xs[|xs| - 1] == x;
      }
      if exists i :: 0 <= i < |xs| && model in xs[i].config.models {
        var i :| 0 <= i < |xs| && model in xs[i].config.models;
        if i < |xs| - 1 {
          assert init[i] == xs[i];
        }
      }
    }
  }

  lemma {:induction false} ListingMatchesHasModel(reg: ProviderRegistry, model: string)
    ensures model in EntryIds(FirstSeen(Declarations(reg.instances))) <==> HasModel(reg, model)
  {
    FirstSeenFacts(Declarations(reg.instances));
    DeclarationsCoverModels(reg.instances, model);
  }
}
