/** The pool of Kubernetes clients, one for each usable context of the kubeconfig, and its construction. */
module ClientPool {
  import opened Options
  import opened MapOrder

  /** A pooled context; its lazily created clients are not part of this model. */
  class Context {
    const name: string
    const user: string
    const cluster: string
    const namespace: string
    const clusterUID: string

    constructor (name: string, user: string, cluster: string, namespace: string, clusterUID: string)
      ensures this.name == name && this.user == user && this.cluster == cluster
      ensures this.namespace == namespace && this.clusterUID == clusterUID
    {
      this.name, this.user, this.cluster, this.namespace, this.clusterUID := name, user, cluster, namespace, clusterUID;
    }
  }

  /** How the API server answers for a context: whether the REST config loads, whether a dynamic client
      can be made from it, and whether the kube-system namespace can be read, with its UID. */
  datatype Cluster = NoConfig | NoClient | NoNamespace | Usable(uid: string)

  datatype PoolError = ConfigUnreadable | NoFunctionalContexts | UnknownContext | CannotAdd

  class Pool {
    var current: Context?
    var contexts: map<string, Context>

    ghost predicate Valid()
      reads this
    {
      && (current == null <==> contexts == map[])
      && (current != null ==> current.name in contexts)
      && (forall n :: n in contexts ==> contexts[n].name == n)
    }

    constructor ()
      ensures Valid() && current == null && contexts == map[]
    {
      current, contexts := null, map[];
    }

    /** Adds a context whose cluster answers; the first one added becomes current. */
    method Add(name: string, user: string, cluster: string, namespace: string, answer: Cluster)
      returns (r: Result<(), PoolError>)
      requires Valid()
      modifies this
      ensures Valid()
      ensures r.Ok? <==> answer.Usable?
      ensures r.Err? ==> r.error == CannotAdd && current == old(current) && contexts == old(contexts)
      ensures r.Ok? ==>
        && contexts.Keys == old(contexts).Keys + {name}
        && (forall n :: n in old(contexts) && n != name ==> contexts[n] == old(contexts)[n])
        && contexts[name].user == user && contexts[name].cluster == cluster
        && contexts[name].namespace == namespace && contexts[name].clusterUID == answer.uid
        && current == (if old(current) == null then contexts[name] else old(current))
    {
      if !answer.Usable? {
        return Err(CannotAdd);
      }
      var kctx := new Context(name, user, cluster, namespace, answer.uid);
      contexts := contexts[name := kctx];
      assert name in contexts;
      if current == null {
        current := kctx;
      }
      return Ok(());
    }

    method SetCurrent(name: string) returns (r: Result<(), PoolError>)
      requires Valid()
      modifies this`current
      ensures Valid()
      ensures name in contexts ==> r.Ok? && current == contexts[name]
      ensures name !in contexts ==> r == Err(UnknownContext) && current == old(current)
    {
      if name in contexts {
        current := contexts[name];
        return Ok(());
      }
      return Err(UnknownContext);
    }

    method Lookup(name: string) returns (r: Result<Context, PoolError>)
      ensures r == if name in contexts then Ok(contexts[name]) else Err(UnknownContext)
    {
      if name in contexts {
        return Ok(contexts[name]);
      }
      return Err(UnknownContext);
    }

    /** The pooled contexts, in the order in which the map is visited. */
    method Contexts(order: seq<string>) returns (cs: seq<Context>)
      requires IsOrder(contexts, order)
      ensures |cs| == |order| && forall i :: 0 <= i < |order| ==> order[i] in contexts && cs[i] == contexts[order[i]]
    {
      cs := [];
      for i := 0 to |order|
        invariant |cs| == i && forall j :: 0 <= j < i ==> order[j] in contexts && cs[j] == contexts[order[j]]
      {
        assert order[i] in order;
        cs := cs + [contexts[order[i]]];
      }
    }
  }

  // ---------- initKubeClientPool ----------

  datatype KubeContext = KubeContext(authInfo: string, cluster: string, namespace: string)

  datatype RawConfig = RawConfig(currentContext: string, contexts: map<string, KubeContext>)

  class Flags {
    var context: string
  }

  predicate Functional(clusters: map<string, Cluster>, name: string) {
    name in clusters && clusters[name].Usable?
  }

  /** The first usable context of an order. */
  function FirstFunctional(order: seq<string>, clusters: map<string, Cluster>): Option<string> {
    if order == [] then None
    else if Functional(clusters, order[0]) then Some(order[0])
    else FirstFunctional(order[1..], clusters)
  }

  lemma {:induction false} FirstFunctionalIsFirst(order: seq<string>, clusters: map<string, Cluster>)
    ensures FirstFunctional(order, clusters).None? <==> forall i :: 0 <= i < |order| ==> !Functional(clusters, order[i])
    ensures forall i ::
      (0 <= i < |order| && Functional(clusters, order[i]) && forall j :: 0 <= j < i ==> !Functional(clusters, order[j]))
      ==> FirstFunctional(order, clusters) == Some(order[i])
  {
    if order != [] {
      FirstFunctionalIsFirst(order[1..], clusters);
      assert forall i :: 0 < i < |order| ==> order[i] == order[1..][i - 1];
    }
  }

  lemma {:induction false} FirstFunctionalAppend(order: seq<string>, clusters: map<string, Cluster>, name: string)
    ensures FirstFunctional(order + [name], clusters) ==
      if FirstFunctional(order, clusters).Some? then FirstFunctional(order, clusters)
      else if Functional(clusters, name) then Some(name) else None
  {
    if order != [] {
      FirstFunctionalAppend(order[1..], clusters, name);
      assert (order + [name])[1..] == order[1..] + [name];
    }
  }

  /** A pooled context is the one the kubeconfig describes, with the UID its cluster reported. */
  predicate Describes(c: Context, name: string, kctx: KubeContext, answer: Cluster) {
    && c.name == name && c.user == kctx.authInfo && c.cluster == kctx.cluster && c.namespace == kctx.namespace
    && answer.Usable? && c.clusterUID == answer.uid
  }

  /** The pool holds exactly the usable contexts among `names`, each as the kubeconfig describes it. */
  ghost predicate Holds(contexts: map<string, Context>, names: seq<string>, raw: RawConfig,
                        clusters: map<string, Cluster>)
  {
    && (forall n :: n in contexts <==> n in names && Functional(clusters, n))
    && (forall n :: n in contexts ==>
          n in raw.contexts && n in clusters && Describes(contexts[n], n, raw.contexts[n], clusters[n]))
  }

  lemma HoldsOneMore(contexts: map<string, Context>, names: seq<string>, raw: RawConfig, clusters: map<string, Cluster>,
                     name: string, contexts': map<string, Context>)
    requires Holds(contexts, names, raw, clusters) && name in raw.contexts && name in clusters && name !in names
    requires !clusters[name].Usable? ==> contexts' == contexts
    requires clusters[name].Usable? ==>
      name in contexts' && contexts' == contexts[name := contexts'[name]]
      && Describes(contexts'[name], name, raw.contexts[name], clusters[name])
    ensures Holds(contexts', names + [name], raw, clusters)
  {
  }

  /** The name of the current context that a construction ends with, or its error. */
  function Outcome(requested: string, raw: RawConfig, order: seq<string>, clusters: map<string, Cluster>)
    : Result<string, PoolError>
  {
    match FirstFunctional(order, clusters)
    case None => Err(NoFunctionalContexts)
    case Some(first) =>
      if requested != "" && requested !in raw.contexts then Err(UnknownContext)
      else Ok(if requested != "" && Functional(clusters, requested) then requested else first)
  }

  /** An order that visits one context first. */
  lemma OrderFrom(raw: RawConfig, name: string) returns (order: seq<string>)
    requires name in raw.contexts
    ensures IsOrder(raw.contexts, order) && order[0] == name
  {
    var rest := SomeOrderOf(raw.contexts.Keys - {name});
    order := [name] + rest;
    JoinOrders([name], rest);
  }

  lemma FirstOfOrder(raw: RawConfig, order: seq<string>, clusters: map<string, Cluster>)
    requires IsOrder(raw.contexts, order) && clusters.Keys == raw.contexts.Keys
    ensures FirstFunctional(order, clusters).None? <==> forall n :: !Functional(clusters, n)
    ensures FirstFunctional(order, clusters).Some? ==> Functional(clusters, FirstFunctional(order, clusters).value)
  {
    FirstIsFunctional(order, clusters);
    FirstFunctionalIsFirst(order, clusters);
    if n :| Functional(clusters, n) {
      assert n in order;
    }
  }

  lemma {:induction false} FirstIsFunctional(order: seq<string>, clusters: map<string, Cluster>)
    ensures FirstFunctional(order, clusters).Some? ==> Functional(clusters, FirstFunctional(order, clusters).value)
  {
    if order != [] {
      FirstIsFunctional(order[1..], clusters);
    }
  }

  ghost predicate SameOutcome(requested: string, raw: RawConfig, clusters: map<string, Cluster>,
                              o: seq<string>, o': seq<string>)
  {
    Outcome(requested, raw, o, clusters) == Outcome(requested, raw, o', clusters)
  }

  /**
    The current context, or the error, is the same for every two orders if and only if the requested context
    is usable, or not configured at all, or at most one context is usable.
   */
  lemma CurrentIndependentIff(requested: string, raw: RawConfig, clusters: map<string, Cluster>)
    requires clusters.Keys == raw.contexts.Keys
    ensures (forall o, o' :: IsOrder(raw.contexts, o) && IsOrder(raw.contexts, o') ==>
              SameOutcome(requested, raw, clusters, o, o')) <==>
            || (requested != "" && (Functional(clusters, requested) || requested !in raw.contexts))
            || (forall k, l :: Functional(clusters, k) && Functional(clusters, l) ==> k == l)
  {
    if k, l :| Functional(clusters, k) && Functional(clusters, l) && k != l {
      var o := OrderFrom(raw, k);
      var o' := OrderFrom(raw, l);
      assert FirstFunctional(o, clusters) == Some(k) && FirstFunctional(o', clusters) == Some(l);
      assert SameOutcome(requested, raw, clusters, o, o') <==>
             requested != "" && (Functional(clusters, requested) || requested !in raw.contexts);
    }
    forall o, o' | IsOrder(raw.contexts, o) && IsOrder(raw.contexts, o')
      ensures (requested != "" && (Functional(clusters, requested) || requested !in raw.contexts)) ||
              (forall k, l :: Functional(clusters, k) && Functional(clusters, l) ==> k == l) ==>
              SameOutcome(requested, raw, clusters, o, o')
    {
      FirstOfOrder(raw, o, clusters);
      FirstOfOrder(raw, o', clusters);
    }
  }

  /** Tries to load one context and to add it to the pool. */
  method LoadContext(pool: Pool, name: string, kctx: KubeContext, answer: Cluster) returns (added: bool)
    requires pool.Valid() && name !in pool.contexts
    modifies pool
    ensures pool.Valid() && (added <==> answer.Usable?)
    ensures !added ==> pool.contexts == old(pool.contexts) && pool.current == old(pool.current)
    ensures added ==>
      && name in pool.contexts && pool.contexts == old(pool.contexts)[name := pool.contexts[name]]
      && Describes(pool.contexts[name], name, kctx, answer)
      && pool.current == (if old(pool.current) == null then pool.contexts[name] else old(pool.current))
  {
    added := false;
    if !answer.NoConfig? {
      var r := pool.Add(name, kctx.authInfo, kctx.cluster, kctx.namespace, answer);
      added := r.Ok?;
    }
  }

  /** The first usable context among `names` is current. */
  ghost predicate FirstIsCurrent(current: Context?, contexts: map<string, Context>, names: seq<string>,
                                 clusters: map<string, Cluster>)
  {
    && (current == null <==> FirstFunctional(names, clusters).None?)
    && (current != null ==>
          && FirstFunctional(names, clusters) == Some(current.name)
          && current.name in contexts && contexts[current.name] == current)
  }

  lemma FirstStaysCurrent(current: Context?, contexts: map<string, Context>, names: seq<string>,
                          clusters: map<string, Cluster>, name: string,
                          current': Context?, contexts': map<string, Context>)
    requires FirstIsCurrent(current, contexts, names, clusters) && name !in contexts && name in clusters
    requires !clusters[name].Usable? ==> contexts' == contexts && current' == current
    requires clusters[name].Usable? ==>
      name in contexts' && contexts' == contexts[name := contexts'[name]] && contexts'[name].name == name
      && current' == (if current == null then contexts'[name] else current)
    ensures FirstIsCurrent(current', contexts', names + [name], clusters)
  {
    FirstFunctionalAppend(names, clusters, name);
  }

  /** The requested context, forgotten if it is among `names` and not usable. */
  function StillRequested(requested: string, names: seq<string>, clusters: map<string, Cluster>): string {
    if requested in names && !Functional(clusters, requested) then "" else requested
  }

  lemma StillRequestedStep(requested: string, names: seq<string>, clusters: map<string, Cluster>, name: string)
    ensures StillRequested(requested, names + [name], clusters) ==
      if !Functional(clusters, name) && name == StillRequested(requested, names, clusters) then ""
      else StillRequested(requested, names, clusters)
  {
  }

  /** One turn of the loop over the contexts; forgets the requested context if it is not usable. */
  method LoadNext(pool: Pool, flags: Flags, requested: string, raw: RawConfig, clusters: map<string, Cluster>,
                  ghost names: seq<string>, name: string, before: string)
    returns (curKubeCtx: string)
    requires pool.Valid() && Holds(pool.contexts, names, raw, clusters)
    requires FirstIsCurrent(pool.current, pool.contexts, names, clusters)
    requires name in raw.contexts && name in clusters && name !in names
    requires before == StillRequested(requested, names, clusters)
    modifies pool, flags
    ensures pool.Valid() && Holds(pool.contexts, names + [name], raw, clusters)
    ensures FirstIsCurrent(pool.current, pool.contexts, names + [name], clusters)
    ensures curKubeCtx == StillRequested(requested, names + [name], clusters)
    ensures flags.context == name
  {
    curKubeCtx := before;
    flags.context := name;
    ghost var current, contexts := pool.current, pool.contexts;
    var added := LoadContext(pool, name, raw.contexts[name], clusters[name]);
    StillRequestedStep(requested, names, clusters, name);
    HoldsOneMore(contexts, names, raw, clusters, name, pool.contexts);
    FirstStaysCurrent(current, contexts, names, clusters, name, pool.current, pool.contexts);
    if !added && name == curKubeCtx {
      curKubeCtx := "";
    }
  }

  /** The loop over the contexts. */
  method LoadContexts(pool: Pool, flags: Flags, requested: string, raw: RawConfig, order: seq<string>,
                      clusters: map<string, Cluster>)
    returns (curKubeCtx: string)
    requires pool.Valid() && pool.contexts == map[]
    requires IsOrder(raw.contexts, order) && clusters.Keys == raw.contexts.Keys
    modifies pool, flags
    ensures pool.Valid() && Holds(pool.contexts, order, raw, clusters)
    ensures FirstIsCurrent(pool.current, pool.contexts, order, clusters)
    ensures curKubeCtx == StillRequested(requested, order, clusters)
    ensures flags.context == if order == [] then old(flags.context) else order[|order| - 1]
  {
    curKubeCtx := requested;
    for i := 0 to |order|
      invariant pool.Valid()
      invariant Holds(pool.contexts, order[..i], raw, clusters)
      invariant FirstIsCurrent(pool.current, pool.contexts, order[..i], clusters)
      invariant curKubeCtx == StillRequested(requested, order[..i], clusters)
      invariant flags.context == if i == 0 then old(flags.context) else order[i - 1]
    {
      assert order[i] in order && order[i] !in order[..i];
      curKubeCtx := LoadNext(pool, flags, requested, raw, clusters, order[..i], order[i], curKubeCtx);
      assert order[..i + 1] == order[..i] + [order[i]];
    }
    assert order[..|order|] == order;
  }

  lemma {:induction false} FirstFunctionalAt(order: seq<string>, clusters: map<string, Cluster>, name: string)
    requires FirstFunctional(order, clusters) == Some(name)
    ensures exists i :: 0 <= i < |order| && order[i] == name
                        && forall j :: 0 <= j < i ==> !Functional(clusters, order[j])
  {
    if Functional(clusters, order[0]) {
      assert order[0] == name;
    } else {
      FirstFunctionalAt(order[1..], clusters, name);
      var i :| 0 <= i < |order[1..]| && order[1..][i] == name
               && forall j :: 0 <= j < i ==> !Functional(clusters, order[1..][j]);
      assert order[i + 1] == name && forall j :: 0 < j < i + 1 ==> order[j] == order[1..][j - 1];
    }
  }

  /** Which context the loop leaves as current, if any. */
  lemma CurrentIsFirst(current: Context, contexts: map<string, Context>, order: seq<string>, raw: RawConfig,
                       clusters: map<string, Cluster>)
    requires FirstIsCurrent(current, contexts, order, clusters) && Holds(contexts, order, raw, clusters)
    ensures exists i :: 0 <= i < |order| && order[i] == current.name
                        && forall j :: 0 <= j < i ==> order[j] !in contexts
  {
    FirstFunctionalAt(order, clusters, current.name);
  }

  /** A pool of the usable contexts, as the kubeconfig describes them. */
  ghost predicate PoolsUsable(contexts: map<string, Context>, raw: RawConfig, clusters: map<string, Cluster>) {
    && (forall n :: n in contexts <==> n in clusters && clusters[n].Usable?)
    && (forall n :: n in contexts ==>
          && n in raw.contexts && n in clusters
          && var c, described := contexts[n], raw.contexts[n];
             && c.name == n && c.user == described.authInfo && c.cluster == described.cluster
             && c.namespace == described.namespace && clusters[n] == Usable(c.clusterUID))
  }

  lemma HoldsAll(contexts: map<string, Context>, order: seq<string>, raw: RawConfig, clusters: map<string, Cluster>)
    requires Holds(contexts, order, raw, clusters)
    requires IsOrder(raw.contexts, order) && clusters.Keys == raw.contexts.Keys
    ensures PoolsUsable(contexts, raw, clusters)
  {
  }

  /** A new pool with all contexts tried. */
  method LoadPool(flags: Flags, requested: string, raw: RawConfig, order: seq<string>, clusters: map<string, Cluster>)
    returns (pool: Pool, curKubeCtx: string)
    requires IsOrder(raw.contexts, order) && clusters.Keys == raw.contexts.Keys
    modifies flags
    ensures fresh(pool) && pool.Valid() && PoolsUsable(pool.contexts, raw, clusters)
    ensures FirstFunctional(order, clusters) == if pool.current == null then None else Some(pool.current.name)
    ensures pool.current != null ==>
      && pool.current == pool.contexts[pool.current.name]
      && exists i :: 0 <= i < |order| && order[i] == pool.current.name
                     && forall j :: 0 <= j < i ==> order[j] !in pool.contexts
    ensures curKubeCtx == if requested in raw.contexts && requested !in pool.contexts then "" else requested
    ensures flags.context == if order == [] then old(flags.context) else order[|order| - 1]
  {
    pool := new Pool();
    curKubeCtx := LoadContexts(pool, flags, requested, raw, order, clusters);
    HoldsAll(pool.contexts, order, raw, clusters);
    if pool.current != null {
      CurrentIsFirst(pool.current, pool.contexts, order, raw, clusters);
    }
  }

  /** What follows the loop: without a context there is no pool, and what is still requested is made current. */
  method Select(pool: Pool, curKubeCtx: string) returns (r: Result<Pool, PoolError>)
    requires pool.Valid()
    modifies pool`current
    ensures r.Ok? ==> r.value == pool && pool.Valid() && pool.current != null
    ensures pool.contexts == map[] ==> r == Err(NoFunctionalContexts)
    ensures pool.contexts != map[] && curKubeCtx == "" ==> r.Ok? && pool.current == old(pool.current)
    ensures pool.contexts != map[] && curKubeCtx != "" ==>
      if curKubeCtx in pool.contexts then r.Ok? && pool.current == pool.contexts[curKubeCtx]
      else r == Err(UnknownContext)
  {
    if |pool.contexts| == 0 {
      return Err(NoFunctionalContexts);
    }
    if curKubeCtx != "" {
      var selected := pool.SetCurrent(curKubeCtx);
      if selected.Err? {
        return Err(selected.error);
      }
    }
    return Ok(pool);
  }

  /**
    One construction of the pool, for any order of the contexts and any pattern of failures.  The flag, or
    if it is empty the kubeconfig, requests a context; if that is not usable, the first usable one visited is
    current.  The construction leaves the name it visited last in the flag.
   */
  method InitKubeClientPool(flags: Flags, config: Option<RawConfig>, order: seq<string>, clusters: map<string, Cluster>)
    returns (r: Result<Pool, PoolError>)
    requires config.Some? ==> IsOrder(config.value.contexts, order) && clusters.Keys == config.value.contexts.Keys
    modifies flags
    ensures config.None? ==> r == Err(ConfigUnreadable) && flags.context == old(flags.context)
    ensures config.Some? ==>
      var raw := config.value;
      var requested := if old(flags.context) != "" then old(flags.context) else raw.currentContext;
      var someUsable := exists n :: n in clusters && clusters[n].Usable?;
      && (r.Ok? <==> someUsable && (requested == "" || requested in raw.contexts))
      && (r.Err? ==> r.error == if someUsable then UnknownContext else NoFunctionalContexts)
      && (r.Ok? ==>
            && fresh(r.value) && r.value.Valid() && r.value.current != null
            && r.value.current == r.value.contexts[r.value.current.name]
            && (if requested != "" && requested in r.value.contexts then r.value.current.name == requested
                else exists i :: 0 <= i < |order| && order[i] == r.value.current.name
                                 && forall j :: 0 <= j < i ==> order[j] !in r.value.contexts))
      && Outcome(requested, raw, order, clusters) ==
         (match r case Ok(pool) => Ok(pool.current.name) case Err(error) => Err(error))
      && flags.context == (if order == [] then old(flags.context) else order[|order| - 1])
    ensures config.Some? && r.Ok? ==> PoolsUsable(r.value.contexts, config.value, clusters)
  {
    if config.None? {
      return Err(ConfigUnreadable);
    }
    var raw := config.value;
    var curKubeCtx := flags.context;
    if curKubeCtx == "" {
      curKubeCtx := raw.currentContext;
    }
    var pool: Pool;
    pool, curKubeCtx := LoadPool(flags, curKubeCtx, raw, order, clusters);
    r := Select(pool, curKubeCtx);
  }

  // ---------- List ----------

  datatype ContextView =
    ContextView(name: string, user: string, cluster: string, clusterUID: string, namespace: string, isCurrent: bool)

  predicate ViewOf(pool: Pool, v: ContextView)
    reads pool
  {
    v.name in pool.contexts &&
    var c := pool.contexts[v.name];
    v.user == c.user && v.cluster == c.cluster && v.clusterUID == c.clusterUID && v.namespace == c.namespace
  }

  lemma OneMarked(cs: seq<ContextView>, order: seq<string>, current: string)
    requires |cs| == |order| && current in order
    requires forall i, j :: 0 <= i < j < |order| ==> order[i] != order[j]
    requires forall i :: 0 <= i < |cs| ==> cs[i].name == order[i] && (cs[i].isCurrent <==> cs[i].name == current)
    ensures exists i :: 0 <= i < |cs| && cs[i].isCurrent && forall j :: 0 <= j < |cs| && cs[j].isCurrent ==> j == i
  {
    var i :| 0 <= i < |order| && order[i] == current;
    assert cs[i].isCurrent;
  }

  function MakeView(c: Context, current: string): ContextView {
    ContextView(c.name, c.user, c.cluster, c.clusterUID, c.namespace, c.name == current)
  }

  lemma ViewsFit(pool: Pool, order: seq<string>, kctxs: seq<Context>, cs: seq<ContextView>)
    requires pool.Valid() && pool.current != null
    requires |cs| == |kctxs| == |order| && forall i :: 0 <= i < |order| ==>
      order[i] in pool.contexts && kctxs[i] == pool.contexts[order[i]] && cs[i] == MakeView(kctxs[i], pool.current.name)
    ensures forall i :: 0 <= i < |cs| ==> cs[i].name == order[i] && ViewOf(pool, cs[i])
    ensures forall i :: 0 <= i < |cs| ==> (cs[i].isCurrent <==> cs[i].name == pool.current.name)
  {
  }

  /** The view of every pooled context; exactly one, the pool's current one, is marked as current. */
  method List(pool: Pool, order: seq<string>) returns (cs: seq<ContextView>)
    requires pool.Valid() && IsOrder(pool.contexts, order)
    ensures |cs| == |pool.contexts|
    ensures forall i :: 0 <= i < |cs| ==> ViewOf(pool, cs[i])
    ensures forall n :: n in pool.contexts ==> exists i :: 0 <= i < |cs| && cs[i].name == n
    ensures forall i, j :: 0 <= i < j < |cs| ==> cs[i].name != cs[j].name
    ensures forall i :: 0 <= i < |cs| ==> (cs[i].isCurrent <==> cs[i].name == pool.current.name)
    ensures cs != [] ==>
      exists i :: 0 <= i < |cs| && cs[i].isCurrent && forall j :: 0 <= j < |cs| && cs[j].isCurrent ==> j == i
  {
    cs := [];
    var kctxs := pool.Contexts(order);
    for i := 0 to |kctxs|
      invariant |cs| == i
      invariant forall j :: 0 <= j < i ==> pool.current != null && cs[j] == MakeView(kctxs[j], pool.current.name)
    {
      cs := cs + [MakeView(kctxs[i], pool.current.name)];
    }
    OrderLength(pool.contexts, order);
    if cs != [] {
      ViewsFit(pool, order, kctxs, cs);
      OneMarked(cs, order, pool.current.name);
    }
  }
}
