/**
 * The upload orchestrator: `_uploadModelChangeset` commits one kind's
 * changeset (all creates, one id reconciliation, all updates, all
 * destroys), isolating API errors per record and aborting on any other
 * failure; `upload` runs the seven kinds in two stages and folds their
 * results into `(successes, errors)` or rethrows the first rejection.
 *
 * The remote API is an outcome oracle: it sees the position of a request
 * within its kind's upload and the request itself, and answers `Ok` with
 * the server's record, `ApiError` with a body, or `Fatal`.
 */
module Upload {
  import opened Wrappers
  import opened JsText
  import opened Entities
  import opened Snapshot
  import opened Changesets
  import ModelUtils

  /** A request as the server receives it; update and destroy name the record by its id as a string. */
  datatype Call<V> = Create(record: V) | Update(key: string, record: V) | Destroy(key: string)

  datatype Outcome<V> = Ok(record: V) | ApiError(body: string) | Fatal(reason: string)

  /** What happens during one kind's upload: a request (and the record it is about), or the reconciliation. */
  datatype Event<V> = Sent(call: Call<V>, subject: V) | Reconciled(changes: seq<(V, V)>)

  /**
   * The collaborators of `_uploadModelChangeset`: the server, the id of a
   * record, the reconciliation after the creates and the cascade after a
   * destroy, both acting on the local store `S`.
   */
  datatype Api<!S, !V> = Api(
    server: (nat, Call<V>) -> Outcome<V>,
    idOf: V -> int,
    reconcile: (S, seq<(V, V)>) -> S,
    cascade: (S, V) -> S)

  datatype Phase = Creating | Updating | Destroying

  /** The state of one kind's upload: the store, what happened, the collected error bodies, the id changes, and the failure that aborted it. */
  datatype Run<S, V> = Run(store: S, log: seq<Event<V>>, errors: seq<string>, idChanges: seq<(V, V)>, fatal: Option<string>)

  /** `obj.id!.toString()`. */
  function Key<S, V>(api: Api<S, V>, x: V): string {
    IntToString(api.idOf(x))
  }

  function CallFor<S, V>(api: Api<S, V>, phase: Phase, x: V): Call<V> {
    match phase
    case Creating => Create(x)
    case Updating => Update(Key(api, x), x)
    case Destroying => Destroy(Key(api, x))
  }

  /**
   * One iteration of a create, update or destroy loop. An aborted upload
   * sends nothing more. Otherwise the request goes out; on success a create
   * records a changed id and a destroy cascades, an API error appends its
   * body, and any other failure aborts.
   */
  function Step<S, V>(api: Api<S, V>, phase: Phase, r: Run<S, V>, x: V): (out: Run<S, V>)
    ensures r.fatal.Some? ==> out == r
    ensures r.fatal.None? ==> out.log == r.log + [Sent(CallFor(api, phase, x), x)]
    ensures r.errors <= out.errors && |out.errors| <= |r.errors| + 1
    ensures phase != Creating ==> out.idChanges == r.idChanges
    ensures out.fatal.None? ==> r.fatal.None?
  {
    if r.fatal.Some? then r
    else
      var call := CallFor(api, phase, x);
      var r1 := r.(log := r.log + [Sent(call, x)]);
      match api.server(|r.log|, call)
      case Ok(y) =>
        if phase == Creating && api.idOf(x) != api.idOf(y) then r1.(idChanges := r.idChanges + [(x, y)])
        else if phase == Destroying then r1.(store := api.cascade(r.store, x))
        else r1
      case ApiError(body) => r1.(errors := r.errors + [body])
      case Fatal(reason) => r1.(fatal := Some(reason))
  }

  /** One loop over `xs`, in order. */
  function Steps<S, V>(api: Api<S, V>, phase: Phase, r: Run<S, V>, xs: seq<V>): (out: Run<S, V>)
    ensures r.log <= out.log && |out.log| <= |r.log| + |xs|
    ensures out.fatal.None? ==> r.fatal.None? && |out.log| == |r.log| + |xs|
    ensures r.errors <= out.errors
    decreases |xs|
  {
    if xs == [] then r
    else Step(api, phase, Steps(api, phase, r, xs[..|xs| - 1]), xs[|xs| - 1])
  }

  /** The create loop, from an empty log. */
  function Creates<S, V>(api: Api<S, V>, s: S, cs: ModelChangeset<V>): Run<S, V> {
    Steps(api, Creating, Run(s, [], [], [], None), cs.added)
  }

  /** `handleIdChangeAfterApiCreate(idChanges)`, once the creates are done. */
  function Reconcile<S, V>(api: Api<S, V>, c: Run<S, V>): Run<S, V> {
    c.(store := api.reconcile(c.store, c.idChanges), log := c.log + [Reconciled(c.idChanges)])
  }

  /** `_uploadModelChangeset`: creates, then one reconciliation, then updates, then destroys. */
  function UploadModelChangeset<S, V>(api: Api<S, V>, s: S, cs: ModelChangeset<V>): (out: Run<S, V>)
    ensures |out.log| <= |cs.added| + 1 + |cs.changed| + |cs.removed|
    ensures out.fatal.None? ==> |out.log| == |cs.added| + 1 + |cs.changed| + |cs.removed|
  {
    var c := Creates(api, s, cs);
    if c.fatal.Some? then c
    else Steps(api, Destroying, Steps(api, Updating, Reconcile(api, c), cs.changed), cs.removed)
  }

  // ---------------------------------------------------------------------
  // What a log means: the errors, id changes and store it accounts for

  /** The request at log position `p` failed with something other than an API error. */
  predicate FatalAt<S, V>(api: Api<S, V>, log: seq<Event<V>>, p: int) {
    0 <= p < |log| && log[p].Sent? && api.server(p, log[p].call).Fatal?
  }

  /** The bodies of the API errors the logged requests met, in order. */
  function ErrorBodies<S, V>(api: Api<S, V>, log: seq<Event<V>>): seq<string>
    decreases |log|
  {
    if log == [] then []
    else
      var n := |log| - 1;
      ErrorBodies(api, log[..n])
        + (if log[n].Sent? && api.server(n, log[n].call).ApiError? then [api.server(n, log[n].call).body] else [])
  }

  /** The logged request at `p` is a create the server accepted under a different id. */
  predicate RenamedAt<S, V>(api: Api<S, V>, log: seq<Event<V>>, p: int) {
    && 0 <= p < |log| && log[p].Sent? && log[p].call.Create?
    && api.server(p, log[p].call).Ok?
    && api.idOf(log[p].call.record) != api.idOf(api.server(p, log[p].call).record)
  }

  /** The (sent record, server record) pairs of the creates that changed id, in order. */
  function Renamed<S, V>(api: Api<S, V>, log: seq<Event<V>>): seq<(V, V)>
    decreases |log|
  {
    if log == [] then []
    else
      var n := |log| - 1;
      Renamed(api, log[..n])
        + (if RenamedAt(api, log, n) then [(log[n].call.record, api.server(n, log[n].call).record)] else [])
  }

  /** The store the log leaves: each reconciliation applied, and a cascade for every destroy the server accepted. */
  function Replay<S, V>(api: Api<S, V>, s0: S, log: seq<Event<V>>): S
    decreases |log|
  {
    if log == [] then s0
    else
      var n := |log| - 1;
      var s := Replay(api, s0, log[..n]);
      match log[n]
      case Reconciled(changes) => api.reconcile(s, changes)
      case Sent(call, x) => if call.Destroy? && api.server(n, call).Ok? then api.cascade(s, x) else s
  }

  /**
   * A run agrees with its log: the errors, id changes and store are what
   * the log accounts for, only the last request may have been fatal, and
   * the run is aborted exactly when it was, with its reason.
   */
  ghost predicate Consistent<S, V>(api: Api<S, V>, s0: S, r: Run<S, V>) {
    && r.errors == ErrorBodies(api, r.log)
    && r.idChanges == Renamed(api, r.log)
    && r.store == Replay(api, s0, r.log)
    && (forall p :: 0 <= p < |r.log| - 1 ==> !FatalAt(api, r.log, p))
    && (r.fatal.Some? <==> FatalAt(api, r.log, |r.log| - 1))
    && (r.fatal.Some? ==> r.fatal == Some(api.server(|r.log| - 1, r.log[|r.log| - 1].call).reason))
  }

  lemma StepConsistent<S, V>(api: Api<S, V>, s0: S, phase: Phase, r: Run<S, V>, x: V)
    requires Consistent(api, s0, r)
    ensures Consistent(api, s0, Step(api, phase, r, x))
  {
    if r.fatal.None? {
      StepAccounts(api, s0, phase, r, x);
      StepFatal(api, phase, r, x);
    }
  }

  /** A request sent by a live run extends the error bodies, id changes and store its log accounts for. */
  lemma StepAccounts<S, V>(api: Api<S, V>, s0: S, phase: Phase, r: Run<S, V>, x: V)
    requires r.fatal.None?
    requires r.errors == ErrorBodies(api, r.log) && r.idChanges == Renamed(api, r.log) && r.store == Replay(api, s0, r.log)
    ensures var out := Step(api, phase, r, x);
      out.errors == ErrorBodies(api, out.log) && out.idChanges == Renamed(api, out.log) && out.store == Replay(api, s0, out.log)
  {
    var call := CallFor(api, phase, x);
    var log := r.log + [Sent(call, x)];
    assert Step(api, phase, r, x).log == log;
    assert log[..|r.log|] == r.log;
    StepErrors(api, phase, r, x, call, log);
    StepRenames(api, phase, r, x, call, log);
    StepReplay(api, s0, phase, r, x, call, log);
  }

  lemma StepErrors<S, V>(api: Api<S, V>, phase: Phase, r: Run<S, V>, x: V, call: Call<V>, log: seq<Event<V>>)
    requires r.fatal.None? && call == CallFor(api, phase, x) && log == r.log + [Sent(call, x)] && log[..|r.log|] == r.log
    requires r.errors == ErrorBodies(api, r.log)
    ensures Step(api, phase, r, x).errors == ErrorBodies(api, log)
  {
    assert ErrorBodies(api, log) == r.errors + (if api.server(|r.log|, call).ApiError? then [api.server(|r.log|, call).body] else []);
  }

  lemma StepRenames<S, V>(api: Api<S, V>, phase: Phase, r: Run<S, V>, x: V, call: Call<V>, log: seq<Event<V>>)
    requires r.fatal.None? && call == CallFor(api, phase, x) && log == r.log + [Sent(call, x)] && log[..|r.log|] == r.log
    requires r.idChanges == Renamed(api, r.log)
    ensures Step(api, phase, r, x).idChanges == Renamed(api, log)
  {
    assert RenamedAt(api, log, |r.log|) <==>
      phase == Creating && api.server(|r.log|, call).Ok? && api.idOf(x) != api.idOf(api.server(|r.log|, call).record);
  }

  lemma StepReplay<S, V>(api: Api<S, V>, s0: S, phase: Phase, r: Run<S, V>, x: V, call: Call<V>, log: seq<Event<V>>)
    requires r.fatal.None? && call == CallFor(api, phase, x) && log == r.log + [Sent(call, x)] && log[..|r.log|] == r.log
    requires r.store == Replay(api, s0, r.log)
    ensures Step(api, phase, r, x).store == Replay(api, s0, log)
  {
    assert Replay(api, s0, log) == if call.Destroy? && api.server(|r.log|, call).Ok? then api.cascade(r.store, x) else r.store;
  }

  /** A request sent by a live run is the only one of its log that can be fatal, and the run aborts iff it is. */
  lemma StepFatal<S, V>(api: Api<S, V>, phase: Phase, r: Run<S, V>, x: V)
    requires r.fatal.None?
    requires forall p :: 0 <= p < |r.log| ==> !FatalAt(api, r.log, p)
    ensures var out := Step(api, phase, r, x);
      && (forall p :: 0 <= p < |out.log| - 1 ==> !FatalAt(api, out.log, p))
      && (out.fatal.Some? <==> FatalAt(api, out.log, |out.log| - 1))
      && (out.fatal.Some? ==> out.fatal == Some(api.server(|out.log| - 1, out.log[|out.log| - 1].call).reason))
  {
    var log := Step(api, phase, r, x).log;
    assert forall p :: 0 <= p < |r.log| ==> log[p] == r.log[p];
    assert forall p :: 0 <= p < |r.log| ==> (FatalAt(api, log, p) <==> FatalAt(api, r.log, p));
  }

  lemma {:induction false} StepsConsistent<S, V>(api: Api<S, V>, s0: S, phase: Phase, r: Run<S, V>, xs: seq<V>)
    requires Consistent(api, s0, r)
    ensures Consistent(api, s0, Steps(api, phase, r, xs))
    decreases |xs|
  {
    if xs != [] {
      StepsConsistent(api, s0, phase, r, xs[..|xs| - 1]);
      StepConsistent(api, s0, phase, Steps(api, phase, r, xs[..|xs| - 1]), xs[|xs| - 1]);
    }
  }

  /** Reconciling a run that has not been aborted keeps it consistent with its log. */
  lemma ReconcileConsistent<S, V>(api: Api<S, V>, s0: S, c: Run<S, V>)
    requires Consistent(api, s0, c) && c.fatal.None?
    ensures Consistent(api, s0, Reconcile(api, c))
  {
    var log := c.log + [Reconciled(c.idChanges)];
    assert log[..|c.log|] == c.log;
    assert forall p :: 0 <= p < |c.log| ==> log[p] == c.log[p];
    assert forall p :: 0 <= p < |c.log| ==> (FatalAt(api, log, p) <==> FatalAt(api, c.log, p));
  }

  /** Every run of `_uploadModelChangeset` is consistent with its log. */
  lemma UploadIsConsistent<S, V>(api: Api<S, V>, s: S, cs: ModelChangeset<V>)
    ensures Consistent(api, s, UploadModelChangeset(api, s, cs))
  {
    StepsConsistent(api, s, Creating, Run(s, [], [], [], None), cs.added);
    var c := Creates(api, s, cs);
    if c.fatal.None? {
      ReconcileConsistent(api, s, c);
      StepsConsistent(api, s, Updating, Reconcile(api, c), cs.changed);
      StepsConsistent(api, s, Destroying, Steps(api, Updating, Reconcile(api, c), cs.changed), cs.removed);
    }
  }

  // ---------------------------------------------------------------------
  // The order of the requests

  /** The requests one loop over `xs` sends when nothing aborts it. */
  function Calls<S, V>(api: Api<S, V>, phase: Phase, xs: seq<V>): (r: seq<Event<V>>)
    ensures |r| == |xs|
  {
    seq(|xs|, i requires 0 <= i < |xs| => Sent(CallFor(api, phase, xs[i]), xs[i]))
  }

  /** The full schedule of one kind: every create, the reconciliation, every update, every destroy. */
  function Plan<S, V>(api: Api<S, V>, cs: ModelChangeset<V>, changes: seq<(V, V)>): seq<Event<V>> {
    Calls(api, Creating, cs.added) + [Reconciled(changes)] + Calls(api, Updating, cs.changed) + Calls(api, Destroying, cs.removed)
  }

  /**
   * One loop appends to the log a prefix of its requests, all of them
   * unless it aborts; an aborted run is left as it is; only creates touch
   * the id changes.
   */
  lemma {:induction false} StepsLog<S, V>(api: Api<S, V>, phase: Phase, r: Run<S, V>, xs: seq<V>)
    ensures r.log <= Steps(api, phase, r, xs).log <= r.log + Calls(api, phase, xs)
    ensures Steps(api, phase, r, xs).fatal.None? ==> r.fatal.None? && Steps(api, phase, r, xs).log == r.log + Calls(api, phase, xs)
    ensures r.fatal.Some? ==> Steps(api, phase, r, xs).log == r.log && Steps(api, phase, r, xs).fatal == r.fatal
    ensures phase != Creating ==> Steps(api, phase, r, xs).idChanges == r.idChanges
    decreases |xs|
  {
    if xs != [] {
      var n := |xs| - 1;
      StepsLog(api, phase, r, xs[..n]);
      var prev := Steps(api, phase, r, xs[..n]);
      var out := Step(api, phase, prev, xs[n]);
      assert Calls(api, phase, xs) == Calls(api, phase, xs[..n]) + [Sent(CallFor(api, phase, xs[n]), xs[n])];
      if prev.fatal.None? {
        assert out.log == r.log + Calls(api, phase, xs);
      } else {
        assert out.log == prev.log;
        assert prev.log <= r.log + Calls(api, phase, xs[..n]);
        assert (r.log + Calls(api, phase, xs[..n])) <= r.log + Calls(api, phase, xs);
      }
    }
  }

  lemma PrefixTransitive<T>(a: seq<T>, b: seq<T>, c: seq<T>)
    requires a <= b && b <= c
    ensures a <= c
  {
    assert c[..|a|] == c[..|b|][..|a|];
  }

  /** The creates alone, or up to the updates, are a prefix of the schedule. */
  lemma PlanPrefixes<S, V>(api: Api<S, V>, cs: ModelChangeset<V>, changes: seq<(V, V)>)
    ensures Calls(api, Creating, cs.added) <= Plan(api, cs, changes)
    ensures Calls(api, Creating, cs.added) + [Reconciled(changes)] + Calls(api, Updating, cs.changed) <= Plan(api, cs, changes)
  {
    var a := Calls(api, Creating, cs.added);
    var u := Calls(api, Updating, cs.changed);
    var d := Calls(api, Destroying, cs.removed);
    assert Plan(api, cs, changes) == a + ([Reconciled(changes)] + u + d);
    assert Plan(api, cs, changes) == (a + [Reconciled(changes)] + u) + d;
  }

  /** An upload aborted during the creates sent a prefix of the creates. */
  lemma AbortedCreatesFollowPlan<S, V>(api: Api<S, V>, s: S, cs: ModelChangeset<V>)
    requires Creates(api, s, cs).fatal.Some?
    ensures Creates(api, s, cs).log <= Plan(api, cs, Creates(api, s, cs).idChanges)
  {
    StepsLog(api, Creating, Run(s, [], [], [], None), cs.added);
    var c := Creates(api, s, cs);
    PlanPrefixes(api, cs, c.idChanges);
    PrefixTransitive(c.log, Calls(api, Creating, cs.added), Plan(api, cs, c.idChanges));
  }

  /** After the reconciliation, the updates and destroys complete the schedule, or a prefix of it. */
  lemma LaterLoopsFollowPlan<S, V>(api: Api<S, V>, s: S, cs: ModelChangeset<V>, c: Run<S, V>)
    requires c == Creates(api, s, cs) && c.fatal.None?
    ensures
      var r := Steps(api, Destroying, Steps(api, Updating, Reconcile(api, c), cs.changed), cs.removed);
      && r.idChanges == c.idChanges
      && r.log <= Plan(api, cs, c.idChanges)
      && (r.fatal.None? ==> r.log == Plan(api, cs, c.idChanges))
  {
    var rec := Reconcile(api, c);
    var u := Steps(api, Updating, rec, cs.changed);
    var r := Steps(api, Destroying, u, cs.removed);
    var us := Calls(api, Updating, cs.changed);
    var ds := Calls(api, Destroying, cs.removed);
    assert rec.log + us + ds == Plan(api, cs, c.idChanges) by {
      StepsLog(api, Creating, Run(s, [], [], [], None), cs.added);
    }
    assert rec.log <= u.log <= rec.log + us && (u.fatal.None? ==> u.log == rec.log + us) && u.idChanges == c.idChanges by {
      StepsLog(api, Updating, rec, cs.changed);
    }
    assert && u.log <= r.log <= u.log + ds && (r.fatal.None? ==> u.fatal.None? && r.log == u.log + ds)
           && (u.fatal.Some? ==> r.log == u.log) && r.idChanges == u.idChanges by {
      StepsLog(api, Destroying, u, cs.removed);
    }
    LoopsCompose(rec.log, u.log, r.log, us, ds, u.fatal.None?, r.fatal.None?);
  }

  /** Two loops that each append a prefix of their requests, the second only if the first completed. */
  lemma LoopsCompose<T>(base: seq<T>, mid: seq<T>, end: seq<T>, us: seq<T>, ds: seq<T>, midDone: bool, endDone: bool)
    requires base <= mid <= base + us && (midDone ==> mid == base + us)
    requires mid <= end <= mid + ds && (endDone ==> end == mid + ds)
    requires !midDone ==> end == mid
    requires endDone ==> midDone
    ensures end <= base + us + ds
    ensures endDone ==> end == base + us + ds
  {
    if midDone {
      assert mid + ds == base + us + ds;
    } else {
      PrefixTransitive(end, base + us, base + us + ds);
    }
  }

  /**
   * The requests of one kind go out in the order of the schedule: all
   * creates, the reconciliation, all updates, all destroys. An aborted
   * upload sent a prefix of it; one that was not sent all of it.
   */
  lemma UploadFollowsPlan<S, V>(api: Api<S, V>, s: S, cs: ModelChangeset<V>)
    ensures UploadModelChangeset(api, s, cs).log <= Plan(api, cs, UploadModelChangeset(api, s, cs).idChanges)
    ensures UploadModelChangeset(api, s, cs).fatal.None? ==>
              UploadModelChangeset(api, s, cs).log == Plan(api, cs, UploadModelChangeset(api, s, cs).idChanges)
  {
    var c := Creates(api, s, cs);
    if c.fatal.Some? {
      AbortedCreatesFollowPlan(api, s, cs);
    } else {
      LaterLoopsFollowPlan(api, s, cs, c);
    }
  }

  /** What the schedule holds at position `p`. */
  lemma PlanAt<S, V>(api: Api<S, V>, cs: ModelChangeset<V>, changes: seq<(V, V)>, p: int)
    requires 0 <= p < |Plan(api, cs, changes)|
    ensures p < |cs.added| ==> Plan(api, cs, changes)[p] == Sent(Create(cs.added[p]), cs.added[p])
    ensures p == |cs.added| ==> Plan(api, cs, changes)[p] == Reconciled(changes)
    ensures p > |cs.added| ==> Plan(api, cs, changes)[p].Sent? && !Plan(api, cs, changes)[p].call.Create?
  {
    var a := Calls(api, Creating, cs.added);
    var u := Calls(api, Updating, cs.changed);
    var d := Calls(api, Destroying, cs.removed);
    var pl := Plan(api, cs, changes);
    if p > |cs.added| {
      var q := p - |cs.added| - 1;
      if q < |u| {
        assert pl[p] == u[q];
      } else {
        assert pl[p] == d[q - |u|];
      }
    }
  }

  // ---------------------------------------------------------------------
  // Properties of one kind's upload

  /**
   * A fatal outcome ends the kind's upload: it is the last request in the
   * log, the run reports its reason, and a fatal create leaves no
   * reconciliation, update or destroy behind it.
   */
  lemma FatalStopsTheUpload<S, V>(api: Api<S, V>, s: S, cs: ModelChangeset<V>, p: int)
    requires FatalAt(api, UploadModelChangeset(api, s, cs).log, p)
    ensures p == |UploadModelChangeset(api, s, cs).log| - 1
    ensures UploadModelChangeset(api, s, cs).fatal
            == Some(api.server(p, UploadModelChangeset(api, s, cs).log[p].call).reason)
    ensures p < |cs.added| ==>
              forall q :: 0 <= q < |UploadModelChangeset(api, s, cs).log| ==> UploadModelChangeset(api, s, cs).log[q].Sent? && UploadModelChangeset(api, s, cs).log[q].call.Create?
  {
    var r := UploadModelChangeset(api, s, cs);
    UploadIsConsistent(api, s, cs);
    UploadFollowsPlan(api, s, cs);
    if p < |cs.added| {
      forall q | 0 <= q < |r.log| ensures r.log[q].Sent? && r.log[q].call.Create? {
        PlanAt(api, cs, r.idChanges, q);
      }
    }
  }

  /** The kind's upload got as far as `handleIdChangeAfterApiCreate` on its id changes. */
  predicate Reconciles<S, V(==)>(r: Run<S, V>) {
    Reconciled(r.idChanges) in r.log
  }

  /**
   * The reconciliation runs exactly when no create failed with something
   * other than an API error; when one did, the upload left the store as it
   * found it.
   */
  lemma ReconcilesIffCreatesSettle<S, V>(api: Api<S, V>, s: S, cs: ModelChangeset<V>)
    ensures Reconciles(UploadModelChangeset(api, s, cs)) <==> Creates(api, s, cs).fatal.None?
    ensures !Reconciles(UploadModelChangeset(api, s, cs)) ==> UploadModelChangeset(api, s, cs).store == s
  {
    var c := Creates(api, s, cs);
    var r := UploadModelChangeset(api, s, cs);
    StepsLog(api, Creating, Run(s, [], [], [], None), cs.added);
    if c.fatal.Some? {
      CreatesKeepStore(api, Run(s, [], [], [], None), cs.added);
    } else {
      LaterLoopsFollowPlan(api, s, cs, c);
      var rec := Reconcile(api, c);
      var u := Steps(api, Updating, rec, cs.changed);
      StepsLog(api, Updating, rec, cs.changed);
      StepsLog(api, Destroying, u, cs.removed);
      assert rec.log[|c.log|] == Reconciled(c.idChanges);
      assert r.log[|c.log|] == rec.log[|c.log|];
    }
  }

  /** The create loop sends requests but leaves the store alone. */
  lemma {:induction false} CreatesKeepStore<S, V>(api: Api<S, V>, r: Run<S, V>, xs: seq<V>)
    ensures Steps(api, Creating, r, xs).store == r.store
    decreases |xs|
  {
    if xs != [] {
      CreatesKeepStore(api, r, xs[..|xs| - 1]);
    }
  }

  lemma {:induction false} RenamedMembers<S, V>(api: Api<S, V>, log: seq<Event<V>>)
    ensures forall pr :: pr in Renamed(api, log) <==>
              exists p :: RenamedAt(api, log, p) && pr == (log[p].call.record, api.server(p, log[p].call).record)
    decreases |log|
  {
    if log != [] {
      var n := |log| - 1;
      RenamedMembers(api, log[..n]);
      assert forall p :: 0 <= p < n ==> log[..n][p] == log[p];
      assert forall p :: 0 <= p < n ==> (RenamedAt(api, log[..n], p) <==> RenamedAt(api, log, p));
    }
  }

  /**
   * The id changes handed to the reconciliation are exactly the added
   * records whose create was sent, succeeded, and came back with a
   * different id, each paired with the server's record.
   */
  lemma IdChangesAreRenamedCreates<S, V>(api: Api<S, V>, s: S, cs: ModelChangeset<V>)
    ensures forall pr :: pr in UploadModelChangeset(api, s, cs).idChanges <==>
              exists i :: 0 <= i < |cs.added| && i < |UploadModelChangeset(api, s, cs).log|
                && api.server(i, Create(cs.added[i])).Ok?
                && pr == (cs.added[i], api.server(i, Create(cs.added[i])).record)
                && api.idOf(cs.added[i]) != api.idOf(api.server(i, Create(cs.added[i])).record)
  {
    var r := UploadModelChangeset(api, s, cs);
    assert r.idChanges == Renamed(api, r.log) by { UploadIsConsistent(api, s, cs); }
    assert r.log <= Plan(api, cs, r.idChanges) by { UploadFollowsPlan(api, s, cs); }
    RenamedCreatesOfPlanLog(api, cs, r.log, r.idChanges);
  }

  /** In a log that follows the schedule, the renamed requests are the creates the server accepted under another id. */
  lemma RenamedCreatesOfPlanLog<S, V>(api: Api<S, V>, cs: ModelChangeset<V>, log: seq<Event<V>>, changes: seq<(V, V)>)
    requires changes == Renamed(api, log)
    requires log <= Plan(api, cs, changes)
    ensures forall pr :: pr in changes <==>
              exists i :: 0 <= i < |cs.added| && i < |log|
                && api.server(i, Create(cs.added[i])).Ok?
                && pr == (cs.added[i], api.server(i, Create(cs.added[i])).record)
                && api.idOf(cs.added[i]) != api.idOf(api.server(i, Create(cs.added[i])).record)
  {
    RenamedMembers(api, log);
    var pl := Plan(api, cs, changes);
    forall p | 0 <= p < |log|
      ensures RenamedAt(api, log, p) <==>
                p < |cs.added| && api.server(p, Create(cs.added[p])).Ok?
                && api.idOf(cs.added[p]) != api.idOf(api.server(p, Create(cs.added[p])).record)
      ensures p < |cs.added| ==> log[p] == Sent(Create(cs.added[p]), cs.added[p])
    {
      assert log[p] == pl[p];
      PlanAt(api, cs, changes, p);
    }
  }

  /** The collected errors are the bodies of the API errors, in the order their requests were sent. */
  lemma ErrorsAreApiErrorBodies<S, V>(api: Api<S, V>, s: S, cs: ModelChangeset<V>)
    ensures UploadModelChangeset(api, s, cs).errors == ErrorBodies(api, UploadModelChangeset(api, s, cs).log)
    ensures UploadModelChangeset(api, s, cs).store == Replay(api, s, UploadModelChangeset(api, s, cs).log)
  {
    UploadIsConsistent(api, s, cs);
  }

  lemma {:induction false} NoApiErrorsNoBodies<S, V>(api: Api<S, V>, log: seq<Event<V>>)
    requires forall p: nat, c: Call<V> :: !api.server(p, c).ApiError?
    ensures ErrorBodies(api, log) == []
    decreases |log|
  {
    if log != [] {
      NoApiErrorsNoBodies(api, log[..|log| - 1]);
    }
  }

  /** A server that never fails lets a kind settle with no errors. */
  lemma AcceptingServerSettlesCleanly<S, V>(api: Api<S, V>, s: S, cs: ModelChangeset<V>)
    requires forall p: nat, c: Call<V> :: api.server(p, c).Ok?
    ensures UploadModelChangeset(api, s, cs).errors == []
    ensures UploadModelChangeset(api, s, cs).fatal.None?
  {
    UploadIsConsistent(api, s, cs);
    var r := UploadModelChangeset(api, s, cs);
    NoApiErrorsNoBodies(api, r.log);
    assert !FatalAt(api, r.log, |r.log| - 1);
  }

  /** The id an update or destroy sends parses back to the record's id. */
  lemma KeyParsesBack<S, V>(api: Api<S, V>, x: V)
    ensures ParseInt(Key(api, x)) == Some(api.idOf(x))
  {
    ParseIntRoundTrip(api.idOf(x));
  }

  // ---------------------------------------------------------------------
  // The seven kinds

  /** The remote API of all kinds: which kind's endpoint, the request's position within that kind's upload, the request. */
  type Server = (Kind, nat, Call<Model>) -> Outcome<Model>

  /**
   * Which `handleIdChangeAfterApiCreate` the upload calls: the program's,
   * which drops the moved availability groups, or the corrected one, which
   * writes them back.
   */
  datatype Reconciliation = AsWritten | Corrected

  function Reconciler(fix: Reconciliation): (StateData, seq<(Model, Model)>) -> StateData {
    match fix
    case AsWritten => ModelUtils.HandleIdChangeAsWritten
    case Corrected => ModelUtils.HandleIdChangeAfterApiCreate
  }

  /**
   * The collaborators of one kind's upload against the working store: the
   * kind's own endpoints, the id of a record, the chosen reconciliation and
   * `handleAfterApiDestroy`.
   */
  function KindApi(server: Server, k: Kind, fix: Reconciliation): (api: Api<StateData, Model>)
    ensures forall p: nat, c: Call<Model> :: api.server(p, c) == server(k, p, c)
    ensures forall x :: api.idOf(x) == x.id
    ensures forall s, changes :: api.reconcile(s, changes)
              == if fix == AsWritten then ModelUtils.HandleIdChangeAsWritten(s, changes)
                 else ModelUtils.HandleIdChangeAfterApiCreate(s, changes)
    ensures forall s, x :: api.cascade(s, x) == ModelUtils.HandleAfterApiDestroy(s, x)
  {
    Api((p: nat, c: Call<Model>) => server(k, p, c), IdOf, Reconciler(fix), ModelUtils.HandleAfterApiDestroy)
  }

  /** The kinds uploaded side by side first, and those uploaded once they have all settled. */
  const StageA: seq<Kind> := [JWlerKind, ClientKind, LocationKind, TourKind]
  const StageB: seq<Kind> := [JWlerAvailabilityKind, ClientAvailabilityKind, TourElementKind]
  const UploadOrder: seq<Kind> := StageA + StageB

  function ChangesetOf(cs: Changeset, k: Kind): ModelChangeset<Model> {
    match k
    case JWlerKind => cs.jwlers
    case JWlerAvailabilityKind => cs.jwlerAvailabilities
    case ClientKind => cs.clients
    case ClientAvailabilityKind => cs.clientAvailabilities
    case LocationKind => cs.locations
    case TourKind => cs.tours
    case TourElementKind => cs.tourElements
  }

  /**
   * The new id that the first of `changes` whose new object is of kind `k`
   * and whose old object had id `oldId` gives that parent, if there is one:
   * the rename that moves the group stored under `oldId`.
   */
  function NewParentId(changes: seq<(Model, Model)>, k: Kind, oldId: int): (r: Option<int>)
    ensures r.None? <==> forall j :: 0 <= j < |changes| ==> !(changes[j].1.KindOf() == k && changes[j].0.id == oldId)
    ensures r.Some? ==>
              exists j :: && 0 <= j < |changes| && changes[j].1.KindOf() == k && changes[j].0.id == oldId
                          && r.value == changes[j].1.id
                          && forall i :: 0 <= i < j ==> !(changes[i].1.KindOf() == k && changes[i].0.id == oldId)
    decreases |changes|
  {
    if changes == [] then None
    else
      var n := |changes| - 1;
      var prev := NewParentId(changes[..n], k, oldId);
      assert forall j :: 0 <= j < n ==> changes[..n][j] == changes[j];
      if prev.Some? then prev
      else if changes[n].1.KindOf() == k && changes[n].0.id == oldId then Some(changes[n].1.id)
      else None
  }

  /** The kind and id of the parent a child record names; `None` for a top-level record. */
  function ParentOf(x: Model): Option<(Kind, int)> {
    match x
    case TourElement(_, tour, _, _, _, _) => Some((TourKind, tour))
    case ClientAvailability(_, client, _, _) => Some((ClientKind, client))
    case JWlerAvailability(_, jwler, _, _) => Some((JWlerKind, jwler))
    case _ => None
  }

  /** `e.tour = newId`, `av.client = newId` or `av.jwler = newId`: the child record pointed at another parent. */
  function Repoint(x: Model, parent: int): (y: Model)
    requires ParentOf(x).Some?
    ensures ParentOf(y) == Some((ParentOf(x).value.0, parent))
    ensures y.id == x.id && (y == x <==> parent == ParentOf(x).value.1)
  {
    match x
    case TourElement(_, _, _, _, _, _) => x.(tour := parent)
    case ClientAvailability(_, _, _, _) => x.(client := parent)
    case JWlerAvailability(_, _, _, _) => x.(jwler := parent)
  }

  /**
   * A stage-B record as stage B sends it. The changeset holds the working
   * store's own record objects, and the reconciliation of a renamed parent
   * points every record of the parent's group at the new id before it
   * deletes the group. That happens in both versions of the reconciliation;
   * they differ only in whether the group is written back to the store.
   * A record sits in the group of the parent it names.
   */
  function Retag(x: Model, changes: seq<(Model, Model)>): (y: Model)
    ensures y.id == x.id && y.KindOf() == x.KindOf()
  {
    match ParentOf(x)
    case None => x
    case Some((k, parent)) =>
      match NewParentId(changes, k, parent)
      case Some(n) => Repoint(x, n)
      case None => x
  }

  function RetagSeq(xs: seq<Model>, changes: seq<(Model, Model)>): (r: seq<Model>)
    ensures |r| == |xs|
    ensures forall i :: 0 <= i < |xs| ==> r[i] == Retag(xs[i], changes)
  {
    seq(|xs|, i requires 0 <= i < |xs| => Retag(xs[i], changes))
  }

  /**
   * What a kind sends: in stage B the added and changed records re-pointed
   * by the id changes of stage A; otherwise the changeset as it is. The
   * removed records are the original snapshot's, which no reconciliation
   * touches.
   */
  function Payload(cs: Changeset, k: Kind, changes: seq<(Model, Model)>): (r: ModelChangeset<Model>)
    ensures var c := ChangesetOf(cs, k);
      && r.removed == c.removed
      && |r.added| == |c.added| && |r.changed| == |c.changed|
      && (forall i :: 0 <= i < |c.added| ==> r.added[i].id == c.added[i].id && r.added[i].KindOf() == c.added[i].KindOf())
      && (forall i :: 0 <= i < |c.changed| ==> r.changed[i].id == c.changed[i].id && r.changed[i].KindOf() == c.changed[i].KindOf())
    ensures k !in StageB || changes == [] ==> r == ChangesetOf(cs, k)
  {
    var c := ChangesetOf(cs, k);
    RetagNothing(c.added);
    RetagNothing(c.changed);
    if k in StageB then ModelChangeset(RetagSeq(c.added, changes), RetagSeq(c.changed, changes), c.removed)
    else c
  }

  /** Without id changes, no record is re-pointed. */
  lemma RetagNothing(xs: seq<Model>)
    ensures RetagSeq(xs, []) == xs
  {
    assert forall i :: 0 <= i < |xs| ==> RetagSeq(xs, [])[i] == xs[i];
  }

  /**
   * A stage-B record whose parent stage A created under a new id is sent
   * pointing at that new id, whichever reconciliation ran; nothing else
   * about it changes. Old ids of one kind are distinct, as the keys of the
   * added records are.
   */
  lemma PayloadFollowsRenamedParent(cs: Changeset, k: Kind, changes: seq<(Model, Model)>, i: int, j: int)
    requires k in StageB && 0 <= i < |ChangesetOf(cs, k).added|
    requires ParentOf(ChangesetOf(cs, k).added[i]).Some?
    requires 0 <= j < |changes|
    requires (changes[j].1.KindOf(), changes[j].0.id) == ParentOf(ChangesetOf(cs, k).added[i]).value
    requires forall j' :: (0 <= j' < |changes| && changes[j'].1.KindOf() == changes[j].1.KindOf()
                           && changes[j'].0.id == changes[j].0.id) ==> j' == j
    ensures Payload(cs, k, changes).added[i] == Repoint(ChangesetOf(cs, k).added[i], changes[j].1.id)
    ensures ParentOf(Payload(cs, k, changes).added[i]) == Some((changes[j].1.KindOf(), changes[j].1.id))
  {
    var x := ChangesetOf(cs, k).added[i];
    var r := NewParentId(changes, changes[j].1.KindOf(), changes[j].0.id);
    assert r.Some?;
  }

  /** A stage-B record whose parent none of stage A's id changes renamed is sent as the changeset has it. */
  lemma PayloadKeepsUnrenamedParent(cs: Changeset, k: Kind, changes: seq<(Model, Model)>, i: int)
    requires k in StageB && 0 <= i < |ChangesetOf(cs, k).added|
    requires forall j :: 0 <= j < |changes| ==> Some((changes[j].1.KindOf(), changes[j].0.id)) != ParentOf(ChangesetOf(cs, k).added[i])
    ensures Payload(cs, k, changes).added[i] == ChangesetOf(cs, k).added[i]
  {
  }

  /**
   * The id changes that reached the shared records: those of the kind
   * uploads, in order, that got as far as their reconciliation. A kind
   * whose creates aborted never ran `handleIdChangeAfterApiCreate`, so
   * none of its records were re-pointed.
   */
  function IdChangesOf(runs: seq<Run<StateData, Model>>): (r: seq<(Model, Model)>)
    ensures forall pr :: pr in r <==> exists i :: 0 <= i < |runs| && Reconciles(runs[i]) && pr in runs[i].idChanges
    decreases |runs|
  {
    if runs == [] then []
    else
      var n := |runs| - 1;
      assert forall i :: 0 <= i < n ==> runs[..n][i] == runs[i];
      IdChangesOf(runs[..n]) + (if Reconciles(runs[n]) then runs[n].idChanges else [])
  }

  function StoreAfter(data: StateData, runs: seq<Run<StateData, Model>>): StateData {
    if runs == [] then data else runs[|runs| - 1].store
  }

  /** The store the `i`-th of `runs` starts from: `data` for the first, the previous run's store after that. */
  function StoreBefore(data: StateData, runs: seq<Run<StateData, Model>>, i: int): StateData
    requires 0 <= i <= |runs|
  {
    if i == 0 then data else runs[i - 1].store
  }

  /** Kinds one after the other, `step` uploading each on the store the kind before it left. */
  function Chain(data: StateData, kinds: seq<Kind>, step: (StateData, Kind) -> Run<StateData, Model>)
    : (runs: seq<Run<StateData, Model>>)
    ensures |runs| == |kinds|
    decreases |kinds|
  {
    if kinds == [] then []
    else
      var n := |kinds| - 1;
      var prev := Chain(data, kinds[..n], step);
      prev + [step(StoreAfter(data, prev), kinds[n])]
  }

  /** The `i`-th kind of a chain runs on the store the kind before it left, or on `data` for the first. */
  lemma {:induction false} ChainAt(data: StateData, kinds: seq<Kind>, step: (StateData, Kind) -> Run<StateData, Model>, i: int)
    requires 0 <= i < |kinds|
    ensures Chain(data, kinds, step)[i] == step(StoreBefore(data, Chain(data, kinds, step), i), kinds[i])
    decreases |kinds|
  {
    var n := |kinds| - 1;
    var prev := Chain(data, kinds[..n], step);
    if i < n {
      ChainAt(data, kinds[..n], step, i);
      assert kinds[..n][i] == kinds[i];
    }
  }

  /** One kind's upload of its payload, with the chosen reconciliation. */
  function KindUpload(server: Server, cs: Changeset, changes: seq<(Model, Model)>, fix: Reconciliation): (StateData, Kind) -> Run<StateData, Model> {
    (s: StateData, k: Kind) => UploadModelChangeset(KindApi(server, k, fix), s, Payload(cs, k, changes))
  }

  /** The kinds of one stage, one after the other, each on the store the previous one left. */
  function StageRuns(server: Server, data: StateData, cs: Changeset, kinds: seq<Kind>, changes: seq<(Model, Model)>, fix: Reconciliation)
    : (runs: seq<Run<StateData, Model>>)
    ensures |runs| == |kinds|
  {
    Chain(data, kinds, KindUpload(server, cs, changes, fix))
  }

  /** The `i`-th kind of a stage uploads its payload on the store the kind before it left. */
  lemma StageRunAt(server: Server, data: StateData, cs: Changeset, kinds: seq<Kind>, changes: seq<(Model, Model)>, fix: Reconciliation, i: int)
    requires 0 <= i < |kinds|
    ensures var runs := StageRuns(server, data, cs, kinds, changes, fix);
      runs[i] == UploadModelChangeset(KindApi(server, kinds[i], fix), StoreBefore(data, runs, i), Payload(cs, kinds[i], changes))
  {
    ChainAt(data, kinds, KindUpload(server, cs, changes, fix), i);
  }

  /** A stage-A kind reaches its reconciliation exactly when none of its creates failed with a non-API exception. */
  lemma StageAKindReconciles(server: Server, data: StateData, cs: Changeset, fix: Reconciliation, i: int)
    requires 0 <= i < |StageA|
    ensures var a := StageRuns(server, data, cs, StageA, [], fix);
      Reconciles(a[i]) <==> Creates(KindApi(server, StageA[i], fix), StoreBefore(data, a, i), ChangesetOf(cs, StageA[i])).fatal.None?
  {
    var a := StageRuns(server, data, cs, StageA, [], fix);
    StageRunAt(server, data, cs, StageA, [], fix, i);
    assert Payload(cs, StageA[i], []) == ChangesetOf(cs, StageA[i]);
    ReconcilesIffCreatesSettle(KindApi(server, StageA[i], fix), StoreBefore(data, a, i), ChangesetOf(cs, StageA[i]));
  }

  /**
   * Stage B is re-pointed by exactly the id changes of the stage-A kinds
   * whose creates ran to the end; a kind that a non-API failure aborted
   * during its creates re-points nothing.
   */
  lemma StageBSeesReconciledChanges(server: Server, data: StateData, cs: Changeset, fix: Reconciliation, pr: (Model, Model))
    ensures var a := StageRuns(server, data, cs, StageA, [], fix);
      pr in IdChangesOf(a) <==>
        exists i :: 0 <= i < |StageA| && pr in a[i].idChanges
          && Creates(KindApi(server, StageA[i], fix), StoreBefore(data, a, i), ChangesetOf(cs, StageA[i])).fatal.None?
  {
    var a := StageRuns(server, data, cs, StageA, [], fix);
    if pr in IdChangesOf(a) {
      var i :| 0 <= i < |a| && Reconciles(a[i]) && pr in a[i].idChanges;
      StageAKindReconciles(server, data, cs, fix, i);
    }
    if exists i :: 0 <= i < |StageA| && pr in a[i].idChanges
         && Creates(KindApi(server, StageA[i], fix), StoreBefore(data, a, i), ChangesetOf(cs, StageA[i])).fatal.None? {
      var i :| 0 <= i < |StageA| && pr in a[i].idChanges
         && Creates(KindApi(server, StageA[i], fix), StoreBefore(data, a, i), ChangesetOf(cs, StageA[i])).fatal.None?;
      StageAKindReconciles(server, data, cs, fix, i);
    }
  }

  /** Stage A, then stage B on the store stage A left, with payloads re-pointed by stage A's id changes. */
  function UploadRuns(server: Server, data: StateData, cs: Changeset, fix: Reconciliation): (runs: seq<Run<StateData, Model>>)
    ensures |runs| == |UploadOrder|
  {
    var a := StageRuns(server, data, cs, StageA, [], fix);
    a + StageRuns(server, StoreAfter(data, a), cs, StageB, IdChangesOf(a), fix)
  }

  // ---------------------------------------------------------------------
  // Aggregating the results

  /** How one kind's upload settled: a returned error list, or the failure it threw. */
  datatype KindResult = Settled(errors: seq<string>) | Rejected(reason: string)

  datatype UploadResult = Thrown(reason: string) | Returned(successes: nat, errors: seq<string>)

  function ResultOf<S, V>(r: Run<S, V>): KindResult {
    if r.fatal.Some? then Rejected(r.fatal.value) else Settled(r.errors)
  }

  function UploadResults(server: Server, data: StateData, cs: Changeset, fix: Reconciliation): (rs: seq<KindResult>)
    ensures |rs| == |UploadOrder|
  {
    var runs := UploadRuns(server, data, cs, fix);
    seq(|runs|, i requires 0 <= i < |runs| => ResultOf(runs[i]))
  }

  predicate AllSettled(rs: seq<KindResult>) {
    forall i :: 0 <= i < |rs| ==> rs[i].Settled?
  }

  /** The number of kinds that settled without errors. */
  function CleanCount(rs: seq<KindResult>): nat
    decreases |rs|
  {
    if rs == [] then 0
    else CleanCount(rs[..|rs| - 1]) + (if rs[|rs| - 1] == Settled([]) then 1 else 0)
  }

  /** The number of kinds that settled with errors. */
  function ErrorfulCount(rs: seq<KindResult>): nat
    decreases |rs|
  {
    if rs == [] then 0
    else ErrorfulCount(rs[..|rs| - 1]) + (if rs[|rs| - 1].Settled? && rs[|rs| - 1].errors != [] then 1 else 0)
  }

  /** The errors of the settled kinds, concatenated in order. */
  function AllErrors(rs: seq<KindResult>): seq<string>
    decreases |rs|
  {
    if rs == [] then []
    else AllErrors(rs[..|rs| - 1]) + (if rs[|rs| - 1].Settled? then rs[|rs| - 1].errors else [])
  }

  /** Every settled kind is counted once, as a success or as a kind with errors. */
  lemma {:induction false} CountsAddUp(rs: seq<KindResult>)
    requires AllSettled(rs)
    ensures CleanCount(rs) + ErrorfulCount(rs) == |rs|
    decreases |rs|
  {
    if rs != [] {
      CountsAddUp(rs[..|rs| - 1]);
    }
  }

  /**
   * The result loop of `upload`: the first rejected kind's reason is
   * thrown; otherwise the kinds without errors are counted and the others'
   * errors concatenated, in order.
   */
  method Aggregate(results: seq<KindResult>) returns (out: UploadResult)
    ensures out.Thrown? <==> exists i :: 0 <= i < |results| && results[i].Rejected?
    ensures out.Thrown? ==> exists i :: 0 <= i < |results| && results[i] == Rejected(out.reason) && AllSettled(results[..i])
    ensures out.Returned? ==> out.successes == CleanCount(results) && out.errors == AllErrors(results)
    ensures out.Returned? ==> out.successes + ErrorfulCount(results) == |results|
  {
    var successes := 0;
    var errors: seq<string> := [];
    var i := 0;
    while i < |results|
      invariant 0 <= i <= |results|
      invariant AllSettled(results[..i])
      invariant successes == CleanCount(results[..i])
      invariant errors == AllErrors(results[..i])
    {
      assert results[..i + 1][..i] == results[..i];
      match results[i]
      case Rejected(reason) =>
        return Thrown(reason);
      case Settled(errs) =>
        if |errs| > 0 {
          errors := errors + errs;
        } else {
          successes := successes + 1;
        }
      i := i + 1;
    }
    assert results[..i] == results;
    CountsAddUp(results);
    return Returned(successes, errors);
  }

  /**
   * `upload`: both stages run whatever happens, then the seven results are
   * aggregated in the order jwlers, clients, locations, tours,
   * jwler availabilities, client availabilities, tour elements.
   */
  method Upload(server: Server, data: StateData, cs: Changeset, fix: Reconciliation) returns (out: UploadResult)
    ensures out.Thrown? <==> exists i :: 0 <= i < 7 && UploadResults(server, data, cs, fix)[i].Rejected?
    ensures out.Thrown? ==>
              exists i :: 0 <= i < 7 && UploadResults(server, data, cs, fix)[i] == Rejected(out.reason)
                && AllSettled(UploadResults(server, data, cs, fix)[..i])
    ensures out.Returned? ==>
              && out.successes == CleanCount(UploadResults(server, data, cs, fix))
              && out.errors == AllErrors(UploadResults(server, data, cs, fix))
              && out.successes + ErrorfulCount(UploadResults(server, data, cs, fix)) == 7
  {
    out := Aggregate(UploadResults(server, data, cs, fix));
  }

  // ---------------------------------------------------------------------
  // The two stages

  /** The events of the kinds' uploads, each tagged with its kind, kind after kind. */
  function Trace(kinds: seq<Kind>, runs: seq<Run<StateData, Model>>): (t: seq<(Kind, Event<Model>)>)
    requires |kinds| == |runs|
    decreases |kinds|
  {
    if kinds == [] then []
    else
      var n := |kinds| - 1;
      Trace(kinds[..n], runs[..n]) + Tagged(kinds[n], runs[n].log)
  }

  /** One kind's log, each event tagged with the kind. */
  function Tagged(k: Kind, log: seq<Event<Model>>): (t: seq<(Kind, Event<Model>)>)
    ensures |t| == |log|
  {
    seq(|log|, i requires 0 <= i < |log| => (k, log[i]))
  }

  lemma {:induction false} TraceTags(kinds: seq<Kind>, runs: seq<Run<StateData, Model>>)
    requires |kinds| == |runs|
    ensures forall i :: 0 <= i < |Trace(kinds, runs)| ==> Trace(kinds, runs)[i].0 in kinds
    decreases |kinds|
  {
    if kinds != [] {
      var n := |kinds| - 1;
      TraceTags(kinds[..n], runs[..n]);
      assert forall k :: k in kinds[..n] ==> k in kinds;
    }
  }

  lemma {:induction false} TraceSplits(k1: seq<Kind>, r1: seq<Run<StateData, Model>>, k2: seq<Kind>, r2: seq<Run<StateData, Model>>)
    requires |k1| == |r1| && |k2| == |r2|
    ensures Trace(k1 + k2, r1 + r2) == Trace(k1, r1) + Trace(k2, r2)
    decreases |k2|
  {
    if k2 == [] {
      assert k1 + k2 == k1 && r1 + r2 == r1;
    } else {
      var n := |k2| - 1;
      var m := |k1| + n;
      TraceSplits(k1, r1, k2[..n], r2[..n]);
      assert (k1 + k2)[..m] == k1 + k2[..n];
      assert (r1 + r2)[..m] == r1 + r2[..n];
      assert (k1 + k2)[m] == k2[n];
      assert (r1 + r2)[m] == r2[n];
      calc {
        Trace(k1 + k2, r1 + r2);
        Trace(k1 + k2[..n], r1 + r2[..n]) + Tagged(k2[n], r2[n].log);
        Trace(k1, r1) + Trace(k2[..n], r2[..n]) + Tagged(k2[n], r2[n].log);
        Trace(k1, r1) + (Trace(k2[..n], r2[..n]) + Tagged(k2[n], r2[n].log));
      }
    }
  }

  /**
   * Every event of the four stage-A kinds comes before every event of the
   * three stage-B kinds: once a stage-B kind has begun, only stage-B
   * events follow.
   */
  lemma StageAPrecedesStageB(server: Server, data: StateData, cs: Changeset, fix: Reconciliation)
    ensures var t := Trace(UploadOrder, UploadRuns(server, data, cs, fix));
      forall i, j :: 0 <= i < j < |t| && t[i].0 in StageB ==> t[j].0 in StageB
  {
    var a := StageRuns(server, data, cs, StageA, [], fix);
    var b := StageRuns(server, StoreAfter(data, a), cs, StageB, IdChangesOf(a), fix);
    StagesInOrder(a, b);
  }

  /** The trace of any four stage-A runs followed by any three stage-B runs keeps the stages apart. */
  lemma StagesInOrder(a: seq<Run<StateData, Model>>, b: seq<Run<StateData, Model>>)
    requires |a| == |StageA| && |b| == |StageB|
    ensures var t := Trace(UploadOrder, a + b);
      forall i, j :: 0 <= i < j < |t| && t[i].0 in StageB ==> t[j].0 in StageB
  {
    var ta := Trace(StageA, a);
    var tb := Trace(StageB, b);
    assert Trace(UploadOrder, a + b) == ta + tb by {
      TraceSplits(StageA, a, StageB, b);
    }
    assert forall i :: 0 <= i < |ta| ==> ta[i].0 !in StageB by {
      TraceTags(StageA, a);
      assert forall k :: k in StageA ==> k !in StageB;
    }
    assert forall i :: 0 <= i < |tb| ==> tb[i].0 in StageB by {
      TraceTags(StageB, b);
    }
    TaggedBlocks(ta, tb, StageB);
  }

  /** Before a block of events tagged inside `tags` come only events tagged outside it: once inside, the rest stays inside. */
  lemma TaggedBlocks<E>(ta: seq<(Kind, E)>, tb: seq<(Kind, E)>, tags: seq<Kind>)
    requires forall i :: 0 <= i < |ta| ==> ta[i].0 !in tags
    requires forall i :: 0 <= i < |tb| ==> tb[i].0 in tags
    ensures forall i, j :: 0 <= i < j < |ta + tb| && (ta + tb)[i].0 in tags ==> (ta + tb)[j].0 in tags
  {
    var t := ta + tb;
    forall i, j | 0 <= i < j < |t| && t[i].0 in tags
      ensures t[j].0 in tags
    {
      assert t[j] == tb[j - |ta|];
    }
  }

  /** With a server that never fails, every kind of a stage settles without errors. */
  lemma StageRunsClean(server: Server, data: StateData, cs: Changeset, kinds: seq<Kind>, changes: seq<(Model, Model)>, fix: Reconciliation)
    requires forall k, p: nat, c: Call<Model> :: server(k, p, c).Ok?
    ensures forall i :: 0 <= i < |kinds| ==> ResultOf(StageRuns(server, data, cs, kinds, changes, fix)[i]) == Settled([])
  {
    var runs := StageRuns(server, data, cs, kinds, changes, fix);
    forall i | 0 <= i < |kinds| ensures ResultOf(runs[i]) == Settled([]) {
      StageRunAt(server, data, cs, kinds, changes, fix, i);
      AcceptingServerSettlesCleanly(KindApi(server, kinds[i], fix), StoreBefore(data, runs, i), Payload(cs, kinds[i], changes));
    }
  }

  /** A server that never fails makes `upload` return seven successes and no errors. */
  lemma AcceptingServerUploadsCleanly(server: Server, data: StateData, cs: Changeset, fix: Reconciliation)
    requires forall k, p: nat, c: Call<Model> :: server(k, p, c).Ok?
    ensures forall i :: 0 <= i < 7 ==> UploadResults(server, data, cs, fix)[i] == Settled([])
    ensures CleanCount(UploadResults(server, data, cs, fix)) == 7 && AllErrors(UploadResults(server, data, cs, fix)) == []
  {
    var a := StageRuns(server, data, cs, StageA, [], fix);
    StageRunsClean(server, data, cs, StageA, [], fix);
    StageRunsClean(server, StoreAfter(data, a), cs, StageB, IdChangesOf(a), fix);
    var rs := UploadResults(server, data, cs, fix);
    assert forall i :: 0 <= i < 7 ==> rs[i] == Settled([]);
    AllCleanCounts(rs);
  }

  lemma {:induction false} AllCleanCounts(rs: seq<KindResult>)
    requires forall i :: 0 <= i < |rs| ==> rs[i] == Settled([])
    ensures CleanCount(rs) == |rs| && AllErrors(rs) == []
    decreases |rs|
  {
    if rs != [] {
      AllCleanCounts(rs[..|rs| - 1]);
    }
  }
}
