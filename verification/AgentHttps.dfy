/** The agent HTTPS listener: configuration applied in phases, while listeners fail, drain and
    close around it.  Each event is one critical section of the panel. */
module AgentHttps {
  import opened Collections

  datatype Config = Config(enabled: bool, url: string, listen: string, certificate: int)

  datatype Material = Material(config: Config, digest: int)

  /** A listener: the material it serves, whether it is closing, and whether it failed by itself. */
  datatype Endpoint = Endpoint(material: Material, closing: bool, failed: bool)

  /** How far the holder of the apply lock has come. */
  datatype Phase =
    | Free
    | Checked(config: Config, digest: int)
    | Preparing(config: Config)
    | Binding(former: Option<int>, data: Material)

  datatype State = State(endpoints: map<int, Endpoint>, active: Option<int>, drains: set<int>, closed: bool,
                         error: bool, phase: Phase, next: int)

  const INITIAL := State(map[], None, {}, false, false, Free, 0)

  datatype Event =
    | Begin(config: Config, digest: int, cancelled: bool, valid: bool)
    | Compare(expired: bool)
    | Commit(prepared: bool, digest: int)
    | Install(bound: bool, cancelled: bool)
    | Report
    | ServeFailed(id: int)
    | DrainDone(id: int)
    | Close

  /** What an event means for the Apply in progress. */
  datatype Outcome = Elsewhere | Going | Refused | Applied

  // ----- the critical sections -----------------------------------------------------------------

  function Fail(s: State): State { if s.closed then s else s.(error := true) }

  function Retire(s: State, id: Option<int>): State {
    if id.Some? && id.value in s.endpoints then
      s.(endpoints := s.endpoints[id.value := s.endpoints[id.value].(closing := true)], drains := s.drains + {id.value})
    else s
  }

  function Current(s: State): Option<Material> {
    if s.active.Some? && s.active.value in s.endpoints then Some(s.endpoints[s.active.value].material) else None
  }

  /** One event; an event that is not enabled changes nothing. */
  function Step(s: State, e: Event): (State, Outcome) {
    match e
    case Begin(config, digest, cancelled, valid) =>
      if s.phase != Free then (s, Elsewhere)
      else if cancelled || s.closed then (s, Refused)
      else if !valid then (Fail(s), Refused)
      else (s.(phase := Checked(config, digest)), Going)
    case Compare(expired) =>
      if !s.phase.Checked? then (s, Elsewhere)
      else if s.active.Some? && s.phase.config.enabled && Current(s) == Some(Material(s.phase.config, s.phase.digest)) then
        if expired then (s.(error := true, phase := Free), Refused) else (s.(error := false, phase := Free), Applied)
      else (s.(phase := Preparing(s.phase.config)), Going)
    case Commit(prepared, digest) =>
      if !s.phase.Preparing? then (s, Elsewhere)
      else if !prepared then (Fail(s).(phase := Free), Refused)
      else
        var data := Material(s.phase.config, digest);
        if !data.config.enabled then (Retire(s, s.active).(active := None, error := false, phase := Free), Applied)
        else if s.active.Some? && s.active.value in s.endpoints && s.endpoints[s.active.value].material.config.listen == data.config.listen then
          (s.(endpoints := s.endpoints[s.active.value := s.endpoints[s.active.value].(material := data)], error := false, phase := Free), Applied)
        else (s.(phase := Binding(s.active, data)), Going)
    case Install(bound, cancelled) =>
      if !s.phase.Binding? then (s, Elsewhere)
      else if !bound then (Fail(s).(phase := Free), Refused)
      else if cancelled then (s.(phase := Free), Refused)
      else
        (Retire(s, s.phase.former).(endpoints := Retire(s, s.phase.former).endpoints[s.next := Endpoint(s.phase.data, false, false)],
                                    active := Some(s.next), error := false, phase := Free, next := s.next + 1), Applied)
    case Report => (Fail(s), Elsewhere)
    case ServeFailed(id) =>
      if id !in s.endpoints then (s, Elsewhere)
      else
        var t := s.(endpoints := s.endpoints[id := s.endpoints[id].(failed := true)]);
        (if s.active == Some(id) then t.(active := None, error := true) else t, Elsewhere)
    case DrainDone(id) => (s.(drains := s.drains - {id}), Elsewhere)
    case Close =>
      if s.phase != Free then (s, Elsewhere)
      else (Retire(s, s.active).(active := None, closed := true, error := false), Elsewhere)
  }

  // ----- what every interleaving keeps ------------------------------------------------------------

  /** A listener that accepts handshakes: neither closing nor failed. */
  predicate Serving(s: State, id: int) { id in s.endpoints && !s.endpoints[id].closing && !s.endpoints[id].failed }

  ghost predicate Inv(s: State) {
    && (forall id | id in s.endpoints :: 0 <= id < s.next)
    && (forall id :: Serving(s, id) <==> s.active == Some(id))
    && (forall id | id in s.drains :: id in s.endpoints && s.endpoints[id].closing)
    && (s.closed ==> s.active == None && s.phase == Free)
    && (s.phase.Binding? ==> s.active == None || s.active == s.phase.former)
    && (s.phase.Binding? ==> s.phase.data.config.enabled)
    && (s.active.Some? ==> s.active.value in s.endpoints && s.endpoints[s.active.value].material.config.enabled)
    && s.next >= 0
  }

  lemma BeginKeepsInv(s: State, config: Config, digest: int, cancelled: bool, valid: bool)
    requires Inv(s)
    ensures Inv(Step(s, Begin(config, digest, cancelled, valid)).0)
  {
  }

  lemma CompareKeepsInv(s: State, expired: bool)
    requires Inv(s)
    ensures Inv(Step(s, Compare(expired)).0)
  {
  }

  lemma CommitKeepsInv(s: State, prepared: bool, digest: int)
    requires Inv(s)
    ensures Inv(Step(s, Commit(prepared, digest)).0)
  {
    var t := Step(s, Commit(prepared, digest)).0;
    forall o
      ensures Serving(t, o) <==> t.active == Some(o)
    {
      assert Serving(s, o) <==> s.active == Some(o);
    }
  }

  lemma InstallKeepsInv(s: State, bound: bool, cancelled: bool)
    requires Inv(s)
    ensures Inv(Step(s, Install(bound, cancelled)).0)
  {
    var t := Step(s, Install(bound, cancelled)).0;
    forall o
      ensures Serving(t, o) <==> t.active == Some(o)
    {
      assert Serving(s, o) <==> s.active == Some(o);
    }
  }

  lemma ServeFailedKeepsInv(s: State, id: int)
    requires Inv(s)
    ensures Inv(Step(s, ServeFailed(id)).0)
  {
    var t := Step(s, ServeFailed(id)).0;
    forall o
      ensures Serving(t, o) <==> t.active == Some(o)
    {
      assert Serving(s, o) <==> s.active == Some(o);
    }
  }

  lemma CloseKeepsInv(s: State)
    requires Inv(s)
    ensures Inv(Step(s, Close).0)
  {
    var t := Step(s, Close).0;
    forall o
      ensures Serving(t, o) <==> t.active == Some(o)
    {
      assert Serving(s, o) <==> s.active == Some(o);
    }
  }

  lemma SameListenersKeepInv(s: State, t: State)
    requires Inv(s) && t == s.(drains := t.drains, error := t.error) && t.drains <= s.drains
    ensures Inv(t)
  {
    forall o
      ensures Serving(t, o) <==> t.active == Some(o)
    {
      assert Serving(s, o) <==> s.active == Some(o);
    }
  }

  lemma StepKeepsInv(s: State, e: Event)
    requires Inv(s)
    ensures Inv(Step(s, e).0)
  {
    hide Inv, Step;
    match e
    case Begin(config, digest, cancelled, valid) => BeginKeepsInv(s, config, digest, cancelled, valid);
    case Compare(expired) => CompareKeepsInv(s, expired);
    case Commit(prepared, digest) => CommitKeepsInv(s, prepared, digest);
    case Install(bound, cancelled) => InstallKeepsInv(s, bound, cancelled);
    case Report => ReportKeepsInv(s);
    case ServeFailed(id) => ServeFailedKeepsInv(s, id);
    case DrainDone(id) => DrainKeepsInv(s, id);
    case Close => CloseKeepsInv(s);
  }

  lemma ReportKeepsInv(s: State)
    requires Inv(s)
    ensures Inv(Step(s, Report).0)
  {
    hide Inv;
    SameListenersKeepInv(s, Step(s, Report).0);
  }

  lemma DrainKeepsInv(s: State, id: int)
    requires Inv(s)
    ensures Inv(Step(s, DrainDone(id)).0)
  {
    hide Inv;
    SameListenersKeepInv(s, Step(s, DrainDone(id)).0);
  }

  function At(run: seq<Event>, i: nat): State
    requires i <= |run|
  {
    if i == 0 then INITIAL else Step(At(run, i - 1), run[i - 1]).0
  }

  function OutcomeAt(run: seq<Event>, i: nat): Outcome
    requires i < |run|
  {
    Step(At(run, i), run[i]).1
  }

  /** In every interleaving the active listener is the one and only listener serving, and every
      draining one is closing. */
  lemma {:induction false} OneListenerServes(run: seq<Event>, i: nat)
    requires i <= |run|
    ensures Inv(At(run, i))
  {
    hide Inv, Step;
    if i == 0 {
      InitialInv();
    } else {
      OneListenerServes(run, i - 1);
      StepKeepsInv(At(run, i - 1), run[i - 1]);
    }
  }

  lemma InitialInv()
    ensures Inv(INITIAL)
  {
  }

  /** Once closed, the manager stays closed and nothing is ever installed again. */
  lemma {:induction false} ClosedForGood(run: seq<Event>, i: nat, j: nat)
    requires i <= j <= |run| && At(run, i).closed
    ensures At(run, j).closed && At(run, j).active == None && At(run, j).endpoints.Keys == At(run, i).endpoints.Keys
    decreases j
  {
    OneListenerServes(run, i);
    if i < j {
      ClosedForGood(run, i, j - 1);
      OneListenerServes(run, j - 1);
      ClosedStep(At(run, j - 1), run[j - 1]);
    }
  }

  lemma ClosedStep(s: State, e: Event)
    requires Inv(s) && s.closed
    ensures var t := Step(s, e).0; t.closed && t.active == None && t.endpoints.Keys == s.endpoints.Keys
  {
  }

  /** No event of a run from `i` to `j` applies a configuration or closes the manager. */
  ghost predicate NothingApplied(run: seq<Event>, i: nat, j: nat)
    requires i <= j <= |run|
  {
    forall k | i <= k < j :: OutcomeAt(run, k) != Applied && !(run[k].Close? && At(run, k).phase == Free)
  }

  /** An Apply that fails, in whatever phase and whatever else happens meanwhile, changes neither
      the active listener nor the material of any: the listener can only be lost by failing itself. */
  lemma {:induction false} FailedApplyChangesNothing(run: seq<Event>, i: nat, j: nat)
    requires i <= j <= |run| && NothingApplied(run, i, j)
    ensures At(run, j).endpoints.Keys == At(run, i).endpoints.Keys
    ensures forall id | id in At(run, i).endpoints ::
      At(run, j).endpoints[id].material == At(run, i).endpoints[id].material && At(run, j).endpoints[id].closing == At(run, i).endpoints[id].closing
    ensures At(run, j).active == At(run, i).active || (At(run, j).active == None && exists k: nat | i <= k < j :: run[k] == ServeFailed(At(run, i).active.value))
    decreases j
  {
    hide Step, Inv;
    if i < j {
      FailedApplyChangesNothing(run, i, j - 1);
      OneListenerServes(run, j - 1);
      assert OutcomeAt(run, j - 1) != Applied;
      QuietStep(At(run, j - 1), run[j - 1]);
    }
  }

  lemma QuietStep(s: State, e: Event)
    requires Inv(s) && Step(s, e).1 != Applied && !(e.Close? && s.phase == Free)
    ensures var t := Step(s, e).0;
      && t.endpoints.Keys == s.endpoints.Keys
      && (forall id | id in s.endpoints :: t.endpoints[id].material == s.endpoints[id].material && t.endpoints[id].closing == s.endpoints[id].closing)
      && (t.active == s.active || (t.active == None && s.active.Some? && e == ServeFailed(s.active.value)))
  {
  }

  /** A replacement that succeeds: the new listener serves the applied material, and the one it
      replaces was serving until this very event and is closing from it on. */
  lemma ReplacementIsAtomic(run: seq<Event>, i: nat)
    requires i < |run| && run[i].Install? && OutcomeAt(run, i) == Applied
    ensures var s, t := At(run, i), At(run, i + 1);
      && t.active.Some? && t.active.value !in s.endpoints && t.endpoints[t.active.value].material == s.phase.data
      && (s.active.Some? ==> Serving(s, s.active.value) && t.endpoints[s.active.value].closing && s.active.value in t.drains)
      && forall id | Serving(t, id) :: id == t.active.value
  {
    OneListenerServes(run, i);
    OneListenerServes(run, i + 1);
  }

  /** An Apply that nothing goes wrong with, and nobody comes between. */
  function Undisturbed(s: State, config: Config, digest: int): State {
    var a := Step(s, Begin(config, digest, false, true)).0;
    var b := Step(a, Compare(false)).0;
    var c := Step(b, Commit(true, digest)).0;
    Step(c, Install(true, false)).0
  }

  /** It succeeds: afterwards the manager is free without an error and serves exactly the material
      applied, or nothing if the configuration is disabled; and material already served stays on
      the listener that serves it. */
  lemma UndisturbedApply(s: State, config: Config, digest: int)
    requires Inv(s) && s.phase == Free && !s.closed
    ensures var t := Undisturbed(s, config, digest);
      && t.phase == Free && !t.error && !t.closed
      && (config.enabled ==> t.active.Some? && t.active.value in t.endpoints && t.endpoints[t.active.value].material == Material(config, digest))
      && (!config.enabled ==> t.active == None)
      && (s.active.Some? && config.enabled && s.endpoints[s.active.value].material.config.listen == config.listen ==> t.active == s.active)
  {
    hide Serving;
  }

  // ----- the manager as an object --------------------------------------------------------------------

  class Manager {
    var endpoints: map<int, Endpoint>
    var active: Option<int>
    var drains: set<int>
    var closed: bool
    var error: bool
    var phase: Phase
    var next: int

    ghost function View(): State
      reads this
    {
      State(endpoints, active, drains, closed, error, phase, next)
    }

    ghost predicate Valid()
      reads this
    {
      Inv(View())
    }

    constructor ()
      ensures Valid() && View() == INITIAL
    {
      endpoints, active, drains, closed, error, phase, next := map[], None, {}, false, false, Free, 0;
    }

    /** Mark a listener unavailable at once and let it drain. */
    method RetireLocked(id: Option<int>)
      modifies this`endpoints, this`drains
      ensures View() == Retire(old(View()), id)
    {
      if id.Some? && id.value in endpoints {
        endpoints := endpoints[id.value := endpoints[id.value].(closing := true)];
        drains := drains + {id.value};
      }
    }

    /** The start of Apply, under the apply lock. */
    method BeginApply(config: Config, digest: int, cancelled: bool, valid: bool) returns (outcome: Outcome)
      requires Valid() && phase == Free
      modifies this
      ensures Valid() && (View(), outcome) == Step(old(View()), Begin(config, digest, cancelled, valid))
    {
      hide Inv;
      StepKeepsInv(View(), Begin(config, digest, cancelled, valid));
      if cancelled || closed {
        return Refused;
      }
      if !valid {
        error := true;
        return Refused;
      }
      phase := Checked(config, digest);
      outcome := Going;
    }

    /** The first locked section of Apply: material that is already served is not prepared again. */
    method CompareCurrent(expired: bool) returns (outcome: Outcome)
      requires Valid() && phase.Checked?
      modifies this
      ensures Valid() && (View(), outcome) == Step(old(View()), Compare(expired))
    {
      StepKeepsInv(View(), Compare(expired));
      var config := phase.config;
      if active.Some? && config.enabled {
        var current := endpoints[active.value].material;
        if current.config == config && current.digest == phase.digest {
          error, phase := expired, Free;
          return if expired then Refused else Applied;
        }
      }
      phase := Preparing(config);
      outcome := Going;
    }

    /** The second locked section of Apply. */
    method CommitPrepared(prepared: bool, digest: int) returns (outcome: Outcome)
      requires Valid() && phase.Preparing?
      modifies this
      ensures Valid() && (View(), outcome) == Step(old(View()), Commit(prepared, digest))
    {
      hide Inv;
      StepKeepsInv(View(), Commit(prepared, digest));
      var config := phase.config;
      if !prepared {
        phase := Free;
        if !closed {
          error := true;
        }
        return Refused;
      }
      var data := Material(config, digest);
      if !config.enabled {
        RetireLocked(active);
        active, error, phase := None, false, Free;
        return Applied;
      }
      if active.Some? && active.value in endpoints && endpoints[active.value].material.config.listen == config.listen {
        endpoints := endpoints[active.value := endpoints[active.value].(material := data)];
        error, phase := false, Free;
        return Applied;
      }
      phase := Binding(active, data);
      outcome := Going;
    }

    /** The last section of Apply: the socket is bound, or not. */
    method InstallBound(bound: bool, cancelled: bool) returns (outcome: Outcome)
      requires Valid() && phase.Binding?
      modifies this
      ensures Valid() && (View(), outcome) == Step(old(View()), Install(bound, cancelled))
    {
      hide Inv;
      StepKeepsInv(View(), Install(bound, cancelled));
      var former, data := phase.former, phase.data;
      phase := Free;
      if !bound {
        if !closed {
          error := true;
        }
        return Refused;
      }
      if cancelled {
        return Refused;
      }
      active, error := Some(next), false;
      RetireLocked(former);
      endpoints := endpoints[next := Endpoint(data, false, false)];
      next := next + 1;
      outcome := Applied;
    }

    /** The serving goroutine of a listener ends with an error. */
    method OnServeFailed(id: int)
      requires Valid()
      modifies this
      ensures Valid() && View() == Step(old(View()), ServeFailed(id)).0
    {
      hide Inv;
      StepKeepsInv(View(), ServeFailed(id));
      if id in endpoints {
        endpoints := endpoints[id := endpoints[id].(failed := true)];
        if active == Some(id) {
          active, error := None, true;
        }
      }
    }

    /** Close the manager for good. */
    method Shutdown()
      requires Valid() && phase == Free
      modifies this
      ensures Valid() && View() == Step(old(View()), Close).0 && closed && active == None
    {
      hide Inv;
      StepKeepsInv(View(), Close);
      closed := true;
      RetireLocked(active);
      active, error := None, false;
    }
  }
}
