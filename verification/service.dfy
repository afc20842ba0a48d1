/** The exporter service around the reconciliation pass.

    Its observable state is the gauge and whether the scrape server has been
    started. Startup reconciles against the current snapshot and only then starts
    the server; every later change notification reruns the pass with the new
    snapshot, one notification at a time.
 */
module MetricsService {
  import opened Updates
  import opened Gauges
  import opened Reconciliation

  /** The gauge's series and whether the scrape server is accepting requests. */
  datatype State = State(registry: Registry, serverStarted: bool)

  /** The state the constructor leaves: a freshly created gauge without series and
      a scrape server that exists but has not been started. */
  const Constructed: State := State(Empty, false)

  /** Handles one change notification carrying the new snapshot. */
  function OnUpdatesChanged(s: State, updates: set<Update>): (r: State)
    requires WellLabelled(s.registry)
    ensures WellLabelled(r.registry)
    ensures r.registry == Target(updates)
    ensures r.serverStarted == s.serverStarted
  {
    Convergence(s.registry, updates);
    s.(registry := Reconcile(s.registry, updates))
  }

  /** The states startup passes through: the state it starts from, the state after
      the initial pass against `current`, and the state after the server starts. */
  function ExecuteSteps(s: State, current: set<Update>): (t: seq<State>)
    requires WellLabelled(s.registry)
    requires !s.serverStarted
    ensures |t| == 3 && t[0] == s
    ensures forall i :: 0 <= i < |t| ==> WellLabelled(t[i].registry)
    ensures t[|t| - 1].serverStarted
    ensures forall i :: 0 <= i < |t| && t[i].serverStarted ==> t[i].registry == Target(current)
  {
    var populated := OnUpdatesChanged(s, current);
    [s, populated, populated.(serverStarted := true)]
  }

  /** The state startup ends in. */
  function Execute(s: State, current: set<Update>): (r: State)
    requires WellLabelled(s.registry)
    requires !s.serverStarted
    ensures WellLabelled(r.registry)
    ensures r.serverStarted
    ensures r.registry == Target(current)
  {
    var t := ExecuteSteps(s, current);
    t[|t| - 1]
  }

  /** Delivers the notifications in `events` one after another. */
  function Run(s: State, events: seq<set<Update>>): (r: State)
    requires WellLabelled(s.registry)
    ensures WellLabelled(r.registry)
    ensures r.serverStarted == s.serverStarted
    decreases |events|
  {
    if events == [] then s
    else Run(OnUpdatesChanged(s, events[0]), events[1..])
  }

  /** The snapshot the gauge should reflect: the last notification's, or the
      startup snapshot if none has arrived. */
  function Latest(current: set<Update>, events: seq<set<Update>>): set<Update>
  {
    if events == [] then current else events[|events| - 1]
  }

  /** After any non-empty run of notifications the gauge reflects the last one:
      no snapshot is merged with an earlier one, and none lingers. */
  lemma {:induction false} RunConverges(s: State, events: seq<set<Update>>)
    requires WellLabelled(s.registry)
    requires events != []
    ensures Run(s, events).registry == Target(events[|events| - 1])
    decreases |events|
  {
    if |events| > 1 {
      RunConverges(OnUpdatesChanged(s, events[0]), events[1..]);
      assert events[1..][|events[1..]| - 1] == events[|events| - 1];
    }
  }

  /** Over the life of the process the server stays stopped until startup; once
      startup has finished the server is running and the gauge reflects the most
      recent snapshot, whether that came from the startup query or from a
      notification. The handler is subscribed by the constructor, so
      notifications may also arrive before startup. */
  lemma Lifetime(early: seq<set<Update>>, current: set<Update>, events: seq<set<Update>>)
    ensures !Run(Constructed, early).serverStarted
    ensures var r := Run(Execute(Run(Constructed, early), current), events);
            r.serverStarted && r.registry == Target(Latest(current, events))
  {
    if events != [] {
      RunConverges(Execute(Run(Constructed, early), current), events);
    }
  }
}
