/** What the concrete schedules of the runner share: one plugin, one request, and steps one at a time. */
module RunnerScenes {
  import opened ProviderModels
  import opened Circuit
  import opened ProviderRunner
  import opened RunnerProgress

  const P := "p"
  const PLUGINS := [Plugin(P, {1}, true, true, true)]
  const REQUEST := PriceRequest(1, TokenRef(1, "t"))
  const SCOPE := Scope(P, 1, Price)

  /** Adds a step that is enabled to a schedule. */
  lemma Played(c: Config, steps: seq<Step>, step: Step) returns (next: seq<Step>)
    requires Feasible(c, steps) && Enabled(c, Exec(c, steps), step)
    ensures next == steps + [step] && Feasible(c, next) && Exec(c, next) == Apply(c, Exec(c, steps), step)
  {
    Extend(c, steps, step);
    next := steps + [step];
  }
}
