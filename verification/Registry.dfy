/** The registry of providers, as the controller uses it: to look a provider up and let it accept parameters. */
module Registry {
  import opened Prelude
  import opened Machine
  import Coherence
  import StaticGenerator

  /** The registered providers by name, each with the parameters it accepts. */
  type Providers = map<string, map<string, string> -> bool>

  /** A provider is registered under the name and accepts the parameters. */
  predicate Accepts(registered: Providers, name: string, params: map<string, string>) {
    name in registered && registered[name](params)
  }

  /** The controller looks providers up in this registry. */
  ghost predicate LooksUp(c: Config, registered: Providers) {
    forall name, params :: c.healthy(name, params) <==> Accepts(registered, name, params)
  }

  /** With the registry behind the controller, the password generator is only ever called with a length of 8 to 256. */
  lemma GeneratorCanServe(c: Config, s: State, registered: Providers)
    requires Reachable(c, s) && s.pc.CallingProvider? && LooksUp(c, registered)
    requires s.mem.obj.spec.provider == "static" && "static" in registered
    requires forall params :: registered["static"](params) == StaticGenerator.Validate(params)
    ensures var n := StaticGenerator.Length(s.mem.obj.spec.params); 8 <= n <= 256
  {
    Coherence.OnlyAcceptedParametersAreUsed(c, s);
    assert Accepts(registered, "static", s.mem.obj.spec.params);
  }
}
