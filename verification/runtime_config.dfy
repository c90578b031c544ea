/**
  The web app's start-up configuration (webapp/nuxt.config.ts): the
  development-only switch that lets the server accept self-signed backend
  certificates, and the three runtime settings read from the environment
  with JavaScript `||` fallbacks, under which an empty value counts as unset.
 */
module RuntimeConfig {
  import opened Common

  /** `process.env`: variable name to value; names are case-sensitive. */
  type Env = map<string, string>

  function Var(env: Env, name: string): Option<string>
  {
    if name in env then Some(env[name]) else None
  }

  const DefaultApiUrl := "https://localhost:7275"
  const ApiUrlVar := "ApiUrl"
  const HostnameVar := "PUBLIC_HOSTNAME"
  const HostVar := "PUBLIC_HOST"
  const ProtoVar := "PUBLIC_PROTO"
  const SchemeVar := "PUBLIC_SCHEME"
  const NodeEnvVar := "NODE_ENV"
  const TlsRejectVar := "NODE_TLS_REJECT_UNAUTHORIZED"

  datatype Config = Config(apiUrl: string, publicHost: string, publicProto: string)

  /** `runtimeConfig`: `ApiUrl` or the local default; `PUBLIC_HOSTNAME`, else
      `PUBLIC_HOST`, else ""; `PUBLIC_PROTO`, else `PUBLIC_SCHEME`, else "". */
  function Load(env: Env): (c: Config)
    ensures Present(Var(env, ApiUrlVar)) ==> c.apiUrl == env[ApiUrlVar]
    ensures !Present(Var(env, ApiUrlVar)) ==> c.apiUrl == DefaultApiUrl
    ensures Present(Var(env, HostnameVar)) ==> c.publicHost == env[HostnameVar]
    ensures !Present(Var(env, HostnameVar)) && Present(Var(env, HostVar)) ==> c.publicHost == env[HostVar]
    ensures !Present(Var(env, HostnameVar)) && !Present(Var(env, HostVar)) ==> c.publicHost == ""
    ensures Present(Var(env, ProtoVar)) ==> c.publicProto == env[ProtoVar]
    ensures !Present(Var(env, ProtoVar)) && Present(Var(env, SchemeVar)) ==> c.publicProto == env[SchemeVar]
    ensures !Present(Var(env, ProtoVar)) && !Present(Var(env, SchemeVar)) ==> c.publicProto == ""
  {
    Config(
      OrElse(Var(env, ApiUrlVar), DefaultApiUrl),
      OrElse(Var(env, HostnameVar), OrElse(Var(env, HostVar), "")),
      OrElse(Var(env, ProtoVar), OrElse(Var(env, SchemeVar), "")))
  }

  /** Outside production, certificate checking for outgoing requests is
      switched off by setting `NODE_TLS_REJECT_UNAUTHORIZED` to "0"; no other
      variable changes. An unset `NODE_ENV` counts as not production. */
  function ApplyDevTls(env: Env): (env': Env)
    ensures Var(env, NodeEnvVar) == Some("production") ==> env' == env
    ensures Var(env, NodeEnvVar) != Some("production") ==> Var(env', TlsRejectVar) == Some("0")
    ensures forall k :: k != TlsRejectVar ==> Var(env', k) == Var(env, k)
  {
    if Var(env, NodeEnvVar) != Some("production") then env[TlsRejectVar := "0"] else env
  }

  /** An empty value behaves exactly like an unset one in every chain. */
  lemma EmptyIsUnset(env: Env, name: string)
    requires name in env && env[name] == ""
    ensures Load(env) == Load(env - {name})
  {
    var env' := env - {name};
    assert forall k :: Present(Var(env, k)) <==> Present(Var(env', k));
    assert forall k :: Present(Var(env, k)) ==> Var(env, k) == Var(env', k);
  }

  /** The certificate switch runs first but does not change the configuration. */
  lemma DevTlsLeavesConfig(env: Env)
    ensures Load(ApplyDevTls(env)) == Load(env)
  {
  }
}
