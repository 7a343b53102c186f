/** `get_config` of the current poller: the defaults, overridden by the
    config file, overridden by non-empty environment variables, then each
    value coerced to the kind of its default. Also `str_to_bool` and the
    registry of supported modem models. */
module Config {
  import opened Common
  import opened Text

  /** A config value: the kinds the defaults use, plus the str every file
      or environment value starts as. */
  datatype Setting = SBool(b: bool) | SInt(n: int) | SStr(s: string) | SNone

  type Settings = seq<(string, Setting)>

  /** The default config, in its declaration order (the order every loop
      of `get_config` visits the parameters). */
  function Defaults(): Settings {
    [
      ("arris_stats_debug", SBool(false)),
      ("destination", SStr("influxdb")),
      ("sleep_interval", SInt(10)),
      ("modem_url", SStr("https://192.168.100.1/cmconnectionstatus.html")),
      ("modem_verify_ssl", SBool(false)),
      ("modem_auth_required", SBool(false)),
      ("modem_username", SStr("admin")),
      ("modem_password", SNone),
      ("modem_model", SStr("sb8200")),
      ("exit_on_auth_error", SBool(true)),
      ("exit_on_html_error", SBool(true)),
      ("clear_auth_token_on_html_error", SBool(true)),
      ("sleep_before_exit", SBool(true)),
      ("influx_host", SStr("localhost")),
      ("influx_port", SInt(8086)),
      ("influx_database", SStr("cable_modem_stats")),
      ("influx_username", SNone),
      ("influx_password", SNone),
      ("influx_use_ssl", SBool(false)),
      ("influx_verify_ssl", SBool(true)),
      ("timestream_aws_access_key_id", SNone),
      ("timestream_aws_secret_access_key", SNone),
      ("timestream_database", SNone),
      ("timestream_table", SStr("cable_modem_stats"))
    ]
  }

  /** Index of `modem_model` among the defaults. */
  const ModelIndex: nat := 8

  /** The models `get_config` accepts (`modems_supported`). */
  predicate Supported(model: string) {
    model == "sb8200" || model == "sb6183"
  }

  /** The parser the dynamic import picks for a supported model. */
  datatype Parser = ParseSb8200 | ParseSb6183

  function ParserFor(model: string): (p: Option<Parser>)
    ensures p.Some? <==> Supported(model)
  {
    if model == "sb8200" then Some(ParseSb8200)
    else if model == "sb6183" then Some(ParseSb6183)
    else None
  }

  /** `str_to_bool`: "true" or "false" in any case; anything else raises. */
  function StrToBool(s: string): (r: Result<bool>)
    ensures r.Ok? <==> Lower(s) == "true" || Lower(s) == "false"
    ensures r.Ok? ==> r.value == (Lower(s) == "true")
    ensures r.Err? ==> r.fault.ValueError?
  {
    if Lower(s) == "true" then Ok(true)
    else if Lower(s) == "false" then Ok(false)
    else Err(ValueError(s))
  }

  /** Any spelling of "true"/"false" that only differs in the case of its
      letters is accepted, and gives the same value. */
  lemma {:induction false} StrToBoolAnyCase(s: string, b: bool)
    requires |s| == (if b then 4 else 5)
    requires forall i :: 0 <= i < |s| ==> LowerChar(s[i]) == (if b then "true" else "false")[i]
    ensures StrToBool(s) == Ok(b)
  {
    assert Lower(s) == (if b then "true" else "false");
  }

  /** The value a parameter ends with before coercion: a non-empty
      environment value, else the file's value, else the default. */
  function Merged(name: string, default: Setting, file: Option<map<string, string>>, env: map<string, string>): Setting {
    if name in env && |env[name]| > 0 then SStr(env[name])
    else if file.Some? && name in file.value then SStr(file.value[name])
    else default
  }

  /** The special handling of one value by the kind of its default: a str
      becomes a bool through `str_to_bool` or an int through `int()`, and
      "None" becomes None where the default is None. */
  function Coerce(default: Setting, value: Setting): (r: Result<Setting>)
    ensures value.SStr? && default.SBool? ==> r == (match StrToBool(value.s) case Ok(b) => Ok(SBool(b)) case Err(e) => Err(e))
    ensures value.SStr? && default.SInt? ==> r.Ok? == ParseInt(value.s).Some?
    ensures r.Ok? && value.SStr? && default.SInt? ==> r.value == SInt(ParseInt(value.s).value)
    ensures default.SNone? ==> r == Ok(if value == SStr("None") then SNone else value)
    ensures !value.SStr? ==> r == Ok(value)
  {
    match value
    case SStr(s) =>
      if default.SBool? then
        var b :- StrToBool(s);
        Ok(SBool(b))
      else if default.SInt? then
        match ParseInt(s)
        case Some(n) => Ok(SInt(n))
        case None => Err(ValueError(s))
      else if default.SNone? && s == "None" then Ok(SNone)
      else Ok(value)
    case _ => Ok(value)
  }

  /** A parameter list shaped like the defaults: `modem_model`, with a
      str default, at index `ModelIndex`. */
  predicate HasModel(ps: Settings) {
    |ps| > ModelIndex && ps[ModelIndex].0 == "modem_model" && ps[ModelIndex].1.SStr?
  }

  /** The model name before coercion; a str default is never coerced, so
      this is what the supported-model check sees. */
  function MergedModel(ps: Settings, file: Option<map<string, string>>, env: map<string, string>): (m: Setting)
    requires HasModel(ps)
    ensures m.SStr?
  {
    Merged(ps[ModelIndex].0, ps[ModelIndex].1, file, env)
  }

  /** The check `config['modem_model'] not in modems_supported`. */
  predicate ModelOk(s: Setting) {
    s.SStr? && Supported(s.s)
  }


  /** The value parameter `i` ends with, coerced. */
  function Final(ps: Settings, i: nat, file: Option<map<string, string>>, env: map<string, string>): Result<Setting>
    requires i < |ps|
  {
    Coerce(ps[i].1, Merged(ps[i].0, ps[i].1, file, env))
  }

  /** The first index whose coercion fails, or |ps| when none does. */
  function FirstBad(ps: Settings, file: Option<map<string, string>>, env: map<string, string>, from: nat): (k: nat)
    requires from <= |ps|
    ensures from <= k <= |ps|
    ensures k < |ps| ==> Final(ps, k, file, env).Err?
    ensures forall i :: from <= i < k ==> Final(ps, i, file, env).Ok?
    decreases |ps| - from
  {
    if from == |ps| then from
    else if Final(ps, from, file, env).Err? then from
    else FirstBad(ps, file, env, from + 1)
  }

  /** What the loops of `get_config` return or raise over the parameters
      `ps`: the model check runs after the first parameter is handled, so a
      bad first parameter wins over an unsupported model, which wins over
      any later bad parameter. */
  function ConfigOf(ps: Settings, file: Option<map<string, string>>, env: map<string, string>): (r: Result<Settings>)
    requires HasModel(ps)
    ensures r.Ok? <==> Final(ps, 0, file, env).Ok? && ModelOk(MergedModel(ps, file, env))
                       && forall i :: 0 <= i < |ps| ==> Final(ps, i, file, env).Ok?
    ensures r.Ok? ==> |r.value| == |ps|
    ensures r.Ok? ==> forall i :: 0 <= i < |ps| ==> r.value[i] == (ps[i].0, Final(ps, i, file, env).value)
    ensures Final(ps, 0, file, env).Err? ==> r == Err(Final(ps, 0, file, env).fault)
    ensures Final(ps, 0, file, env).Ok? && !ModelOk(MergedModel(ps, file, env))
            ==> r == Err(UnsupportedModel(MergedModel(ps, file, env).s))
  {
    if Final(ps, 0, file, env).Err? then Err(Final(ps, 0, file, env).fault)
    else if !ModelOk(MergedModel(ps, file, env)) then
      Err(UnsupportedModel(MergedModel(ps, file, env).s))
    else
      var k := FirstBad(ps, file, env, 0);
      if k < |ps| then Err(Final(ps, k, file, env).fault)
      else Ok(seq(|ps|, i requires 0 <= i < |ps| => (ps[i].0, Final(ps, i, file, env).value)))
  }

  /** `get_config` over the real defaults. */
  function Config(file: Option<map<string, string>>, env: map<string, string>): Result<Settings> {
    assert Defaults()[ModelIndex] == ("modem_model", SStr("sb8200"));
    ConfigOf(Defaults(), file, env)
  }

  /** The three loops of `get_config` over the parameters `ps`: the first
      two merge the file and the environment in, the third coerces each
      value and checks the model. */
  method Load(ps: Settings, file: Option<map<string, string>>, env: map<string, string>) returns (r: Result<Settings>)
    requires HasModel(ps)
    ensures r == ConfigOf(ps, file, env)
  {
    var config := ps;
    if file.Some? {
      config := MergeFile(ps, file.value);
    }
    config := MergeEnv(ps, config, file, env);
    r := CoerceAll(ps, config, file, env);
  }

  /** The first loop: each parameter the file names takes the file's str. */
  method MergeFile(ps: Settings, file: map<string, string>) returns (config: Settings)
    ensures |config| == |ps|
    ensures forall j :: 0 <= j < |ps| ==> config[j] == (ps[j].0, Merged(ps[j].0, ps[j].1, Some(file), map[]))
  {
    config := ps;
    for i := 0 to |ps|
      invariant |config| == |ps|
      invariant forall j :: 0 <= j < i ==> config[j] == (ps[j].0, Merged(ps[j].0, ps[j].1, Some(file), map[]))
      invariant forall j :: i <= j < |ps| ==> config[j] == ps[j]
    {
      var name := ps[i].0;
      config := config[i := (name, if name in file then SStr(file[name]) else ps[i].1)];
    }
  }

  /** The second loop: a non-empty environment value wins. */
  method MergeEnv(ps: Settings, merged: Settings, file: Option<map<string, string>>, env: map<string, string>)
    returns (config: Settings)
    requires |merged| == |ps|
    requires forall j :: 0 <= j < |ps| ==> merged[j] == (ps[j].0, Merged(ps[j].0, ps[j].1, file, map[]))
    ensures |config| == |ps|
    ensures forall j :: 0 <= j < |ps| ==> config[j] == (ps[j].0, Merged(ps[j].0, ps[j].1, file, env))
  {
    config := merged;
    for i := 0 to |ps|
      invariant |config| == |ps|
      invariant forall j :: 0 <= j < i ==> config[j] == (ps[j].0, Merged(ps[j].0, ps[j].1, file, env))
      invariant forall j :: i <= j < |ps| ==> config[j] == merged[j]
    {
      var name := config[i].0;
      if name in env && |env[name]| > 0 {
        config := config[i := (name, SStr(env[name]))];
      }
    }
  }

  /** The third loop: each value is coerced by its default's kind, and the
      model is checked once the first value is done. */
  method CoerceAll(ps: Settings, merged: Settings, file: Option<map<string, string>>, env: map<string, string>)
    returns (r: Result<Settings>)
    requires HasModel(ps) && |merged| == |ps|
    requires forall j :: 0 <= j < |ps| ==> merged[j] == (ps[j].0, Merged(ps[j].0, ps[j].1, file, env))
    ensures r == ConfigOf(ps, file, env)
  {
    var config := merged;
    for i := 0 to |ps|
      invariant |config| == |ps|
      invariant forall j :: 0 <= j < |ps| ==> config[j].0 == ps[j].0
      invariant forall j :: 0 <= j < i ==> Final(ps, j, file, env).Ok?
      invariant forall j :: 0 <= j < i ==> config[j].1 == Final(ps, j, file, env).value
      invariant forall j :: i <= j < |ps| ==> config[j] == merged[j]
      invariant i > 0 ==> ModelOk(MergedModel(ps, file, env))
      invariant config[ModelIndex].1 == MergedModel(ps, file, env)
    {
      var c := Coerce(ps[i].1, config[i].1);
      assert c == Final(ps, i, file, env);
      if c.Err? {
        ghost var k := FirstBad(ps, file, env, 0);
        assert k == i;
        return Err(c.fault);
      }
      config := config[i := (config[i].0, c.value)];
      var model := config[ModelIndex].1;
      if !Supported(model.s) {
        return Err(UnsupportedModel(model.s));
      }
    }
    assert FirstBad(ps, file, env, 0) == |ps|;
    assert ConfigOf(ps, file, env).Ok?;
    assert config == ConfigOf(ps, file, env).value;
    r := Ok(config);
  }

  /** `get_config(config_path)`, the file's contents (if a path was given)
      and the environment being the arguments. */
  method GetConfig(file: Option<map<string, string>>, env: map<string, string>) returns (r: Result<Settings>)
    ensures r == Config(file, env)
  {
    assert Defaults()[ModelIndex] == ("modem_model", SStr("sb8200"));
    r := Load(Defaults(), file, env);
  }

  /** A non-empty environment value wins over the file and the default;
      an empty one is ignored. */
  lemma {:induction false} EnvironmentWins(name: string, default: Setting, file: Option<map<string, string>>, env: map<string, string>)
    ensures name in env && |env[name]| > 0 ==> Merged(name, default, file, env) == SStr(env[name])
    ensures (name !in env || |env[name]| == 0) ==> Merged(name, default, file, env) == Merged(name, default, file, map[])
  {
  }

  /** A default coerces to itself. */
  lemma {:induction false} DefaultCoercesToItself(d: Setting)
    ensures Coerce(d, d) == Ok(d)
  {
  }

  /** With neither a file nor an environment, the config is the defaults,
      once the default model is supported. */
  lemma {:induction false} NoOverridesGiveDefaults(ps: Settings)
    requires HasModel(ps) && ModelOk(ps[ModelIndex].1)
    ensures ConfigOf(ps, None, map[]) == Ok(ps)
  {
    forall i | 0 <= i < |ps|
      ensures Final(ps, i, None, map[]) == Ok(ps[i].1)
    {
      DefaultCoercesToItself(ps[i].1);
    }
    assert ConfigOf(ps, None, map[]).value == ps;
  }

  /** The shipped defaults load as they are. */
  lemma {:induction false} DefaultConfigLoads()
    ensures Config(None, map[]) == Ok(Defaults())
  {
    assert Defaults()[ModelIndex] == ("modem_model", SStr("sb8200"));
    NoOverridesGiveDefaults(Defaults());
  }

  /** A config that loads names a supported model, whose parser exists. */
  lemma {:induction false} LoadedModelIsSupported(ps: Settings, file: Option<map<string, string>>, env: map<string, string>)
    requires HasModel(ps) && ConfigOf(ps, file, env).Ok?
    ensures ConfigOf(ps, file, env).value[ModelIndex] == ("modem_model", MergedModel(ps, file, env))
    ensures MergedModel(ps, file, env).SStr? && ParserFor(MergedModel(ps, file, env).s).Some?
  {
    assert Final(ps, ModelIndex, file, env) == Ok(MergedModel(ps, file, env));
  }

  /** An unsupported model from the environment raises, when nothing
      overrides the first parameter. */
  lemma {:induction false} UnsupportedModelRaises(ps: Settings, env: map<string, string>, model: string)
    requires HasModel(ps) && ps[0].0 !in env
    requires "modem_model" in env && env["modem_model"] == model && |model| > 0 && !Supported(model)
    ensures ConfigOf(ps, None, env) == Err(UnsupportedModel(model))
  {
    DefaultCoercesToItself(ps[0].1);
  }

  /** A value "None" for a parameter whose default is None becomes None;
      where the default is a str it stays the text "None". */
  lemma {:induction false} NoneText(ps: Settings, file: map<string, string>, k: nat)
    requires HasModel(ps) && k < |ps|
    requires ps[k].0 in file && file[ps[k].0] == "None"
    requires ConfigOf(ps, Some(file), map[]).Ok?
    ensures ps[k].1.SNone? ==> ConfigOf(ps, Some(file), map[]).value[k] == (ps[k].0, SNone)
    ensures ps[k].1.SStr? ==> ConfigOf(ps, Some(file), map[]).value[k] == (ps[k].0, SStr("None"))
  {
  }

  /** The keys of the dict the older script's `get_config` returns:
      `options` are the option names `parser['MAIN']` yields (those of the
      DEFAULT section among them), which configparser stores lower-cased,
      and the two boolean flags it adds. */
  function ScriptConfigKeys(options: seq<string>): (keys: set<string>)
    ensures "modem_verify_ssl" in keys && "modem_auth_required" in keys
    ensures forall o :: o in options ==> Lower(o) in keys
  {
    (set o | o in options :: Lower(o)) + {"modem_verify_ssl", "modem_auth_required"}
  }

  /** No key of the script's config holds an upper-case ASCII letter, so a
      section name such as `INFLUXDB` is never among them. */
  lemma {:induction false} ScriptConfigKeysLower(options: seq<string>, k: string, i: nat)
    requires i < |k| && 'A' <= k[i] <= 'Z'
    ensures k !in ScriptConfigKeys(options)
  {
  }
}
