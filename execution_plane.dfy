/**
 * The Keptn execution-plane add-on (`KeptnExecutionPlaneAddOn`).
 *
 * Its constructor stores `{...defaults, ...params}` in `props`, so a key the
 * caller supplies wins even when its value is `undefined`, and every other
 * field keeps its documented default.  `deploy` installs the `helm-service`
 * chart with the remote-control-plane settings taken from `props`.
 */
module ExecutionPlane {
  import opened Wrappers
  import opened JsObjects
  import opened HelmChart

  const DefaultApiToken := ""
  const DefaultNamespace := "keptn"
  const DefaultHelmRepo := "https://storage.googleapis.com/keptn-installer"
  const DefaultVersion := "0.11.4"
  const DefaultControlPlaneUrl := ""

  /** `defaultKeptnExecutionPlaneParams`, keys in declaration order. */
  const Defaults: seq<Property> := [
    Property("apiToken", Str(DefaultApiToken)),
    Property("namespace", Str(DefaultNamespace)),
    Property("helmrepo", Str(DefaultHelmRepo)),
    Property("version", Str(DefaultVersion)),
    Property("controlPlaneUrl", Str(DefaultControlPlaneUrl))
  ]

  /** The field names of `KeptnExecutionPlaneParams`. */
  const FieldNames: set<string> := {"apiToken", "namespace", "helmrepo", "version", "controlPlaneUrl"}

  /** `o.k` on a plain object: `undefined` when there is no such property. */
  function Read(o: seq<Property>, k: string): (r: Value)
    ensures k in Keys(o) ==> Get(o, k) == Some(r)
    ensures k !in Keys(o) ==> r == Undefined
  {
    match Get(o, k)
    case Some(v) => v
    case None => Undefined
  }

  /** The five typed fields as a property read sees them. */
  datatype Params = Params(
    apiToken: Value,
    namespace: Value,
    helmrepo: Value,
    version: Value,
    controlPlaneUrl: Value
  )

  function View(o: seq<Property>): Params {
    Params(Read(o, "apiToken"), Read(o, "namespace"), Read(o, "helmrepo"),
           Read(o, "version"), Read(o, "controlPlaneUrl"))
  }

  /** An add-on instance: its one field, `props`, set by the constructor only. */
  datatype AddOn = AddOn(props: seq<Property>)

  /** The value key `k` gets from the merge: the caller's if the caller has the key, else the default. */
  function Lookup(params: seq<Property>, k: string): Option<Value> {
    if k in Keys(params) then Get(params, k) else Get(Defaults, k)
  }

  /** The default object is a plain object whose keys are the five field names. */
  lemma {:induction false} DefaultsShape()
    ensures Unique(Defaults) && Keys(Defaults) == FieldNames
  {
    var d := Defaults;
    assert d[4..][1..] == [] && d[3..][1..] == d[4..] && d[2..][1..] == d[3..] && d[1..][1..] == d[2..];
    assert Keys(d[4..]) == {"controlPlaneUrl"} && Unique(d[4..]);
    assert Keys(d[3..]) == {"version", "controlPlaneUrl"} && Unique(d[3..]);
    assert Keys(d[2..]) == {"helmrepo", "version", "controlPlaneUrl"} && Unique(d[2..]);
    assert Keys(d[1..]) == {"namespace", "helmrepo", "version", "controlPlaneUrl"} && Unique(d[1..]);
  }

  /** Every key of the merged object reads as the caller's value if the caller has the key, else as the default. */
  lemma {:induction false} MergeGet(params: seq<Property>)
    requires Unique(params)
    ensures Unique(Defaults) && Keys(Defaults) == FieldNames
    ensures Spread(Spread([], Defaults), params) == Spread(Defaults, params)
    ensures forall k :: Get(Spread(Defaults, params), k) == Lookup(params, k)
  {
    DefaultsShape();
    SpreadIntoEmpty(Defaults);
    forall k ensures Get(Spread(Defaults, params), k) == Lookup(params, k)
    {
      GetSpread(Defaults, params, k);
    }
  }

  /** `new KeptnExecutionPlaneAddOn(params)`: `props` is `{...defaults, ...params}`. */
  function New(params: seq<Property>): (a: AddOn)
    requires Unique(params)
    ensures Unique(a.props)
    ensures Keys(a.props) == FieldNames + Keys(params)
    ensures forall k :: Get(a.props, k) == Lookup(params, k)
  {
    MergeGet(params);
    AddOn(Spread(Spread([], Defaults), params))
  }

  /** Keys come in the order of the defaults, with the caller's values, then the caller's other keys in the caller's order. */
  lemma {:induction false} NewPropertyOrder(params: seq<Property>)
    requires Unique(params)
    ensures New(params).props == Overwrite(Defaults, params) + Extra(params, FieldNames)
  {
    MergeGet(params);
    SpreadOrder(Defaults, params);
  }

  /** With nothing supplied, `props` is exactly the default object. */
  lemma {:induction false} NewWithoutParams()
    ensures New([]).props == Defaults
    ensures View(New([]).props) == Params(Str(""), Str("keptn"),
      Str("https://storage.googleapis.com/keptn-installer"), Str("0.11.4"), Str(""))
  {
    MergeGet([]);
  }

  /** When the caller supplies every field, no default shows through. */
  lemma {:induction false} NewWithAllFields(params: seq<Property>)
    requires Unique(params) && FieldNames <= Keys(params)
    ensures View(New(params).props) == View(params)
    ensures Keys(New(params).props) == Keys(params)
    ensures Keys(params) == FieldNames ==> New(params).props == Overwrite(Defaults, params)
  {
    NewPropertyOrder(params);
    if Keys(params) == FieldNames {
      ExtraNone(params, FieldNames);
    }
  }

  /** A key supplied with the value `undefined` stays `undefined`: it does not fall back. */
  lemma {:induction false} ExplicitUndefinedWins(params: seq<Property>, k: string)
    requires Unique(params) && Get(params, k) == Some(Undefined)
    ensures Get(New(params).props, k) == Some(Undefined)
    ensures Read(New(params).props, k) == Undefined
  {
  }

  /** Building an add-on from the `props` of another gives the same `props`. */
  lemma {:induction false} NewIdempotent(params: seq<Property>)
    requires Unique(params)
    ensures New(New(params).props) == New(params)
  {
    var props := New(params).props;
    MergeGet(params);
    MergeGet(props);
    SpreadIdempotent(Defaults, params);
  }

  /** `deploy`: the `helm-service` chart, configured from `props`. */
  function Deploy(a: AddOn): (r: Release)
    ensures r.id == "helm-service" && r.chart == "helm-service"
    ensures r.repository == Read(a.props, "helmrepo")
    ensures r.version == Read(a.props, "version")
    ensures r.namespace == Read(a.props, "namespace")
    ensures r.values.Some? && r.values.value.Obj?
    ensures Unique(r.values.value.props) && Keys(r.values.value.props) == {"remoteControlPlane"}
    ensures var rc := At(r.values.value, ["remoteControlPlane"]);
      rc.Some? && rc.value.Obj? && Unique(rc.value.props) && Keys(rc.value.props) == {"enabled", "api"}
    ensures var ap := At(r.values.value, ["remoteControlPlane", "api"]);
      ap.Some? && ap.value.Obj? && Unique(ap.value.props) && Keys(ap.value.props) == {"token", "hostname"}
    ensures At(r.values.value, ["remoteControlPlane", "enabled"]) == Some(Bool(true))
    ensures At(r.values.value, ["remoteControlPlane", "api", "token"]) == Some(Read(a.props, "apiToken"))
    ensures At(r.values.value, ["remoteControlPlane", "api", "hostname"]) == Some(Read(a.props, "controlPlaneUrl"))
  {
    var api := Obj([Property("token", Read(a.props, "apiToken")),
                    Property("hostname", Read(a.props, "controlPlaneUrl"))]);
    var remote := Obj([Property("enabled", Bool(true)), Property("api", api)]);
    assert Get(api.props, "token") == Some(Read(a.props, "apiToken"));
    assert Get(api.props, "hostname") == Some(Read(a.props, "controlPlaneUrl"));
    assert Get(remote.props, "enabled") == Some(Bool(true));
    assert Get(remote.props, "api") == Some(api);
    assert Keys(api.props[1..]) == {"hostname"};
    assert Keys(remote.props[1..]) == {"api"};
    Release("helm-service", "helm-service",
            Read(a.props, "helmrepo"), Read(a.props, "version"), Read(a.props, "namespace"),
            Some(Obj([Property("remoteControlPlane", remote)])))
  }

  /** The value a merged field reads as: the caller's when supplied, else the default. */
  function Setting(params: seq<Property>, k: string, default: string): Value {
    if k in Keys(params) then Read(params, k) else Str(default)
  }

  /** Reading each field of `props` after construction. */
  lemma {:induction false} ReadNew(params: seq<Property>)
    requires Unique(params)
    ensures View(New(params).props) == Params(
      Setting(params, "apiToken", DefaultApiToken),
      Setting(params, "namespace", DefaultNamespace),
      Setting(params, "helmrepo", DefaultHelmRepo),
      Setting(params, "version", DefaultVersion),
      Setting(params, "controlPlaneUrl", DefaultControlPlaneUrl))
  {
    var props := New(params).props;
    DefaultsShape();
    GetAt(Defaults, 0);
    GetAt(Defaults, 1);
    GetAt(Defaults, 2);
    GetAt(Defaults, 3);
    GetAt(Defaults, 4);
    assert Get(props, "apiToken") == Lookup(params, "apiToken");
    assert Get(props, "namespace") == Lookup(params, "namespace");
    assert Get(props, "helmrepo") == Lookup(params, "helmrepo");
    assert Get(props, "version") == Lookup(params, "version");
    assert Get(props, "controlPlaneUrl") == Lookup(params, "controlPlaneUrl");
  }

  /** From constructor arguments to descriptor: each chart setting is the caller's value if supplied, else the default. */
  lemma {:induction false} DeployOfNew(params: seq<Property>)
    requires Unique(params)
    ensures var r := Deploy(New(params));
      && r.id == "helm-service" && r.chart == "helm-service"
      && r.repository == Setting(params, "helmrepo", DefaultHelmRepo)
      && r.version == Setting(params, "version", DefaultVersion)
      && r.namespace == Setting(params, "namespace", DefaultNamespace)
  {
    ReadNew(params);
  }

  /** From constructor arguments to descriptor: the remote control plane is enabled, and its API settings are the caller's values if supplied, else the defaults. */
  lemma {:induction false} DeployOfNewRemote(params: seq<Property>)
    requires Unique(params)
    ensures var r := Deploy(New(params));
      && r.values.Some?
      && At(r.values.value, ["remoteControlPlane", "enabled"]) == Some(Bool(true))
      && At(r.values.value, ["remoteControlPlane", "api", "token"]) ==
         Some(Setting(params, "apiToken", DefaultApiToken))
      && At(r.values.value, ["remoteControlPlane", "api", "hostname"]) ==
         Some(Setting(params, "controlPlaneUrl", DefaultControlPlaneUrl))
  {
    ReadNew(params);
  }
}
