/**
 * The Keptn control-plane add-on (`KeptnControlPlaneAddOn`).
 *
 * Its constructor takes three optional positional arguments and sets each of
 * its three read-only fields once with `??`: an argument that is `null` or
 * `undefined` (or left out, which JavaScript passes as `undefined`) gives the
 * default, any other value, the empty string included, is kept.  `deploy`
 * installs the `keptn` chart from those fields, with no `values` block.
 */
module ControlPlane {
  import opened Wrappers
  import opened JsObjects
  import opened HelmChart

  const DefaultNamespace := "keptn"
  const DefaultHelmRepository := "https://storage.googleapis.com/keptn-installer"
  const DefaultVersion := "0.11.3"

  /** An add-on instance; the fields are `readonly`, so they keep the values the constructor gave them. */
  datatype AddOn = AddOn(Namespace: Value, Version: Value, HelmRepository: Value)

  /** `new KeptnControlPlaneAddOn(namespace, helmrepo, version)`. */
  function New(namespace: Value, helmrepo: Value, version: Value): (a: AddOn)
    ensures a.Namespace == (if IsNullish(namespace) then Str(DefaultNamespace) else namespace)
    ensures a.HelmRepository == (if IsNullish(helmrepo) then Str(DefaultHelmRepository) else helmrepo)
    ensures a.Version == (if IsNullish(version) then Str(DefaultVersion) else version)
    // the fields hold strings whenever the arguments have their declared type `string | undefined`
    ensures (namespace.Str? || namespace.Undefined?) ==> a.Namespace.Str?
    ensures (helmrepo.Str? || helmrepo.Undefined?) ==> a.HelmRepository.Str?
    ensures (version.Str? || version.Undefined?) ==> a.Version.Str?
  {
    AddOn(Coalesce(namespace, Str(DefaultNamespace)),
          Coalesce(version, Str(DefaultVersion)),
          Coalesce(helmrepo, Str(DefaultHelmRepository)))
  }

  /** `deploy`: the `keptn` chart from the three fields, without a `values` block. */
  function Deploy(a: AddOn): (r: Release)
    ensures r.id == "keptn" && r.chart == "keptn"
    ensures r.repository == a.HelmRepository
    ensures r.version == a.Version
    ensures r.namespace == a.Namespace
    ensures r.values == None
  {
    Release("keptn", "keptn", a.HelmRepository, a.Version, a.Namespace, None)
  }

  /** A field falls back to its default exactly when its argument is nullish or already equals the default. */
  lemma {:induction false} FallbackExactlyWhenNullish(namespace: Value, helmrepo: Value, version: Value)
    ensures var a := New(namespace, helmrepo, version);
      && (a.Namespace == Str(DefaultNamespace) <==> IsNullish(namespace) || namespace == Str(DefaultNamespace))
      && (a.HelmRepository == Str(DefaultHelmRepository) <==> IsNullish(helmrepo) || helmrepo == Str(DefaultHelmRepository))
      && (a.Version == Str(DefaultVersion) <==> IsNullish(version) || version == Str(DefaultVersion))
  {
  }

  /** An empty string is not nullish, so `??` keeps it. */
  lemma {:induction false} EmptyStringKept(namespace: Value, helmrepo: Value, version: Value)
    ensures namespace == Str("") ==> New(namespace, helmrepo, version).Namespace == Str("")
    ensures helmrepo == Str("") ==> New(namespace, helmrepo, version).HelmRepository == Str("")
    ensures version == Str("") ==> New(namespace, helmrepo, version).Version == Str("")
  {
  }

  /** With every argument left out, the add-on holds the three defaults. */
  lemma {:induction false} NewWithoutArguments()
    ensures New(Undefined, Undefined, Undefined) ==
      AddOn(Str("keptn"), Str("0.11.3"), Str("https://storage.googleapis.com/keptn-installer"))
  {
  }

  /** From constructor arguments to descriptor. */
  lemma {:induction false} DeployOfNew(namespace: Value, helmrepo: Value, version: Value)
    ensures var r := Deploy(New(namespace, helmrepo, version));
      && r == Release("keptn", "keptn",
           Coalesce(helmrepo, Str(DefaultHelmRepository)),
           Coalesce(version, Str(DefaultVersion)),
           Coalesce(namespace, Str(DefaultNamespace)),
           None)
  {
  }
}
