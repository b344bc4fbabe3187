# Keptn EKS Blueprints add-ons — a Dafny model

The repository provides two add-ons for the AWS EKS Blueprints library, and
this project models what each one computes:

* `KeptnExecutionPlaneAddOn` (`execution-plane-addon/src/index.ts`) takes a
  partial parameter object. It stores `{...defaults, ...params}` in `props`.
  Its `deploy` installs the `helm-service` chart from `props`, with a nested
  `values.remoteControlPlane` block that holds `enabled: true`, the API token
  and the control-plane hostname.
* `KeptnControlPlaneAddOn` (`control-plane-addon/src/index.ts`) takes three
  optional positional arguments. It sets its read-only `Namespace`,
  `HelmRepository` and `Version` fields, each with `??` from one argument.
  Its `deploy` installs the `keptn` chart from those fields, with no `values`
  block.

Both add-ons are pure computations. The call to `cluster.addHelmChart` is the
only outside effect. The model records the arguments that call receives as a
`HelmChart.Release` value, and each `Deploy` function returns that value.

Modules, one file each:

* `Wrappers` (`wrappers.dfy`): the `Option` datatype.
* `JsObjects` (`js_objects.dfy`): JavaScript values and plain objects.
  * A plain object is its list of own properties, in the order they were
    created, with no key twice (`Unique`). For keys that are not array
    indices this is the order JavaScript enumerates them in. Reading a
    property is `Get`, or `At` for a nested path.
  * Object spread follows ECMAScript's CopyDataProperties. Each property of
    the source, in order, is defined with CreateDataProperty (`Define`). A key
    the target already has is overwritten where it stands; a new key is
    created after the existing ones.
  * So a property whose value is `undefined` still overwrites.
  * The lemmas give the value every key has after a spread (`GetSpread`), the
    key order a spread produces (`SpreadOrder`), and idempotence
    (`SpreadIdempotent`).
  * `Coalesce` is `??`.
* `HelmChart` (`helm_chart.dfy`): the arguments of one `addHelmChart` call.
* `ExecutionPlane` (`execution_plane.dfy`): the defaults, the constructor's
  merge (`New`), `Deploy`, and the lemmas about them.
* `ControlPlane` (`control_plane.dfy`): the `??` constructor (`New`),
  `Deploy`, and the lemmas about them.

The two add-ons mean different things by "not supplied":

* Execution plane: a key that is present wins, even when its value is
  `undefined` (`ExecutionPlane.ExplicitUndefinedWins`). The descriptor then
  carries `undefined`, not the default.
* Control plane: only `null` and `undefined` fall back to the default. An
  empty string is kept (`ControlPlane.FallbackExactlyWhenNullish`,
  `ControlPlane.EmptyStringKept`).

The default chart version differs between the two add-ons: `0.11.4` for the
execution plane and `0.11.3` for the control plane. Both constants are
modelled as written.

## Model

| member | source | states |
|---|---|---|
| `JsObjects.Coalesce` | control-plane-addon/src/index.ts:15-18 | `a ?? b` gives `b` when `a` is `null` or `undefined` and `a` otherwise; it equals `b` exactly when `a` is nullish or already equals `b`. |
| `ExecutionPlane.Read` | execution-plane-addon/src/index.ts:34-42 | `props.k` gives the stored value when `props` has the key `k`, and `undefined` when it does not. |
| `JsObjects.Get` | execution-plane-addon/src/index.ts:34-36 | A property read finds a value exactly when the object has that key. |
| `JsObjects.Define` | execution-plane-addon/src/index.ts:28 | Defining one property during spread (CreateDataProperty). An existing key is overwritten in place, with the same length and order. A new key is created after the existing ones. The object stays free of duplicate keys, and its key set gains `k`. |
| `JsObjects.GetDefine` | execution-plane-addon/src/index.ts:28 | After defining `k`, reading `k` gives the new value. Every other key reads as before. |
| `JsObjects.Spread` | execution-plane-addon/src/index.ts:28 | Spreading one object into another gives a plain object (no key twice). Its keys are the union of both objects' keys. |
| `JsObjects.GetSpread` | execution-plane-addon/src/index.ts:28 | After `{...t, ...s}`, a key of `s` has its value from `s`, even when that value is `undefined`. Every other key has its value from `t`. |
| `JsObjects.SpreadOrder` | execution-plane-addon/src/index.ts:28 | Property order after a spread: the keys of `t` stay where they stand and take the values of `s` where `s` has them. The keys new to `t` follow, in the order of `s`. |
| `JsObjects.SpreadIntoEmpty` | execution-plane-addon/src/index.ts:28 | `{...s}` is a copy of `s`: same keys, same order, same values. |
| `JsObjects.SpreadIdempotent` | execution-plane-addon/src/index.ts:28 | Spreading the result of `{...t, ...s}` over `t` again yields the same object. |
| `JsObjects.GetAt` | execution-plane-addon/src/index.ts:16-22 | In a plain object, reading the key of the i-th property gives that property's value. |
| `ExecutionPlane.DefaultsShape` | execution-plane-addon/src/index.ts:8-22 | The default object has no key twice. Its keys are exactly the five fields of `KeptnExecutionPlaneParams`. |
| `ExecutionPlane.MergeGet` | execution-plane-addon/src/index.ts:28 | `{...defaults, ...params}` equals `params` spread over the defaults. Every key reads as the caller's value if the caller has the key, and otherwise as the default. |
| `ExecutionPlane.New` | execution-plane-addon/src/index.ts:27-29 | The stored `props` is a plain object. Its keys are the five fields plus the caller's keys. Each field reads as the caller's value when that key is supplied (even if the value is `undefined`), and otherwise as the default. |
| `ExecutionPlane.NewPropertyOrder` | execution-plane-addon/src/index.ts:28 | In `props`, the five fields come first, in the order of the defaults and with the caller's values where supplied. The caller's other keys follow, in the caller's order. |
| `ExecutionPlane.NewWithoutParams` | execution-plane-addon/src/index.ts:16-28 | With an empty parameter object, `props` is exactly the default object: `apiToken=""`, `namespace="keptn"`, `helmrepo="https://storage.googleapis.com/keptn-installer"`, `version="0.11.4"`, `controlPlaneUrl=""`. |
| `ExecutionPlane.NewWithAllFields` | execution-plane-addon/src/index.ts:28 | When the caller supplies all five fields, every field reads as the caller's value. No default leaks through, and `props` has the caller's keys. If the caller has exactly the five fields, `props` is the default object with all five values replaced. |
| `ExecutionPlane.ExplicitUndefinedWins` | execution-plane-addon/src/index.ts:28 | A key present with the value `undefined` stays `undefined` in `props`. It does not fall back to the default. |
| `ExecutionPlane.NewIdempotent` | execution-plane-addon/src/index.ts:28 | Building a new add-on from an existing add-on's `props` gives the same `props`, the same object in the same key order. |
| `ExecutionPlane.ReadNew` | execution-plane-addon/src/index.ts:16-29 | Each of the five typed fields of `props` is the caller's value when the key is supplied, and otherwise the field's default constant. |
| `ExecutionPlane.Deploy` | execution-plane-addon/src/index.ts:31-47 | The descriptor has id and chart `"helm-service"`. Its repository, version and namespace are `props.helmrepo`, `props.version` and `props.namespace`. Its `values` block is a plain object (no key twice) whose only key is `remoteControlPlane`. That object is a plain object with exactly the keys `enabled` and `api`, and `api` is a plain object with exactly the keys `token` and `hostname`. It holds `remoteControlPlane.enabled = true`, `remoteControlPlane.api.token = props.apiToken` and `remoteControlPlane.api.hostname = props.controlPlaneUrl`. |
| `ExecutionPlane.DeployOfNew` | execution-plane-addon/src/index.ts:16-36 | From the constructor argument to the descriptor: id and chart are `"helm-service"`, and the repository, version and namespace are each the caller's value when supplied, and otherwise the default constant. |
| `ExecutionPlane.DeployOfNewRemote` | execution-plane-addon/src/index.ts:16-44 | From the constructor argument to the descriptor: `remoteControlPlane.enabled` is `true`, and the API token and hostname are each the caller's value when supplied, and otherwise the default constant. |
| `ControlPlane.New` | control-plane-addon/src/index.ts:14-19 | Each field is its argument when that argument is not `null`/`undefined`. Otherwise it is `"keptn"`, `"https://storage.googleapis.com/keptn-installer"` or `"0.11.3"`. A field always holds a string when its argument is a string or `undefined`. |
| `ControlPlane.FallbackExactlyWhenNullish` | control-plane-addon/src/index.ts:15-18 | A field equals its default if and only if the argument is nullish or already equals the default. |
| `ControlPlane.EmptyStringKept` | control-plane-addon/src/index.ts:15-18 | For each of the three fields separately, an empty-string argument is kept as it is, whatever the other arguments are, because `??` only replaces `null` and `undefined`. |
| `ControlPlane.NewWithoutArguments` | control-plane-addon/src/index.ts:14-19 | With every argument left out, the fields are `"keptn"`, `"0.11.3"` and `"https://storage.googleapis.com/keptn-installer"`. |
| `ControlPlane.Deploy` | control-plane-addon/src/index.ts:21-28 | The descriptor has id and chart `"keptn"`. Its repository, version and namespace are the `HelmRepository`, `Version` and `Namespace` fields. It carries no `values` block. |
| `ControlPlane.DeployOfNew` | control-plane-addon/src/index.ts:14-28 | From constructor arguments to descriptor: the repository, version and namespace are `helmrepo ?? default`, `version ?? default` and `namespace ?? default`, and there is no `values` block. |

## Left out

- `JsObjects.Define`: array-index keys (such as `"0"` or `"42"`) are not modelled separately. JavaScript enumerates them first, in ascending numeric order; the model keeps every key in creation order, so its ordering clauses describe the enumeration order only for keys that are not array indices. Values read by key are unaffected.
- `JsObjects.SpreadOrder`: the same holds; the closed form gives the creation order, which is the enumeration order only when no key is an array index.
- `ExecutionPlane.NewPropertyOrder`: the same holds; for a caller key such as `"0"`, JavaScript would enumerate it before the five fields, while the lemma places it after them.
- `cluster.addHelmChart` and the construct it returns are a call into the EKS Blueprints and CDK libraries. Their behaviour is not part of this model. `Deploy` returns the arguments of the call instead.
- `async` and `Promise`: nothing in either `deploy` suspends, so each `Deploy` is a plain function. The `ClusterInfo` argument is used only to reach `addHelmChart` and does not appear.
- Immutability is not stated as a lemma. The add-ons are immutable values in the model, so two facts hold by construction: `deploy` does not change `props`, and the control plane's `readonly` fields never change after construction.
- JavaScript values are limited to what the two files use: `undefined`, `null`, booleans, strings and plain objects. The model has no numbers, symbols, getters, inherited or non-enumerable properties, and no TypeScript type checking. An argument may hold any of the modelled values, whatever its declared type.
- `ExecutionPlane.New` always receives a plain object, as the `Partial<KeptnExecutionPlaneParams>` parameter type requires. A non-object argument from untyped JavaScript is not modelled.
- `examples/aws-ssp-keptn-cp-basic/bin/basic-example.ts` is application wiring through the blueprint builder, and its Keptn add-on line is commented out. Its object-style constructor call targets a different packaging of the control-plane add-on than the constructor at control-plane-addon/src/index.ts:14, so it is not modelled.
