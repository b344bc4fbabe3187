/**
 * What an add-on hands to the cluster: the arguments of one
 * `cluster.addHelmChart(id, options)` call.  The call itself belongs to the
 * cluster library and is not modelled; `Release` is the value it receives.
 */
module HelmChart {
  import opened Wrappers
  import opened JsObjects

  datatype Release = Release(
    id: string,               // first argument: the construct id
    chart: string,            // options.chart
    repository: Value,        // options.repository
    version: Value,           // options.version
    namespace: Value,         // options.namespace
    values: Option<Value>     // options.values, absent when the literal has no `values` key
  )
}
