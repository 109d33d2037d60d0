/** The records the pipeline passes from stage to stage. */
module Records {

  /** One scheduled maintenance notice, one element of the decoded JSON array. */
  datatype MaintenanceEvent = MaintenanceEvent(
    notBefore: string,    // when the maintenance starts, in the GMT date layout
    code: string,         // the kind of maintenance
    description: string,
    eventId: string,
    notAfter: string,
    state: string)        // where the event stands; not read by the collector

  /** What one poll of the metadata service yields. */
  datatype FetchedMetadata = FetchedMetadata(instanceID: string, events: seq<MaintenanceEvent>)

  /** The run parameters. */
  datatype CollectOptions = CollectOptions(baseURL: string, metricPrefix: string, textfilesPath: string)
}
