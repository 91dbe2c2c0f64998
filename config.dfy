/**
 * The process-wide policy record (Config.php). The PHP class is a bag of
 * public statics read at the moment of use; here it is a value handed to
 * every operation that reads it.
 */
module Config {

  datatype Settings = Settings(
    queryLog: bool,        // keep the text of every query
    queryCounter: bool,    // count the queries
    autoTrim: bool,        // cut values to the declared column length
    autoDiscard: bool,     // drop keys that are not columns
    autoNull: bool,        // fill absent nullable columns
    charset: string,       // client character set
    maxRetry: int,         // re-executions after a deadlock
    retryDelay: int,       // largest single back-off, in microseconds
    retryReport: bool)     // report every retry to the error handler

  /** The values the statics start with. */
  const Defaults: Settings :=
    Settings(false, true, false, false, false, "utf8", 0, 500000, true)

  /** True when the table-data filter has any correction to make. */
  predicate Corrects(c: Settings) {
    c.autoTrim || c.autoDiscard || c.autoNull
  }
}
