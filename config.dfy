/** The options object passed to the generator. */
module Configuration {
  /**
   * `mode` is compared with the string "single"; any other value selects the
   * multi-call layout. `pal` is the truthiness of `config.pal`, and `view` is
   * the extension appended to view-only resources.
   */
  datatype Config = Config(mode: string, pal: bool, view: string)

  predicate IsSingle(config: Config) {
    config.mode == "single"
  }
}
