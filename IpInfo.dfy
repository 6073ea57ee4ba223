/** The answer of the geolocation lookup, as the program reads it. */
module IpInfo {

  /** The fields of the JSON object the lookup returns, by name, each as text. */
  type Record = map<string, string>

  /** `info[name]?.ToString() ?? fallback`: the field's text, or the fallback when it is absent. */
  function Field(info: Record, name: string, fallback: string): string
  {
    if name in info then info[name] else fallback
  }

}
