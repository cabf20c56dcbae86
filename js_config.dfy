/** The `config: Record<string, string>` a TypeScript reducer receives. */
module JsConfig {

  /** `config.<name>` as it is used in a template literal or compared with a
      string: a missing field is `undefined`, which renders as the text
      "undefined" and equals neither "payment" nor "stake". */
  function Field(config: map<string, string>, name: string): (s: string)
    ensures name in config ==> s == config[name]
    ensures name !in config ==> s == "undefined"
  {
    if name in config then config[name] else "undefined"
  }
}
