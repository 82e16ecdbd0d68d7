/**
 * Loading the application configuration: the OpenRouter API key taken from
 * the `OPENROUTER_API_KEY` environment variable (src/config.rs).
 */
module Config {
  import opened Results
  import opened Text

  /** The loaded configuration. */
  datatype Config = Config(openrouterApiKey: string)

  /** Why loading failed: the variable is unset (or not Unicode), or it holds only whitespace. */
  datatype ConfigError = KeyNotSet | KeyBlank

  /**
   * `Config::load` given the value the environment holds for the variable,
   * `None` when it is unset or not valid Unicode.
   */
  function Load(envValue: Option<string>): (r: Result<Config, ConfigError>)
    ensures r == Err(KeyNotSet) <==> envValue.None?
    ensures r == Err(KeyBlank) <==> envValue.Some? && IsBlank(envValue.value)
    ensures r.Ok? ==> envValue == Some(r.value.openrouterApiKey) && Trim(r.value.openrouterApiKey) != []
  {
    match envValue
    case None => Err(KeyNotSet)
    case Some(key) =>
      TrimEmptyIffBlank(key);
      if Trim(key) == [] then Err(KeyBlank) else Ok(Config(key))
  }

  /** The key is kept verbatim: surrounding whitespace in an accepted value is not removed. */
  lemma LoadKeepsWhitespace(key: string)
    requires |key| > 0 && IsWhitespace(key[0]) && !IsBlank(key)
    ensures Load(Some(key)) == Ok(Config(key))
    ensures Load(Some(key)).value.openrouterApiKey != Trim(key)
  {
    var r := Trim(key);
    assert r != [] ==> !IsWhitespace(r[0]);
    TrimEmptyIffBlank(key);
  }
}
