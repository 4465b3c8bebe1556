/** `Interviewer.loadSettings`: locate the settings file, read it as a JSON object and
    check that the eight required keys are present, in a fixed order. The file system
    and the JSON parser are outside the model: their outcome is the input. */
module Settings {
  import opened Wrappers

  /** The keys every settings object must hold, in the order they are checked. */
  const RequiredKeys: seq<string> := [
    "twitter_handle", "twitter_access_key", "twitter_access_secret",
    "twitter_consumer_key", "twitter_consumer_secret",
    "watson_pi_url", "watson_pi_username", "watson_pi_password"
  ]

  /** What the file system and `json.loads` delivered: no file, or a file whose text
      either parsed to a JSON object (`Some`) or did not (`None`: a syntax error, or a
      top-level value without `keys()`). */
  datatype SettingsFile<V> = Missing | Present(parsed: Option<map<string, V>>)

  /** Why `loadSettings` returned `None`; each case prints its own message. */
  datatype SettingsError = FileNotFound | Unreadable | MissingKey(key: string)

  predicate HasAllRequiredKeys<V>(settings: map<string, V>) {
    forall i :: 0 <= i < |RequiredKeys| ==> RequiredKeys[i] in settings
  }

  /** The loop over `requiredKeys` with its early return: the object itself when every
      required key is present, otherwise the first missing key in `RequiredKeys` order. */
  method CheckRequiredKeys<V>(settings: map<string, V>) returns (r: Result<map<string, V>, SettingsError>)
    ensures r.Success? <==> HasAllRequiredKeys(settings)
    ensures r.Success? ==> r.value == settings
    ensures r.Failure? ==>
      exists i :: 0 <= i < |RequiredKeys| && r.error == MissingKey(RequiredKeys[i])
        && RequiredKeys[i] !in settings
        && forall j :: 0 <= j < i ==> RequiredKeys[j] in settings
  {
    for i := 0 to |RequiredKeys|
      invariant forall j :: 0 <= j < i ==> RequiredKeys[j] in settings
    {
      var key := RequiredKeys[i];
      if key !in settings {
        return Failure(MissingKey(key));
      }
    }
    return Success(settings);
  }

  /** The whole of `loadSettings`, with the file read and the parse as input. */
  method LoadSettings<V>(file: SettingsFile<V>) returns (r: Result<map<string, V>, SettingsError>)
    ensures file.Missing? ==> r == Failure(FileNotFound)
    ensures file.Present? && file.parsed.None? ==> r == Failure(Unreadable)
    ensures r.Success? <==> file.Present? && file.parsed.Some? && HasAllRequiredKeys(file.parsed.value)
    ensures r.Success? ==> r.value == file.parsed.value
    ensures file.Present? && file.parsed.Some? && r.Failure? ==>
      exists i :: 0 <= i < |RequiredKeys| && r.error == MissingKey(RequiredKeys[i])
        && RequiredKeys[i] !in file.parsed.value
        && forall j :: 0 <= j < i ==> RequiredKeys[j] in file.parsed.value
  {
    match file {
      case Missing =>
        r := Failure(FileNotFound);
      case Present(None) =>
        r := Failure(Unreadable);
      case Present(Some(settings)) =>
        r := CheckRequiredKeys(settings);
    }
  }
}
