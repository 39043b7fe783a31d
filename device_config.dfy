/**
 * The two field validators of `MieleDeviceConfig` (asyncmiele/models/device_config.py):
 * the device id must match `^[0-9]{12}$` under Python's `re.match`, and the host must
 * have at least three characters. Both return the value unchanged when it passes.
 */
module DeviceConfig {
  import opened Wrappers
  import opened Text

  /** The pydantic ValueError raised by a validator, with its message. */
  datatype ValidationError = ValueError(message: string)

  const DeviceIdLength := 12
  const MinHostLength := 3

  /**
   * Python's `$` without MULTILINE: the end of the string, or just before a newline that
   * is the last character.
   */
  predicate AtEnd(s: string, i: nat) {
    i == |s| || (i + 1 == |s| && s[i] == '\n')
  }

  /** `DEVICE_ID_PATTERN.match(s)`: twelve ASCII digits from the start, then `$`. */
  predicate MatchesDeviceIdPattern(s: string) {
    DeviceIdLength <= |s| && AllDigits(s[..DeviceIdLength]) && AtEnd(s, DeviceIdLength)
  }

  /** `validate_device_id`. */
  function ValidateDeviceId(v: string): (r: Result<string, ValidationError>)
    ensures r.Ok? <==>
      (|v| == 12 && AllDigits(v)) || (|v| == 13 && AllDigits(v[..12]) && v[12] == '\n')
    ensures r.Ok? ==> r.value == v
    ensures r.Err? ==> r.error == ValueError("Device ID must be a 12-digit string")
  {
    if !MatchesDeviceIdPattern(v) then Err(ValueError("Device ID must be a 12-digit string"))
    else Ok(v)
  }

  /** `validate_host`: the empty host and any host shorter than three characters fail. */
  function ValidateHost(v: string): (r: Result<string, ValidationError>)
    ensures r.Ok? <==> |v| >= 3
    ensures r.Ok? ==> r.value == v
    ensures r.Err? ==> r.error == ValueError("Host must be a valid IP address or hostname")
  {
    if v == "" || |v| < MinHostLength then Err(ValueError("Host must be a valid IP address or hostname"))
    else Ok(v)
  }

  /** Examples: a plain id, the trailing-newline quirk, and ids the pattern refuses. */
  lemma DeviceIdExamples()
    ensures ValidateDeviceId("000123456789") == Ok("000123456789")
    ensures ValidateDeviceId("000123456789\n").Ok?
    ensures ValidateDeviceId("000123456789\n\n").Err?
    ensures ValidateDeviceId("00012345678").Err?
    ensures ValidateDeviceId("00012345678a").Err?
    ensures ValidateHost("").Err? && ValidateHost("ab").Err? && ValidateHost("abc") == Ok("abc")
  {
    assert !IsDigit("00012345678a"[11]);
  }
}
