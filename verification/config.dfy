/** The start-up configuration check (utils/config.py). The three credentials are read from
    the environment in the source; here they are parameters, None when the variable is unset. */
module Config {
  import opened Wrappers

  const LiveKitError := "Missing LiveKit credentials (LIVEKIT_API_KEY, LIVEKIT_API_SECRET)"
  const GoogleError := "Missing Google API Key (GOOGLE_API_KEY)"

  /** Python truthiness of an optional string: set and not empty. */
  predicate Present(v: Option<string>) {
    v.Some? && |v.value| > 0
  }

  function ValidateConfig(liveKitKey: Option<string>, liveKitSecret: Option<string>,
                          googleKey: Option<string>): (errors: seq<string>)
    ensures errors == [] <==> Present(liveKitKey) && Present(liveKitSecret) && Present(googleKey)
    ensures |errors| <= 2
    ensures forall e :: e in errors ==> e == LiveKitError || e == GoogleError
    ensures multiset(errors)[LiveKitError] == (if Present(liveKitKey) && Present(liveKitSecret) then 0 else 1)
    ensures multiset(errors)[GoogleError] == (if Present(googleKey) then 0 else 1)
    ensures |errors| == 2 ==> errors[0] == LiveKitError && errors[1] == GoogleError
  {
    var liveKit := if !Present(liveKitKey) || !Present(liveKitSecret) then [LiveKitError] else [];
    var google := if !Present(googleKey) then [GoogleError] else [];
    liveKit + google
  }
}
