/** The language fallback applied to the profile the client fetches. */
module UserSlice {

  /** The profile record the client keeps. */
  datatype ClientProfile = ClientProfile(id: string, email: string, name: string, lang: string)

  /** The codes of the interface languages the client ships. */
  const LANG_CODES: seq<string> := ["en", "zh"]

  /** The language used when neither the profile nor the current interface names a supported one. */
  const FALLBACK_LANG: string := "zh"

  /**
   * `getProfile.transformResponse`: keep a stored language; otherwise adopt
   * the current interface language when it is supported, else the fallback.
   */
  function TransformProfile(response: ClientProfile, currentLanguage: string): (r: ClientProfile)
    ensures r.id == response.id && r.email == response.email && r.name == response.name
    ensures response.lang != "" ==> r == response
    ensures response.lang == "" && currentLanguage in LANG_CODES ==> r.lang == currentLanguage
    ensures response.lang == "" && currentLanguage !in LANG_CODES ==> r.lang == FALLBACK_LANG
  {
    if response.lang != "" then response
    else if currentLanguage in LANG_CODES then response.(lang := currentLanguage)
    else response.(lang := FALLBACK_LANG)
  }

  /** The language after the transform is never empty, and it is a supported code whenever it was filled in. */
  lemma TransformedLangNonEmpty(response: ClientProfile, currentLanguage: string)
    ensures TransformProfile(response, currentLanguage).lang != ""
    ensures response.lang == "" ==> TransformProfile(response, currentLanguage).lang in LANG_CODES
  {
  }

  /** The transform is idempotent: a transformed profile passes through unchanged. */
  lemma TransformIdempotent(response: ClientProfile, currentLanguage: string, laterLanguage: string)
    ensures TransformProfile(TransformProfile(response, currentLanguage), laterLanguage)
      == TransformProfile(response, currentLanguage)
  {
    TransformedLangNonEmpty(response, currentLanguage);
  }
}
