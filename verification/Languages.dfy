/** The speech-recognition language table and the lookup that picks the code
    handed to the transcription service. */
module Languages {

  /** Display name to BCP 47 language tag, as offered by the language selector. */
  const Codes: map<string, string> := map[
    "English" := "en-US",
    "French" := "fr-FR",
    "Spanish" := "es-ES",
    "German" := "de-DE",
    "Chinese (Mandarin)" := "zh-CN",
    "Japanese" := "ja-JP",
    "Korean" := "ko-KR",
    "Italian" := "it-IT",
    "Portuguese" := "pt-BR",
    "Russian" := "ru-RU",
    "Arabic" := "ar-SA",
    "Hindi" := "hi-IN"
  ]

  /** The fallback code used for a name the table does not know. */
  const DefaultCode := "en-US"

  /** `LANGUAGES.get(selected_language, "en-US")`. */
  function CodeFor(language: string): (code: string)
    ensures language in Codes ==> code == Codes[language]
    ensures language !in Codes ==> code == Codes["English"]
    ensures code in Codes.Values
  {
    assert Codes["English"] == DefaultCode;
    if language in Codes then Codes[language] else DefaultCode
  }
}
