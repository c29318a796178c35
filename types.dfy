/** The shared records of the application (types.ts). */
module Types {

  /** The phase of the simplification request shown by the page. */
  datatype TranslationStatus = Idle | Loading | Success | Error

  /** A successful simplification: the validated text sent, the plain-language
      rewrite and the extracted key points. */
  datatype SimplificationResponse = SimplificationResponse(
    original: string,
    simplified: string,
    keyPoints: seq<string>)
}
