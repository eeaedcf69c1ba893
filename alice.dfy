/** The parts of the voice platform's webhook request and response that the handler
    reads or writes. Fields the handler never touches (meta, nlu, state, tts, buttons, ...)
    are not represented. A field that JSON may omit is an `Option`. */
module Alice {
  import opened Optional

  /** `session.user`: present for a user signed in to the platform. */
  datatype UserInfo = UserInfo(userId: Option<string>, accessToken: Option<string>)

  datatype Session = Session(
    sessionId: string,
    messageId: int,
    userId: Option<string>,
    user: Option<UserInfo>)

  /** `request.command` and `request.original_utterance`; an omitted one reads as `""`,
      which behaves the same under `||`. */
  datatype Utterance = Utterance(command: string, originalUtterance: string)

  datatype AliceRequest = AliceRequest(version: string, session: Session, request: Utterance)

  datatype ResponseSession = ResponseSession(sessionId: string, messageId: int, userId: Option<string>)

  /** A speech answer, or the `start_account_linking: {}` directive. */
  datatype ResponseBody =
    | Speech(text: string, endSession: bool)
    | StartAccountLinking

  datatype AliceResponse = AliceResponse(version: string, session: ResponseSession, body: ResponseBody)
}
