/** The login response body and its two factories. */
module LoginResponses {
  import opened Wrappers

  /** The status constants of the application's constants class. Only their
      names matter to the properties below. */
  const STATUS_200 := "200"
  const MESSAGE_200_LOGIN_SUCCESS := "Login successful."

  /** The response; `None` is a field left null. */
  datatype LoginResponseDto = LoginResponseDto(
    statusCode: string,
    statusMessage: string,
    accessToken: Option<string>,
    refreshToken: Option<string>,
    userId: Option<int>)

  /** The response carries the issued tokens and the user's id. */
  predicate CarriesTokens(r: LoginResponseDto) {
    r.accessToken.Some? && r.refreshToken.Some? && r.userId.Some?
  }

  /** `success`: status 200 with the login-success message, carrying exactly
      the given tokens and user id. */
  function Success(accessToken: string, refreshToken: string, userId: int): (r: LoginResponseDto)
    ensures r.statusCode == STATUS_200 && r.statusMessage == MESSAGE_200_LOGIN_SUCCESS
    ensures CarriesTokens(r)
    ensures r.accessToken.value == accessToken && r.refreshToken.value == refreshToken
    ensures r.userId.value == userId
  {
    LoginResponseDto(STATUS_200, MESSAGE_200_LOGIN_SUCCESS, Some(accessToken), Some(refreshToken), Some(userId))
  }

  /** `error`: the given status code and message unchanged, and no tokens or id. */
  function Error(statusCode: string, statusMessage: string): (r: LoginResponseDto)
    ensures r.statusCode == statusCode && r.statusMessage == statusMessage
    ensures r.accessToken.None? && r.refreshToken.None? && r.userId.None?
  {
    LoginResponseDto(statusCode, statusMessage, None, None, None)
  }

  /** No error response can be mistaken for a success, whatever its status. */
  lemma ErrorIsNeverSuccess(statusCode: string, statusMessage: string,
                            accessToken: string, refreshToken: string, userId: int)
    ensures !CarriesTokens(Error(statusCode, statusMessage))
    ensures Error(statusCode, statusMessage) != Success(accessToken, refreshToken, userId)
  {
  }
}
