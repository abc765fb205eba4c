/** The JSON responses of the routes: a status code, the `success` flag, an optional message and a payload. */
module Http {
  import opened Wrappers
  import Users
  import Ipos

  datatype Body =
    | NoBody
    | UserBody(user: Users.Summary)                          // login
    | TokenBody(debugToken: string)                          // forgot-password
    | IpoIdBody(ipoId: nat)                                  // IPO registration
    | IpoRows(data: seq<Ipos.Ipo>)                           // IPO listing
    | StatsBody(totalIpo: nat, gainIpo: nat, lossIpo: nat)   // IPO statistics

  datatype Response = Response(status: nat, success: bool, message: Option<string>, body: Body)

  function Failure(status: nat, message: string): (r: Response)
    requires 400 <= status
    ensures !r.success && r.body == NoBody
  {
    Response(status, false, Some(message), NoBody)
  }

  function Success(status: nat, message: string, body: Body): (r: Response)
    requires status < 400
    ensures r.success
  {
    Response(status, true, Some(message), body)
  }

  /** The `success` flag agrees with the status code. */
  predicate Consistent(r: Response) {
    r.success <==> r.status < 400
  }

  const ALL_FIELDS_REQUIRED := "All fields are required"
  const USER_CREATED := "User created successfully"
  const SIGNUP_STORE_ERROR := "Error inserting data into database"

  const IPO_FIELDS_MISSING := "Missing required IPO fields"
  const IPO_REGISTERED := "IPO Registered Successfully"
  const IPO_REGISTER_ERROR := "Failed to register IPO"
  const NO_IPOS := "No IPOs found"
  const IPO_LIST_ERROR := "Failed to retrieve IPO details"
  const IPO_NOT_FOUND := "IPO not found"
  const IPO_DELETED := "IPO deleted successfully"
  const IPO_DELETE_ERROR := "Failed to delete IPO"
  const IPO_STATS_ERROR := "Failed to retrieve IPO statistics"

  const INVALID_CREDENTIALS := "Invalid email or password"
  const LOGIN_OK := "Login successful"
  const LOGIN_ERROR := "Internal server error"

  const EMAIL_REQUIRED := "Email is required"
  const USER_NOT_FOUND := "User not found"
  const RESET_LINK_SENT := "Password reset link has been sent to your email"
  const FORGOT_ERROR := "Error processing password reset request"

  const RESET_FIELDS_REQUIRED := "Token and new password are required"
  const INVALID_TOKEN := "Invalid or expired reset token"
  const PASSWORD_RESET := "Password has been reset successfully"
  const RESET_ERROR := "Error resetting password"
}
