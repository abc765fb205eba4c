/**
 * Request bodies, with every field optional, and the validation that each
 * route performs before it touches the store.
 */
module Requests {
  import opened Wrappers

  /** JavaScript truthiness of a string field: `!x` holds for a missing, null or empty field. */
  predicate Truthy(field: Option<string>) {
    field.Some? && field.value != ""
  }

  datatype SignupRequest = SignupRequest(name: Option<string>, email: Option<string>, password: Option<string>)
  datatype LoginRequest = LoginRequest(email: Option<string>, password: Option<string>)
  datatype ForgotRequest = ForgotRequest(email: Option<string>)
  datatype ResetRequest = ResetRequest(token: Option<string>, newPassword: Option<string>)

  /** The body of `POST /registerIpo`; every column of `ipo_info` but `id`. */
  datatype IpoRequest = IpoRequest(
    companyName: Option<string>, priceBand: Option<string>,
    openDate: Option<string>, closeDate: Option<string>,
    issueSize: Option<string>, issueType: Option<string>,
    listingDate: Option<string>, status: Option<string>,
    ipoPrice: Option<string>, listingPrice: Option<string>,
    listingGain: Option<int>, listedDate: Option<string>,
    currentMarketPrice: Option<string>, currentReturn: Option<string>,
    rhpLink: Option<string>, drhpLink: Option<string>)

  predicate SignupComplete(r: SignupRequest) {
    Truthy(r.name) && Truthy(r.email) && Truthy(r.password)
  }

  predicate LoginComplete(r: LoginRequest) {
    Truthy(r.email) && Truthy(r.password)
  }

  predicate ForgotComplete(r: ForgotRequest) {
    Truthy(r.email)
  }

  predicate ResetComplete(r: ResetRequest) {
    Truthy(r.token) && Truthy(r.newPassword)
  }

  /** The five fields that registration insists on; the other eleven may be missing. */
  predicate IpoComplete(r: IpoRequest) {
    && Truthy(r.companyName) && Truthy(r.priceBand) && Truthy(r.issueSize)
    && Truthy(r.issueType) && Truthy(r.status)
  }
}
