/** The one HTTP notion both sides of the application test. */
module Http {

  /** `response.ok`: the status is in the 2xx range. */
  predicate IsOk(status: int) {
    200 <= status <= 299
  }
}
