/** Deployment configuration of the request-admission core (constants.ts). */
module Constants {

  /** Bounds on the length of the text submitted for simplification. */
  const MIN_INPUT_LENGTH: nat := 10
  const MAX_INPUT_LENGTH: nat := 3000

  /** The sliding window of the rate limiter: at most MAX_REQUESTS_PER_WINDOW
      admissions within any RATE_LIMIT_WINDOW_MS milliseconds. */
  const RATE_LIMIT_WINDOW_MS: nat := 60000
  const MAX_REQUESTS_PER_WINDOW: nat := 5
}
