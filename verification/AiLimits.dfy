/** Provider deadlines and the windows that contain them, in seconds. */
module AiLimits {
  const MIN_RESPONSE_TIMEOUT := 10
  const MAX_RESPONSE_TIMEOUT := 600
  const LOCK_LEASE := MAX_RESPONSE_TIMEOUT + 60
  const STALE_SECONDS := LOCK_LEASE + 60
}
