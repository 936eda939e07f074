/** Shared constants of the security layer (config.py). */
module Config {

  /** Key given to HMAC-SHA256 by both the signer and the logger's verifier. */
  const SecretKey: string := "Drive_Secure"

  /** Largest accepted age of a message, in seconds. */
  const TimestampWindow: real := 10.0
}
