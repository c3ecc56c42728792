/** What a decrypted vault holds.  JSON and age are abstract here: a complete ciphertext
    carries exactly one of these values and decrypting it gives that value back. */
module VaultData {
  type Time = int

  datatype Secret = Secret(value: string, updated: Time)

  type Secrets = map<string, Secret>

  datatype Contents = Contents(fpkey: string, secrets: Secrets)

  /** A vault as `New` creates it: any fingerprint key, no secrets. */
  predicate IsNew(c: Contents) {
    c.secrets == map[]
  }
}
