/** Limits used by the server's request handlers. */
module ServerConfig {
  const NAME_LENGTH_LIMIT: nat := 20
  const DESCRIPTION_LENGTH_LIMIT: nat := 300
  const MESSAGE_LENGTH_LIMIT: nat := 5000
  const LETTER_LENGTH_LIMIT: nat := 5000
  // The server imports the next two from its configuration without defining
  // them; the values are the client's.
  const MAX_GROUPS_PER_USER: nat := 10
  const MAX_TOTAL_MEMBERS: nat := 250
}

/** Limits used by the web client. */
module WebConfig {
  const NAME_LENGTH_LIMIT: nat := 20
  const DESCRIPTION_LENGTH_LIMIT: nat := 300
  const MESSAGE_LENGTH_LIMIT: nat := 25000
  const LETTER_LENGTH_LIMIT: nat := 25000
  const MAX_GROUPS_PER_USER: nat := 10
  const MAX_TOTAL_MEMBERS: nat := 250
}
