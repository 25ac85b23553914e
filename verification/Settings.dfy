/** The limits on a query that every layer reads from one place. */
module Settings {

  const DEFAULT_QUERY_LIMIT: int := 50

  type Ceiling = n: int | n >= 1 witness 1

  /** The ceiling on `limit`: 1000, or the whole number the environment sets. What is proved holds for each. */
  const MAX_QUERY_LIMIT: Ceiling
}
