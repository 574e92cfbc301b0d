/** The observable side effects of the cache-backed operations, in order:
    cache calls, reads of the user and token collections, provider calls. */
module Effects {
  import opened ObjectIds
  import opened Fetch

  datatype Effect =
    | CacheGet(key: string)
    | CacheSet(key: string)
    | CacheDelete(key: string)
    | UserLookup(field: string, value: string)
    | TokensRead(userId: ObjectId)
    | ProviderCalled(call: ProviderCall)

  /** The effect touches neither the collections nor the provider. */
  predicate CacheOnly(e: Effect)
  {
    e.CacheGet? || e.CacheSet? || e.CacheDelete?
  }
}
