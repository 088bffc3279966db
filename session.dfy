/** The NextAuth session as the API routes see it: only the signed-in user's
    id matters, and it may be missing. */
module Session {
  import opened Wrappers

  /** `session?.user?.id` is truthy: an id is present and is not the empty
      string. */
  predicate SignedIn(userId: Option<string>)
  {
    userId.Some? && userId.value != ""
  }
}
