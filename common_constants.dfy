/** The string constants shared by the key builder. */
module CommonConstants {

  /** What `sanitize` returns for a null input. */
  const DefaultUserKey: string := "unknown"

  /** What `sanitize` puts in place of every character it refuses. */
  const Replacement: char := '_'

  const UserRedisBaseKey: string := "rate_limit:user:"
  const GlobalRedisBaseKey: string := "rate_limit:global:"

  /** The characters the sanitizer keeps: the class [a-zA-Z0-9_:.-]
      (its regular expression replaces the complement of this class). */
  predicate IsKeySafe(c: char)
  {
    || 'a' <= c <= 'z'
    || 'A' <= c <= 'Z'
    || '0' <= c <= '9'
    || c == '_' || c == ':' || c == '.' || c == '-'
  }
}
