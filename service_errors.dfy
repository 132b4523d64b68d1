/**
 * The error translation every service method applies: the repository's
 * result passes through, and any thrown value is replaced by one fixed
 * per-operation message.
 */
module ServiceErrors {
  import opened JsValue

  /** The message of the guard on an empty identifier; callers never see it. */
  const IdentifierRequired: string := "Identifier is required"

  /** `try { return await op } catch { throw new Error(message) }`. */
  function Translated<T>(r: Result<T>, message: string): (t: Result<T>)
    ensures r.Ok? ==> t == r
    ensures t.Err? ==> t.thrown == Error(message)
    ensures t.Ok? <==> r.Ok?
  {
    if r.Ok? then r else Err(Error(message))
  }

  /**
   * A guard that throws inside the `try`: an empty identifier raises
   * "Identifier is required", which the `catch` replaces by the operation's
   * message; otherwise the lookup's result is translated.
   */
  function Guarded<T>(identifier: string, lookup: Result<T>, message: string): (t: Result<T>)
    ensures identifier == "" ==> t == Err(Error(message))
    ensures identifier != "" ==> t == Translated(lookup, message)
  {
    Translated(if identifier == "" then Err(Error(IdentifierRequired)) else lookup, message)
  }
}
