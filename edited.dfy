/**
 * The acceptance rules of the "edit data" dialogs. The JSON text itself is
 * parsed by `JSON.parse`, which is not part of this model: its outcome is given
 * as an `Edited` value.
 */
module EditedData {
  import opened Wrappers

  /** What `JSON.parse` made of the editor's text, as far as the save handlers look at it. */
  datatype Edited<T> =
    | Unparsable                              // JSON.parse threw
    | Null                                    // the text was `null`
    | Array(elements: seq<T>)                 // Array.isArray holds
    | NonArray(categories: Option<seq<T>>)    // any other value; Some(c) when its `categories` is the array c

  /** The two alerts: "Invalid JSON" (an exception) and "Invalid format". */
  datatype EditError = InvalidJson | InvalidFormat

  /**
   * The colors and icons rule: a bare array is the categories list, an object with
   * a `categories` list supplies it, anything else is refused. For `null`,
   * reading `newData.categories` throws, and the handler reports invalid JSON.
   */
  function AcceptCategories<T>(e: Edited<T>): (r: Result<seq<T>, EditError>)
    ensures r.Success? <==> e.Array? || (e.NonArray? && e.categories.Some?)
    ensures e.Array? ==> r == Success(e.elements)
    ensures e.NonArray? && e.categories.Some? ==> r == Success(e.categories.value)
    ensures r.Failure? ==> (r.error == InvalidJson <==> e.Unparsable? || e.Null?)
  {
    match e
    case Unparsable => Failure(InvalidJson)
    case Null => Failure(InvalidJson)
    case Array(cats) => Success(cats)
    case NonArray(field) => if field.Some? then Success(field.value) else Failure(InvalidFormat)
  }

  /**
   * The letters rule: only a bare array of letters is accepted; an object, even
   * one wrapping the letters, and `null` are refused as invalid format.
   */
  function AcceptLetters<T>(e: Edited<T>): (r: Result<seq<T>, EditError>)
    ensures r.Success? <==> e.Array?
    ensures e.Array? ==> r == Success(e.elements)
    ensures r.Failure? ==> (r.error == InvalidJson <==> e.Unparsable?)
  {
    match e
    case Unparsable => Failure(InvalidJson)
    case Array(letters) => Success(letters)
    case _ => Failure(InvalidFormat)
  }
}
