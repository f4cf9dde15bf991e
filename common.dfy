/**
 * Failure-carrying datatypes shared by the whole model, and the
 * errors that the JSON library throws as .NET exceptions.
 */
module Common {

  datatype Option<+T> = None | Some(value: T)

  datatype Result<+T, +E> = Ok(value: T) | Err(error: E) {
    predicate IsFailure() { Err? }
    function PropagateFailure<U>(): Result<U, E>
      requires Err?
    {
      Err(error)
    }
    function Extract(): T
      requires Ok?
    {
      value
    }
  }

  /** The exceptions of the JSON library, one constructor per kind of failure. */
  datatype JsonError =
    | InsertError            // UpdateNode: the current node is not a container
    | KeyIsNotString         // DictionaryNode.AddKeyOrValue: a value arrived with no pending key
    | NoPendingKey           // DictionaryNode.AddWithKeyFromCache: the key cache is empty
    | ListDataMissing        // ListNode.Add / ToString: Data is not a list
    | StructureEnding        // FormatException "Structure ending incorrect."
    | ConstantMismatch(value: string, validValue: string)  // ValidateConstantValue
    | OutOfRange             // StringBuilder.ToString(start, length) past the end
    | NoEnding               // GetRightIndex: no ending character found
    | NumberFormat(token: string)  // double.Parse rejects the token

  /** Environment.NewLine on the platform the model assumes. */
  const NewLine: string := "\n"
}
