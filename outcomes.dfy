/** Error values for the generator's failure paths.  Every exception the
    generator can raise on bad input becomes one of these, so the model's
    functions are total and report the same failure the generator reports. */
module Outcomes {

  datatype Error =
    | MissingKey(key: string)        // a dict lookup raised KeyError
    | BadTesting(text: string)       // int() on the TESTING cell raised ValueError
    | ValueOverride(name: string)    // a TYPE = VALUE toggle is a column of a profile
    | UnsupportedType(typ: string)   // TYPE is neither VALUE nor OPTION
    | UnsupportedDecl(decl: string)  // DECL base or type tag is unknown
    | EmptyFile                      // the CSV file has no rows (IndexError)
    | EmptyHeader                    // the header row has no cells (IndexError)
    | BadHeader(expected: string)    // the first header cell is not the expected one
    | EmptyRow                       // a profile row has no cells (IndexError)
    | Duplicate(key: string)         // a NAME or CHAR_ID occurs twice

  datatype Result<+T> = Ok(value: T) | Err(error: Error) {
    predicate IsFailure() {
      Err?
    }

    function PropagateFailure<U>(): Result<U>
      requires Err?
    {
      Err(error)
    }

    function Extract(): T
      requires Ok?
    {
      value
    }
  }
}
