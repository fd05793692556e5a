/** The exceptions the modelled code can raise, as values. */
module Results {

  datatype Exception =
    | NoSuchElement           // `List.last()` on an empty list
    | IndexOutOfBounds        // `MutableList.removeAt` outside the list
    | IllegalArgument         // `String.repeat` with a negative count
    | StringIndexOutOfBounds  // `String.substring` outside the string

  datatype Result<+T> = Success(value: T) | Failure(error: Exception)
}
