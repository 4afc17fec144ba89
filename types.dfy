/**
 * Shared value types: an optional value, a success-or-error result, and the
 * contact record (`EmailResult`) the generator returns and the page exports.
 */
module Types {

  datatype Option<+T> = None | Some(value: T)

  datatype Result<+T, +E> = Success(value: T) | Failure(error: E)

  /** One generated contact: six text fields, in the order the export writes them. */
  datatype EmailResult = EmailResult(
    firstName: string,
    lastName: string,
    jobTitle: string,
    emailAddress: string,
    companyName: string,
    context: string)
}
