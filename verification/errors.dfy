/** The failures the layout writer can report. Message texts are not modelled, only which failure is
    reported and how it is wrapped. */
module Errors {

  /** A failure reported by a collaborator: the file system under the layout or a getter of the entity. */
  datatype Fault =
    | NotExist            // the layout directory does not exist (os.IsNotExist holds of it)
    | NotFound            // the entity has no attachment of the requested name
    | IoError(code: nat)  // any other failure, identified only by an opaque code

  /** The prefix a step of the writer puts in front of an error it passes on. */
  datatype Context =
    | AppendingSignedImage
    | AppendingSignedImageIndex
    | GettingSignatures
    | AppendingSignatures
    | GettingAtts
    | AppendingAtts
    | AppendingAttachments

  /** An error returned by the writer. */
  datatype Error =
    | Collaborator(fault: Fault)               // a collaborator's error, returned unchanged
    | NilReference                             // the reference is nil
    | Wrapped(context: Context, cause: Error)  // the cause, wrapped with a context prefix
    | Bare(context: Context)                   // a context message that drops its cause
}
