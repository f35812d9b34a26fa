/** Outcomes of the HTTP handlers: a JSON body with status 200, or an error
    status with the fixed error string the handler puts in its JSON body. */
module Http {

  datatype Option<+T> = None | Some(value: T)

  /** The id of a session's user. */
  type UserId = string

  /** `Ok` is a 200 response carrying `value`; `Fail` is `c.json({ error }, status)`. */
  datatype Reply<+T> = Ok(value: T) | Fail(status: nat, error: string)

  const BadRequest: nat := 400
  const Unauthorized: nat := 401
  const NotFound: nat := 404
  const ServerError: nat := 500

  const UnauthorizedError := "Unauthorized"
  const ConversationNotFoundError := "Conversation not found or unauthorized"
  const GenerateFailedError := "Failed to generate response"
  const MissingProjectError := "Missing projectId"
  const NoFilesError := "No files to upload"
  const UploadFailedError := "Upload failed"
  /** The request-body validator answers 400 with its own issue list; the model
      keeps only the status and this placeholder for the body. */
  const InvalidBodyError := "Invalid request body"
}
