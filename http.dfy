/** The error an endpoint raises as FastAPI's HTTPException. */
module Http {
  datatype HttpError = HttpError(status: nat, detail: string)
}
