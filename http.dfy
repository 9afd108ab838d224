/** The error replies of the HTTP routes. */
module Http {
  /** An `HTTPException`: status code and detail text. */
  datatype HttpError = HttpError(status: int, detail: string)

  const NotFoundError := HttpError(404, "URL not found")
}
