/** The error responses the server's handlers end in, and results that carry them. */
module Http {

  /**
   * 404 from `HTTPException(status_code=404)`, 422 from FastAPI's validation of the declared
   * parameter bounds, 500 from an exception the handler does not catch.
   */
  datatype Error = NotFound | Unprocessable | InternalError

  datatype Result<T> = Ok(value: T) | Err(error: Error)
}
