/**
 * The Python exceptions that duniter_ep_check.py dispatches on, as tags.
 * `except C` matches an exception whose class is C or a subclass of C; the
 * predicates below state those subclass relations for the classes involved.
 */
module PyExc {

  datatype ExcClass =
    | WSServerHandshakeError   // aiohttp; a ClientResponseError, hence a ClientError
    | ClientConnectorError     // aiohttp; a ClientOSError, hence a ClientError
    | OtherClientError         // any other aiohttp.ClientError
    | ValueError               // ValueError or a subclass of it
    | Gaierror                 // socket.gaierror
    | TimeoutError             // TimeoutError, which is also asyncio.TimeoutError
    | ValidationError          // jsonschema.ValidationError
    | TypeError
    | MalformedDocumentError   // duniterpy
    | OtherException           // anything no handler names

  /**
   * A raised exception: its class family, `type(e).__name__`, `str(e)` and,
   * for a jsonschema.ValidationError, its `message` attribute.
   */
  datatype Exc = Exc(cls: ExcClass, name: string, text: string, message: string)

  /** `isinstance(e, aiohttp.ClientError)` */
  predicate IsClientError(c: ExcClass)
  {
    c == WSServerHandshakeError || c == ClientConnectorError || c == OtherClientError
  }
}
