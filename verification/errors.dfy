/** The two error-translation tables of the adapter: filesystem error codes met by
    `read` (index.js:236-267) and HTTP statuses reported by the static-file server to
    `serve` (index.js:183-203). Both produce errors of the host platform's closed
    taxonomy. Message texts come from a catalogue that is not part of this model;
    a message is its catalogue key plus the image path it mentions, if any. */
module Errors {
  import opened Wrappers

  /** NotFoundError, BadRequestError, NoPermissionError and the generic GhostError. */
  datatype ErrorKind = NotFound | BadRequest | NoPermission | Internal

  /** errors.errors.imageNotFound, .imageNotFoundWithRef and .cannotReadImage */
  datatype MessageKey = ImageNotFound | ImageNotFoundWithRef | CannotReadImage

  datatype Message = Message(key: MessageKey, img: Option<string>)

  /** A Node.js filesystem error, identified by its `code` ("ENOENT", ...). */
  datatype FsError = FsError(code: string)

  /** An error handed back by the static-file server. */
  datatype HttpError = HttpError(statusCode: int, path: Option<string>)

  /** The underlying error attached as `err`, if any. */
  datatype Cause = NoCause | FsCause(fs: FsError) | HttpCause(http: HttpError)

  /** A domain error as constructed by the adapter: its kind, its explicit message,
      the wrapped cause, and the `code` and `property` fields. */
  datatype DomainError = DomainError(
    kind: ErrorKind,
    message: Option<Message>,
    cause: Cause,
    code: Option<string>,
    property: Option<string>)

  const StaticFileNotFound: string := "STATIC_FILE_NOT_FOUND"

  /** The error `read` rejects with when reading the file at `img` failed. */
  function TranslateReadError(err: FsError, img: string): (e: DomainError)
    ensures e.kind == NotFound <==> err.code == "ENOENT" || err.code == "ENOTDIR"
    ensures e.kind == BadRequest <==> err.code == "ENAMETOOLONG"
    ensures e.kind == NoPermission <==> err.code == "EACCES"
    ensures e.cause == FsCause(err) && e.code.None? && e.property.None?
    ensures e.kind == NotFound ==> e.message == Some(Message(ImageNotFoundWithRef, Some(img)))
    ensures e.kind == Internal ==> e.message == Some(Message(CannotReadImage, Some(img)))
    ensures e.message.Some? <==> e.kind == NotFound || e.kind == Internal
  {
    if err.code == "ENOENT" || err.code == "ENOTDIR" then
      DomainError(NotFound, Some(Message(ImageNotFoundWithRef, Some(img))), FsCause(err), None, None)
    else if err.code == "ENAMETOOLONG" then
      DomainError(BadRequest, None, FsCause(err), None, None)
    else if err.code == "EACCES" then
      DomainError(NoPermission, None, FsCause(err), None, None)
    else
      DomainError(Internal, Some(Message(CannotReadImage, Some(img))), FsCause(err), None, None)
  }

  /** The filesystem codes `read` recognises, as a lookup table. */
  const ReadTable: map<string, ErrorKind> :=
    map["ENOENT" := NotFound, "ENOTDIR" := NotFound, "ENAMETOOLONG" := BadRequest, "EACCES" := NoPermission]

  /** The HTTP statuses `serve` recognises, as a lookup table. */
  const ServeTable: map<int, ErrorKind> :=
    map[404 := NotFound, 400 := BadRequest, 403 := NoPermission]

  function Lookup<K>(table: map<K, ErrorKind>, key: K): ErrorKind
  {
    if key in table then table[key] else Internal
  }

  /** The read translation is total and classifies exactly as the table says:
      every code gets one kind, and unlisted codes are internal errors. */
  lemma ReadTranslationMatchesTable(err: FsError, img: string)
    ensures TranslateReadError(err, img).kind == Lookup(ReadTable, err.code)
    ensures TranslateReadError(err, img).kind == Internal <==> err.code !in ReadTable
  {
  }

  /** The error `serve` passes to `next` for a failure of the static-file server. */
  function TranslateServeError(err: HttpError): (e: DomainError)
    ensures e.kind == NotFound <==> err.statusCode == 404
    ensures e.kind == BadRequest <==> err.statusCode == 400
    ensures e.kind == NoPermission <==> err.statusCode == 403
    ensures e.kind == NotFound ==>
      && e.code == Some(StaticFileNotFound)
      && e.property == err.path
      && e.message == Some(Message(ImageNotFound, None))
      && e.cause == NoCause
    ensures e.kind != NotFound ==>
      e.cause == HttpCause(err) && e.message.None? && e.code.None? && e.property.None?
  {
    if err.statusCode == 404 then
      DomainError(NotFound, Some(Message(ImageNotFound, None)), NoCause, Some(StaticFileNotFound), err.path)
    else if err.statusCode == 400 then
      DomainError(BadRequest, None, HttpCause(err), None, None)
    else if err.statusCode == 403 then
      DomainError(NoPermission, None, HttpCause(err), None, None)
    else
      DomainError(Internal, None, HttpCause(err), None, None)
  }

  /** The serve translation is total and classifies exactly as the table says. */
  lemma ServeTranslationMatchesTable(err: HttpError)
    ensures TranslateServeError(err).kind == Lookup(ServeTable, err.statusCode)
    ensures TranslateServeError(err).kind == Internal <==> err.statusCode !in ServeTable
  {
  }
}
